/** One upstream HTTP/2 connection's lifecycle, and the gate every dispatch
    passes through. All methods run under the generation's lock. */
module GenerationControl {
  import opened Bytes

  datatype Life = Proving | LiveDisabled | LiveEnabled | Revoked | Retiring | Closed
  {
    function Rank(): nat {
      match this
      case Proving => 0
      case LiveDisabled => 1
      case LiveEnabled => 1
      case Revoked => 2
      case Retiring => 3
      case Closed => 4
    }
  }

  datatype DispatchKind = Ordinary | ExtendedConnect

  datatype Control = Control(life: Life, selectable: bool, retirement: bool)

  const NEW_CONTROL := Control(Proving, false, false)

  function Install(c: Control, enabled: bool): Option<Control> {
    if c.life != Proving then None
    else Some(c.(life := if enabled then LiveEnabled else LiveDisabled, selectable := true))
  }

  function Revoke(c: Control): Control {
    if c.life == LiveEnabled then Control(Revoked, false, true) else c
  }

  predicate Permits(life: Life, kind: DispatchKind) {
    life == LiveEnabled || (life == LiveDisabled && kind == Ordinary)
  }

  function Retire(c: Control): Control {
    c.(selectable := false, life := if c.life == Closed then Closed else Retiring)
  }

  function Close(c: Control): Control {
    c.(selectable := false, life := Closed)
  }

  class GenerationControl {
    const id: nat
    var selectable: bool
    var state: Life
    var retirement: bool

    function View(): Control
      reads this
    {
      Control(state, selectable, retirement)
    }

    constructor (id: nat)
      ensures this.id == id && View() == NEW_CONTROL
    {
      this.id := id;
      selectable, state, retirement := false, Proving, false;
    }

    method InstallInitial(enabled: bool) returns (ok: bool)
      modifies this
      ensures Some(View()) == if ok then Install(old(View()), enabled) else Some(old(View()))
      ensures ok == Install(old(View()), enabled).Some?
    {
      if state != Proving { return false; }
      state := if enabled then LiveEnabled else LiveDisabled;
      selectable, ok := true, true;
    }

    method RevokeIfEnabled()
      modifies this
      ensures View() == Revoke(old(View()))
    {
      if state == LiveEnabled {
        state, selectable, retirement := Revoked, false, true;
      }
    }

    method InitialStateMatches(extendedConnect: bool) returns (matches: bool)
      ensures matches <==> Install(NEW_CONTROL, extendedConnect).value.life == state
    {
      matches := if extendedConnect then state == LiveEnabled else state == LiveDisabled;
    }

    /** Admits or refuses one dispatch and leaves the state alone. */
    method LinearizeDispatch(kind: DispatchKind) returns (enqueued: bool)
      ensures enqueued == Permits(state, kind)
    {
      enqueued := match (state, kind)
        case (LiveDisabled, Ordinary) => true
        case (LiveEnabled, _) => true
        case _ => false;
    }

    method MarkRetiring()
      modifies this
      ensures View() == Retire(old(View()))
    {
      selectable := false;
      if state != Closed { state := Retiring; }
    }

    method MarkClosed()
      modifies this
      ensures View() == Close(old(View()))
    {
      selectable, state := false, Closed;
    }
  }
}
