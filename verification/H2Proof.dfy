/** The SETTINGS proof of one upstream HTTP/2 connection: both readers, the
    published status and the generation control they act on. */
module H2Proof {
  import opened Bytes
  import opened H2Frames
  import S = ServerScanner
  import A = ClientAck
  import G = GenerationControl

  datatype Status = Pending | Ready(settings: Initial) | Failed

  /** `ack` is None once the client reader has refused a byte. */
  datatype Gate = Gate(scan: S.Scan, ack: Option<A.Ack>, status: Status, control: G.Control, dropped: bool)
  {
    predicate Valid() { scan.Valid() && (ack.Some? ==> ack.value.Valid()) && (ack.None? ==> status == Failed) }
  }

  const NEW_GATE := Gate(S.FRESH, Some(A.FRESH), Pending, G.NEW_CONTROL, false)

  function ProofStatus(g: Gate): Status {
    if g.ack.Some? && g.ack.value.seen && g.scan.settings.Some? then Ready(g.scan.settings.value) else Pending
  }

  function Publish(g: Gate, status: Status): Gate {
    if status != Pending && g.status == Pending then g.(status := status) else g
  }

  /** What an inbound fragment asks for, computed under the parser lock. */
  datatype Notice = Notice(status: Status, initial: Option<Initial>, revoke: bool)

  function Scanned(g: Gate, bytes: seq<byte>): (r: (Gate, Notice))
    requires g.Valid()
    ensures r.0.Valid()
  {
    var f := S.Run(S.Start(g.scan), bytes);
    var g' := g.(scan := f.scan);
    (g', if f.failed then Notice(Failed, None, false) else Notice(ProofStatus(g'), f.initial, f.revoke))
  }

  /** Installs announced initial settings; None when that is refused. */
  function Installed(g: Gate, n: Notice): Option<Gate> {
    if n.initial.None? then Some(g) else
    var c := G.Install(g.control, n.initial.value.extendedConnect);
    if c.None? then None else Some(g.(control := c.value))
  }

  function Withdrawn(g: Gate, n: Notice): Gate {
    if n.revoke then g.(control := G.Revoke(g.control)) else g
  }

  /** The whole of `observe_inbound`, uninterrupted. */
  function Inbound(g: Gate, bytes: seq<byte>): Gate
    requires g.Valid()
  {
    var (g', n) := Scanned(g, bytes);
    Noticed(g', n)
  }

  function Noticed(g: Gate, n: Notice): Gate {
    var installed := Installed(g, n);
    if installed.None? then g.(status := Failed) else Publish(Withdrawn(installed.value, n), n.status)
  }

  function Outbound(g: Gate, bytes: seq<byte>): (r: Gate)
    requires g.Valid()
    ensures r.Valid()
  {
    if g.status != Pending then g else
    var a := A.Run(g.ack.value, bytes);
    if a.None? then g.(ack := None, status := Failed)
    else var g' := g.(ack := a); Publish(g', ProofStatus(g'))
  }

  function DroppedTransport(g: Gate): Gate {
    g.(dropped := true, status := if g.status == Pending then Failed else g.status)
  }

  /** Nothing is waiting to be published. */
  predicate Settled(g: Gate) {
    g.Valid() && (g.status == Pending ==> ProofStatus(g) == Pending)
  }

  lemma OutboundSplit(g: Gate, x: seq<byte>, y: seq<byte>)
    requires Settled(g)
    ensures Settled(Outbound(g, x)) && Outbound(g, x + y) == Outbound(Outbound(g, x), y)
  {
    hide A.Run, A.Step;
    if g.status == Pending {
      A.RunSplit(g.ack.value, x, y);
      var a := A.Run(g.ack.value, x);
      if a.Some? && a.value.seen { A.SeenStays(a.value, y); }
    }
  }

  class H2ProofState {
    const inbound: S.ServerFrameScanner
    const outbound: A.ClientAckParser
    var status: Status
    var transportDropped: bool
    const control: G.GenerationControl
    ghost var ackRefused: bool

    ghost const Repr: set<object> := {this, inbound, inbound.header, inbound.pair, outbound, outbound.header, control}

    ghost predicate Valid()
      reads Repr
    {
      && inbound.Valid() && (ackRefused ==> status == Failed && !outbound.ackSeen) && (!ackRefused ==> outbound.Valid())
      && inbound.header != outbound.header && inbound.pair != outbound.header
    }

    ghost function View(): Gate
      reads Repr
      requires Valid()
    {
      Gate(inbound.View(), if ackRefused then None else Some(outbound.View()), status, control.View(), transportDropped)
    }

    constructor (control: G.GenerationControl)
      ensures Valid() && this.control == control && fresh(Repr - {control})
      ensures View() == NEW_GATE.(control := control.View())
    {
      inbound := new S.ServerFrameScanner();
      outbound := new A.ClientAckParser();
      this.control := control;
      status, transportDropped, ackRefused := Pending, false, false;
    }

    method ObserveInbound(bytes: seq<byte>)
      requires Valid()
      modifies Repr
      ensures Valid() && View() == Inbound(old(View()), bytes)
    {
      hide S.Run, A.Run;
      var r := inbound.Feed(bytes);
      var notice := Notice(Failed, None, false);
      if r.Ok? {
        var status := CurrentProof();
        notice := Notice(status, r.value.0, r.value.1);
      }
      Notify(notice);
    }

    /** What follows once the parser lock is released. */
    method Notify(notice: Notice)
      requires Valid()
      modifies this, control
      ensures Valid() && View() == Noticed(old(View()), notice)
    {
      if notice.initial.Some? {
        var ok := control.InstallInitial(notice.initial.value.extendedConnect);
        if !ok {
          status := Failed;
          return;
        }
      }
      if notice.revoke { control.RevokeIfEnabled(); }
      PublishStatus(notice.status);
    }

    method CurrentProof() returns (s: Status)
      requires Valid()
      ensures s == ProofStatus(View())
    {
      s := if outbound.ackSeen && inbound.settings.Some? then Ready(inbound.settings.value) else Pending;
    }

    method PublishStatus(s: Status)
      requires Valid()
      modifies this`status
      ensures Valid() && View() == Publish(old(View()), s)
    {
      if s != Pending && status == Pending { status := s; }
    }

    method ObserveOutbound(bytes: seq<byte>)
      requires Valid()
      modifies Repr
      ensures Valid() && View() == Outbound(old(View()), bytes)
    {
      hide S.Run, A.Run;
      if status != Pending { return; }
      var ok := outbound.Feed(bytes);
      if ok {
        var s := CurrentProof();
        PublishStatus(s);
      } else {
        ackRefused, status := true, Failed;
      }
    }

    /** A partial vectored write is observed as the first `accepted` bytes of
        the concatenated buffers. */
    method ObserveOutboundVectored(bufs: seq<seq<byte>>, accepted: nat)
      requires Valid() && Settled(View()) && accepted <= |Flatten(bufs)|
      modifies Repr
      ensures Valid() && View() == Outbound(old(View()), Flatten(bufs)[..accepted])
    {
      hide S.Run, A.Run, Outbound;
      var left: nat, i: nat := accepted, 0;
      ghost var goal := Outbound(View(), Flatten(bufs)[..accepted]);
      assert bufs[0..] == bufs;
      while i < |bufs| && left != 0
        invariant i <= |bufs| && Valid() && Settled(View())
        invariant left <= |Flatten(bufs[i..])| && goal == Outbound(View(), Flatten(bufs[i..])[..left])
      {
        var consumed := Min(left, |bufs[i]|);
        ghost var more := Flatten(bufs[i + 1..]);
        assert Flatten(bufs[i..]) == bufs[i] + more by { assert bufs[i..][1..] == bufs[i + 1..]; }
        assert Flatten(bufs[i..])[..left] == bufs[i][..consumed] + more[..left - consumed];
        OutboundSplit(View(), bufs[i][..consumed], more[..left - consumed]);
        ObserveOutbound(bufs[i][..consumed]);
        left, i := left - consumed, i + 1;
      }
      assert left == 0 by { if i == |bufs| { assert bufs[i..] == []; } }
      assert Flatten(bufs[i..])[..left] == [];
      NothingObserved(View());
    }

    method IoFailed()
      requires Valid()
      modifies this`status
      ensures Valid() && View() == old(View()).(status := Failed)
    {
      status := Failed;
    }

    method MarkTransportDropped()
      requires Valid()
      modifies this
      ensures Valid() && View() == DroppedTransport(old(View()))
    {
      transportDropped := true;
      if status == Pending { status := Failed; }
    }
  }

  lemma NothingObserved(g: Gate)
    requires Settled(g)
    ensures Outbound(g, []) == g
  {
  }
}
