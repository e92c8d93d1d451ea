/** Every interleaving of one connection's reads and writes with dispatches,
    retirement and closing by other threads. The reader thread is cut into the
    four steps between which another thread can take the control lock. */
module DispatchGate {
  import opened Bytes
  import opened H2Frames
  import opened H2Proof
  import S = ServerScanner
  import A = ClientAck
  import G = GenerationControl

  /** Where the thread inside `observe_inbound` stands. */
  datatype Io = Idle | Installing(notice: Notice) | Revoking(notice: Notice) | Publishing(status: Status)

  /** `chunks` are the fragments given to the scanner and `fed` their bytes,
      `acted` the part the control state already reflects, `sent` every byte
      the transport accepted; `broken` records that the scanner has failed,
      `seen` the Ready status the creator acts on, `proved` that the creator
      passed the private gate and the generation can be dispatched to. */
  datatype Sys = Sys(
    gate: Gate, io: Io, seen: Option<Initial>, proved: bool, broken: bool,
    chunks: seq<seq<byte>>, fed: seq<byte>, acted: seq<byte>, sent: seq<byte>)

  const INITIAL := Sys(NEW_GATE, Idle, None, false, false, [], [], [], [])

  datatype Event =
    | Read(chunk: seq<byte>)
    | ReaderStep
    | Write(bytes: seq<byte>)
    | IoError
    | TransportDropped
    | ProofRead
    | ProofChecked(hyperAgrees: bool)
    | Dispatch(kind: G.DispatchKind)
    | Retire
    | Close

  function Next(s: Sys, e: Event): (r: Sys)
    requires s.gate.Valid()
    ensures r.gate.Valid()
  {
    match e
    case Read(chunk) =>
      if s.io != Idle then s else
      var (g, n) := Scanned(s.gate, chunk);
      s.(gate := g, io := Installing(n), chunks := s.chunks + [chunk], fed := s.fed + chunk, broken := s.broken || n.status == Failed)
    case ReaderStep => Advance(s)
    case Write(bytes) => if s.io != Idle then s else s.(gate := Outbound(s.gate, bytes), sent := s.sent + bytes)
    case IoError => if s.io != Idle then s else s.(gate := s.gate.(status := Failed))
    case TransportDropped => if s.io != Idle then s else s.(gate := DroppedTransport(s.gate))
    case ProofRead => if s.gate.status.Ready? then s.(seen := Some(s.gate.status.settings)) else s
    case ProofChecked(hyperAgrees) =>
      if s.seen.None? then s else s.(seen := None, proved := s.proved || (hyperAgrees && Proves(s.gate, s.seen.value)))
    case Dispatch(_) => s
    case Retire => s.(gate := s.gate.(control := G.Retire(s.gate.control)))
    case Close => s.(gate := s.gate.(control := G.Close(s.gate.control)))
  }

  function Advance(s: Sys): Sys
  {
    match s.io
    case Idle => s
    case Installing(n) =>
      var g := Installed(s.gate, n);
      if g.None? then s.(gate := s.gate.(status := Failed), io := Idle, acted := s.fed)
      else s.(gate := g.value, io := Revoking(n))
    case Revoking(n) => s.(gate := Withdrawn(s.gate, n), io := Publishing(n.status), acted := s.fed)
    case Publishing(status) => s.(gate := Publish(s.gate, status), io := Idle)
  }

  /** The checks made for a Ready status, after the connection was polled once
      more; the status itself is not looked at again. */
  predicate Proves(g: Gate, settings: Initial) {
    && !g.dropped && g.control.selectable
    && g.control.life == if settings.extendedConnect then G.LiveEnabled else G.LiveDisabled
  }

  /** A dispatch reaches the connection only through a proved generation. */
  predicate Enqueues(s: Sys, kind: G.DispatchKind) {
    s.proved && G.Permits(s.gate.control.life, kind)
  }

  function Exec(s: Sys, events: seq<Event>): (r: Sys)
    requires s.gate.Valid()
    ensures r.gate.Valid()
    decreases |events|
  {
    if events == [] then s else Exec(Next(s, events[0]), events[1..])
  }

  // ----- the invariant -----

  function InitialOf(v: Verdict): Option<Initial> { if v.Open? then v.initial else None }

  predicate WithdrawnIn(v: Verdict) { v.Open? && v.withdrawn }

  /** The live state a stream calls for. */
  function LifeFor(initial: Option<Initial>, withdrawn: bool): G.Life {
    if initial.None? then G.Proving
    else if !initial.value.extendedConnect then G.LiveDisabled
    else if withdrawn then G.Revoked else G.LiveEnabled
  }

  /** The live state expected where the reader thread stands. */
  ghost function Expected(s: Sys): G.Life {
    if s.io.Revoking? then LifeFor(InitialOf(Judge(s.fed)), WithdrawnIn(Judge(s.acted)))
    else LifeFor(InitialOf(Judge(s.acted)), WithdrawnIn(Judge(s.acted)))
  }

  /** What is known while the scanner has not failed. */
  ghost predicate Sound(s: Sys) {
    var f := S.Run(S.Start(S.FRESH), s.fed);
    && !f.failed && s.gate.scan == f.scan
    && (s.gate.control.life in {G.Retiring, G.Closed} || s.gate.control.life == Expected(s))
    && match s.io
       case Idle => s.acted == s.fed
       case Publishing(_) => s.acted == s.fed
       case Installing(n) => NoticeFits(s, n)
       case Revoking(n) => NoticeFits(s, n)
  }

  ghost predicate NoticeFits(s: Sys, n: Notice) {
    var before, now := Judge(s.acted), Judge(s.fed);
    && before.Open? && now.Open?
    && n.initial == (if before.initial.None? then now.initial else None)
    && now.withdrawn == (before.withdrawn || n.revoke)
    && (before.initial.Some? ==> now.initial == before.initial)
  }

  /** The status the reader thread is about to publish. */
  function Carried(io: Io): Status
  {
    match io case Idle => Pending case Installing(n) => n.status case Revoking(n) => n.status case Publishing(st) => st
  }

  /** A Ready status speaks of the complete initial SETTINGS of the stream and
      of a written preface and acknowledgement. */
  ghost predicate Backed(status: Status, stream: seq<byte>, sent: seq<byte>) {
    status.Ready? ==> InitialOf(Judge(stream)) == Some(status.settings) && JudgeClient(sent) == Acknowledged
  }

  ghost predicate Inv(s: Sys) {
    && s.gate.Valid() && s.acted <= s.fed
    && (s.gate.status == Pending ==> s.gate.ack == A.Run(A.FRESH, s.sent))
    && (s.gate.ack.Some? && s.gate.ack.value.seen ==> JudgeClient(s.sent) == Acknowledged)
    && (s.broken ==>
          && S.Run(S.Start(S.FRESH), s.fed).failed && !s.proved && s.seen.None?
          && (s.gate.status == Failed || (s.gate.status == Pending && Carried(s.io) == Failed)))
    && (!s.broken ==> Sound(s) && Backed(s.gate.status, s.acted, s.sent) && Backed(Carried(s.io), s.fed, s.sent))
    && (s.seen.Some? ==> InitialOf(Judge(s.acted)) == s.seen && JudgeClient(s.sent) == Acknowledged)
    && (s.proved ==> InitialOf(Judge(s.acted)).Some? && JudgeClient(s.sent) == Acknowledged)
  }

  lemma InitialHolds()
    ensures Inv(INITIAL)
  {
    assert Judge([]) == Open(None, false);
    S.RunJudges([]);
  }

  /** Reading one more fragment extends the verdict by what it reports. */
  lemma ChunkExtends(fed: seq<byte>, chunk: seq<byte>)
    requires !S.Run(S.Start(S.FRESH), fed).failed
    ensures var before := S.Run(S.Start(S.FRESH), fed); var c := S.Run(S.Start(before.scan), chunk);
            var j, j' := Judge(fed), Judge(fed + chunk);
            && j.Open? && before.scan.settings == j.initial
            && (c.failed <==> j'.Violation?)
            && c.failed == S.Run(S.Start(S.FRESH), fed + chunk).failed
            && c.scan == S.Run(S.Start(S.FRESH), fed + chunk).scan
            && (!c.failed ==>
                  && c.scan.settings == j'.initial
                  && c.initial == (if j.initial.None? then j'.initial else None)
                  && j'.withdrawn == (j.withdrawn || c.revoke)
                  && (j.initial.Some? ==> j'.initial == j.initial))
  {
    hide S.Run, Judge;
    var before := S.Run(S.Start(S.FRESH), fed);
    S.RunSplit(S.Start(S.FRESH), fed, chunk);
    S.RunMerges(before, chunk);
    S.RunJudges(fed);
    S.RunJudges(fed + chunk);
  }

  lemma StaysFailed(f: S.Reading, bytes: seq<byte>)
    requires f.scan.Valid() && f.failed
    ensures S.Run(f, bytes) == f
  {
  }

  lemma ReadKeeps(s: Sys, chunk: seq<byte>)
    requires Inv(s)
    ensures Inv(Next(s, Read(chunk)))
  {
    hide S.Run, A.Run, Judge, JudgeClient;
    S.RunSplit(S.Start(S.FRESH), s.fed, chunk);
    if s.io == Idle && !s.broken {
      ChunkExtends(s.fed, chunk);
    } else if s.broken {
      StaysFailed(S.Run(S.Start(S.FRESH), s.fed), chunk);
    }
  }

  lemma InstallKeeps(s: Sys)
    requires Inv(s) && s.io.Installing?
    ensures Inv(Advance(s))
  {
    hide S.Run, A.Run, Judge, JudgeClient, Backed;
    NoEarlyWithdrawal(s.acted);
    BackedFailed(s.acted, s.sent);
    BackedFailed(s.fed, s.sent);
  }

  lemma RevokeKeeps(s: Sys)
    requires Inv(s) && s.io.Revoking?
    ensures Inv(Advance(s))
  {
    hide S.Run, A.Run, Judge, JudgeClient;
    NoEarlyWithdrawal(s.fed);
  }

  lemma AdvanceKeeps(s: Sys)
    requires Inv(s)
    ensures Inv(Advance(s))
  {
    hide S.Run, A.Run, Judge, JudgeClient;
    match s.io
    case Idle =>
    case Installing(_) => InstallKeeps(s);
    case Revoking(_) => RevokeKeeps(s);
    case Publishing(_) =>
  }

  lemma BackedFailed(stream: seq<byte>, sent: seq<byte>)
    ensures Backed(Failed, stream, sent) && Backed(Pending, stream, sent)
  {
  }

  lemma NoEarlyWithdrawal(stream: seq<byte>)
    ensures InitialOf(Judge(stream)).None? ==> !WithdrawnIn(Judge(stream))
  {
  }

  lemma WriteKeeps(s: Sys, bytes: seq<byte>)
    requires Inv(s)
    ensures Inv(Next(s, Write(bytes)))
  {
    hide S.Run, A.Run, Judge, JudgeClient;
    if s.io == Idle {
      S.RunJudges(s.fed);
      A.RunSplit(A.FRESH, s.sent, bytes);
      A.RunJudges(s.sent);
      A.RunJudges(s.sent + bytes);
      var a := A.Run(A.FRESH, s.sent);
      if a.Some? && a.value.seen { A.SeenStays(a.value, bytes); }
    }
  }

  lemma NextKeeps(s: Sys, e: Event)
    requires Inv(s)
    ensures Inv(Next(s, e))
  {
    hide S.Run, A.Run, Judge, JudgeClient;
    match e
    case Read(chunk) => ReadKeeps(s, chunk);
    case ReaderStep => AdvanceKeeps(s);
    case Write(bytes) => WriteKeeps(s, bytes);
    case _ =>
  }

  lemma {:induction false} ExecKeeps(s: Sys, events: seq<Event>)
    requires Inv(s)
    ensures Inv(Exec(s, events))
    decreases |events|
  {
    hide Sound, Backed, Next, Judge, JudgeClient;
    if events != [] {
      NextKeeps(s, events[0]);
      ExecKeeps(Next(s, events[0]), events[1..]);
    }
  }

  lemma FedStep(s: Sys, e: Event)
    requires s.gate.Valid() && s.fed == Flatten(s.chunks)
    ensures Next(s, e).fed == Flatten(Next(s, e).chunks)
  {
    hide Flatten, Scanned, Outbound;
    if e.Read? { FlattenSnoc(s.chunks, e.chunk); }
  }

  lemma {:induction false} FedIsChunks(s: Sys, events: seq<Event>)
    requires s.gate.Valid() && s.fed == Flatten(s.chunks)
    ensures Exec(s, events).fed == Flatten(Exec(s, events).chunks)
    decreases |events|
  {
    hide Next, Flatten;
    if events != [] {
      FedStep(s, events[0]);
      FedIsChunks(Next(s, events[0]), events[1..]);
    }
  }

  // ----- main results -----

  /** Safety over whole runs. A request is enqueued only when the stream acted
      on so far opened with valid SETTINGS; an extended CONNECT only if those
      enabled it and no complete later SETTINGS frame has withdrawn it; an
      ordinary request unless it was enabled and then withdrawn. Preface and
      acknowledgement were sent. What was acted on is all that was read, except
      while a reader is between scanning its last fragment and acting on it. */
  lemma EnqueueIsBacked(events: seq<Event>)
    ensures var s := Exec(INITIAL, events); var j := Judge(s.acted);
            && s.fed == Flatten(s.chunks) && s.acted <= s.fed
            && (Enqueues(s, G.ExtendedConnect) ==>
                  j.Open? && j.initial.Some? && j.initial.value.extendedConnect && !j.withdrawn)
            && (Enqueues(s, G.Ordinary) ==>
                  j.Open? && j.initial.Some? && !(j.initial.value.extendedConnect && j.withdrawn))
            && (forall kind :: Enqueues(s, kind) ==>
                  JudgeClient(s.sent) == Acknowledged && (s.io.Idle? || s.io.Publishing? ==> s.acted == s.fed))
  {
    hide S.Run, A.Run, Judge, JudgeClient, Next;
    FedIsChunks(INITIAL, events);
    InitialHolds();
    ExecKeeps(INITIAL, events);
    forall kind | Enqueues(Exec(INITIAL, events), kind) { BackedNow(Exec(INITIAL, events), kind); }
  }

  lemma BackedNow(s: Sys, kind: G.DispatchKind)
    requires Inv(s) && Enqueues(s, kind)
    ensures var j := Judge(s.acted);
            && j.Open? && j.initial.Some? && JudgeClient(s.sent) == Acknowledged
            && !(j.initial.value.extendedConnect && j.withdrawn)
            && (kind == G.ExtendedConnect ==> j.initial.value.extendedConnect)
            && (s.io.Idle? || s.io.Publishing? ==> s.acted == s.fed)
  {
    hide S.Run, A.Run, Judge, JudgeClient;
  }

  /** Without retirement or closing the gate is exact: a proved connection takes
      extended CONNECT if and only if the server enabled it and has not
      withdrawn it, and ordinary requests unless it was enabled and withdrawn. */
  lemma GateIsExact(events: seq<Event>)
    requires Retire !in events && Close !in events
    ensures var s := Exec(INITIAL, events); var j := Judge(s.acted);
            s.proved ==>
              && j.Open? && j.initial.Some?
              && (Enqueues(s, G.ExtendedConnect) <==> j.initial.value.extendedConnect && !j.withdrawn)
              && (Enqueues(s, G.Ordinary) <==> !(j.initial.value.extendedConnect && j.withdrawn))
  {
    hide S.Run, A.Run, Judge, JudgeClient;
    InitialHolds();
    ExecKeeps(INITIAL, events);
    NeverRetired(INITIAL, events);
  }

  lemma NextUnretired(s: Sys, e: Event)
    requires s.gate.Valid() && s.gate.control.life.Rank() < 3 && e != Retire && e != Close
    ensures Next(s, e).gate.control.life.Rank() < 3
  {
    hide S.Run, A.Run;
  }

  lemma {:induction false} NeverRetired(s: Sys, events: seq<Event>)
    requires s.gate.Valid() && s.gate.control.life.Rank() < 3 && Retire !in events && Close !in events
    ensures Exec(s, events).gate.control.life.Rank() < 3
    decreases |events|
  {
    hide Next;
    if events != [] {
      NextUnretired(s, events[0]);
      NeverRetired(Next(s, events[0]), events[1..]);
    }
  }

  // ----- the control, fragment by fragment -----

  /** The live state after one observed fragment. An error leaves it alone, a
      second installation is refused, and then nothing is revoked either. */
  function LifeAfter(life: G.Life, f: S.Reading): G.Life {
    if f.failed || (f.initial.Some? && life != G.Proving) then life else
    var installed := if f.initial.None? then life else if f.initial.value.extendedConnect then G.LiveEnabled else G.LiveDisabled;
    if f.revoke && installed == G.LiveEnabled then G.Revoked else installed
  }

  /** The scanner and the live state after a sequence of fragments. */
  function Replay(chunks: seq<seq<byte>>): (r: (S.Scan, G.Life))
    ensures r.0.Valid()
  {
    if chunks == [] then (S.FRESH, G.Proving) else
    var (scan, life) := Replay(chunks[..|chunks| - 1]);
    var f := S.Run(S.Start(scan), chunks[|chunks| - 1]);
    (f.scan, LifeAfter(life, f))
  }

  ghost predicate Replays(s: Sys) {
    var life := s.gate.control.life;
    && s.gate.Valid() && s.gate.scan == Replay(s.chunks).0
    && (life.Rank() < 3 ==>
          match s.io
          case Idle => life == Replay(s.chunks).1
          case Publishing(_) => life == Replay(s.chunks).1
          case Installing(n) => s.chunks != [] && Told(s.chunks, n) && life == Replay(s.chunks[..|s.chunks| - 1]).1
          case Revoking(n) => (if n.revoke && life == G.LiveEnabled then G.Revoked else life) == Replay(s.chunks).1)
  }

  /** The notice is that of the last fragment. */
  ghost predicate Told(chunks: seq<seq<byte>>, n: Notice)
    requires chunks != []
  {
    var f := S.Run(S.Start(Replay(chunks[..|chunks| - 1]).0), chunks[|chunks| - 1]);
    n.initial == (if f.failed then None else f.initial) && n.revoke == (!f.failed && f.revoke)
  }

  lemma ReplayRead(s: Sys, chunk: seq<byte>)
    requires Replays(s)
    ensures Replays(Next(s, Read(chunk)))
  {
    hide S.Run, A.Run, LifeAfter;
    assert (s.chunks + [chunk])[..|s.chunks|] == s.chunks;
  }

  /** Installing and then revoking is what one fragment does to the life. */
  lemma InstallThenRevoke(c: G.Control, n: Notice, f: S.Reading)
    requires n.initial == (if f.failed then None else f.initial) && n.revoke == (!f.failed && f.revoke)
    ensures var after := if n.initial.None? then Some(c) else G.Install(c, n.initial.value.extendedConnect);
            LifeAfter(c.life, f) == if after.None? then c.life
                                    else if n.revoke && after.value.life == G.LiveEnabled then G.Revoked else after.value.life
  {
  }

  lemma ReplayInstall(s: Sys)
    requires Replays(s) && s.io.Installing? && s.gate.control.life.Rank() < 3
    ensures Replays(Advance(s))
  {
    hide S.Run, A.Run, LifeAfter, G.Install;
    var n := s.chunks[..|s.chunks| - 1];
    var f := S.Run(S.Start(Replay(n).0), s.chunks[|s.chunks| - 1]);
    InstallThenRevoke(s.gate.control, s.io.notice, f);
    assert Replay(s.chunks) == (f.scan, LifeAfter(Replay(n).1, f));
  }

  lemma ReplayAdvance(s: Sys)
    requires Replays(s)
    ensures Replays(Advance(s))
  {
    hide S.Run, A.Run, Replay, Told;
    AdvanceMonotone(s);
    if s.gate.control.life.Rank() < 3 {
      if s.io.Installing? { ReplayInstall(s); }
    } else {
      ReplayRetired(s);
    }
  }

  lemma ReplayRetired(s: Sys)
    requires Replays(s) && s.gate.control.life.Rank() >= 3
    ensures Replays(Advance(s))
  {
    hide S.Run, A.Run, Replay, Told;
    AdvanceMonotone(s);
  }

  lemma ReplayStep(s: Sys, e: Event)
    requires Replays(s)
    ensures Replays(Next(s, e))
  {
    hide S.Run, A.Run, Advance, Replay, Told;
    match e
    case Read(chunk) => ReplayRead(s, chunk);
    case ReaderStep => ReplayAdvance(s);
    case _ =>
  }

  lemma {:induction false} ReplayRun(s: Sys, events: seq<Event>)
    requires s.gate.Valid() && Replays(s)
    ensures Replays(Exec(s, events))
    decreases |events|
  {
    hide Next, Replays;
    if events != [] {
      ReplayStep(s, events[0]);
      ReplayRun(Next(s, events[0]), events[1..]);
    }
  }

  /** What the control is in every run without retirement and close, on every
      stream, legal or not: the fragments replayed one by one. After an error
      the fragment boundaries matter, since the scanner resumes where the
      refused fragment left it. */
  lemma ControlIsReplay(events: seq<Event>)
    requires Retire !in events && Close !in events
    ensures var s := Exec(INITIAL, events);
            s.io.Idle? || s.io.Publishing? ==> (s.gate.scan, s.gate.control.life) == Replay(s.chunks)
  {
    hide S.Run, A.Run, Exec;
    ReplayRun(INITIAL, events);
    NeverRetired(INITIAL, events);
  }

  /** While the stream keeps the opening rules this is the state the stream
      calls for, however it was cut; `ControlAloneIsNotTheGate` shows what can
      happen after. */
  lemma ControlFollowsStream(events: seq<Event>)
    requires Retire !in events && Close !in events
    ensures var s := Exec(INITIAL, events); var j := Judge(s.fed);
            s.io == Idle && j.Open? ==> s.gate.control.life == LifeFor(j.initial, j.withdrawn)
  {
    hide S.Run, A.Run, Judge, JudgeClient;
    InitialHolds();
    ExecKeeps(INITIAL, events);
    NeverRetired(INITIAL, events);
    S.RunJudges(Exec(INITIAL, events).fed);
  }

  /** Proof status Ready(i) is only ever published for the complete initial
      SETTINGS the stream opened with, already installed in the control, with
      the client preface and an empty acknowledgement written. */
  lemma ReadyIsBacked(events: seq<Event>)
    ensures var s := Exec(INITIAL, events);
            s.gate.status.Ready? ==>
              && Judge(s.acted).Open? && Judge(s.acted).initial == Some(s.gate.status.settings)
              && JudgeClient(s.sent) == Acknowledged
              && s.gate.control.life != G.Proving
  {
    hide S.Run, A.Run, Judge, JudgeClient;
    InitialHolds();
    ExecKeeps(INITIAL, events);
    NoEarlyWithdrawal(Exec(INITIAL, events).acted);
  }

  lemma {:induction false} ExecSplit(s: Sys, x: seq<Event>, y: seq<Event>)
    requires s.gate.Valid()
    ensures Exec(s, x + y) == Exec(Exec(s, x), y)
    decreases |x|
  {
    hide Next;
    if x == [] {
      assert x + y == y;
    } else {
      assert (x + y)[1..] == x[1..] + y;
      ExecSplit(Next(s, x[0]), x[1..], y);
    }
  }

  lemma NextMonotone(s: Sys, e: Event)
    requires s.gate.Valid()
    ensures var l, l' := s.gate.control.life, Next(s, e).gate.control.life;
            && l.Rank() <= l'.Rank()
            && (l == G.LiveDisabled ==> l' != G.LiveEnabled)
            && (s.gate.status == Failed ==> Next(s, e).gate.status == Failed)
  {
    hide S.Run, A.Run, Advance;
    if e.ReaderStep? { AdvanceMonotone(s); }
  }

  lemma AdvanceMonotone(s: Sys)
    ensures var l, l' := s.gate.control.life, Advance(s).gate.control.life;
            && l.Rank() <= l'.Rank()
            && (l == G.LiveDisabled ==> l' != G.LiveEnabled)
            && (s.gate.status == Failed ==> Advance(s).gate.status == Failed)
  {
  }

  /** Over every run the lifecycle only moves forward, a connection without
      extended CONNECT never gains it, and Failed is final. */
  lemma {:induction false} LifeMovesForward(s: Sys, events: seq<Event>)
    requires s.gate.Valid()
    ensures var l, l' := s.gate.control.life, Exec(s, events).gate.control.life;
            && l.Rank() <= l'.Rank()
            && (l == G.LiveDisabled ==> l' != G.LiveEnabled)
            && (s.gate.status == Failed ==> Exec(s, events).gate.status == Failed)
    decreases |events|
  {
    hide Next;
    if events != [] {
      NextMonotone(s, events[0]);
      LifeMovesForward(Next(s, events[0]), events[1..]);
    }
  }

  /** Nothing of either kind is enqueued at any time after a retirement, a
      closing, or an acted-on withdrawal of extended CONNECT. */
  lemma NothingAfterTheEnd(x: seq<Event>, e: Event, y: seq<Event>, kind: G.DispatchKind)
    requires e == Retire || e == Close || Next(Exec(INITIAL, x), e).gate.control.life == G.Revoked
    ensures !Enqueues(Exec(INITIAL, x + [e] + y), kind)
  {
    hide S.Run, A.Run;
    ExecSplit(INITIAL, x + [e], y);
    ExecSplit(INITIAL, x, [e]);
    var s := Exec(INITIAL, x + [e]);
    assert s == Next(Exec(INITIAL, x), e) by { assert Exec(Exec(INITIAL, x), [e]) == Exec(Next(Exec(INITIAL, x), e), []); }
    LifeMovesForward(s, y);
  }

  predicate IsPing(p: seq<byte>) { p == [0, 0, 0, 6, 0, 0, 0, 0, 0] }

  /** The bytes 00 00 06 04 00 00 00 00 00, then 00 08 00 00 00 01. */
  predicate IsEnablingSettings(p: seq<byte>) {
    && |p| == 15 && p[0] == 0 && p[1] == 0 && p[2] == 6 && p[3] == 4
    && p[4] == 0 && p[5] == 0 && p[6] == 0 && p[7] == 0 && p[8] == 0
    && p[9] == 0 && p[10] == 8 && p[11] == 0 && p[12] == 0 && p[13] == 0 && p[14] == 1
  }

  lemma PingIsRefused(f: S.Reading, ping: seq<byte>)
    requires f == S.Start(S.FRESH) && IsPing(ping)
    ensures S.Run(f, ping) == f.(failed := true)
  {
    hide S.Run;
    S.HeaderChunk(f, ping);
    assert [] + ping == ping;
  }

  lemma PingViolates(ping: seq<byte>, more: seq<byte>)
    requires IsPing(ping)
    ensures Judge(ping + more).Violation?
  {
    assert DecodeHeader(ping + more).kind == 6;
  }

  lemma TopIsScanned(f: S.Reading, top: seq<byte>, h: Header)
    requires f == S.Start(S.FRESH) && |top| == HEADER_LEN && DecodeHeader(top) == h && OpensConnection(h) && h.length > 0
    ensures S.Run(f, top) == S.Start(S.FRESH.(remaining := h.length, payload := S.InitialSettings))
  {
    hide S.Run, DecodeHeader, OpensConnection;
    S.HeaderChunk(f, top);
    assert [] + top == top;
    S.Opened(top, h);
  }

  lemma PairIsScanned(g: S.Reading, pair: seq<byte>)
    requires g == S.Start(S.FRESH.(remaining := 6, payload := S.InitialSettings))
    requires |pair| == PAIR_LEN && DecodeSetting(pair) == Setting(8, 1)
    ensures var r := S.Run(g, pair); r.initial == Some(Initial(true, None)) && !r.revoke && !r.failed
  {
    hide S.Run, LegalInitially, DecodeSetting;
    assert [] + pair == pair;
    S.PairChunk(g, pair);
    EnableIsLegal();
  }

  lemma EnablingLength(p: seq<byte>)
    requires IsEnablingSettings(p)
    ensures |p| == HEADER_LEN + PAIR_LEN && DecodeHeader(p).length == 6 && DecodeHeader(p).kind == SETTINGS
  {
  }

  lemma EnablingFlags(p: seq<byte>)
    requires IsEnablingSettings(p)
    ensures !DecodeHeader(p).ack
  {
  }

  lemma EnablingStream(p: seq<byte>)
    requires IsEnablingSettings(p)
    ensures DecodeHeader(p).stream == 0
  {
  }

  lemma EnablingPair(p: seq<byte>)
    requires IsEnablingSettings(p)
    ensures DecodeSetting(p[HEADER_LEN..]) == Setting(8, 1)
  {
  }

  lemma SettingsAreScanned(f: S.Reading, settings: seq<byte>)
    requires f == S.Start(S.FRESH) && IsEnablingSettings(settings)
    ensures var r := S.Run(f, settings); r.initial == Some(Initial(true, None)) && !r.revoke && !r.failed
  {
    hide S.Run, IsEnablingSettings, DecodeHeader, DecodeSetting;
    EnablingLength(settings);
    EnablingFlags(settings);
    EnablingStream(settings);
    EnablingPair(settings);
    HeaderOf(settings);
    var top, pair := settings[..HEADER_LEN], settings[HEADER_LEN..];
    TopIsScanned(f, top, Header(6, SETTINGS, false, 0));
    PairIsScanned(S.Run(f, top), pair);
    S.RunPrefix(f, settings, HEADER_LEN);
  }

  lemma EnableIsLegal()
    ensures LegalInitially(Setting(8, 1))
  {
  }

  /** The control alone is not the gate. A server that opens with a PING and
      then sends enabling SETTINGS has failed its proof for good, yet the
      scanner resynchronises and the control becomes LiveEnabled; only the
      private gate keeps such a connection from being dispatched to. */
  lemma ControlAloneIsNotTheGate(ping: seq<byte>, settings: seq<byte>, first: seq<Event>, second: seq<Event>)
    requires IsPing(ping) && IsEnablingSettings(settings)
    requires first == [Read(ping), ReaderStep, ReaderStep, ReaderStep]
    requires second == [Read(settings), ReaderStep, ReaderStep, ReaderStep]
    ensures var s := Exec(INITIAL, first + second);
            Judge(s.fed).Violation? && s.gate.status == Failed && s.gate.control.life == G.LiveEnabled && !Enqueues(s, G.ExtendedConnect)
  {
    hide S.Run, Judge;
    var f := S.Start(S.FRESH);
    PingIsRefused(f, ping);
    PingViolates(ping, settings);
    SettingsAreScanned(f, settings);
    ExecSplit(INITIAL, first, second);
    Four(INITIAL, first);
    var s4 := Exec(INITIAL, first);
    assert s4.gate == NEW_GATE.(status := Failed) && s4.io == Idle;
    Four(s4, second);
    assert Exec(s4, second).fed == ping + settings;
  }

  lemma Four(s: Sys, events: seq<Event>)
    requires s.gate.Valid() && |events| == 4
    ensures Exec(s, events) == Next(Next(Next(Next(s, events[0]), events[1]), events[2]), events[3])
  {
    hide Next;
    var s1 := Next(s, events[0]);
    var s2 := Next(s1, events[1]);
    var s3 := Next(s2, events[2]);
    assert Exec(s, events) == Exec(s1, events[1..]) && events[1..][1..] == events[2..] && events[2..][1..] == events[3..];
    assert Exec(s1, events[1..]) == Exec(s2, events[2..]) && Exec(s2, events[2..]) == Exec(s3, events[3..]);
  }
}
