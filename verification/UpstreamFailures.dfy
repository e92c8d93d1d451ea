/** Where a live upstream socket can be without permit and slot: an upgrade
    that fails once the server's side has been handed over is reported before
    the receiving end, and with it the socket, is dropped. */
module UpstreamFailures {
  import opened Bytes
  import opened OwnerPool
  import opened Upstream
  import opened UpstreamSafety

  /** What one event may do to a tunnel's flags: each is raised by its own
      event and by no other, and none is lowered but `open`. */
  ghost predicate Recorded(s: Up, e: Event, t: nat, x: Tunnel, x': Tunnel) {
    && (x.handed ==> x'.handed) && (x.early ==> x'.early) && (x.joined ==> x'.joined) && (x'.open ==> x.open)
    && (x'.handed && !x.handed ==> e == HandsOver(t) && x.open)
    && (x'.early && !x.early ==> e.UpgradeFails? && HeldBy(s, t, e.p) && s.held[e.p].Tunneled? && x.open)
    && (x'.joined && !x.joined ==> e.DriverJoined? && HeldBy(s, t, e.p) && s.held[e.p].H1Retiring?)
  }

  /** Only a 101 response, the end of a tunnel and the join touch tunnels. */
  lemma OthersLeaveTunnels(s: Up, e: Event, h: Holder)
    requires !OfSystem(e) && !h.H1Owned? && !h.Tunneled? && !h.H1Retiring?
    ensures Act(s, e, h).tunnels == s.tunnels
  {
    hide FirstH1;
  }

  lemma HolderRecords(s: Up, e: Event, t: nat)
    requires !OfSystem(e) && e.p in s.held && HolderOk(s, s.held[e.p])
    ensures var s' := Act(s, e, s.held[e.p]);
            if t in s.tunnels then t in s'.tunnels && Recorded(s, e, t, s.tunnels[t], s'.tunnels[t])
            else t in s'.tunnels ==> !s'.tunnels[t].early
  {
    hide Slots, FirstH1, Sections, ActRequesting, ActResolving, ActDialing, ActGated;
    var h := s.held[e.p];
    if !h.H1Owned? && !h.Tunneled? && !h.H1Retiring? { OthersLeaveTunnels(s, e, h); }
  }

  lemma FlagsRecordEvents(s: Up, e: Event, t: nat)
    requires Inv(s) && t in s.tunnels
    ensures t in Next(s, e).tunnels && Recorded(s, e, t, s.tunnels[t], Next(s, e).tunnels[t])
  {
    hide Inv, Act;
    if !OfSystem(e) && e.p in s.held {
      Known(s, e.p);
      HolderRecords(s, e, t);
    }
  }

  lemma NewTunnel(s: Up, e: Event, t: nat)
    requires Inv(s) && t !in s.tunnels && t in Next(s, e).tunnels
    ensures !Next(s, e).tunnels[t].early
  {
    hide Inv, Act;
    if !OfSystem(e) && e.p in s.held {
      Known(s, e.p);
      HolderRecords(s, e, t);
    }
  }

  lemma {:induction false} ExecSnoc(s: Up, events: seq<Event>, e: Event)
    ensures Exec(s, events + [e]) == Next(Exec(s, events), e)
    decreases |events|
  {
    hide Next;
    if events == [] {
      assert [] + [e] == [e] && [e][1..] == [];
    } else {
      ExecSnoc(Next(s, events[0]), events[1..], e);
      assert (events + [e])[1..] == events[1..] + [e];
    }
  }

  /** Some driver join leaves the live transport without permit and slot. */
  ghost predicate Exposed(s: Up, t: nat) {
    exists p :: t in Next(s, DriverJoined(p)).live && !HasPermitOrSlot(Next(s, DriverJoined(p)), t)
  }

  lemma ExposedMeans(limit: nat, workers: nat, events: seq<Event>, t: nat, p: nat)
    requires var s' := Exec(Idle(limit, workers), events + [DriverJoined(p)]); t in s'.live && !HasPermitOrSlot(s', t)
    ensures FailedAfterHandover(Exec(Idle(limit, workers), events), t)
  {
    hide Next, HasPermitOrSlot, Exec;
    var s := Exec(Idle(limit, workers), events);
    EveryTransportIsCoveredOnce(limit, workers, events + [DriverJoined(p)], t);
    IdleHolds(limit, workers);
    ExecKeeps(Idle(limit, workers), events);
    ExecSnoc(Idle(limit, workers), events, DriverJoined(p));
    if t in s.tunnels { FlagsRecordEvents(s, DriverJoined(p), t); } else { NewTunnel(s, DriverJoined(p), t); }
  }

  lemma JoinExposes(s: Up, p: nat, t: nat)
    requires Inv(s) && t in s.live && FailedAfterHandover(s, t) && HeldBy(s, t, p) && !s.held[p].Forgotten?
    ensures t in Next(s, DriverJoined(p)).live && !HasPermitOrSlot(Next(s, DriverJoined(p)), t)
  {
    assert HolderOk(s, s.held[p]) && s.held[p].H1Retiring?;
    var s' := Next(s, DriverJoined(p));
    assert s' == JoinTunnel(s, p, t);
    assert forall q :: HeldBy(s', t, q) ==> HeldBy(s, t, q) && q != p;
  }

  lemma FailureExposes(limit: nat, workers: nat, events: seq<Event>, t: nat)
    requires var s := Exec(Idle(limit, workers), events);
             t in s.live && FailedAfterHandover(s, t) && !exists p :: HeldBy(s, t, p) && s.held[p].Forgotten?
    ensures Exposed(Exec(Idle(limit, workers), events), t)
  {
    var s := Exec(Idle(limit, workers), events);
    EveryTransportIsCoveredOnce(limit, workers, events, t);
    IdleHolds(limit, workers);
    ExecKeeps(Idle(limit, workers), events);
    if s.tunnels[t].joined {
      UnknownPermit(s);
    } else {
      NoSlot(s, t);
      var p :| HeldBy(s, t, p);
      JoinExposes(s, p, t);
    }
  }

  lemma UnknownPermit(s: Up)
    requires Inv(s)
    ensures Next(s, DriverJoined(s.nextPermit)) == s
  {
  }

  lemma NoSlot(s: Up, t: nat)
    requires Inv(s) && t in s.tunnels
    ensures t !in Slots(s.pool)
  {
  }

  /** Main result: a live transport can lose its permit while it is open if
      and only if its upgrade failed after the handover. A forgotten permit is
      never given back, so it is left aside. */
  lemma ExposedExactlyWhenUpgradeFailed(limit: nat, workers: nat, events: seq<Event>, t: nat)
    requires var s := Exec(Idle(limit, workers), events);
             t in s.live && !exists p :: HeldBy(s, t, p) && s.held[p].Forgotten?
    ensures var s := Exec(Idle(limit, workers), events); Exposed(s, t) <==> FailedAfterHandover(s, t)
  {
    var s := Exec(Idle(limit, workers), events);
    if Exposed(s, t) {
      var p :| t in Next(s, DriverJoined(p)).live && !HasPermitOrSlot(Next(s, DriverJoined(p)), t);
      ExecSnoc(Idle(limit, workers), events, DriverJoined(p));
      ExposedMeans(limit, workers, events, t, p);
    }
    if FailedAfterHandover(s, t) { FailureExposes(limit, workers, events, t); }
  }

  lemma {:induction false} NeverEarly(s: Up, events: seq<Event>, t: nat)
    requires Inv(s) && (t in s.tunnels ==> !s.tunnels[t].early)
    requires forall e :: e in events ==> !e.UpgradeFails?
    ensures var s' := Exec(s, events); t in s'.tunnels ==> !s'.tunnels[t].early
    decreases |events|
  {
    hide Inv, Next;
    if events != [] {
      var e := events[0];
      NextKeeps(s, e);
      if t in s.tunnels { FlagsRecordEvents(s, e, t); } else if t in Next(s, e).tunnels { NewTunnel(s, e, t); }
      NeverEarly(Next(s, e), events[1..], t);
    }
  }

  /** Without a failing upgrade every live transport is covered at all times. */
  lemma CoveredWithoutFailures(limit: nat, workers: nat, events: seq<Event>)
    requires forall e :: e in events ==> !e.UpgradeFails?
    ensures var s := Exec(Idle(limit, workers), events);
            (forall t :: t in s.live ==> HasPermitOrSlot(s, t)) && |s.live| <= limit + CAPACITY
  {
    var s := Exec(Idle(limit, workers), events);
    IdleHolds(limit, workers);
    forall t ensures !FailedAfterHandover(s, t) { NeverEarly(Idle(limit, workers), events, t); }
    forall t | t in s.live ensures HasPermitOrSlot(s, t) { EveryTransportIsCoveredOnce(limit, workers, events, t); }
    LiveIsBounded(limit, workers, events);
  }

  // ----- a run in which it happens -----

  lemma {:induction false} ExecSplit(s: Up, x: seq<Event>, y: seq<Event>)
    ensures Exec(s, x + y) == Exec(Exec(s, x), y)
    decreases |x|
  {
    hide Next;
    if x == [] {
      assert x + y == y;
    } else {
      ExecSplit(Next(s, x[0]), x[1..], y);
      assert (x + y)[1..] == x[1..] + y;
    }
  }

  lemma Four(s: Up, events: seq<Event>)
    requires |events| == 4
    ensures Exec(s, events) == Next(Next(Next(Next(s, events[0]), events[1]), events[2]), events[3])
  {
    hide Next;
    var s1 := Next(s, events[0]);
    var s2 := Next(s1, events[1]);
    var s3 := Next(s2, events[2]);
    assert Exec(s, events) == Exec(s1, events[1..]) && events[1..][1..] == events[2..] && events[2..][1..] == events[3..];
    assert Exec(s1, events[1..]) == Exec(s2, events[2..]) && Exec(s2, events[2..]) == Exec(s3, events[3..]);
  }

  /** A request is admitted and connects over HTTP/1. */
  lemma Connects(s: Up, p: nat, t: nat, events: seq<Event>)
    requires s.free > 0 && p == s.nextPermit && t == s.nextTransport && p !in s.held
    requires events == [Admit, Dial(p), SocketOpens(p), BecomesH1(p)]
    ensures Exec(s, events) ==
      s.(free := s.free - 1, held := s.held[p := H1Owned(t)], nextPermit := p + 1, live := s.live + {t}, nextTransport := t + 1)
  {
    Four(s, events);
    var s1 := Next(s, Admit);
    assert s1.held[p] == Requesting;
    var s2 := Next(s1, Dial(p));
    assert s2.held == s.held[p := Dialing(None)];
    var s3 := Next(s2, SocketOpens(p));
    assert s3.held == s.held[p := Dialing(Some(t))];
    assert Next(s3, BecomesH1(p)).held == s.held[p := H1Owned(t)];
  }

  lemma SwitchesAndHandsOver(s: Up, p: nat, t: nat)
    requires p in s.held && s.held[p] == H1Owned(t) && t !in s.tunnels
    ensures Next(Next(s, SwitchesProtocols(p)), HandsOver(t)) ==
      s.(held := s.held[p := Tunneled(t)], tunnels := s.tunnels[t := Tunnel(true, true, false, false)])
  {
    var s' := s.(held := s.held[p := Tunneled(t)], tunnels := s.tunnels[t := Tunnel(false, true, false, false)]);
    assert Next(s, SwitchesProtocols(p)) == s';
    assert s'.tunnels[t := Tunnel(true, true, false, false)] == s.tunnels[t := Tunnel(true, true, false, false)];
  }

  /** Its upgrade fails after the handover, and its driver is joined. */
  lemma Fails(s: Up, p: nat, t: nat, events: seq<Event>)
    requires p in s.held && s.held[p] == H1Owned(t) && t !in s.tunnels && |Sections(s.tunnels)| < s.workers
    requires events == [SwitchesProtocols(p), HandsOver(t), UpgradeFails(p), DriverJoined(p)]
    ensures Exec(s, events) == s.(free := s.free + 1, held := s.held - {p}, tunnels := s.tunnels[t := Tunnel(true, true, true, true)])
  {
    hide Next, Exec, Sections;
    Four(s, events);
    var s2 := s.(held := s.held[p := Tunneled(t)], tunnels := s.tunnels[t := Tunnel(true, true, false, false)]);
    SwitchesAndHandsOver(s, p, t);
    QuietTunnel(s.tunnels, t);
    FailsLate(s2, p, t);
    assert s2.held - {p} == s.held - {p};
    assert s2.tunnels[t := Tunnel(true, true, true, true)] == s.tunnels[t := Tunnel(true, true, true, true)];
  }

  /** A tunnel that nothing has failed on is in no failure section. */
  lemma QuietTunnel(tunnels: map<nat, Tunnel>, t: nat)
    requires t !in tunnels
    ensures Sections(tunnels[t := Tunnel(true, true, false, false)]) == Sections(tunnels)
  {
  }

  lemma FailsLate(s: Up, p: nat, t: nat)
    requires p in s.held && s.held[p] == Tunneled(t) && t in s.tunnels && s.tunnels[t] == Tunnel(true, true, false, false)
    ensures |Sections(s.tunnels)| < s.workers ==>
      Next(Next(s, UpgradeFails(p)), DriverJoined(p)) ==
        s.(free := s.free + 1, held := s.held - {p}, tunnels := s.tunnels[t := Tunnel(true, true, true, true)])
  {
    if |Sections(s.tunnels)| < s.workers {
      var s' := s.(held := s.held[p := H1Retiring(t, false)], tunnels := s.tunnels[t := Tunnel(true, true, true, false)]);
      assert Next(s, UpgradeFails(p)) == s';
      assert Next(s', DriverJoined(p)) == JoinTunnel(s', p, t);
      assert s'.held - {p} == s.held - {p};
      assert s'.tunnels[t := Tunnel(true, true, true, true)] == s.tunnels[t := Tunnel(true, true, true, true)];
    }
  }

  /** With one permit and one thread: a WebSocket exchange fails after the
      server's side was handed over, its driver is joined, and the next request
      is admitted and connects. Two sockets are open then, the first of them
      under no permit and in no slot. */
  lemma FailedUpgradeLeavesASocket(p: nat, q: nat, first: seq<Event>, second: seq<Event>, third: seq<Event>)
    requires p == 0 && q == 1
    requires first == [Admit, Dial(p), SocketOpens(p), BecomesH1(p)]
    requires second == [SwitchesProtocols(p), HandsOver(p), UpgradeFails(p), DriverJoined(p)]
    requires third == [Admit, Dial(q), SocketOpens(q), BecomesH1(q)]
    ensures var s := Exec(Idle(1, 1), first + second + third);
            s.live == {0, 1} && s.pool == [] && !HasPermitOrSlot(s, 0) && |s.live| > s.limit + |s.pool|
  {
    hide Exec, Next;
    var s0 := Idle(1, 1);
    ExecSplit(s0, first + second, third);
    ExecSplit(s0, first, second);
    Connects(s0, p, 0, first);
    var s4 := Exec(s0, first);
    assert Sections(s4.tunnels) == {};
    Fails(s4, p, 0, second);
    var s8 := Exec(s4, second);
    Connects(s8, q, 1, third);
    var s := Exec(s8, third);
    assert s.held == map[1 := H1Owned(1)] && s.live == {0, 1};
  }
}
