/** Nothing is lost: every permit that was not leaked on purpose can be given
    back, every published slot can be freed, and a parked connection can be
    taken again. */
module UpstreamReturns {
  import opened Bytes
  import opened OwnerPool
  import opened Upstream
  import opened UpstreamSafety
  import opened UpstreamFailures
  import UpstreamLives

  // ----- permits -----

  /** How many events a permit is away from being given back. */
  function Left(s: Up, h: Holder): nat {
    match h
    case Requesting => 1
    case Resolving => 1
    case Dialing(_) => 1
    case H1Owned(_) => 2
    case Tunneled(t) => if t in s.tunnels && s.tunnels[t].open then 3 else 2
    case H1Retiring(_, resume) => if resume then 2 else 1
    case Gated(_) => 3
    case Exclusive(_) => 3
    case Shared(_) => 1
    case Draining(t) => if t in s.live then 2 else 1
    case Forgotten(_) => 0
  }

  /** The event that brings the holder of permit `p` closer to its end: the
      request leaves, the lookup or the driver is joined, the exchange ends,
      the transport or the receiving end of an upgrade is dropped. */
  function EndingEvent(s: Up, p: nat): Event
    requires p in s.held && !s.held[p].Forgotten?
  {
    match s.held[p]
    case Requesting => Leave(p)
    case Resolving => LookupJoined(p, false)
    case Dialing(_) => DialEnds(p)
    case H1Owned(_) => EndsH1(p)
    case Tunneled(t) => if t in s.tunnels && s.tunnels[t].open then ReceiverDrops(t) else TunnelEnds(p)
    case H1Retiring(_, resume) => if resume then ReselectionCancelled(p) else DriverJoined(p)
    case Gated(_) => LeavesGate(p)
    case Exclusive(_) => EndsExclusive(p)
    case Shared(_) => EndsShared(p)
    case Draining(t) => if t in s.live then Closes(t) else Drained(p)
  }

  /** No other permit is touched; this one is given back or comes closer. */
  ghost predicate Closer(s: Up, s': Up, p: nat)
    requires p in s.held
  {
    && s'.held - {p} == s.held - {p}
    && if p in s'.held then s'.free == s.free && !s'.held[p].Forgotten? && Left(s', s'.held[p]) < Left(s, s.held[p])
       else s'.free == s.free + 1
  }

  lemma SetIsCloser(s: Up, p: nat, h: Holder)
    requires p in s.held && !h.Forgotten? && Left(s, h) < Left(s, s.held[p])
    ensures Closer(s, Set(s, p, h), p)
  {
    assert s.held[p := h] - {p} == s.held - {p};
  }

  lemma ReleaseIsCloser(s: Up, t: Option<nat>, p: nat)
    requires p in s.held
    ensures Closer(s, Release(Close(s, t), p), p)
  {
    assert (s.held - {p}) - {p} == s.held - {p};
  }

  lemma EndingIsCloser(s: Up, p: nat)
    requires Inv(s) && p in s.held && !s.held[p].Forgotten?
    ensures var e := EndingEvent(s, p); !e.Admit? && !e.Forgets? && Closer(s, Next(s, e), p)
  {
    hide Inv, Closer, FirstH1, Sections, Slots;
    Known(s, p);
    match s.held[p]
    case Requesting => ReleaseIsCloser(s, None, p);
    case Resolving => ReleaseIsCloser(s, None, p);
    case Dialing(socket) => ReleaseIsCloser(s, socket, p);
    case H1Owned(t) => SetIsCloser(s, p, H1Retiring(t, false));
    case Tunneled(t) => if s.tunnels[t].open { DropIsCloser(s, p, t); } else { SetIsCloser(s, p, H1Retiring(t, false)); }
    case H1Retiring(t, resume) => if resume { SetIsCloser(s, p, H1Retiring(t, false)); } else { JoinIsCloser(s, p, t); }
    case Gated(t) => SetIsCloser(s, p, Draining(t));
    case Exclusive(t) => SetIsCloser(s, p, Draining(t));
    case Shared(_) => ReleaseIsCloser(s, None, p);
    case Draining(t) => if t in s.live { ClosesIsCloser(s, p, t); } else { ReleaseIsCloser(s, None, p); }
  }

  lemma DropIsCloser(s: Up, p: nat, t: nat)
    requires p in s.held && s.held[p] == Tunneled(t) && t in s.tunnels && s.tunnels[t].open
    ensures Closer(s, Next(s, ReceiverDrops(t)), p)
  {
  }

  lemma ClosesIsCloser(s: Up, p: nat, t: nat)
    requires p in s.held && s.held[p] == Draining(t) && t in s.live
    ensures Closer(s, Next(s, Closes(t)), p)
  {
  }

  lemma JoinIsCloser(s: Up, p: nat, t: nat)
    requires p in s.held && s.held[p] == H1Retiring(t, false)
    ensures Closer(s, Next(s, DriverJoined(p)), p)
  {
    assert (s.held - {p}) - {p} == s.held - {p};
    if t !in s.tunnels { ReleaseIsCloser(s, Some(t), p); }
  }

  /** Events that neither admit a request nor leak a permit. */
  ghost predicate Ending(events: seq<Event>) { forall e :: e in events ==> !e.Admit? && !e.Forgets? }

  ghost predicate GivesBack(s: Up, p: nat, more: seq<Event>) {
    Ending(more) && Exec(s, more).held == s.held - {p} && Exec(s, more).free == s.free + 1
  }

  lemma {:induction false} PermitComesBack(s: Up, p: nat)
    requires Inv(s) && p in s.held && !s.held[p].Forgotten?
    ensures exists more :: GivesBack(s, p, more)
    decreases Left(s, s.held[p])
  {
    hide Inv, Next;
    var e := EndingEvent(s, p);
    var s' := Next(s, e);
    EndingIsCloser(s, p);
    NextKeeps(s, e);
    if p in s'.held {
      PermitComesBack(s', p);
      var more :| GivesBack(s', p, more);
      assert ([e] + more)[1..] == more;
      assert GivesBack(s, p, [e] + more);
    } else {
      assert s'.held == s'.held - {p};
      assert [e][1..] == [] && Exec(s, [e]) == Exec(s', []);
      assert GivesBack(s, p, [e]);
    }
  }

  /** The permits that were leaked on purpose. */
  function Leaked(held: map<nat, Holder>): map<nat, Holder> { map p | p in held && held[p].Forgotten? :: held[p] }

  ghost predicate GivesAllBack(s: Up, more: seq<Event>) {
    Ending(more) && Exec(s, more).held == Leaked(s.held) && Exec(s, more).free == s.free + |s.held| - |Leaked(s.held)|
  }

  lemma {:induction false} PermitsComeBack(s: Up)
    requires Inv(s)
    ensures exists more :: GivesAllBack(s, more)
    decreases |s.held|
  {
    hide Inv, Next, Exec, Leaked, Ending;
    if exists p :: p in s.held && !s.held[p].Forgotten? {
      var p :| p in s.held && !s.held[p].Forgotten?;
      PermitComesBack(s, p);
      var first :| GivesBack(s, p, first);
      ExecKeeps(s, first);
      var s' := Exec(s, first);
      OneLess(s.held, p);
      PermitsComeBack(s');
      var more :| GivesAllBack(s', more);
      ExecSplit(s, first, more);
      assert Ending(first + more) by { EndingBoth(first, more); }
      assert GivesAllBack(s, first + more);
    } else {
      AllLeaked(s);
    }
  }

  lemma EndingBoth(x: seq<Event>, y: seq<Event>)
    requires Ending(x) && Ending(y)
    ensures Ending(x + y)
  {
  }

  lemma AllLeaked(s: Up)
    requires forall p :: p in s.held ==> s.held[p].Forgotten?
    ensures GivesAllBack(s, [])
  {
    assert Leaked(s.held) == s.held;
  }

  lemma OneLess(held: map<nat, Holder>, p: nat)
    requires p in held && !held[p].Forgotten?
    ensures |held - {p}| == |held| - 1 && Leaked(held - {p}) == Leaked(held)
  {
    assert Leaked(held - {p}) == Leaked(held);
    assert (held - {p}).Keys == held.Keys - {p};
    assert |held - {p}| == |(held - {p}).Keys| && |held| == |held.Keys|;
  }

  /** Main result: no permit is lost. From every reachable state some events
      that end what is going on, without a new request and without a leak, give
      back every permit but those leaked before: the permits available and the
      leaked ones are then all there are. */
  lemma NoPermitIsLost(limit: nat, workers: nat, events: seq<Event>)
    ensures var s := Exec(Idle(limit, workers), events);
            exists more :: Ending(more) &&
              var s' := Exec(Idle(limit, workers), events + more);
              s'.held == Leaked(s.held) && s'.free + |Leaked(s.held)| == limit
  {
    hide Exec, Ending;
    IdleHolds(limit, workers);
    ExecKeeps(Idle(limit, workers), events);
    var s := Exec(Idle(limit, workers), events);
    PermitsComeBack(s);
    var more :| GivesAllBack(s, more);
    ExecSplit(Idle(limit, workers), events, more);
    PermitsAreConserved(limit, workers, events);
  }

  // ----- slots -----

  /** A published generation's slot can be freed from every reachable state, by
      its driver stopping and its transport dropping, and no other slot goes. */
  lemma SlotIsFreed(limit: nat, workers: nat, events: seq<Event>, g: nat, more: seq<Event>)
    requires g in Exec(Idle(limit, workers), events).drivers && more == [DriverStops(g), Closes(g), SlotFreed(g)]
    ensures var s := Exec(Idle(limit, workers), events); var s' := Exec(s, more);
            && g in s'.drivers && s'.drivers[g].stage == Finished && g !in s'.live && g !in Slots(s'.pool)
            && forall e: Entry :: e.transport != g ==> (e in s'.pool <==> e in s.pool)
  {
    hide Exec, Slots;
    IdleHolds(limit, workers);
    ExecKeeps(Idle(limit, workers), events);
    var s := Exec(Idle(limit, workers), events);
    ThreeEvents(s, more);
    SlotGoes(s, g);
  }

  lemma ThreeEvents(s: Up, events: seq<Event>)
    requires |events| == 3
    ensures Exec(s, events) == Next(Next(Next(s, events[0]), events[1]), events[2])
  {
    hide Next;
    var s1 := Next(s, events[0]);
    assert Exec(s, events) == Exec(s1, events[1..]) && events[1..][1..] == events[2..];
    assert Exec(s1, events[1..]) == Exec(Next(s1, events[1]), events[2..]);
  }

  lemma SlotGoes(s: Up, g: nat)
    requires Inv(s) && g in s.drivers
    ensures var s' := Next(Next(Next(s, DriverStops(g)), Closes(g)), SlotFreed(g));
            && g in s'.drivers && s'.drivers[g].stage == Finished && g !in s'.live && g !in Slots(s'.pool)
            && forall e: Entry :: e.transport != g ==> (e in s'.pool <==> e in s.pool)
  {
    hide Inv, Next, Slots;
    var s1 := Next(s, DriverStops(g));
    var s2 := Next(s1, Closes(g));
    NextKeeps(s, DriverStops(g));
    NextKeeps(s1, Closes(g));
    NextKeeps(s2, SlotFreed(g));
    assert Distinct(s.pool) by { DistinctPool(s); }
    Stops(s, g);
    Frees(s1, g);
    FinishedHasNoSlot(Next(s2, SlotFreed(g)), g);
  }

  lemma Stops(s: Up, g: nat)
    requires Distinct(s.pool) && g in s.drivers
    ensures var s' := Next(s, DriverStops(g));
            && g in s'.drivers && s'.drivers[g].stage != Running
            && forall e: Entry :: e.transport != g ==> (e in s'.pool <==> e in s.pool)
  {
    hide Act, Retired;
    RetiredIsScoped(s.pool, g);
  }

  lemma Frees(s: Up, g: nat)
    requires g in s.drivers && s.drivers[g].stage != Running
    ensures var s' := Next(Next(s, Closes(g)), SlotFreed(g));
            && g in s'.drivers && s'.drivers[g].stage == Finished && g !in s'.live
            && forall e: Entry :: e.transport != g ==> (e in s'.pool <==> e in s.pool)
  {
    hide Act, Without;
  }

  lemma DistinctPool(s: Up)
    requires Inv(s)
    ensures Distinct(s.pool)
  {
  }

  lemma FinishedHasNoSlot(s: Up, g: nat)
    requires Inv(s) && g in s.drivers
    ensures s.drivers[g].stage == Finished ==> g !in Slots(s.pool)
  {
    assert forall e :: e in s.pool && e.transport == g ==> EntryOk(s, e);
  }

  // ----- connections that are used again -----

  /** The connection a request took turns out stale: its permit stays with the
      request, which selects again, unless the request is cancelled meanwhile. */
  lemma StaleIsReselected(limit: nat, workers: nat, events: seq<Event>, p: nat, t: nat, more: seq<Event>, cancelled: seq<Event>)
    requires var s := Exec(Idle(limit, workers), events); p in s.held && s.held[p] == H1Owned(t)
    requires more == [FoundStale(p), DriverJoined(p)] && cancelled == [FoundStale(p), ReselectionCancelled(p), DriverJoined(p)]
    ensures var s := Exec(Idle(limit, workers), events); var s', c := Exec(s, more), Exec(s, cancelled);
            && s'.held == s.held[p := Requesting] && s'.free == s.free && t !in s'.live
            && c.held == s.held - {p} && c.free == s.free + 1 && t !in c.live
  {
    hide Exec;
    IdleHolds(limit, workers);
    ExecKeeps(Idle(limit, workers), events);
    var s := Exec(Idle(limit, workers), events);
    hide Inv, Next;
    Known(s, p);
    TwoEvents(s, more);
    ThreeEvents(s, cancelled);
    Reselected(s, p, t);
  }

  lemma Reselected(s: Up, p: nat, t: nat)
    requires p in s.held && s.held[p] == H1Owned(t) && t !in s.tunnels
    ensures var s1 := Next(s, FoundStale(p));
            && Next(s1, DriverJoined(p)) == s.(held := s.held[p := Requesting], live := s.live - {t})
            && Next(Next(s1, ReselectionCancelled(p)), DriverJoined(p)) == s.(held := s.held - {p}, free := s.free + 1, live := s.live - {t})
  {
    var s1 := Next(s, FoundStale(p));
    assert s1 == Set(s, p, H1Retiring(t, true));
    assert s1.held[p := Requesting] == s.held[p := Requesting];
    var s2 := Next(s1, ReselectionCancelled(p));
    assert s2 == Set(s1, p, H1Retiring(t, false)) && s2.held - {p} == s.held - {p};
  }

  lemma TwoEvents(s: Up, events: seq<Event>)
    requires |events| == 2
    ensures Exec(s, events) == Next(Next(s, events[0]), events[1])
  {
    hide Next;
    assert Exec(s, events) == Exec(Next(s, events[0]), events[1..]);
  }

  /** A connection that is parked while there is room is there for the next
      request, which takes the idle connection parked first and opens none. */
  lemma ParkedIsReused(limit: nat, workers: nat, events: seq<Event>, p: nat, t: nat, i: nat, more: seq<Event>)
    requires var s := Exec(Idle(limit, workers), events);
             && p in s.held && s.held[p] == H1Owned(t) && |s.pool| < CAPACITY
             && i < |s.pool| + 1 && (s.pool + [H1(t)])[i].H1? && (forall k :: 0 <= k < i ==> !(s.pool + [H1(t)])[k].H1?)
             && more == [Parks(p), Admit, TakesIdle(s.nextPermit)]
    ensures var s := Exec(Idle(limit, workers), events); var s', parked := Exec(s, more), s.pool + [H1(t)];
            && s'.held == (s.held - {p})[s.nextPermit := H1Owned(parked[i].transport)]
            && s'.pool == parked[..i] + parked[i + 1..] && s'.live == s.live && s'.nextTransport == s.nextTransport && s'.free == s.free
  {
    hide Exec;
    IdleHolds(limit, workers);
    ExecKeeps(Idle(limit, workers), events);
    var s := Exec(Idle(limit, workers), events);
    ThreeEvents(s, more);
    hide Inv, Next;
    assert s.nextPermit !in s.held by { FreshPermit(s); }
    Parked(s, p, t);
    Retaken(s.(pool := s.pool + [H1(t)], held := s.held - {p}, free := s.free + 1), i);
  }

  lemma FreshPermit(s: Up)
    requires Inv(s)
    ensures s.nextPermit !in s.held
  {
  }

  lemma Parked(s: Up, p: nat, t: nat)
    requires p in s.held && s.held[p] == H1Owned(t) && |s.pool| < CAPACITY
    ensures Next(s, Parks(p)) == s.(pool := s.pool + [H1(t)], held := s.held - {p}, free := s.free + 1)
  {
  }

  lemma Retaken(s: Up, i: nat)
    requires s.free > 0 && i < |s.pool| && s.pool[i].H1? && forall k :: 0 <= k < i ==> !s.pool[k].H1?
    ensures var q := s.nextPermit; var s' := Next(Next(s, Admit), TakesIdle(q));
            && s'.held == s.held[q := H1Owned(s.pool[i].transport)] && s'.pool == s.pool[..i] + s.pool[i + 1..]
            && s'.live == s.live && s'.nextTransport == s.nextTransport && s'.free == s.free - 1
  {
    var q := s.nextPermit;
    var s2 := s.(free := s.free - 1, held := s.held[q := Requesting], nextPermit := q + 1);
    assert Next(s, Admit) == s2;
    assert FirstH1(s2.pool, 0) == i;
    assert s2.held[q := H1Owned(s.pool[i].transport)] == s.held[q := H1Owned(s.pool[i].transport)];
  }

  // ----- what is published, and when -----

  /** Event `i` of the run let transport `g` through its gate. */
  ghost predicate PassesAt(limit: nat, workers: nat, events: seq<Event>, i: nat, g: nat)
    requires i < |events|
  {
    var s := Exec(Idle(limit, workers), events[..i]);
    events[i].PassesGate? && events[i].p in s.held && s.held[events[i].p] == Gated(g)
  }

  /** It was selectable and there was room for a slot. */
  ghost predicate PublishesAt(limit: nat, workers: nat, events: seq<Event>, i: nat, g: nat)
    requires i < |events|
  {
    PassesAt(limit, workers, events, i, g) && events[i].selectable && |Exec(Idle(limit, workers), events[..i]).pool| < CAPACITY
  }

  lemma OthersLeaveDrivers(s: Up, e: Event, h: Holder)
    requires !OfSystem(e) && !h.Gated?
    ensures Act(s, e, h).drivers == s.drivers
  {
    hide FirstH1, Sections, ActGated;
  }

  lemma HolderDrivers(s: Up, e: Event, g: nat)
    requires !OfSystem(e) && e.p in s.held
    ensures var s' := Act(s, e, s.held[e.p]);
            if e.PassesGate? && s.held[e.p] == Gated(g) then g in s'.drivers && s'.drivers[g].published == (e.selectable && |s.pool| < CAPACITY)
            else (g in s'.drivers <==> g in s.drivers) && (g in s.drivers ==> s'.drivers[g] == s.drivers[g])
  {
    hide FirstH1, Sections, ActRequesting, ActResolving, ActDialing, ActH1Owned, ActTunneled, ActH1Retiring;
    if !s.held[e.p].Gated? { OthersLeaveDrivers(s, e, s.held[e.p]); }
  }

  lemma DriversStep(s: Up, e: Event, g: nat)
    ensures var s' := Next(s, e);
            if e.PassesGate? && e.p in s.held && s.held[e.p] == Gated(g)
            then g in s'.drivers && s'.drivers[g].published == (e.selectable && |s.pool| < CAPACITY)
            else (g in s'.drivers <==> g in s.drivers) && (g in s.drivers ==> s'.drivers[g].published == s.drivers[g].published)
  {
    hide Act, Retired, Without;
    if !OfSystem(e) && e.p in s.held { HolderDrivers(s, e, g); }
  }

  /** In every run a generation exists exactly if its transport passed the
      gate, and is published exactly if it was selectable then and there was
      room in the pool; and only a published generation is ever shared. */
  lemma {:induction false} PublishedWhenSelectable(limit: nat, workers: nat, events: seq<Event>, g: nat)
    ensures var s := Exec(Idle(limit, workers), events);
            && (g in s.drivers <==> exists i :: 0 <= i < |events| && PassesAt(limit, workers, events, i, g))
            && (g in s.drivers && s.drivers[g].published <==> exists i :: 0 <= i < |events| && PublishesAt(limit, workers, events, i, g))
            && (forall p :: p in s.held && s.held[p] == Shared(g) ==> g in s.drivers && s.drivers[g].published)
    decreases |events|
  {
    if events != [] {
      hide Next, Exec, PassesAt, PublishesAt;
      var n := |events| - 1;
      var before, e := events[..n], events[n];
      PublishedWhenSelectable(limit, workers, before, g);
      var s := Exec(Idle(limit, workers), before);
      IdleHolds(limit, workers);
      ExecKeeps(Idle(limit, workers), before);
      assert events == before + [e];
      ExecSnoc(Idle(limit, workers), before, e);
      DriversStep(s, e, g);
      SharedStep(s, e, g);
      PassesSnoc(limit, workers, before, e, g);
      if e.PassesGate? && e.p in s.held && s.held[e.p] == Gated(g) { assert g !in s.drivers by { Known(s, e.p); } }
    }
  }

  lemma PassesSnoc(limit: nat, workers: nat, before: seq<Event>, e: Event, g: nat)
    ensures var s, all := Exec(Idle(limit, workers), before), before + [e];
            var now := e.PassesGate? && e.p in s.held && s.held[e.p] == Gated(g);
            && ((exists i :: 0 <= i < |all| && PassesAt(limit, workers, all, i, g)) <==>
                  now || exists i :: 0 <= i < |before| && PassesAt(limit, workers, before, i, g))
            && ((exists i :: 0 <= i < |all| && PublishesAt(limit, workers, all, i, g)) <==>
                  (now && e.selectable && |s.pool| < CAPACITY) || exists i :: 0 <= i < |before| && PublishesAt(limit, workers, before, i, g))
  {
    hide Exec;
    var all, n := before + [e], |before|;
    assert all[..n] == before && all[n] == e;
    forall i | 0 <= i < n
      ensures PassesAt(limit, workers, all, i, g) <==> PassesAt(limit, workers, before, i, g)
      ensures PublishesAt(limit, workers, all, i, g) <==> PublishesAt(limit, workers, before, i, g)
    {
      assert all[..i] == before[..i];
    }
    assert PassesAt(limit, workers, all, n, g) <==>
      (e.PassesGate? && e.p in Exec(Idle(limit, workers), before).held && Exec(Idle(limit, workers), before).held[e.p] == Gated(g));
    assert PublishesAt(limit, workers, all, n, g) <==>
      (PassesAt(limit, workers, all, n, g) && e.selectable && |Exec(Idle(limit, workers), before).pool| < CAPACITY);
  }

  lemma OthersDoNotShare(s: Up, e: Event, h: Holder)
    requires !OfSystem(e) && e.p in s.held && s.held[e.p] == h && !h.Requesting? && !h.Gated? && !h.Shared?
    ensures e.p in Act(s, e, h).held ==> !Act(s, e, h).held[e.p].Shared?
  {
    hide FirstH1, Sections, ActRequesting, ActGated;
  }

  lemma HolderShares(s: Up, e: Event, g: nat)
    requires !OfSystem(e) && e.p in s.held
    ensures var s' := Act(s, e, s.held[e.p]);
            && (forall q :: q != e.p && q in s'.held ==> q in s.held && s'.held[q] == s.held[q])
            && (e.p in s'.held && s'.held[e.p] == Shared(g) ==> s.held[e.p] == Shared(g) || (g in s'.drivers && s'.drivers[g].published))
  {
    hide FirstH1, Sections, ActResolving, ActDialing, ActH1Owned, ActTunneled, ActH1Retiring;
    var h := s.held[e.p];
    var s' := Act(s, e, h);
    forall q | q != e.p && q in s'.held ensures q in s.held && s'.held[q] == s.held[q] { UpstreamLives.HolderFrame(s, e, h, q); }
    if !h.Requesting? && !h.Gated? && !h.Shared? { OthersDoNotShare(s, e, h); }
  }

  lemma SharedStep(s: Up, e: Event, g: nat)
    requires Inv(s)
    requires forall p :: p in s.held && s.held[p] == Shared(g) ==> g in s.drivers && s.drivers[g].published
    ensures forall p :: p in Next(s, e).held && Next(s, e).held[p] == Shared(g) ==> g in Next(s, e).drivers && Next(s, e).drivers[g].published
  {
    hide Act, Retired, Without, Inv;
    DriversStep(s, e, g);
    if !OfSystem(e) && e.p in s.held {
      HolderShares(s, e, g);
      Known(s, e.p);
    }
  }
}
