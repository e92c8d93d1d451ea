/** The lives of upstream connections, from admission to the end: what each
    way through the code does to permits, sockets, slots and drivers, from any
    state it starts in. */
module UpstreamLives {
  import opened Bytes
  import opened OwnerPool
  import opened Upstream
  import opened UpstreamSafety

  lemma ExecCons(s: Up, e: Event, rest: seq<Event>)
    ensures Exec(s, [e] + rest) == Exec(Next(s, e), rest)
  {
    hide Next;
    assert ([e] + rest)[1..] == rest;
  }

  lemma Five(s: Up, a: Event, b: Event, c: Event, d: Event, e: Event)
    ensures Exec(s, [a, b, c, d, e]) == Next(Next(Next(Next(Next(s, a), b), c), d), e)
  {
    hide Next, Exec;
    var s1 := Next(s, a);
    var s2 := Next(s1, b);
    var s3 := Next(s2, c);
    var s4 := Next(s3, d);
    assert [a, b, c, d, e] == [a] + ([b] + ([c] + ([d] + ([e] + []))));
    ExecCons(s, a, [b] + ([c] + ([d] + ([e] + []))));
    ExecCons(s1, b, [c] + ([d] + ([e] + [])));
    ExecCons(s2, c, [d] + ([e] + []));
    ExecCons(s3, d, [e] + []);
    ExecCons(s4, e, []);
    assert Exec(Next(s4, e), []) == Next(s4, e) by { NoEvents(Next(s4, e)); }
  }

  lemma NoEvents(s: Up)
    ensures Exec(s, []) == s
  {
  }

  /** A request is admitted, looks its host up, dials, and its socket opens. */
  lemma RequestConnects(s: Up, q: nat, t: nat)
    requires s.free > 0 && q == s.nextPermit && t == s.nextTransport
    ensures Exec(s, [Admit, LookUp(q), LookupJoined(q, true), Dial(q), SocketOpens(q)]) ==
      s.(free := s.free - 1, held := s.held[q := Dialing(Some(t))], nextPermit := q + 1, live := s.live + {t}, nextTransport := t + 1)
  {
    hide Exec, Next;
    var s1 := s.(free := s.free - 1, held := s.held[q := Requesting], nextPermit := q + 1);
    Five(s, Admit, LookUp(q), LookupJoined(q, true), Dial(q), SocketOpens(q));
    Admits(s);
    LooksUp(s1, q);
    Opens(s1, q);
    assert s1.held[q := Dialing(Some(t))] == s.held[q := Dialing(Some(t))];
  }

  lemma Admits(s: Up)
    requires s.free > 0
    ensures Next(s, Admit) == s.(free := s.free - 1, held := s.held[s.nextPermit := Requesting], nextPermit := s.nextPermit + 1)
  {
  }

  lemma LooksUp(s: Up, q: nat)
    requires q in s.held && s.held[q] == Requesting
    ensures Next(Next(s, LookUp(q)), LookupJoined(q, true)) == s
  {
    assert Next(s, LookUp(q)) == Set(s, q, Resolving);
    assert s.held[q := Resolving][q := Requesting] == s.held;
  }

  lemma Opens(s: Up, q: nat)
    requires q in s.held && s.held[q] == Requesting
    ensures Next(Next(s, Dial(q)), SocketOpens(q)) ==
      s.(held := s.held[q := Dialing(Some(s.nextTransport))], live := s.live + {s.nextTransport}, nextTransport := s.nextTransport + 1)
  {
    assert Next(s, Dial(q)) == Set(s, q, Dialing(None));
    assert s.held[q := Dialing(None)][q := Dialing(Some(s.nextTransport))] == s.held[q := Dialing(Some(s.nextTransport))];
  }

  /** A socket that is lost while dialing is closed, and the next attempt opens
      another under the same permit. */
  lemma RedialsAfterLoss(s: Up, q: nat, t: nat)
    requires q in s.held && s.held[q] == Dialing(Some(t))
    ensures Next(Next(s, SocketLost(q)), SocketOpens(q)) ==
      s.(held := s.held[q := Dialing(Some(s.nextTransport))], live := s.live - {t} + {s.nextTransport}, nextTransport := s.nextTransport + 1)
  {
    assert Next(s, SocketLost(q)) == s.(held := s.held[q := Dialing(None)], live := s.live - {t});
    assert s.held[q := Dialing(None)][q := Dialing(Some(s.nextTransport))] == s.held[q := Dialing(Some(s.nextTransport))];
  }

  /** An HTTP/1 connection serves one request and is closed; the permit comes
      back only after the driver was joined. */
  lemma Http1Life(s: Up, p: nat, t: nat)
    requires p in s.held && s.held[p] == Dialing(Some(t)) && t !in s.tunnels
    ensures var s1 := Next(s, BecomesH1(p)); var s2 := Next(s1, EndsH1(p)); var s3 := Next(s2, DriverJoined(p));
            && s1 == s.(held := s.held[p := H1Owned(t)]) && s2 == s.(held := s.held[p := H1Retiring(t, false)])
            && s3 == s.(held := s.held - {p}, free := s.free + 1, live := s.live - {t})
  {
    var s1 := Next(s, BecomesH1(p));
    assert s1 == Set(s, p, H1Owned(t));
    var s2 := Next(s1, EndsH1(p));
    assert s2.held == s.held[p := H1Retiring(t, false)];
    assert s2.held - {p} == s.held - {p};
  }

  /** One that comes back while the pool is full is closed instead. */
  lemma FullPoolRetires(s: Up, p: nat, t: nat)
    requires p in s.held && s.held[p] == H1Owned(t) && |s.pool| >= 8
    ensures Next(s, Parks(p)) == s.(held := s.held[p := H1Retiring(t, false)])
  {
  }

  /** An upgraded connection: the socket goes with the receiving end, the permit
      with the driver, and nothing of it is left open. */
  lemma UpgradeLife(s: Up, p: nat, t: nat)
    requires p in s.held && s.held[p] == H1Owned(t) && t !in s.tunnels
    ensures Exec(s, [SwitchesProtocols(p), HandsOver(t), ReceiverDrops(t), TunnelEnds(p), DriverJoined(p)]) ==
      s.(held := s.held - {p}, free := s.free + 1, live := s.live - {t}, tunnels := s.tunnels[t := Tunnel(true, false, false, true)])
  {
    hide Exec, Next, Sections;
    Five(s, SwitchesProtocols(p), HandsOver(t), ReceiverDrops(t), TunnelEnds(p), DriverJoined(p));
    Tunnels(s, p, t);
    Untunnels(s.(held := s.held[p := Tunneled(t)], live := s.live - {t}, tunnels := s.tunnels[t := Tunnel(true, false, false, false)]), p, t);
    assert s.held[p := Tunneled(t)] - {p} == s.held - {p};
    assert s.tunnels[t := Tunnel(true, false, false, false)][t := Tunnel(true, false, false, true)] == s.tunnels[t := Tunnel(true, false, false, true)];
  }

  lemma Tunnels(s: Up, p: nat, t: nat)
    requires p in s.held && s.held[p] == H1Owned(t) && t !in s.tunnels
    ensures Next(Next(Next(s, SwitchesProtocols(p)), HandsOver(t)), ReceiverDrops(t)) ==
      s.(held := s.held[p := Tunneled(t)], live := s.live - {t}, tunnels := s.tunnels[t := Tunnel(true, false, false, false)])
  {
    hide Next;
    var s1 := s.(held := s.held[p := Tunneled(t)], tunnels := s.tunnels[t := Tunnel(false, true, false, false)]);
    Switches(s, p, t);
    HandsThenDrops(s1, t);
    assert s1.tunnels[t := Tunnel(true, false, false, false)] == s.tunnels[t := Tunnel(true, false, false, false)];
  }

  lemma Switches(s: Up, p: nat, t: nat)
    requires p in s.held && s.held[p] == H1Owned(t)
    ensures Next(s, SwitchesProtocols(p)) == s.(held := s.held[p := Tunneled(t)], tunnels := s.tunnels[t := Tunnel(false, true, false, false)])
  {
  }

  lemma HandsThenDrops(s: Up, t: nat)
    requires t in s.tunnels && s.tunnels[t] == Tunnel(false, true, false, false)
    ensures Next(Next(s, HandsOver(t)), ReceiverDrops(t)) == s.(live := s.live - {t}, tunnels := s.tunnels[t := Tunnel(true, false, false, false)])
  {
    hide Act;
    var s1 := s.(tunnels := s.tunnels[t := Tunnel(true, true, false, false)]);
    assert Next(s, HandsOver(t)) == s1;
    assert s1.tunnels[t := Tunnel(true, false, false, false)] == s.tunnels[t := Tunnel(true, false, false, false)];
  }

  lemma Untunnels(s: Up, p: nat, t: nat)
    requires p in s.held && s.held[p] == Tunneled(t) && t in s.tunnels && s.tunnels[t] == Tunnel(true, false, false, false)
    ensures Next(Next(s, TunnelEnds(p)), DriverJoined(p)) ==
      s.(held := s.held - {p}, free := s.free + 1, tunnels := s.tunnels[t := Tunnel(true, false, false, true)])
  {
    var s1 := Next(s, TunnelEnds(p));
    assert s1 == Set(s, p, H1Retiring(t, false));
    assert s1.held - {p} == s.held - {p};
  }

  /** A proved HTTP/2 connection that is selectable while there is room gets a
      slot and is shared; a second request can join it; each permit comes back
      with its own exchange, and the connection stays. */
  lemma SharedLife(s: Up, p: nat, q: nat, t: nat)
    requires p in s.held && s.held[p] == Dialing(Some(t)) && |s.pool| < 8 && q in s.held && q != p && s.held[q] == Requesting
    ensures Exec(s, [EntersGate(p), PassesGate(p, true), Reserves(q, t), EndsShared(p), EndsShared(q)]) ==
      s.(held := s.held - {p, q}, free := s.free + 2, pool := s.pool + [H2(t)], drivers := s.drivers[t := Driver(true, Running)])
  {
    hide Exec, Next, Sections;
    Five(s, EntersGate(p), PassesGate(p, true), Reserves(q, t), EndsShared(p), EndsShared(q));
    Publishes(s, p, t);
    var s2 := s.(held := s.held[p := Shared(t)], pool := s.pool + [H2(t)], drivers := s.drivers[t := Driver(true, Running)]);
    Shares(s2, p, q, t);
    assert s2.held - {p, q} == s.held - {p, q};
  }

  lemma Publishes(s: Up, p: nat, t: nat)
    requires p in s.held && s.held[p] == Dialing(Some(t)) && |s.pool| < 8
    ensures Next(Next(s, EntersGate(p)), PassesGate(p, true)) ==
      s.(held := s.held[p := Shared(t)], pool := s.pool + [H2(t)], drivers := s.drivers[t := Driver(true, Running)])
  {
    assert Next(s, EntersGate(p)) == Set(s, p, Gated(t));
    assert s.held[p := Gated(t)][p := Shared(t)] == s.held[p := Shared(t)];
  }

  lemma Shares(s: Up, p: nat, q: nat, t: nat)
    requires p in s.held && s.held[p] == Shared(t) && q in s.held && q != p && s.held[q] == Requesting && t in s.drivers && s.drivers[t].published
    ensures Next(Next(Next(s, Reserves(q, t)), EndsShared(p)), EndsShared(q)) == s.(held := s.held - {p, q}, free := s.free + 2)
  {
    hide Next;
    Joins(s, q, t);
    var s1 := Set(s, q, Shared(t));
    EndsExchange(s1, p, t);
    EndsExchange(Release(s1, p), q, t);
    assert Release(s1, p).held - {q} == s.held - {p, q};
  }

  lemma Joins(s: Up, q: nat, t: nat)
    requires q in s.held && s.held[q] == Requesting && t in s.drivers && s.drivers[t].published
    ensures Next(s, Reserves(q, t)) == Set(s, q, Shared(t))
  {
  }

  lemma EndsExchange(s: Up, p: nat, t: nat)
    requires p in s.held && s.held[p] == Shared(t)
    ensures Next(s, EndsShared(p)) == Release(s, p)
  {
  }

  /** One that is not selectable, or finds no room, keeps its permit for itself
      until its transport has dropped. */
  lemma PrivateLife(s: Up, p: nat, t: nat, selectable: bool)
    requires p in s.held && s.held[p] == Dialing(Some(t)) && (!selectable || |s.pool| >= 8) && t in s.live
    ensures Exec(s, [EntersGate(p), PassesGate(p, selectable), EndsExclusive(p), Drained(p), Closes(t)]) ==
      s.(held := s.held[p := Draining(t)], live := s.live - {t}, drivers := s.drivers[t := Driver(false, Running)])
  {
    hide Exec;
    Five(s, EntersGate(p), PassesGate(p, selectable), EndsExclusive(p), Drained(p), Closes(t));
    var s1 := Next(s, EntersGate(p));
    assert s1 == Set(s, p, Gated(t));
    var s2 := Next(s1, PassesGate(p, selectable));
    assert s2 == s.(held := s.held[p := Exclusive(t)], drivers := s.drivers[t := Driver(false, Running)]) by {
      assert s.held[p := Gated(t)][p := Exclusive(t)] == s.held[p := Exclusive(t)];
    }
    Drains(s2, p, t);
    assert s2.held[p := Draining(t)] == s.held[p := Draining(t)];
  }

  lemma Drains(s: Up, p: nat, t: nat)
    requires p in s.held && s.held[p] == Exclusive(t) && t in s.live
    ensures Next(Next(Next(s, EndsExclusive(p)), Drained(p)), Closes(t)) == s.(held := s.held[p := Draining(t)], live := s.live - {t})
  {
    hide Next;
    EndsPrivate(s, p, t);
    NotDrained(Set(s, p, Draining(t)), p, t);
  }

  lemma EndsPrivate(s: Up, p: nat, t: nat)
    requires p in s.held && s.held[p] == Exclusive(t)
    ensures Next(s, EndsExclusive(p)) == Set(s, p, Draining(t))
  {
  }

  lemma NotDrained(s: Up, p: nat, t: nat)
    requires p in s.held && s.held[p] == Draining(t) && t in s.live
    ensures Next(s, Drained(p)) == s && Next(s, Closes(t)) == s.(live := s.live - {t})
  {
  }

  /** Retiring a published generation takes it out of selection, at once and for
      good, and leaves every other slot alone. */
  lemma RetiringTakesEffect(limit: nat, workers: nat, events: seq<Event>, g: nat)
    requires g in Exec(Idle(limit, workers), events).drivers && Exec(Idle(limit, workers), events).drivers[g].published
    ensures var s := Exec(Idle(limit, workers), events); var s' := Next(s, Retires(g));
            && s' == s.(pool := s'.pool) && H2(g) !in s'.pool && (RetiringH2(g) in s'.pool <==> g in Slots(s.pool))
            && forall e: Entry :: e.transport != g ==> (e in s'.pool <==> e in s.pool)
  {
    hide Exec, Retired, Act;
    IdleHolds(limit, workers);
    ExecKeeps(Idle(limit, workers), events);
    var s := Exec(Idle(limit, workers), events);
    assert Distinct(s.pool);
    RetiredIsScoped(s.pool, g);
    assert forall e :: e in s.pool && e.transport == g ==> EntryOk(s, e);
  }

  // ----- leaks -----

  lemma LeakStep(s: Up, e: Event, p: nat)
    requires p in s.held && s.held[p].Forgotten?
    ensures p in Next(s, e).held && (p != s.nextPermit ==> Next(s, e).held[p] == s.held[p])
    ensures s.nextPermit <= Next(s, e).nextPermit
  {
    hide Act, Retired, Without;
    if !OfSystem(e) && e.p in s.held {
      HolderNumbers(s, e, s.held[e.p]);
      if e.p == p { assert Act(s, e, s.held[p]) == s by { LeakedHolder(s, e, s.held[p]); } } else { HolderFrame(s, e, s.held[e.p], p); }
    }
  }

  lemma LeakedHolder(s: Up, e: Event, h: Holder)
    requires !OfSystem(e) && h.Forgotten?
    ensures Act(s, e, h) == s
  {
  }

  /** An event of one permit's holder leaves the other permits alone. */
  lemma EarlyFrame(s: Up, e: Event, h: Holder, q: nat)
    requires !OfSystem(e) && q != e.p && (h.Requesting? || h.Resolving? || h.Dialing? || h.Gated?)
    ensures var held := Act(s, e, h).held; (q in held <==> q in s.held) && (q in held ==> held[q] == s.held[q])
  {
    hide FirstH1, ActH1Owned, ActTunneled, ActH1Retiring;
  }

  lemma HolderFrame(s: Up, e: Event, h: Holder, q: nat)
    requires !OfSystem(e) && q != e.p
    ensures var held := Act(s, e, h).held; (q in held <==> q in s.held) && (q in held ==> held[q] == s.held[q])
  {
    hide Sections, ActRequesting, ActResolving, ActDialing, ActGated;
    if h.Requesting? || h.Resolving? || h.Dialing? || h.Gated? { EarlyFrame(s, e, h, q); }
  }

  lemma HolderNumbers(s: Up, e: Event, h: Holder)
    requires !OfSystem(e)
    ensures Act(s, e, h).nextPermit == s.nextPermit
  {
    hide FirstH1, Sections;
  }

  lemma {:induction false} LeakStays(s: Up, events: seq<Event>, p: nat)
    requires p in s.held && s.held[p].Forgotten? && p < s.nextPermit
    ensures p in Exec(s, events).held && Exec(s, events).held[p] == s.held[p]
    decreases |events|
  {
    hide Next;
    if events != [] {
      LeakStep(s, events[0], p);
      LeakStays(Next(s, events[0]), events[1..], p);
    }
  }

  /** A permit whose runtime is gone is leaked with what it accounts for: the
      socket of a lookup's, a retiring connection's or a draining transport's
      holder stays covered, and the permit never comes back. */
  lemma LeakIsForEver(limit: nat, workers: nat, events: seq<Event>, p: nat, more: seq<Event>)
    requires var s := Exec(Idle(limit, workers), events); p in s.held && (s.held[p].Resolving? || s.held[p].H1Retiring? || s.held[p].Draining?)
    ensures var s := Exec(Idle(limit, workers), events); var s' := Exec(Next(s, Forgets(p)), more);
            p in s'.held && s'.held[p] == Forgotten(Owns(s.held[p]))
  {
    hide Exec;
    IdleHolds(limit, workers);
    ExecKeeps(Idle(limit, workers), events);
    var s := Exec(Idle(limit, workers), events);
    assert p < s.nextPermit;
    LeakStays(Next(s, Forgets(p)), more, p);
  }
}
