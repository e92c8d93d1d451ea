/** Every reachable state keeps each live upstream socket under exactly one
    permit or exactly one pool slot, except the sockets of upgrades that failed
    after the handover; which bounds the sockets. */
module UpstreamSafety {
  import opened Bytes
  import opened OwnerPool
  import opened Upstream

  function Slots(pool: seq<Entry>): set<nat> { set e | e in pool :: e.transport }

  predicate HeldBy(s: Up, t: nat, p: nat) { p in s.held && Owns(s.held[p]) == Some(t) }

  /** Which transports a holder may own, and where their driver stands. */
  ghost predicate HolderOk(s: Up, h: Holder) {
    Owns(h).Some? ==>
      var t := Owns(h).value;
      && t < s.nextTransport && t !in Slots(s.pool)
      && (if h.Exclusive? then t in s.drivers && !s.drivers[t].published
          else if h.Draining? || h.Forgotten? then t in s.drivers ==> !s.drivers[t].published
          else t !in s.drivers)
      && (if t in s.tunnels then TunnelHolder(h, s.tunnels[t]) else !h.Tunneled?)
  }

  /** Who may hold the permit of an upgraded connection, and in what state. */
  predicate TunnelHolder(h: Holder, x: Tunnel) {
    && !x.joined
    && match h
       case Tunneled(_) => !x.early
       case H1Retiring(_, resume) => !resume && (x.open ==> x.early)
       case Forgotten(_) => x.open ==> x.early
       case _ => false
  }

  predicate EntryOk(s: Up, e: Entry) {
    && e.transport < s.nextTransport && e.transport !in s.tunnels
    && match e
       case H1(t) => t !in s.drivers
       case H2(t) => t in s.drivers && s.drivers[t] == Driver(true, Running)
       case RetiringH2(t) => t in s.drivers && s.drivers[t].published && s.drivers[t].stage != Finished
  }

  ghost predicate Counted(s: Up) {
    s.free + |s.held| == s.limit && |s.pool| <= CAPACITY && forall p :: p in s.held ==> p < s.nextPermit
  }

  ghost predicate Owned(s: Up) {
    && (forall p :: p in s.held ==> HolderOk(s, s.held[p]))
    && (forall t, p, q :: HeldBy(s, t, p) && HeldBy(s, t, q) ==> p == q)
  }

  ghost predicate Slotted(s: Up) {
    && Distinct(s.pool)
    && (forall e :: e in s.pool ==> EntryOk(s, e))
    && (forall g :: g in s.drivers ==> g < s.nextTransport)
  }

  /** The upgrade failed, yet the socket had been handed over: the permit goes
      with the driver while the receiving end still has the socket. */
  predicate FailedAfterHandover(s: Up, t: nat) { t in s.tunnels && s.tunnels[t].early && s.tunnels[t].handed }

  predicate Loose(s: Up, t: nat) { FailedAfterHandover(s, t) && s.tunnels[t].joined && s.tunnels[t].open }

  /** Every live transport has a permit or a slot of its own, or is loose. */
  ghost predicate Covered(s: Up) {
    forall t :: t in s.live ==> t < s.nextTransport && (t in Slots(s.pool) || Loose(s, t) || exists p :: HeldBy(s, t, p))
  }

  /** A socket that was handed over goes with its receiving end. */
  ghost predicate TunnelsOk(s: Up) {
    && |Sections(s.tunnels)| <= s.workers
    && forall t :: t in s.tunnels ==> t < s.nextTransport && t !in s.drivers && (s.tunnels[t].handed && !s.tunnels[t].open ==> t !in s.live)
  }

  ghost predicate Inv(s: Up) { Counted(s) && Owned(s) && Slotted(s) && Covered(s) && TunnelsOk(s) }

  lemma IdleHolds(limit: nat, workers: nat)
    ensures Inv(Idle(limit, workers))
  {
    assert Sections(map[]) == {};
  }

  // ----- single moves -----

  lemma CloseKeeps(s: Up, t: Option<nat>)
    requires Inv(s)
    ensures Inv(Close(s, t))
  {
    if t.Some? {
      var s' := Close(s, t);
      assert forall x, p :: HeldBy(s', x, p) <==> HeldBy(s, x, p);
      assert forall p :: p in s.held && HolderOk(s, s.held[p]) ==> HolderOk(s', s'.held[p]);
      assert forall e :: EntryOk(s, e) ==> EntryOk(s', e);
    }
  }

  lemma SetKeeps(s: Up, p: nat, h: Holder)
    requires Inv(s) && p in s.held && HolderOk(s, h)
    requires Owns(h) == Owns(s.held[p]) || (Owns(h).None? && Owns(s.held[p]).value !in s.live)
    ensures Inv(Set(s, p, h))
  {
    var s' := Set(s, p, h);
    assert s'.held.Keys == s.held.Keys;
    assert forall t, q :: q != p ==> (HeldBy(s', t, q) <==> HeldBy(s, t, q));
    assert forall t :: HeldBy(s', t, p) ==> HeldBy(s, t, p);
    forall t | t in s'.live && t !in Slots(s'.pool) && !Loose(s', t) ensures exists q :: HeldBy(s', t, q) {
      var q :| HeldBy(s, t, q);
      assert HeldBy(s', t, q);
    }
    FrameHolders(s, s');
  }

  lemma ReleaseKeeps(s: Up, p: nat)
    requires Inv(s) && p in s.held && (Owns(s.held[p]).Some? ==> Owns(s.held[p]).value !in s.live)
    ensures Inv(Release(s, p))
  {
    var s' := Release(s, p);
    assert s'.held.Keys == s.held.Keys - {p};
    assert |s'.held| == |s'.held.Keys| && |s.held| == |s.held.Keys|;
    assert forall t, q :: HeldBy(s', t, q) <==> q != p && HeldBy(s, t, q);
    forall t | t in s'.live && t !in Slots(s'.pool) && !Loose(s', t) ensures exists q :: HeldBy(s', t, q) {
      var q :| HeldBy(s, t, q);
      assert HeldBy(s', t, q);
    }
    FrameHolders(s, s');
  }

  /** Nothing a holder or slot fact speaks of has changed. */
  lemma FrameHolders(s: Up, s': Up)
    requires s'.pool == s.pool && s'.drivers == s.drivers && s'.nextTransport == s.nextTransport && s'.tunnels == s.tunnels
    ensures forall h :: HolderOk(s, h) ==> HolderOk(s', h)
    ensures forall e :: EntryOk(s, e) ==> EntryOk(s', e)
  {
  }

  lemma OpenKeeps(s: Up, p: nat)
    requires Inv(s) && p in s.held && s.held[p] == Dialing(None)
    ensures Inv(Next(s, SocketOpens(p)))
  {
    var s' := Next(s, SocketOpens(p));
    var n := s.nextTransport;
    assert s'.held.Keys == s.held.Keys;
    assert HeldBy(s', n, p);
    assert forall t, q :: HeldBy(s', t, q) <==> HeldBy(s, t, q) || (t == n && q == p);
    forall t | t in s'.live && t !in Slots(s'.pool) && !Loose(s', t) ensures t < s'.nextTransport && exists q :: HeldBy(s', t, q) {
      if t != n {
        var q :| HeldBy(s, t, q);
        assert HeldBy(s', t, q);
      }
    }
    forall e | e in s.pool ensures EntryOk(s', e) && e.transport != n { assert EntryOk(s, e); }
    forall q | q in s'.held ensures HolderOk(s', s'.held[q]) { if q != p { assert HolderOk(s, s.held[q]); } }
  }

  lemma PushedSlots(pool: seq<Entry>, e: Entry)
    requires Distinct(pool) && e.transport !in Slots(pool)
    ensures Distinct(pool + [e]) && Slots(pool + [e]) == Slots(pool) + {e.transport}
  {
    assert forall k :: 0 <= k < |pool| ==> pool[k].transport in Slots(pool);
    assert e in pool + [e] && forall x :: x in pool ==> x in pool + [e];
  }

  /** A transport moves from permit `p` into a new slot. */
  lemma SlotMove(s: Up, s': Up, p: nat, e: Entry)
    requires Inv(s) && HeldBy(s, e.transport, p)
    requires s'.pool == s.pool + [e] && |s.pool| < CAPACITY
    requires s'.live == s.live && s'.nextTransport == s.nextTransport && s'.nextPermit == s.nextPermit
    requires s'.tunnels == s.tunnels && s'.workers == s.workers
    requires s'.drivers == s.drivers || s'.drivers == s.drivers[e.transport := Driver(true, Running)]
    requires EntryOk(s', e)
    requires forall q :: q != p ==> (q in s'.held <==> q in s.held) && (q in s.held ==> s'.held[q] == s.held[q])
    requires p in s'.held ==> Owns(s'.held[p]).None?
    requires s'.free + |s'.held| == s'.limit
    ensures Inv(s')
  {
    var n := e.transport;
    PushedSlots(s.pool, e);
    assert HolderOk(s, s.held[p]);
    forall q | q in s'.held ensures HolderOk(s', s'.held[q]) {
      if q != p && Owns(s.held[q]).Some? { assert HolderOk(s, s.held[q]) && HeldBy(s, Owns(s.held[q]).value, q); }
    }
    assert forall x, q :: HeldBy(s', x, q) ==> HeldBy(s, x, q) && q != p;
    forall x | x in s'.live && x !in Slots(s'.pool) && !Loose(s', x) ensures exists q :: HeldBy(s', x, q) {
      var q :| HeldBy(s, x, q);
      assert q != p;
      assert HeldBy(s', x, q);
    }
    forall x | x in s'.pool ensures EntryOk(s', x) {
      if x != e { assert EntryOk(s, x) && x.transport in Slots(s.pool); }
    }
  }

  lemma PublishKeeps(s: Up, p: nat, t: nat)
    requires Inv(s) && p in s.held && s.held[p] == Gated(t) && |s.pool| < CAPACITY
    ensures Inv(Next(s, PassesGate(p, true)))
  {
    assert HolderOk(s, s.held[p]) && HeldBy(s, t, p);
    var s' := Next(s, PassesGate(p, true));
    assert s'.held.Keys == s.held.Keys;
    SlotMove(s, s', p, H2(t));
  }

  lemma PrivateKeeps(s: Up, p: nat, t: nat)
    requires Inv(s) && p in s.held && s.held[p] == Gated(t)
    ensures Inv(Set(s, p, Exclusive(t)).(drivers := s.drivers[t := Driver(false, Running)]))
  {
    var s' := Set(s, p, Exclusive(t)).(drivers := s.drivers[t := Driver(false, Running)]);
    assert HolderOk(s, s.held[p]) && HeldBy(s, t, p);
    assert s'.held.Keys == s.held.Keys;
    assert forall x, q :: HeldBy(s', x, q) <==> HeldBy(s, x, q);
    forall q | q in s'.held ensures HolderOk(s', s'.held[q]) {
      if q != p && Owns(s.held[q]).Some? { assert HolderOk(s, s.held[q]) && HeldBy(s, Owns(s.held[q]).value, q); }
    }
    forall x | x in s.pool ensures EntryOk(s', x) { assert EntryOk(s, x) && x.transport in Slots(s.pool); }
  }

  lemma ParkedKeeps(s: Up, p: nat, t: nat, held: map<nat, Holder>)
    requires Inv(s) && p in s.held && s.held[p] == H1Owned(t) && |s.pool| < CAPACITY && held == s.held - {p}
    ensures Inv(s.(pool := s.pool + [H1(t)], held := held, free := s.free + 1))
  {
    assert HolderOk(s, s.held[p]) && HeldBy(s, t, p);
    var s' := s.(pool := s.pool + [H1(t)], held := held, free := s.free + 1);
    assert EntryOk(s', H1(t));
    assert held.Keys == s.held.Keys - {p} && |held| == |held.Keys| && |s.held| == |s.held.Keys|;
    SlotMove(s, s', p, H1(t));
  }

  lemma TakeKeeps(s: Up, p: nat, i: nat)
    requires Inv(s) && p in s.held && Owns(s.held[p]).None? && i < |s.pool| && s.pool[i].H1?
    ensures Inv(Set(s, p, H1Owned(s.pool[i].transport)).(pool := s.pool[..i] + s.pool[i + 1..]))
  {
    var e := s.pool[i];
    var n := e.transport;
    var s' := Set(s, p, H1Owned(n)).(pool := s.pool[..i] + s.pool[i + 1..]);
    assert e in s.pool && EntryOk(s, e) && n in Slots(s.pool);
    RemovedDistinct(s.pool, i);
    TakenSlots(s.pool, i);
    assert s'.held.Keys == s.held.Keys;
    assert forall q :: q in s.held && q != p && Owns(s.held[q]).Some? ==> HolderOk(s, s.held[q]) && Owns(s.held[q]).value != n;
    assert forall x, q :: HeldBy(s', x, q) <==> HeldBy(s, x, q) || (x == n && q == p);
    forall x | x in s'.live && x !in Slots(s'.pool) && !Loose(s', x) ensures exists q :: HeldBy(s', x, q) {
      if x == n { assert HeldBy(s', n, p); } else {
        var q :| HeldBy(s, x, q);
        assert HeldBy(s', x, q);
      }
    }
    forall x | x in s'.pool ensures EntryOk(s', x) { assert x in s.pool && EntryOk(s, x); }
    forall q | q in s'.held ensures HolderOk(s', s'.held[q]) { if q != p { assert HolderOk(s, s.held[q]); } }
  }

  lemma TakenSlots(pool: seq<Entry>, i: nat)
    requires Distinct(pool) && i < |pool|
    ensures Slots(pool[..i] + pool[i + 1..]) == Slots(pool) - {pool[i].transport}
  {
    var r := pool[..i] + pool[i + 1..];
    RemovedDistinct(pool, i);
    forall x | x in r ensures x in pool && x.transport != pool[i].transport {
      var k :| 0 <= k < |r| && r[k] == x;
      assert r[k] == if k < i then pool[k] else pool[k + 1];
    }
    forall x | x in pool && x.transport != pool[i].transport ensures x in r { assert x != pool[i]; }
    assert forall n :: n in Slots(r) <==> n in Slots(pool) && n != pool[i].transport by {
      forall n | n in Slots(pool) && n != pool[i].transport ensures n in Slots(r) {
        var x :| x in pool && x.transport == n;
        assert x in r;
      }
    }
  }

  lemma RetiredSlots(pool: seq<Entry>, g: nat)
    requires Distinct(pool)
    ensures Slots(Retired(pool, g)) == Slots(pool)
  {
    RetiredIsScoped(pool, g);
    var r := Retired(pool, g);
    assert forall k :: 0 <= k < |pool| ==> r[k].transport == pool[k].transport;
    forall n | n in Slots(pool) ensures n in Slots(r) {
      var k :| 0 <= k < |pool| && pool[k].transport == n;
      assert r[k] in r;
    }
    forall n | n in Slots(r) ensures n in Slots(pool) {
      var k :| 0 <= k < |r| && r[k].transport == n;
      assert pool[k] in pool;
    }
  }

  /** Slots change but name the same transports; drivers move on. */
  lemma SlotsKeep(s: Up, s': Up)
    requires Inv(s) && s' == s.(pool := s'.pool, drivers := s'.drivers)
    requires |s'.pool| <= CAPACITY && Distinct(s'.pool) && forall e :: e in s'.pool ==> EntryOk(s', e)
    requires Slots(s'.pool) <= Slots(s.pool) && forall t :: t in s.live && t in Slots(s.pool) ==> t in Slots(s'.pool)
    requires s'.drivers.Keys == s.drivers.Keys && forall g :: g in s.drivers ==> s'.drivers[g].published == s.drivers[g].published
    ensures Inv(s')
  {
    assert forall x, q :: HeldBy(s', x, q) <==> HeldBy(s, x, q);
    assert forall q :: q in s.held && HolderOk(s, s.held[q]) ==> HolderOk(s', s'.held[q]);
  }

  /** Retirement of a generation, with or without its driver stopping. */
  lemma RetireKeeps(s: Up, g: nat, stage: Stage)
    requires Inv(s) && g in s.drivers && s.drivers[g].published
    requires stage == s.drivers[g].stage || (s.drivers[g].stage == Running && stage == Stopped)
    ensures Inv(s.(pool := Retired(s.pool, g), drivers := s.drivers[g := Driver(true, stage)]))
  {
    var s' := s.(pool := Retired(s.pool, g), drivers := s.drivers[g := Driver(true, stage)]);
    RetiredIsScoped(s.pool, g);
    RetiredSlots(s.pool, g);
    forall x | x in s'.pool ensures EntryOk(s', x) {
      if x in s.pool {
        assert EntryOk(s, x) && x != H2(g);
      } else {
        assert x == RetiringH2(g) && H2(g) in s.pool && EntryOk(s, H2(g));
      }
    }
    SlotsKeep(s, s');
  }

  /** A private generation's driver stops: no slot speaks of it. */
  lemma PrivateStops(s: Up, g: nat, stage: Stage)
    requires Inv(s) && g in s.drivers && !s.drivers[g].published
    ensures Inv(s.(drivers := s.drivers[g := Driver(false, stage)]))
  {
    var s' := s.(drivers := s.drivers[g := Driver(false, stage)]);
    forall x | x in s'.pool ensures EntryOk(s', x) { assert EntryOk(s, x); }
    SlotsKeep(s, s');
  }

  lemma FreedKeeps(s: Up, g: nat)
    requires Inv(s) && g in s.drivers && s.drivers[g] == Driver(true, Stopped) && g !in s.live
    ensures Inv(s.(pool := Without(s.pool, RetiringH2(g)), drivers := s.drivers[g := Driver(true, Finished)]))
  {
    var s' := s.(pool := Without(s.pool, RetiringH2(g)), drivers := s.drivers[g := Driver(true, Finished)]);
    WithoutDistinct(s.pool, RetiringH2(g));
    forall x | x in s'.pool ensures EntryOk(s', x) { assert x in s.pool && EntryOk(s, x); }
    forall t | t in s.live && t in Slots(s.pool) ensures t in Slots(s'.pool) {
      var x :| x in s.pool && x.transport == t;
      assert x in s'.pool;
    }
    SlotsKeep(s, s');
  }

  lemma AdmitKeeps(s: Up)
    requires Inv(s)
    ensures Inv(Next(s, Admit))
  {
    if s.free > 0 { AdmittedKeeps(s, s.held[s.nextPermit := Requesting]); }
  }

  lemma OneMorePermit(held: map<nat, Holder>, p: nat)
    requires p !in held
    ensures |held[p := Requesting]| == |held| + 1
  {
    assert held[p := Requesting].Keys == held.Keys + {p};
    assert |held[p := Requesting]| == |held[p := Requesting].Keys| && |held| == |held.Keys|;
  }

  lemma AdmittedKeeps(s: Up, held: map<nat, Holder>)
    requires Inv(s) && s.free > 0 && held == s.held[s.nextPermit := Requesting]
    ensures Inv(s.(free := s.free - 1, held := held, nextPermit := s.nextPermit + 1))
  {
    var s' := s.(free := s.free - 1, held := held, nextPermit := s.nextPermit + 1);
    assert HolderOk(s, Requesting);
    OneMorePermit(s.held, s.nextPermit);
    hide HolderOk, EntryOk, Slots, Distinct;
    SameOwners(s, s');
  }

  /** The same transports under the same permits. */
  lemma SameOwners(s: Up, s': Up)
    requires Inv(s) && Counted(s') && s'.pool == s.pool && s'.drivers == s.drivers && s'.nextTransport == s.nextTransport && s'.live == s.live
    requires s'.tunnels == s.tunnels && s'.workers == s.workers
    requires forall p :: p in s'.held ==> HolderOk(s, s'.held[p])
    requires forall t, q :: HeldBy(s', t, q) <==> HeldBy(s, t, q)
    ensures Inv(s')
  {
    FrameHolders(s, s');
    forall t | t in s'.live && t !in Slots(s'.pool) && !Loose(s', t) ensures exists q :: HeldBy(s', t, q) {
      var q :| HeldBy(s, t, q);
      assert HeldBy(s', t, q);
    }
  }

  // ----- every event -----

  lemma SectionsFit(s: Up)
    requires Inv(s)
    ensures |Sections(s.tunnels)| <= s.workers
  {
  }

  lemma Known(s: Up, p: nat)
    requires Inv(s) && p in s.held
    ensures HolderOk(s, s.held[p])
  {
  }

  /** The socket goes first, then the permit. */
  lemma CloseAndRelease(s: Up, p: nat)
    requires Inv(s) && p in s.held
    ensures Inv(Release(Close(s, Owns(s.held[p])), p))
  {
    CloseKeeps(s, Owns(s.held[p]));
    ReleaseKeeps(Close(s, Owns(s.held[p])), p);
  }

  /** The socket goes and the permit is kept for more work. */
  lemma CloseAndSet(s: Up, p: nat, h: Holder)
    requires Inv(s) && p in s.held && Owns(h).None?
    ensures Inv(Set(Close(s, Owns(s.held[p])), p, h))
  {
    CloseKeeps(s, Owns(s.held[p]));
    SetKeeps(Close(s, Owns(s.held[p])), p, h);
  }

  // ----- upgraded connections -----

  /** A transport's tunnel begins or moves on while permit `p` holds it. */
  lemma TunnelKeeps(s: Up, p: nat, h: Holder, t: nat, x: Tunnel)
    requires Inv(s) && HeldBy(s, t, p) && Owns(h) == Some(t) && t !in s.drivers && (h.Tunneled? || h.H1Retiring?)
    requires TunnelHolder(h, x) && |Sections(s.tunnels[t := x])| <= s.workers && (x.handed && !x.open ==> t !in s.live)
    ensures Inv(PutTunnel(Set(s, p, h), t, x))
  {
    var s' := PutTunnel(Set(s, p, h), t, x);
    assert HolderOk(s, s.held[p]);
    assert s'.held.Keys == s.held.Keys;
    assert forall u, q :: HeldBy(s', u, q) <==> HeldBy(s, u, q);
    forall q | q in s'.held ensures HolderOk(s', s'.held[q]) {
      if q != p && Owns(s.held[q]).Some? { assert HolderOk(s, s.held[q]) && HeldBy(s, Owns(s.held[q]).value, q); }
    }
    forall e | e in s'.pool ensures EntryOk(s', e) { assert EntryOk(s, e) && e.transport in Slots(s.pool); }
    forall u | u in s'.live && u !in Slots(s'.pool) && !Loose(s', u) ensures exists q :: HeldBy(s', u, q) {
      if u == t { assert HeldBy(s', t, p); } else {
        assert !Loose(s, u);
        var q :| HeldBy(s, u, q);
        assert HeldBy(s', u, q);
      }
    }
  }

  lemma SameSections(tunnels: map<nat, Tunnel>, t: nat, x: Tunnel)
    ensures !(x.early && x.open) ==> |Sections(tunnels[t := x])| <= |Sections(tunnels)|
    ensures |Sections(tunnels[t := x])| <= |Sections(tunnels)| + 1
    ensures t in tunnels && tunnels[t].early && tunnels[t].open ==> |Sections(tunnels[t := x])| <= |Sections(tunnels)|
  {
    var before, after := Sections(tunnels), Sections(tunnels[t := x]);
    assert after <= before + {t};
    Smaller(after, before + {t});
    if !(x.early && x.open) { Smaller(after, before); }
    if t in before { assert before + {t} == before; }
  }

  /** Hand-over and the end of the receiving side, whoever holds the permit. */
  lemma FlagKeeps(s: Up, t: nat, x: Tunnel)
    requires Inv(s) && t in s.tunnels && x.early == s.tunnels[t].early && x.joined == s.tunnels[t].joined
    requires (x.open ==> s.tunnels[t].open) && (x.handed && !x.open ==> t !in s.live)
    requires x.open == s.tunnels[t].open && s.tunnels[t].handed ==> x.handed
    requires s.tunnels[t].handed && !x.open ==> t !in s.live
    requires x.handed && !s.tunnels[t].handed ==> !x.joined
    ensures Inv(PutTunnel(s, t, x))
  {
    var s' := PutTunnel(s, t, x);
    SameSections(s.tunnels, t, x);
    FlagHolders(s, t, x);
    forall e | e in s'.pool ensures EntryOk(s', e) { assert EntryOk(s, e); }
    hide HolderOk, EntryOk, Slots;
    forall u | u in s'.live && u !in Slots(s'.pool) && !Loose(s', u) ensures exists q :: HeldBy(s', u, q) {
      assert !Loose(s, u);
      var q :| HeldBy(s, u, q);
      assert HeldBy(s', u, q);
    }
  }

  /** Every holder stays as it was when only these flags of a tunnel change. */
  lemma FlagHolders(s: Up, t: nat, x: Tunnel)
    requires Owned(s) && t in s.tunnels && x.early == s.tunnels[t].early && x.joined == s.tunnels[t].joined
    requires x.open ==> s.tunnels[t].open
    ensures Owned(PutTunnel(s, t, x)) && forall u, q :: HeldBy(PutTunnel(s, t, x), u, q) <==> HeldBy(s, u, q)
  {
    var s' := PutTunnel(s, t, x);
    assert forall u, q :: HeldBy(s', u, q) <==> HeldBy(s, u, q);
    forall q | q in s'.held ensures HolderOk(s', s'.held[q]) { assert HolderOk(s, s.held[q]); }
  }

  /** The permit goes; what is left of the socket is loose, or nothing. */
  lemma TunnelReleased(s: Up, p: nat, t: nat, x: Tunnel, held: map<nat, Holder>)
    requires Inv(s) && HeldBy(s, t, p) && s.held[p].H1Retiring? && t in s.tunnels
    requires x == s.tunnels[t].(joined := true) && (x.handed || t !in s.live) && held == s.held - {p}
    ensures Inv(s.(held := held, free := s.free + 1, tunnels := s.tunnels[t := x]))
  {
    var s' := s.(held := held, free := s.free + 1, tunnels := s.tunnels[t := x]);
    assert HolderOk(s, s.held[p]);
    SameSections(s.tunnels, t, x);
    assert held.Keys == s.held.Keys - {p} && |held| == |held.Keys| && |s.held| == |s.held.Keys|;
    OtherHolders(s, s', p, t, x);
    forall e | e in s'.pool ensures EntryOk(s', e) { assert EntryOk(s, e); }
    forall u | u in s'.live && u !in Slots(s'.pool) && !Loose(s', u) ensures exists q :: HeldBy(s', u, q) {
      assert u != t && !Loose(s, u);
      var q :| HeldBy(s, u, q);
      assert HeldBy(s', u, q);
    }
  }

  lemma OtherHolders(s: Up, s': Up, p: nat, t: nat, x: Tunnel)
    requires Inv(s) && HeldBy(s, t, p) && s'.held == s.held - {p} && s'.tunnels == s.tunnels[t := x]
    requires s'.pool == s.pool && s'.drivers == s.drivers && s'.nextTransport == s.nextTransport
    ensures forall u, q :: HeldBy(s', u, q) <==> q != p && HeldBy(s, u, q)
    ensures forall q :: q in s'.held ==> HolderOk(s', s'.held[q])
  {
    hide Covered, Slotted, Counted, TunnelsOk;
    forall q | q in s'.held ensures HolderOk(s', s'.held[q]) {
      assert HolderOk(s, s.held[q]);
      if Owns(s.held[q]).Some? { assert HeldBy(s, Owns(s.held[q]).value, q); }
    }
  }

  lemma JoinKeeps(s: Up, p: nat, t: nat)
    requires Inv(s) && HeldBy(s, t, p) && s.held[p].H1Retiring? && t in s.tunnels
    ensures Inv(JoinTunnel(s, p, t))
  {
    hide Inv;
    var x := s.tunnels[t];
    CloseKeeps(s, Some(t));
    TunnelReleased(if x.handed then s else Close(s, Some(t)), p, t, x.(joined := true), s.held - {p});
  }

  lemma TunnelEvents(s: Up, e: Event, p: nat)
    requires Inv(s) && !OfSystem(e) && p == e.p && p in s.held && s.held[p].Tunneled?
    ensures Inv(Act(s, e, s.held[p]))
  {
    hide Inv, ActRequesting, ActResolving, ActDialing, ActH1Owned, ActH1Retiring, ActGated;
    Known(s, p);
    var t := s.held[p].transport;
    var x := s.tunnels[t];
    if e.TunnelEnds? && !x.open {
      SetKeeps(s, p, H1Retiring(t, false));
    } else if e.UpgradeFails? && x.open && |Sections(s.tunnels)| < s.workers {
      SameSections(s.tunnels, t, x.(early := true));
      TunnelKeeps(s, p, H1Retiring(t, false), t, x.(early := true));
    }
  }

  // ----- every event, continued -----

  lemma DialingKeeps(s: Up, e: Event, p: nat)
    requires Inv(s) && !OfSystem(e) && p == e.p && p in s.held && s.held[p].Dialing?
    ensures Inv(Act(s, e, s.held[p]))
  {
    hide Inv, ActRequesting, ActResolving, ActH1Owned, ActTunneled, ActH1Retiring, ActGated;
    Known(s, p);
    var socket := s.held[p].socket;
    match e
    case SocketOpens(_) => if socket.None? { OpenKeeps(s, p); }
    case SocketLost(_) => CloseAndSet(s, p, Dialing(None));
    case DialEnds(_) => CloseAndRelease(s, p);
    case BecomesH1(_) => if socket.Some? { SetKeeps(s, p, H1Owned(socket.value)); }
    case EntersGate(_) => if socket.Some? { SetKeeps(s, p, Gated(socket.value)); }
    case _ =>
  }

  lemma RequestingKeeps(s: Up, e: Event, p: nat)
    requires Inv(s) && !OfSystem(e) && p == e.p && p in s.held && (s.held[p].Requesting? || s.held[p].Resolving?)
    ensures Inv(Act(s, e, s.held[p]))
  {
    hide Inv, ActDialing, ActH1Owned, ActTunneled, ActH1Retiring, ActGated;
    match e
    case Leave(_) => ReleaseKeeps(s, p);
    case LookUp(_) => SetKeeps(s, p, Resolving);
    case LookupJoined(_, _) =>
      SetKeeps(s, p, Requesting);
      ReleaseKeeps(s, p);
    case Dial(_) => SetKeeps(s, p, Dialing(None));
    case Reserves(_, g) => SetKeeps(s, p, Shared(g));
    case TakesIdle(_) =>
      var i := FirstH1(s.pool, 0);
      if i < |s.pool| { TakeKeeps(s, p, i); }
    case Forgets(_) => SetKeeps(s, p, Forgotten(None));
    case _ =>
  }

  lemma H1Keeps(s: Up, e: Event, p: nat)
    requires Inv(s) && !OfSystem(e) && p == e.p && p in s.held && (s.held[p].H1Owned? || s.held[p].H1Retiring?)
    ensures Inv(Act(s, e, s.held[p]))
  {
    hide Inv, ActH1Owned, ActH1Retiring;
    Known(s, p);
    var t := s.held[p].transport;
    if t in s.tunnels {
      RetiringTunnel(s, e, p);
    } else if s.held[p].H1Owned? {
      OwnedH1(s, e, p, t);
    } else {
      RetiringH1(s, e, p, t, s.held[p].resume);
    }
  }

  lemma RetiringTunnel(s: Up, e: Event, p: nat)
    requires Inv(s) && !OfSystem(e) && p == e.p && p in s.held && s.held[p].H1Retiring? && s.held[p].transport in s.tunnels
    ensures Inv(Act(s, e, s.held[p]))
  {
    hide Inv, ActRequesting, ActResolving, ActDialing, ActH1Owned, ActTunneled, ActGated;
    Known(s, p);
    var t := s.held[p].transport;
    SetKeeps(s, p, H1Retiring(t, false));
    SetKeeps(s, p, Forgotten(Some(t)));
    if e.DriverJoined? { JoinKeeps(s, p, t); }
  }

  lemma OwnedH1(s: Up, e: Event, p: nat, t: nat)
    requires Inv(s) && !OfSystem(e) && p == e.p && p in s.held && s.held[p] == H1Owned(t) && t !in s.tunnels
    ensures Inv(ActH1Owned(s, e, t))
  {
    hide Inv;
    Known(s, p);
    match e
    case FoundStale(_) => SetKeeps(s, p, H1Retiring(t, true));
    case EndsH1(_) => SetKeeps(s, p, H1Retiring(t, false));
    case SwitchesProtocols(_) =>
      SameSections(s.tunnels, t, Tunnel(false, true, false, false));
      SectionsFit(s);
      TunnelKeeps(s, p, Tunneled(t), t, Tunnel(false, true, false, false));
    case Parks(_) =>
      if |s.pool| < CAPACITY { ParkedKeeps(s, p, t, s.held - {p}); } else { SetKeeps(s, p, H1Retiring(t, false)); }
    case _ =>
  }

  lemma RetiringH1(s: Up, e: Event, p: nat, t: nat, resume: bool)
    requires Inv(s) && !OfSystem(e) && p == e.p && p in s.held && s.held[p] == H1Retiring(t, resume) && t !in s.tunnels
    ensures Inv(ActH1Retiring(s, e, t, resume))
  {
    hide Inv;
    Known(s, p);
    match e
    case ReselectionCancelled(_) => SetKeeps(s, p, H1Retiring(t, false));
    case DriverJoined(_) =>
      CloseAndSet(s, p, Requesting);
      CloseAndRelease(s, p);
    case Forgets(_) => SetKeeps(s, p, Forgotten(Some(t)));
    case _ =>
  }

  lemma H2Keeps(s: Up, e: Event, p: nat)
    requires Inv(s) && !OfSystem(e) && p == e.p && p in s.held
    requires s.held[p].Gated? || s.held[p].Exclusive? || s.held[p].Shared? || s.held[p].Draining? || s.held[p].Forgotten?
    ensures Inv(Act(s, e, s.held[p]))
  {
    hide Inv, ActRequesting, ActResolving, ActDialing, ActH1Owned, ActTunneled, ActH1Retiring;
    Known(s, p);
    match s.held[p]
    case Gated(t) =>
      if e.LeavesGate? {
        SetKeeps(s, p, Draining(t));
      } else if e.PassesGate? {
        if e.selectable && |s.pool| < CAPACITY { PublishKeeps(s, p, t); } else { PrivateKeeps(s, p, t); }
      }
    case Exclusive(t) => SetKeeps(s, p, Draining(t));
    case Shared(_) => ReleaseKeeps(s, p);
    case Draining(t) =>
      if t !in s.live { ReleaseKeeps(s, p); }
      SetKeeps(s, p, Forgotten(Some(t)));
    case Forgotten(_) =>
  }

  /** Events of a generation's driver and its slot. */
  lemma GenerationKeeps(s: Up, e: Event)
    requires Inv(s) && (e.Retires? || e.DriverStops? || e.SlotFreed?)
    ensures Inv(Next(s, e))
  {
    hide Inv, Act, Retired, Without;
    var g := e.generation;
    if g in s.drivers {
      var d := s.drivers[g];
      match e
      case Retires(_) =>
        if d.published {
          RetireKeeps(s, g, d.stage);
          assert s.drivers[g := Driver(true, d.stage)] == s.drivers;
        }
      case DriverStops(_) =>
        if d.stage == Running {
          if d.published { RetireKeeps(s, g, Stopped); } else { PrivateStops(s, g, Stopped); }
        }
      case SlotFreed(_) =>
        if d.stage == Stopped && g !in s.live {
          if d.published { FreedKeeps(s, g); } else { PrivateStops(s, g, Finished); }
        }
    }
  }

  lemma NextKeeps(s: Up, e: Event)
    requires Inv(s)
    ensures Inv(Next(s, e))
  {
    hide Inv, Act, Retired, Without;
    match e
    case Admit => AdmitKeeps(s);
    case Closes(t) => CloseKeeps(s, Some(t));
    case HandsOver(t) =>
      if t in s.tunnels && s.tunnels[t].open && !s.tunnels[t].joined { FlagKeeps(s, t, s.tunnels[t].(handed := true)); }
    case ReceiverDrops(t) => ReceiverKeeps(s, t);
    case Retires(_) => GenerationKeeps(s, e);
    case DriverStops(_) => GenerationKeeps(s, e);
    case SlotFreed(_) => GenerationKeeps(s, e);
    case _ =>
      if e.p in s.held { HolderEventKeeps(s, e); }
  }

  lemma ReceiverKeeps(s: Up, t: nat)
    requires Inv(s)
    ensures Inv(Next(s, ReceiverDrops(t)))
  {
    hide Inv;
    if t in s.tunnels && s.tunnels[t].open {
      var s0 := if s.tunnels[t].handed then Close(s, Some(t)) else s;
      CloseKeeps(s, Some(t));
      FlagKeeps(s0, t, s.tunnels[t].(open := false));
    }
  }

  lemma HolderEventKeeps(s: Up, e: Event)
    requires Inv(s) && !OfSystem(e) && e.p in s.held
    ensures Inv(Act(s, e, s.held[e.p]))
  {
    hide Inv, Act;
    var p := e.p;
    match s.held[p]
    case Requesting => RequestingKeeps(s, e, p);
    case Resolving => RequestingKeeps(s, e, p);
    case Dialing(_) => DialingKeeps(s, e, p);
    case H1Owned(_) => H1Keeps(s, e, p);
    case H1Retiring(_, _) => H1Keeps(s, e, p);
    case Tunneled(_) => TunnelEvents(s, e, p);
    case _ => H2Keeps(s, e, p);
  }

  lemma HolderLimits(s: Up, e: Event, h: Holder)
    requires !OfSystem(e)
    ensures Act(s, e, h).limit == s.limit && Act(s, e, h).workers == s.workers
  {
    hide FirstH1, Sections;
  }

  lemma LimitsStay(s: Up, e: Event)
    ensures Next(s, e).limit == s.limit && Next(s, e).workers == s.workers
  {
    hide Act, Retired, Without;
    if !OfSystem(e) && e.p in s.held { HolderLimits(s, e, s.held[e.p]); }
  }

  lemma {:induction false} ExecKeeps(s: Up, events: seq<Event>)
    requires Inv(s)
    ensures Inv(Exec(s, events)) && Exec(s, events).limit == s.limit && Exec(s, events).workers == s.workers
    decreases |events|
  {
    hide Inv, Next;
    if events != [] {
      NextKeeps(s, events[0]);
      LimitsStay(s, events[0]);
      ExecKeeps(Next(s, events[0]), events[1..]);
    }
  }

  // ----- main results -----

  /** Permits are conserved over every run, forgotten ones counted as held,
      and the pool never has more than eight slots. */
  lemma PermitsAreConserved(limit: nat, workers: nat, events: seq<Event>)
    ensures var s := Exec(Idle(limit, workers), events);
            s.limit == limit && s.free + |s.held| == limit && |s.pool| <= CAPACITY
  {
    IdleHolds(limit, workers);
    ExecKeeps(Idle(limit, workers), events);
  }

  ghost predicate HasPermitOrSlot(s: Up, t: nat) { t in Slots(s.pool) || exists p :: HeldBy(s, t, p) }

  /** In every reachable state each live transport is covered by exactly one
      permit or exactly one slot, and never by both, if and only if its upgrade
      has not failed after the handover with the driver joined since. */
  lemma EveryTransportIsCoveredOnce(limit: nat, workers: nat, events: seq<Event>, t: nat)
    ensures var s := Exec(Idle(limit, workers), events);
            t in s.live ==>
              && (HasPermitOrSlot(s, t) <==> !(FailedAfterHandover(s, t) && s.tunnels[t].joined))
              && !(t in Slots(s.pool) && exists p :: HeldBy(s, t, p))
              && (forall p, q :: HeldBy(s, t, p) && HeldBy(s, t, q) ==> p == q)
              && (forall i, j :: 0 <= i < j < |s.pool| ==> !(s.pool[i].transport == t == s.pool[j].transport))
  {
    IdleHolds(limit, workers);
    ExecKeeps(Idle(limit, workers), events);
    var s := Exec(Idle(limit, workers), events);
    assert forall p :: p in s.held ==> HolderOk(s, s.held[p]);
    assert forall e :: e in s.pool ==> EntryOk(s, e);
  }

  function OwnedBy(held: map<nat, Holder>): set<nat> {
    set p | p in held && Owns(held[p]).Some? :: Owns(held[p]).value
  }

  lemma {:induction false} OwnedBound(held: map<nat, Holder>)
    ensures |OwnedBy(held)| <= |held|
    decreases |held|
  {
    if held == map[] {
      assert OwnedBy(held) == {};
    } else {
      var p :| p in held;
      var rest := held - {p};
      assert rest.Keys == held.Keys - {p} && |rest| == |rest.Keys| && |held| == |held.Keys|;
      OwnedBound(rest);
      var more := if Owns(held[p]).Some? then {Owns(held[p]).value} else {};
      forall t | t in OwnedBy(held) ensures t in OwnedBy(rest) + more {
        var q :| q in held && Owns(held[q]).Some? && Owns(held[q]).value == t;
        assert q != p ==> q in rest && rest[q] == held[q];
      }
      Smaller(OwnedBy(held), OwnedBy(rest) + more);
    }
  }

  lemma {:induction false} Smaller(a: set<nat>, b: set<nat>)
    requires a <= b
    ensures |a| <= |b|
  {
    if a != {} {
      var x :| x in a;
      Smaller(a - {x}, b - {x});
    }
  }

  lemma {:induction false} SlotsBound(pool: seq<Entry>)
    ensures |Slots(pool)| <= |pool|
  {
    if pool != [] {
      SlotsBound(pool[1..]);
      assert Slots(pool) == Slots(pool[1..]) + {pool[0].transport} by {
        assert forall e :: e in pool <==> e == pool[0] || e in pool[1..];
      }
    }
  }

  /** Live upstream sockets never exceed the admission limit plus the pool,
      but for upgrades failing at this moment, one a thread at most. */
  lemma LiveIsBounded(limit: nat, workers: nat, events: seq<Event>)
    ensures var s := Exec(Idle(limit, workers), events);
            && |s.live| <= limit + CAPACITY + |Sections(s.tunnels)| <= limit + CAPACITY + workers
            && ((forall t :: t in s.live ==> !FailedAfterHandover(s, t)) ==> |s.live| <= limit + CAPACITY)
  {
    IdleHolds(limit, workers);
    ExecKeeps(Idle(limit, workers), events);
    var s := Exec(Idle(limit, workers), events);
    var loose := set t | t in s.live && Loose(s, t);
    var covered := OwnedBy(s.held) + Slots(s.pool);
    forall t | t in s.live ensures t in covered + loose {
      if t !in Slots(s.pool) && !Loose(s, t) { var p :| HeldBy(s, t, p); }
    }
    Smaller(s.live, covered + loose);
    OwnedBound(s.held);
    SlotsBound(s.pool);
    assert |covered| <= |OwnedBy(s.held)| + |Slots(s.pool)| && |covered + loose| <= |covered| + |loose|;
    Smaller(loose, Sections(s.tunnels));
    if forall t :: t in s.live ==> !FailedAfterHandover(s, t) { assert loose == {}; }
  }

  /** A published generation's slot goes away with its driver: none is left
      once the driver has finished, and until its transport has dropped the
      slot is there. */
  lemma SlotsFollowDrivers(limit: nat, workers: nat, events: seq<Event>, g: nat)
    ensures var s := Exec(Idle(limit, workers), events);
            g in s.drivers ==>
              && (s.drivers[g].stage == Finished ==> g !in Slots(s.pool))
              && (s.drivers[g].stage == Stopped ==> H2(g) !in s.pool)
              && (s.drivers[g].published && g in s.live ==> g in Slots(s.pool))
  {
    IdleHolds(limit, workers);
    ExecKeeps(Idle(limit, workers), events);
    var s := Exec(Idle(limit, workers), events);
    if g in s.drivers {
      assert forall e :: e in s.pool && e.transport == g ==> EntryOk(s, e);
      assert forall p :: p in s.held ==> HolderOk(s, s.held[p]);
    }
  }
}
