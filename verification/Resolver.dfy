/** Accounting of blocking name lookups. A lookup holds a resolver permit (R)
    and a U permit until its task has been joined, by the request or by a
    detached cleanup after the request went away. Every atomic addition to a
    counter is a step of its own, and so is every release. */
module Resolver {
  import opened Bytes

  datatype Counters = Counters(heldR: int, submitted: int, requestOwned: int, cleanupOwned: int, liveBlocking: int, total: int)

  datatype Op =
    | HeldUp | HeldDown | SentUp | SentDown | RequestUp | RequestDown
    | CleanupUp | CleanupDown | LiveUp | LiveDown | TotalUp

  /** One atomic addition. */
  function Apply(c: Counters, op: Op): Counters {
    match op
    case HeldUp => c.(heldR := c.heldR + 1)
    case HeldDown => c.(heldR := c.heldR - 1)
    case SentUp => c.(submitted := c.submitted + 1)
    case SentDown => c.(submitted := c.submitted - 1)
    case RequestUp => c.(requestOwned := c.requestOwned + 1)
    case RequestDown => c.(requestOwned := c.requestOwned - 1)
    case CleanupUp => c.(cleanupOwned := c.cleanupOwned + 1)
    case CleanupDown => c.(cleanupOwned := c.cleanupOwned - 1)
    case LiveUp => c.(liveBlocking := c.liveBlocking + 1)
    case LiveDown => c.(liveBlocking := c.liveBlocking - 1)
    case TotalUp => c.(total := c.total + 1)
  }

  function ApplyAll(c: Counters, ops: seq<Op>): Counters
    decreases |ops|
  {
    if ops == [] then c else ApplyAll(Apply(c, ops[0]), ops[1..])
  }

  /** The accounting calls and the additions each makes, in order. */
  datatype Call =
    | ResolverAcquired | ResolverReleased | Submitted | RequestToCleanup | RequestJoined | CleanupJoined
    | BlockingStarted | BlockingFinished

  function Ops(call: Call): seq<Op> {
    match call
    case ResolverAcquired => [HeldUp]
    case ResolverReleased => [HeldDown]
    case Submitted => [SentUp, RequestUp, TotalUp]
    case RequestToCleanup => [RequestDown, CleanupUp]
    case RequestJoined => [RequestDown, SentDown]
    case CleanupJoined => [CleanupDown, SentDown]
    case BlockingStarted => [LiveUp]
    case BlockingFinished => [LiveDown]
  }

  class ResolverAccounting {
    var heldR: int
    var submitted: int
    var requestOwned: int
    var cleanupOwned: int
    var liveBlocking: int
    var total: int

    function View(): Counters
      reads this
    {
      Counters(heldR, submitted, requestOwned, cleanupOwned, liveBlocking, total)
    }

    constructor ()
      ensures View() == Counters(0, 0, 0, 0, 0, 0)
    {
      heldR, submitted, requestOwned, cleanupOwned, liveBlocking, total := 0, 0, 0, 0, 0, 0;
    }

    /** One accounting call that no other call interleaves with. */
    method Record(call: Call)
      modifies this
      ensures View() == ApplyAll(old(View()), Ops(call))
    {
      ghost var before := View();
      match call {
        case ResolverAcquired => heldR := heldR + 1;
        case ResolverReleased => heldR := heldR - 1;
        case Submitted =>
          submitted := submitted + 1;
          requestOwned := requestOwned + 1;
          total := total + 1;
        case RequestToCleanup =>
          requestOwned := requestOwned - 1;
          cleanupOwned := cleanupOwned + 1;
        case RequestJoined =>
          requestOwned := requestOwned - 1;
          submitted := submitted - 1;
        case CleanupJoined =>
          cleanupOwned := cleanupOwned - 1;
          submitted := submitted - 1;
        case BlockingStarted => liveBlocking := liveBlocking + 1;
        case BlockingFinished => liveBlocking := liveBlocking - 1;
      }
      Unfold(before, Ops(call));
    }
  }

  lemma Unfold(c: Counters, ops: seq<Op>)
    requires 1 <= |ops| <= 3
    ensures ApplyAll(c, ops) ==
      var c1 := Apply(c, ops[0]);
      if |ops| == 1 then c1 else var c2 := Apply(c1, ops[1]); if |ops| == 2 then c2 else Apply(c2, ops[2])
  {
    hide Apply;
    var c1 := Apply(c, ops[0]);
    if |ops| > 1 {
      var c2 := Apply(c1, ops[1]);
      assert ops[1..][0] == ops[1] && ops[1..][1..] == ops[2..];
      assert ApplyAll(c1, ops[1..]) == ApplyAll(c2, ops[2..]);
      if |ops| == 3 { assert ApplyAll(c2, ops[2..]) == ApplyAll(Apply(c2, ops[2]), ops[2..][1..]); }
    }
  }

  // ----- the life of a lookup -----

  /** Where the owner of a lookup stands; `sent` tells a submitted one from one
      that was dropped before. */
  datatype Phase =
    | Permitted                  // R taken, not counted yet
    | Acquired                   // counted in held_r
    | Sending                    // submitted_unobserved raised
    | Owning                     // request_owned raised
    | Sent                       // submitted; spawned, then awaited by the request
    | Leaving                    // request_owned lowered for the cleanup
    | Cleaning                   // cleanup_owned raised; awaited by the cleanup
    | Joining                    // task joined, its owner's count lowered
    | Joined                     // submitted_unobserved lowered
    | Closed                     // handle dropped
    | Dropping(sent: bool)       // held_r lowered, R not returned yet
    | Returned(sent: bool)       // R returned

  datatype Task = NotSpawned | Queued | Begun | Counted | Uncounted | Over

  /** `u` while the attempt still has the U permit. */
  datatype Attempt = Attempt(phase: Phase, task: Task, u: bool)

  const NEW := Attempt(Permitted, NotSpawned, true)

  datatype Event =
    | Admit                      // a resolver permit is taken
    | Step(a: nat)               // the owner's next atomic step
    | Leave(a: nat)              // the request goes away
    | TaskStep(a: nat)           // the blocking task's next step
    | Abort(a: nat)              // the cleanup's abort reaches a queued task
    | DropU(a: nat)              // U dropped, or handed on to the connect

  /** The owner's next step. Whoever awaits the task goes on when it is over. */
  function Stepped(t: Attempt): (Attempt, Option<Op>) {
    match t.phase
    case Permitted => (t.(phase := Acquired), Some(HeldUp))
    case Acquired => (t.(phase := Sending), Some(SentUp))
    case Sending => (t.(phase := Owning), Some(RequestUp))
    case Owning => (t.(phase := Sent), Some(TotalUp))
    case Sent =>
      if t.task == NotSpawned then (t.(task := Queued), None)
      else if t.task == Over then (t.(phase := Joining), Some(RequestDown)) else (t, None)
    case Leaving => (t.(phase := Cleaning), Some(CleanupUp))
    case Cleaning => if t.task == Over then (t.(phase := Joining), Some(CleanupDown)) else (t, None)
    case Joining => (t.(phase := Joined), Some(SentDown))
    case Joined => (t.(phase := Closed), None)
    case Closed => (t.(phase := Dropping(true)), Some(HeldDown))
    case Dropping(sent) => (t.(phase := Returned(sent)), None)
    case Returned(_) => (t, None)
  }

  /** What a run of the owner's steps adds, in order. */
  function Additions(t: Attempt, steps: nat): seq<Op>
    decreases steps
  {
    if steps == 0 then [] else
    var (t', op) := Stepped(t);
    (if op.Some? then [op.value] else []) + Additions(t', steps - 1)
  }

  /** The steps make the additions of the accounting calls, in their order. */
  lemma StepsMakeTheCalls(t: Attempt)
    ensures t.phase == Permitted ==> Additions(t, 1) == Ops(ResolverAcquired)
    ensures t.phase == Acquired ==> Additions(t, 3) == Ops(Submitted)
    ensures t.phase == Sent && t.task == Over ==> Additions(t, 2) == Ops(RequestJoined)
    ensures t.phase == Cleaning && t.task == Over ==> Additions(t, 2) == Ops(CleanupJoined)
    ensures t.phase == Closed ==> Additions(t, 1) == Ops(ResolverReleased)
    ensures t.phase == Leaving ==> [RequestDown] + Additions(t, 1) == Ops(RequestToCleanup)
  {
  }

  function After(t: Attempt, e: Event): (Attempt, Option<Op>) {
    match e
    case Admit => (t, None)
    case Step(_) => Stepped(t)
    case Leave(_) =>
      if t.phase == Sent && t.task != NotSpawned then (t.(phase := Leaving), Some(RequestDown))
      else if t.phase == Acquired then (t.(phase := Dropping(false)), Some(HeldDown)) else (t, None)
    case TaskStep(_) =>
      (match t.task
       case Queued => (t.(task := Begun), None)
       case Begun => (t.(task := Counted), Some(LiveUp))
       case Counted => (t.(task := Uncounted), Some(LiveDown))
       case Uncounted => (t.(task := Over), None)
       case _ => (t, None))
    case Abort(_) => if t.phase == Cleaning && t.task == Queued then (t.(task := Over), None) else (t, None)
    case DropU(_) =>
      if t.phase.Returned? || (t.phase.Dropping? && !t.phase.sent) then (t.(u := false), None) else (t, None)
  }

  /** Lookups are numbered as they come and are never forgotten. */
  datatype Sys = Sys(limit: nat, attempts: seq<Attempt>, counters: Counters)

  function Idle(limit: nat): Sys { Sys(limit, [], Counters(0, 0, 0, 0, 0, 0)) }

  function Next(s: Sys, e: Event): Sys {
    if e.Admit? then if Tally(s.attempts, HasR) < s.limit then s.(attempts := s.attempts + [NEW]) else s
    else if e.a >= |s.attempts| then s
    else
      var (t, op) := After(s.attempts[e.a], e);
      s.(attempts := s.attempts[e.a := t], counters := if op.Some? then Apply(s.counters, op.value) else s.counters)
  }

  function Exec(s: Sys, events: seq<Event>): Sys
    decreases |events|
  {
    if events == [] then s else Next(Exec(s, events[..|events| - 1]), events[|events| - 1])
  }

  // ----- the counters count -----

  datatype Class = HasR | Held | Unobserved | OfRequest | OfCleanup | Between | Blocking | EverSent

  predicate In(c: Class, t: Attempt) {
    match c
    case HasR => !t.phase.Returned?
    case Held => !t.phase.Permitted? && !t.phase.Dropping? && !t.phase.Returned?
    case Unobserved => t.phase.Sending? || t.phase.Owning? || t.phase.Sent? || t.phase.Leaving? || t.phase.Cleaning? || t.phase.Joining?
    case OfRequest => t.phase.Owning? || t.phase.Sent?
    case OfCleanup => t.phase.Cleaning?
    case Between => t.phase.Sending? || t.phase.Leaving? || t.phase.Joining?
    case Blocking => t.task == Counted
    case EverSent => t.phase.Sent? || t.phase.Leaving? || t.phase.Cleaning? || PastJoin(t.phase)
  }

  function One(b: bool): nat { if b then 1 else 0 }

  function Tally(ts: seq<Attempt>, c: Class): nat {
    if ts == [] then 0 else Tally(ts[..|ts| - 1], c) + One(In(c, ts[|ts| - 1]))
  }

  lemma {:induction false} TallyPut(ts: seq<Attempt>, a: nat, t: Attempt, c: Class)
    requires a < |ts|
    ensures Tally(ts[a := t], c) == Tally(ts, c) - One(In(c, ts[a])) + One(In(c, t))
    decreases |ts|
  {
    hide In;
    var n := |ts| - 1;
    if a < n {
      TallyPut(ts[..n], a, t, c);
      assert ts[a := t][..n] == ts[..n][a := t];
    } else {
      assert ts[a := t][..n] == ts[..n];
    }
  }

  lemma TallyAdd(ts: seq<Attempt>, t: Attempt, c: Class)
    ensures Tally(ts + [t], c) == Tally(ts, c) + One(In(c, t))
  {
    assert (ts + [t])[..|ts|] == ts;
  }

  function Count(k: Counters, c: Class): int {
    match c
    case Held => k.heldR
    case Unobserved => k.submitted
    case OfRequest => k.requestOwned
    case OfCleanup => k.cleanupOwned
    case Blocking => k.liveBlocking
    case EverSent => k.total
    case _ => 0
  }

  predicate IsCounter(c: Class) { c != HasR && c != Between }

  /** Where the task may be in each phase. */
  predicate Fits(t: Attempt) {
    && (t.phase in {Permitted, Acquired, Sending, Owning, Dropping(false), Returned(false)} ==> t.task == NotSpawned)
    && (t.task == NotSpawned ==> t.phase == Sent || t.phase in {Permitted, Acquired, Sending, Owning, Dropping(false), Returned(false)})
    && (t.task != NotSpawned && t.task != Over ==> t.phase in {Sent, Leaving, Cleaning})
    && (!t.u ==> t.phase.Returned? || t.phase == Dropping(false))
  }

  ghost predicate Inv(s: Sys) {
    && Tally(s.attempts, HasR) <= s.limit
    && (forall c :: IsCounter(c) ==> Count(s.counters, c) == Tally(s.attempts, c))
    && (forall a :: 0 <= a < |s.attempts| ==> Fits(s.attempts[a]))
  }

  /** A step moves each counter as it moves the attempt between classes. */
  lemma StepCounts(k: Counters, t: Attempt, e: Event, c: Class)
    requires !e.Admit? && Fits(t)
    ensures var (t', op) := After(t, e);
            && Fits(t') && One(In(HasR, t')) <= One(In(HasR, t))
            && (IsCounter(c) ==> Count(if op.Some? then Apply(k, op.value) else k, c) == Count(k, c) - One(In(c, t)) + One(In(c, t')))
  {
    if e.Step? {
      OwnerFits(t);
      OwnerCounts(k, t, c);
    }
    hide Stepped;
  }

  lemma OwnerFits(t: Attempt)
    requires Fits(t)
    ensures Fits(Stepped(t).0) && One(In(HasR, Stepped(t).0)) <= One(In(HasR, t))
  {
  }

  lemma OwnerCounts(k: Counters, t: Attempt, c: Class)
    requires Fits(t)
    ensures var (t', op) := Stepped(t);
            IsCounter(c) ==> Count(if op.Some? then Apply(k, op.value) else k, c) == Count(k, c) - One(In(c, t)) + One(In(c, t'))
  {
    hide Fits;
  }

  lemma NewAttempt()
    ensures Fits(NEW) && In(HasR, NEW) && forall c :: IsCounter(c) ==> !In(c, NEW)
  {
  }

  lemma NextKeeps(s: Sys, e: Event)
    requires Inv(s)
    ensures Inv(Next(s, e))
  {
    hide In, After, Apply, Count;
    var s' := Next(s, e);
    if e.Admit? {
      NewAttempt();
      forall c ensures Tally(s.attempts + [NEW], c) == Tally(s.attempts, c) + One(In(c, NEW)) { TallyAdd(s.attempts, NEW, c); }
    } else if e.a < |s.attempts| {
      var t := s.attempts[e.a];
      var t' := After(t, e).0;
      forall c ensures Tally(s'.attempts, c) == Tally(s.attempts, c) - One(In(c, t)) + One(In(c, t')) {
        TallyPut(s.attempts, e.a, t', c);
      }
      forall c ensures IsCounter(c) ==> Count(s'.counters, c) == Tally(s'.attempts, c) { StepCounts(s.counters, t, e, c); }
      StepCounts(s.counters, t, e, HasR);
    }
  }

  lemma {:induction false} ExecKeeps(limit: nat, events: seq<Event>)
    ensures Inv(Exec(Idle(limit), events)) && Exec(Idle(limit), events).limit == limit
    decreases |events|
  {
    if events != [] {
      hide Inv;
      var before := events[..|events| - 1];
      ExecKeeps(limit, before);
      NextKeeps(Exec(Idle(limit), before), events[|events| - 1]);
    }
  }

  lemma {:induction false} TallyOrder(ts: seq<Attempt>)
    requires forall a :: 0 <= a < |ts| ==> Fits(ts[a])
    ensures Tally(ts, Unobserved) == Tally(ts, OfRequest) + Tally(ts, OfCleanup) + Tally(ts, Between)
    ensures Tally(ts, Blocking) <= Tally(ts, Unobserved) <= Tally(ts, Held) <= Tally(ts, HasR)
    decreases |ts|
  {
    if ts != [] { TallyOrder(ts[..|ts| - 1]); }
  }

  /** Main result: at every instant of every run, between any two atomic
      additions, the submitted lookups are those owned by their request or by
      a cleanup and those an accounting call is just moving; no more lookups
      block than are submitted, no more are submitted than counted as holding
      R, no more are counted than hold R, and none exceed the limit. The total
      is the number of lookups ever submitted. */
  lemma CountersAddUp(limit: nat, events: seq<Event>)
    ensures var s := Exec(Idle(limit), events); var k := s.counters;
            && k.submitted == k.requestOwned + k.cleanupOwned + Tally(s.attempts, Between)
            && 0 <= k.liveBlocking <= k.submitted <= k.heldR <= Tally(s.attempts, HasR) <= limit
            && 0 <= k.requestOwned && 0 <= k.cleanupOwned
            && k.total == Tally(s.attempts, EverSent)
  {
    ExecKeeps(limit, events);
    var s := Exec(Idle(limit), events);
    assert forall c :: IsCounter(c) ==> Count(s.counters, c) == Tally(s.attempts, c);
    assert Count(s.counters, Held) == s.counters.heldR && Count(s.counters, Unobserved) == s.counters.submitted;
    assert Count(s.counters, OfRequest) == s.counters.requestOwned && Count(s.counters, OfCleanup) == s.counters.cleanupOwned;
    assert Count(s.counters, Blocking) == s.counters.liveBlocking && Count(s.counters, EverSent) == s.counters.total;
    TallyOrder(s.attempts);
  }

  // ----- release -----

  /** Event `j` of the run is the join of lookup `a`: its task is over and the
      request or the cleanup goes on from awaiting it. */
  ghost predicate JoinsAt(limit: nat, events: seq<Event>, a: nat, j: nat)
    requires j < |events|
  {
    var s := Exec(Idle(limit), events[..j]);
    && events[j] == Step(a) && a < |s.attempts|
    && (s.attempts[a].phase == Sent || s.attempts[a].phase == Cleaning) && s.attempts[a].task == Over
  }

  ghost predicate JoinedIn(limit: nat, events: seq<Event>, a: nat) {
    exists j :: 0 <= j < |events| && JoinsAt(limit, events, a, j)
  }

  predicate PastJoin(p: Phase) {
    p.Joining? || p.Joined? || p.Closed? || (p.Dropping? && p.sent) || (p.Returned? && p.sent)
  }

  lemma JoinStep(t: Attempt, e: Event)
    requires !e.Admit? && !PastJoin(t.phase) && PastJoin(After(t, e).0.phase)
    ensures e.Step? && (t.phase == Sent || t.phase == Cleaning) && t.task == Over
  {
  }

  /** A lookup gets past the join only by joining, whatever else happens. */
  lemma {:induction false} PastJoinMeansJoined(limit: nat, events: seq<Event>, a: nat)
    requires var s := Exec(Idle(limit), events); a < |s.attempts| && PastJoin(s.attempts[a].phase)
    ensures JoinedIn(limit, events, a)
    decreases |events|
  {
    hide After, PastJoin, Apply, Tally;
    assert !PastJoin(NEW.phase) by { FreshIsNot(); }
    var n := |events| - 1;
    var before, e := events[..n], events[n];
    var s := Exec(Idle(limit), before);
    if a < |s.attempts| && PastJoin(s.attempts[a].phase) {
      PastJoinMeansJoined(limit, before, a);
      var j :| 0 <= j < n && JoinsAt(limit, before, a, j);
      assert before[..j] == events[..j] && JoinsAt(limit, events, a, j);
    } else {
      assert a < |s.attempts| && !e.Admit? && e.a == a;
      JoinStep(s.attempts[a], e);
      assert JoinsAt(limit, events, a, n);
    }
  }

  lemma FreshIsNot()
    ensures !PastJoin(NEW.phase)
  {
  }

  lemma ReleaseStep(t: Attempt, e: Event)
    requires !e.Admit? && Fits(t) && t.task != NotSpawned
    ensures var t' := After(t, e).0;
            && (In(HasR, t) && !In(HasR, t') ==> PastJoin(t.phase))
            && (t.u && !t'.u ==> PastJoin(t.phase) && !In(HasR, t))
  {
  }

  /** Main result: in every run the permits of a submitted lookup go only
      after its task is over and was joined at an earlier step: R when it is
      returned, and U only after R. */
  lemma ReleasedOnlyAfterJoin(limit: nat, events: seq<Event>, e: Event, a: nat)
    requires var s := Exec(Idle(limit), events); a < |s.attempts| && s.attempts[a].task != NotSpawned
    ensures var s, s' := Exec(Idle(limit), events), Next(Exec(Idle(limit), events), e);
            && a < |s'.attempts|
            && (In(HasR, s.attempts[a]) && !In(HasR, s'.attempts[a]) ==> JoinedIn(limit, events, a))
            && (s.attempts[a].u && !s'.attempts[a].u ==> JoinedIn(limit, events, a) && !In(HasR, s.attempts[a]))
  {
    hide After, PastJoin, Apply, Tally, JoinedIn;
    ExecKeeps(limit, events);
    var t := Exec(Idle(limit), events).attempts[a];
    if !e.Admit? && e.a == a {
      ReleaseStep(t, e);
      assert Next(Exec(Idle(limit), events), e).attempts[a] == After(t, e).0;
    } else {
      assert Next(Exec(Idle(limit), events), e).attempts[a] == t;
    }
    if PastJoin(t.phase) { PastJoinMeansJoined(limit, events, a); }
  }
}
