/** No lookup keeps its permits: from every reachable state all of them can be
    given back, and the counters then stand at zero. */
module ResolverReturns {
  import opened Bytes
  import opened Resolver

  predicate Finished(t: Attempt) { t.phase.Returned? && !t.u }

  function PhaseLeft(p: Phase): nat {
    match p
    case Permitted => 11
    case Acquired => 10
    case Sending => 9
    case Owning => 8
    case Sent => 7
    case Leaving => 6
    case Cleaning => 5
    case Joining => 4
    case Joined => 3
    case Closed => 2
    case Dropping(_) => 1
    case Returned(_) => 0
  }

  function TaskLeft(k: Task): nat {
    match k
    case NotSpawned => 5
    case Queued => 4
    case Begun => 3
    case Counted => 2
    case Uncounted => 1
    case Over => 0
  }

  function Left(t: Attempt): nat { 20 * PhaseLeft(t.phase) + 2 * TaskLeft(t.task) + if t.u then 1 else 0 }

  /** What brings a lookup closer to its end: a request that has not submitted
      it goes away, a spawned task runs, its owner goes on, U is dropped. */
  function EndingEvent(t: Attempt, a: nat): Event {
    match t.phase
    case Acquired => Leave(a)
    case Sent => if t.task == NotSpawned || t.task == Over then Step(a) else TaskStep(a)
    case Cleaning => if t.task == Over then Step(a) else TaskStep(a)
    case Returned(_) => DropU(a)
    case _ => Step(a)
  }

  lemma EndingIsCloser(t: Attempt, a: nat)
    requires Fits(t) && !Finished(t)
    ensures Left(After(t, EndingEvent(t, a)).0) < Left(t)
  {
  }

  lemma {:induction false} ExecSplit(s: Sys, x: seq<Event>, y: seq<Event>)
    ensures Exec(s, x + y) == Exec(Exec(s, x), y)
    decreases |y|
  {
    hide Next;
    if y == [] {
      assert x + y == x;
    } else {
      var n := |y| - 1;
      ExecSplit(s, x, y[..n]);
      assert (x + y)[..|x + y| - 1] == x + y[..n] && (x + y)[|x + y| - 1] == y[n];
    }
  }

  /** No new lookup. */
  ghost predicate Ending(events: seq<Event>) { forall e :: e in events ==> !e.Admit? }

  ghost predicate Ends(s: Sys, a: nat, more: seq<Event>)
    requires a < |s.attempts|
  {
    var s' := Exec(s, more);
    && Ending(more) && Inv(s') && s'.limit == s.limit && |s'.attempts| == |s.attempts| && Finished(s'.attempts[a])
    && forall b :: 0 <= b < |s.attempts| && b != a ==> s'.attempts[b] == s.attempts[b]
  }

  lemma {:induction false} LookupEnds(s: Sys, a: nat)
    requires Inv(s) && a < |s.attempts|
    ensures exists more :: Ends(s, a, more)
    decreases Left(s.attempts[a])
  {
    hide After, Apply, Finished, Left, EndingEvent;
    var t := s.attempts[a];
    if Finished(t) {
      assert Ends(s, a, []);
    } else {
      assert Fits(t);
      var e := EndingEvent(t, a);
      assert !e.Admit? && e.a == a by { EndsItself(t, a); }
      EndingIsCloser(t, a);
      var s' := Next(s, e);
      NextKeeps(s, e);
      hide Inv;
      LookupEnds(s', a);
      var more :| Ends(s', a, more);
      ExecSplit(s, [e], more);
      assert [e][..0] == [] && Exec(s, [e]) == s';
      assert Ends(s, a, [e] + more);
    }
  }

  lemma EndsItself(t: Attempt, a: nat)
    ensures var e := EndingEvent(t, a); !e.Admit? && e.a == a
  {
  }

  ghost predicate AllEnd(s: Sys, n: nat, more: seq<Event>) {
    var s' := Exec(s, more);
    && Ending(more) && Inv(s') && s'.limit == s.limit && |s'.attempts| == |s.attempts|
    && forall b :: 0 <= b < |s.attempts| ==> if b < n then Finished(s'.attempts[b]) else s'.attempts[b] == s.attempts[b]
  }

  lemma {:induction false} LookupsEnd(s: Sys, n: nat)
    requires Inv(s) && n <= |s.attempts|
    ensures exists more :: AllEnd(s, n, more)
    decreases n
  {
    hide Inv, Finished, Next;
    if n == 0 {
      assert AllEnd(s, 0, []);
    } else {
      LookupsEnd(s, n - 1);
      var first :| AllEnd(s, n - 1, first);
      var s' := Exec(s, first);
      LookupEnds(s', n - 1);
      var more :| Ends(s', n - 1, more);
      ExecSplit(s, first, more);
      assert AllEnd(s, n, first + more);
    }
  }

  lemma {:induction false} NothingTallied(ts: seq<Attempt>, c: Class)
    requires (forall b :: 0 <= b < |ts| ==> Finished(ts[b]) && Fits(ts[b])) && c != EverSent
    ensures Tally(ts, c) == 0
    decreases |ts|
  {
    if ts != [] { NothingTallied(ts[..|ts| - 1], c); }
  }

  /** Every lookup has given R and U back, and nothing is counted any more. */
  ghost predicate AtRest(s: Sys) {
    && (forall b :: 0 <= b < |s.attempts| ==> s.attempts[b].phase.Returned? && !s.attempts[b].u)
    && s.counters == Counters(0, 0, 0, 0, 0, s.counters.total)
  }

  /** Main result: from every reachable state some events, without a new lookup,
      bring every lookup to its end. */
  lemma EveryLookupEnds(limit: nat, events: seq<Event>)
    ensures exists more :: Ending(more) && AtRest(Exec(Idle(limit), events + more))
  {
    hide Exec, Ending, Tally;
    ExecKeeps(limit, events);
    var s := Exec(Idle(limit), events);
    LookupsEnd(s, |s.attempts|);
    var more :| AllEnd(s, |s.attempts|, more);
    ExecSplit(Idle(limit), events, more);
    CountersRest(Exec(s, more));
  }

  lemma CountersRest(s: Sys)
    requires Inv(s) && forall b :: 0 <= b < |s.attempts| ==> Finished(s.attempts[b])
    ensures s.counters == Counters(0, 0, 0, 0, 0, s.counters.total)
  {
    hide Tally, Fits;
    NothingTallied(s.attempts, Held);
    NothingTallied(s.attempts, Unobserved);
    NothingTallied(s.attempts, OfRequest);
    NothingTallied(s.attempts, OfCleanup);
    NothingTallied(s.attempts, Blocking);
    var k := s.counters;
    assert Count(k, Held) == k.heldR && Count(k, Unobserved) == k.submitted && Count(k, OfRequest) == k.requestOwned;
    assert Count(k, OfCleanup) == k.cleanupOwned && Count(k, Blocking) == k.liveBlocking;
  }

  /** In every run a lookup is admitted exactly while fewer than the limit hold
      R, and starts with R taken, U held and no task. */
  lemma AdmissionIsExact(limit: nat, events: seq<Event>)
    ensures var s := Exec(Idle(limit), events);
            Next(s, Admit).attempts == if Tally(s.attempts, HasR) < limit then s.attempts + [Attempt(Permitted, NotSpawned, true)] else s.attempts
  {
    ExecKeeps(limit, events);
  }

  /** A task that the cleanup aborts while it is still queued never runs: it can
      be joined at once, and the count of blocking lookups is not touched. */
  lemma AbortedNeverRuns(limit: nat, events: seq<Event>, a: nat)
    requires var s := Exec(Idle(limit), events); a < |s.attempts| && s.attempts[a].phase == Cleaning && s.attempts[a].task == Queued
    ensures var s := Exec(Idle(limit), events); var s' := Next(Next(s, Abort(a)), Step(a));
            && s'.attempts == s.attempts[a := s.attempts[a].(phase := Joining, task := Over)]
            && s'.counters == s.counters.(cleanupOwned := s.counters.cleanupOwned - 1)
  {
    hide Exec, Tally;
    var s := Exec(Idle(limit), events);
    var t := s.attempts[a].(task := Over);
    assert Next(s, Abort(a)).attempts == s.attempts[a := t];
    assert s.attempts[a := t][a := t.(phase := Joining)] == s.attempts[a := t.(phase := Joining)];
  }

  /** A request that goes away while its lookup is out hands it to the cleanup:
      the lookup stays submitted and keeps both permits. */
  lemma LeavingHandsOver(limit: nat, events: seq<Event>, a: nat)
    requires var s := Exec(Idle(limit), events); a < |s.attempts| && s.attempts[a].phase == Sent && s.attempts[a].task != NotSpawned
    ensures var s := Exec(Idle(limit), events); var s' := Next(Next(s, Leave(a)), Step(a));
            && s'.attempts == s.attempts[a := s.attempts[a].(phase := Cleaning)]
            && s'.counters == s.counters.(requestOwned := s.counters.requestOwned - 1, cleanupOwned := s.counters.cleanupOwned + 1)
  {
    hide Exec, Tally;
    var s := Exec(Idle(limit), events);
    var t := s.attempts[a].(phase := Leaving);
    assert Next(s, Leave(a)).attempts == s.attempts[a := t];
    assert s.attempts[a := t][a := t.(phase := Cleaning)] == s.attempts[a := t.(phase := Cleaning)];
  }
}
