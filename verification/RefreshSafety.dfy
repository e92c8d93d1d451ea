/** What every run of the refresh protocol keeps, and what follows from it. */
module RefreshSafety {
  import opened Bytes
  import opened Sessions
  import opened Flights
  import opened Refresh

  // ----- the invariant -----

  /** A snapshot somebody holds: an earlier sight of the row. */
  ghost predicate Seen(s: Sys, x: Row) {
    && x.Valid() && x.userId == s.born.userId && x.authSession == s.born.authSession && x.Observed() in s.reached
    && (SID in s.rows ==> Evolves(x, s.rows[SID]))
  }

  ghost predicate Unmoved(s: Sys, x: Row) {
    SID in s.rows ==> s.rows[SID].Observed() == x.Observed()
  }

  /** A Ready outcome names a version the row really had. */
  ghost predicate OutcomeOk(s: Sys, o: Outcome) {
    o.ReadyAt? ==> Version(o.generation, Ready) in s.reached
  }

  ghost predicate TaskOk(s: Sys, t: Task) {
    match t
    case Begin(r) => Seen(s, r)
    case Refreshing(r) => Seen(s, r)
    case Persisting(r, next) => Seen(s, r) && next.userId == r.userId
    case Recovering(p, own) => Seen(s, p) && p.state == Pending && (own ==> Unmoved(s, p))
    case Finalizing(p, own) => Seen(s, p) && p.state == Pending && (own ==> Unmoved(s, p))
    case RevokeRead(e, _, own) => Seen(s, e) && (own ==> Unmoved(s, e))
    case RevokeWrite(e, _, own) => Seen(s, e) && (own ==> Unmoved(s, e))
    case RevokeReread(e, own) => Seen(s, e) && (own ==> Unmoved(s, e))
    case Ending(o) => OutcomeOk(s, o)
  }

  /** The loop in `auth_decision` runs at most eight times. */
  predicate Counted(q: Req) {
    match q
    case Start(_) => true
    case Done(_) => true
    case Looked(n, _, _) => n < MAX_TRIES
    case Waiting(n, _, _) => n < MAX_TRIES
    case Leading(n, _, _) => n < MAX_TRIES
    case Touching(n, _, _, _) => n < MAX_TRIES
  }

  ghost predicate ReqOk(s: Sys, q: Req) {
    Counted(q) && match q
    case Start(_) => true
    case Looked(_, r, readAt) => Seen(s, r) && r.Active(readAt) && readAt <= s.now
    case Waiting(_, f, _) => f in s.book.flights
    case Leading(_, f, t) => f in s.book.flights && TaskOk(s, t)
    case Touching(_, r, readAt, checkedAt) =>
      && Seen(s, r) && r.Active(readAt) && readAt <= checkedAt <= s.now
      && r.state == Ready && r.accessExpires > checkedAt + s.cfg.skew * SECOND && r.userId in s.cfg.allowed
    case Done(Allow(u)) => u == s.born.userId && u in s.cfg.allowed
    case Done(_) => true
  }

  ghost predicate RowOk(s: Sys) {
    && s.born.Valid() && s.rows.Keys <= {SID}
    && (SID in s.rows ==> s.rows[SID].Valid() && Evolves(s.born, s.rows[SID]) && s.rows[SID].Observed() in s.reached)
    && (SID in s.rows ==> forall v :: v in s.reached ==> RankOf(v) <= s.rows[SID].Rank())
  }

  function RankOf(v: Version): int { 2 * v.generation + if v.state == Ready then 1 else 0 }

  /** At most one open flight, registered, with exactly one leader. */
  ghost predicate FlightsOk(s: Sys) {
    && s.book.registry.Keys <= {SID}
    && (forall f :: f in s.book.flights ==> f < s.book.nextId)
    && (SID in s.book.registry <==> s.leader.Some?)
    && (s.leader.Some? ==> s.leader.value in s.reqs && s.reqs[s.leader.value].Leading?
                           && s.book.registry[SID] == s.reqs[s.leader.value].flight && s.book.registry[SID] in s.book.flights)
    && (forall f :: f in s.book.flights ==> (s.book.flights[f].outcome.None? <==> SID in s.book.registry && f == s.book.registry[SID]))
    && (forall r :: r in s.reqs && s.reqs[r].Leading? ==> s.leader == Some(r))
  }

  ghost predicate OutcomesOk(s: Sys) {
    && (forall f :: f in s.book.flights && s.book.flights[f].outcome.Some? ==> OutcomeOk(s, s.book.flights[f].outcome.value))
    && (forall f :: f in s.revokers ==>
          && f in s.book.flights
          && if s.book.flights[f].outcome.Some? then s.book.flights[f].outcome.value.Rejected?
             else s.leader.Some? && s.leader.value in s.reqs && s.reqs[s.leader.value].Leading?
                  && s.reqs[s.leader.value].task.Ending? && s.reqs[s.leader.value].task.outcome.Rejected?)
  }

  ghost predicate Inv(s: Sys) {
    RowOk(s) && FlightsOk(s) && OutcomesOk(s) && forall r :: r in s.reqs ==> ReqOk(s, s.reqs[r])
  }

  // ----- one step of the leader -----

  /** How the table may change in one step. */
  ghost predicate RowsEvolve(rows: Rows, rows': Rows) {
    rows'.Keys <= rows.Keys && (SID in rows' ==> rows'[SID].Valid() && Evolves(rows[SID], rows'[SID]))
  }

  function With(s: Sys, rows: Rows): Sys { s.(rows := rows, reached := s.reached + VersionsIn(rows)) }

  /** The steps a leader can still take; it never takes more. */
  function Measure(t: Task): nat {
    match t
    case Begin(_) => 13
    case Refreshing(_) => 12
    case Persisting(_, _) => 11
    case Recovering(_, own) => if own then 6 else 10
    case Finalizing(_, own) => if own then 5 else 9
    case RevokeRead(_, _, own) => if own then 5 else 9
    case RevokeWrite(_, _, own) => if own then 4 else 8
    case RevokeReread(_, own) => if own then 3 else 7
    case Ending(_) => 0
  }

  /** What a leader's step promises. */
  ghost predicate StepOk(s: Sys, t: Task, t': Task, rows': Rows) {
    && RowsEvolve(s.rows, rows')
    && TaskOk(With(s, rows'), t')
    && Measure(t') < Measure(t)
    && (t'.Persisting? ==> t.Refreshing? && t'.s == t.s)
    && (SID in rows' && s.rows[SID].revokedAt.None? && rows'[SID].revokedAt.Some? ==>
          t.RevokeWrite? && t' == Ending(Rejected(t.reason)) && !Moved(s.rows[SID], t.s))
  }

  /** Reading the row gives a snapshot that is current. */
  lemma CurrentIsSeen(s: Sys)
    requires RowOk(s) && SID in s.rows
    ensures Seen(s, s.rows[SID]) && Unmoved(s, s.rows[SID]) && RowsEvolve(s.rows, s.rows)
  {
  }

  lemma QuietStep(s: Sys)
    requires RowOk(s)
    ensures RowsEvolve(s.rows, s.rows) && With(s, s.rows) == s
  {
    assert VersionsIn(s.rows) <= s.reached;
  }

  /** A snapshot of the version the row still has carries the row's tokens. */
  lemma UnmovedIsNotMoved(s: Sys, e: Row)
    requires Seen(s, e) && Unmoved(s, e) && SID in s.rows
    ensures !Moved(s.rows[SID], e)
  {
  }

  lemma PersistStep(s: Sys, r: Row, next: Tokens, i: Input)
    requires RowOk(s) && TaskOk(s, Persisting(r, next))
    ensures var (t, rows) := LeaderStep(s, Persisting(r, next), i); StepOk(s, Persisting(r, next), t, rows)
  {
    QuietStep(s);
    if SID in s.rows {
      var row := s.rows[SID];
      GuardAgreesWithActive(row, s.now);
      CurrentIsSeen(s);
      if Matches(s.rows, SID, r, s.now) {
        var row' := Rotated(row, next, s.now);
        assert row'.Valid() && Evolves(row, row') && row'.Active(s.now);
        RotatedIsSeen(s, row');
      }
    }
  }

  lemma RotatedIsSeen(s: Sys, row': Row)
    requires RowOk(s) && SID in s.rows && row'.Valid() && Evolves(s.rows[SID], row')
    ensures var rows := s.rows[SID := row']; RowsEvolve(s.rows, rows) && Seen(With(s, rows), row') && Unmoved(With(s, rows), row')
  {
    var rows := s.rows[SID := row'];
    assert rows[SID].Observed() in VersionsIn(rows);
  }

  lemma FinalizeStep(s: Sys, p: Row, own: bool, i: Input)
    requires RowOk(s) && TaskOk(s, Finalizing(p, own))
    ensures var (t, rows) := LeaderStep(s, Finalizing(p, own), i); StepOk(s, Finalizing(p, own), t, rows)
  {
    QuietStep(s);
    if SID in s.rows {
      var row := s.rows[SID];
      GuardAgreesWithActive(row, s.now);
      if CanFinalize(s.rows, SID, p, s.now) {
        var row' := Finalized(row, None);
        assert row'.Valid() && Evolves(row, row') && row'.Active(s.now);
        RotatedIsSeen(s, row');
      }
    }
  }

  lemma RevokeStep(s: Sys, t: Task, i: Input)
    requires RowOk(s) && TaskOk(s, t) && (t.RevokeRead? || t.RevokeReread?)
    ensures var (t', rows) := LeaderStep(s, t, i); StepOk(s, t, t', rows)
  {
    QuietStep(s);
    if SID in s.rows {
      CurrentIsSeen(s);
      if t.own { UnmovedIsNotMoved(s, t.s); }
    }
    hide Evolves;
  }

  lemma RevokeWriteStep(s: Sys, t: Task, i: Input)
    requires RowOk(s) && TaskOk(s, t) && t.RevokeWrite?
    ensures var (t', rows) := LeaderStep(s, t, i); StepOk(s, t, t', rows)
  {
    QuietStep(s);
    if SID in s.rows && Matches(s.rows, SID, t.s, s.now) {
      var row' := s.rows[SID].(revokedAt := Some(Stored(s.now)));
      assert row'.Valid() && Evolves(s.rows[SID], row');
      RotatedIsSeen(s, row');
    }
  }

  lemma RemoteStep(s: Sys, t: Task, i: Input)
    requires RowOk(s) && TaskOk(s, t) && (t.Begin? || t.Refreshing? || t.Recovering?)
    ensures var (t', rows) := LeaderStep(s, t, i); StepOk(s, t, t', rows)
  {
    hide Evolves;
    QuietStep(s);
  }

  lemma LeaderStepOk(s: Sys, t: Task, i: Input)
    requires RowOk(s) && TaskOk(s, t) && !t.Ending?
    ensures var (t', rows) := LeaderStep(s, t, i); StepOk(s, t, t', rows)
  {
    hide LeaderStep, TaskOk, RowOk, StepOk;
    match t
    case Persisting(r, next) => PersistStep(s, r, next, i);
    case Finalizing(p, own) => FinalizeStep(s, p, own, i);
    case RevokeRead(_, _, _) => RevokeStep(s, t, i);
    case RevokeWrite(_, _, _) => RevokeWriteStep(s, t, i);
    case RevokeReread(_, _) => RevokeStep(s, t, i);
    case _ => RemoteStep(s, t, i);
  }

  // ----- one event of the whole system -----

  ghost predicate Grows(s: Sys, s': Sys) {
    && s'.born == s.born && s'.cfg == s.cfg && s.now <= s'.now && s.reached <= s'.reached
    && RowsEvolve(s.rows, s'.rows)
    && (forall f :: f in s.book.flights ==> f in s'.book.flights)
  }

  ghost predicate SameVersion(s: Sys, s': Sys) {
    SID in s'.rows && SID in s.rows ==> s'.rows[SID].Observed() == s.rows[SID].Observed()
  }

  lemma SeenKeeps(s: Sys, s': Sys, x: Row)
    requires Grows(s, s') && Seen(s, x)
    ensures Seen(s', x)
    ensures SameVersion(s, s') && Unmoved(s, x) ==> Unmoved(s', x)
  {
    hide Evolves;
    if SID in s'.rows { EvolvesTransitive(x, s.rows[SID], s'.rows[SID]); }
  }

  /** What one request knows survives every step of another, except that a
      leader needs the version left alone. */
  lemma OtherKeeps(s: Sys, s': Sys, q: Req)
    requires Grows(s, s') && ReqOk(s, q) && (q.Leading? ==> SameVersion(s, s'))
    ensures ReqOk(s', q)
  {
    hide Seen, Unmoved;
    match q
    case Looked(_, r, _) => SeenKeeps(s, s', r);
    case Touching(_, r, _, _) => SeenKeeps(s, s', r);
    case Leading(_, _, t) => if !t.Ending? { SeenKeeps(s, s', t.s); }
    case _ =>
  }

  lemma RowKeeps(s: Sys, s': Sys)
    requires RowOk(s) && Grows(s, s') && ReachedOk(s, s')
    ensures RowOk(s')
  {
    if SID in s'.rows {
      EvolvesTransitive(s.born, s.rows[SID], s'.rows[SID]);
      forall v | v in s'.reached ensures RankOf(v) <= s'.rows[SID].Rank() {
        assert v in s.reached ==> RankOf(v) <= s.rows[SID].Rank();
      }
    }
  }

  /** The history grows by the row's present version and nothing else. */
  ghost predicate ReachedOk(s: Sys, s': Sys) {
    && (SID in s'.rows ==> s'.rows[SID].Observed() in s'.reached)
    && (forall v :: v in s'.reached ==> v in s.reached || (SID in s'.rows && v == s'.rows[SID].Observed()))
  }

  lemma WithReached(s: Sys, rows: Rows)
    requires RowOk(s) && RowsEvolve(s.rows, rows)
    ensures ReachedOk(s, With(s, rows))
  {
    assert SID in rows ==> rows[SID].Observed() in VersionsIn(rows);
  }

  /** Puts the pieces together for a step of request `r`. */
  lemma StepKeeps(s: Sys, s': Sys, r: nat)
    requires Inv(s) && Grows(s, s') && r in s'.reqs
    requires s'.reqs == s.reqs[r := s'.reqs[r]]
    requires s'.reached == With(s, s'.rows).reached
    requires s.leader == Some(r) || SameVersion(s, s')
    requires FlightsOk(s') && OutcomesOk(s') && ReqOk(s', s'.reqs[r])
    ensures Inv(s')
  {
    hide ReqOk, OutcomesOk;
    WithReached(s, s'.rows);
    RowKeeps(s, s');
    forall k | k in s'.reqs ensures ReqOk(s', s'.reqs[k]) {
      if k != r { OtherKeeps(s, s', s.reqs[k]); }
    }
  }

  /** A request that neither leads nor comes to lead leaves the flights alone. */
  lemma BookFrame(s: Sys, s': Sys, r: nat)
    requires FlightsOk(s) && OutcomesOk(s) && r in s.reqs && !s.reqs[r].Leading?
    requires r in s'.reqs && !s'.reqs[r].Leading? && s'.reqs == s.reqs[r := s'.reqs[r]]
    requires s'.book == s.book && s'.leader == s.leader && s'.revokers == s.revokers && s.reached <= s'.reached
    ensures FlightsOk(s') && OutcomesOk(s')
  {
  }

  lemma LookKeeps(s: Sys, r: nat, i: Input)
    requires Inv(s) && r in s.reqs && s.reqs[r].Start?
    ensures Inv(Act(s, r, i))
  {
    QuietStep(s);
    if SID in s.rows { CurrentIsSeen(s); }
    BookFrame(s, Act(s, r, i), r);
    hide FlightsOk, OutcomesOk;
    StepKeeps(s, Act(s, r, i), r);
  }

  lemma AskKeeps(s: Sys, r: nat)
    requires Inv(s) && r in s.reqs && s.reqs[r].Looked?
    ensures Inv(AskFlight(s, r, s.reqs[r]))
  {
    QuietStep(s);
    var s' := AskFlight(s, r, s.reqs[r]);
    AskBook(s, r);
    hide Seen, FlightsOk, OutcomesOk;
    StepKeeps(s, s', r);
  }

  lemma AskBook(s: Sys, r: nat)
    requires Inv(s) && r in s.reqs && s.reqs[r].Looked?
    ensures var s' := AskFlight(s, r, s.reqs[r]);
            FlightsOk(s') && OutcomesOk(s') && Grows(s, s') && ReqOk(s', s'.reqs[r]) && s'.rows == s.rows
  {
    hide Evolves;
    QuietStep(s);
    var q := s.reqs[r];
    var (b, got) := Acquire(s.book, SID, q.s.Observed());
    assert got.Leader? <==> s.leader.None?;
    assert Seen(s, q.s);
  }

  lemma LookedKeeps(s: Sys, r: nat, i: Input)
    requires Inv(s) && r in s.reqs && s.reqs[r].Looked?
    ensures Inv(Act(s, r, i))
  {
    QuietStep(s);
    var row := s.reqs[r].s;
    if row.state == Pending || NeedsRefresh(s, row) {
      AskKeeps(s, r);
    } else {
      BookFrame(s, Act(s, r, i), r);
      hide Seen, FlightsOk, OutcomesOk;
      StepKeeps(s, Act(s, r, i), r);
    }
  }

  lemma WaitKeeps(s: Sys, r: nat, i: Input)
    requires Inv(s) && r in s.reqs && s.reqs[r].Waiting?
    ensures Inv(Act(s, r, i))
  {
    QuietStep(s);
    if s.book.flights[s.reqs[r].flight].outcome.Some? {
      BookFrame(s, Act(s, r, i), r);
      hide FlightsOk, OutcomesOk;
      StepKeeps(s, Act(s, r, i), r);
    }
  }

  lemma TouchStepOk(s: Sys, x: Row)
    requires RowOk(s) && Seen(s, x)
    ensures var rows := TouchReady(s.rows, SID, x, s.cfg.ttl, s.cfg.interval, s.now);
            RowsEvolve(s.rows, rows) && SameVersion(s, With(s, rows))
  {
    if SID in s.rows { TouchStep(s.rows[SID], x, s.cfg.ttl, s.cfg.interval, s.now); }
  }

  lemma TouchReqOk(s: Sys, r: nat, i: Input)
    requires Inv(s) && r in s.reqs && s.reqs[r].Touching?
    ensures r in Act(s, r, i).reqs && ReqOk(Act(s, r, i), Act(s, r, i).reqs[r])
  {
    hide FlightsOk, OutcomesOk, TouchResult, TouchReady;
    assert ReqOk(s, s.reqs[r]);
    TouchedOwner(s, s.reqs[r].s);
  }

  lemma TouchKeeps(s: Sys, r: nat, i: Input)
    requires Inv(s) && r in s.reqs && s.reqs[r].Touching?
    ensures Inv(Act(s, r, i))
  {
    hide Evolves;
    QuietStep(s);
    var q := s.reqs[r];
    TouchStepOk(s, q.s);
    var s' := Act(s, r, i);
    TouchReqOk(s, r, i);
    BookFrame(s, s', r);
    hide ReqOk, FlightsOk, OutcomesOk;
    StepKeeps(s, s', r);
  }

  /** The identity a touch hands back is the one the snapshot carried. */
  lemma TouchedOwner(s: Sys, x: Row)
    requires RowOk(s) && Seen(s, x)
    ensures var t := TouchResult(s.rows, SID, x, s.cfg.ttl, s.cfg.interval, s.now);
            (t.NotDue? ==> t.row.userId == x.userId) && (t.Advanced? ==> t.row.userId == x.userId)
  {
  }

  lemma LeadKeeps(s: Sys, r: nat, i: Input)
    requires Inv(s) && r in s.reqs && s.reqs[r].Leading?
    ensures Inv(Act(s, r, i))
  {
    QuietStep(s);
    var q := s.reqs[r];
    if q.task.Ending? {
      EndKeeps(s, r, i);
    } else if i.panics {
      hide Seen;
      StepKeeps(s, Act(s, r, i), r);
    } else {
      TaskKeeps(s, r, i);
    }
  }

  lemma EndKeeps(s: Sys, r: nat, i: Input)
    requires Inv(s) && r in s.reqs && s.reqs[r].Leading? && s.reqs[r].task.Ending?
    ensures Inv(Act(s, r, i))
  {
    hide Seen;
    QuietStep(s);
    var s' := Act(s, r, i);
    assert s'.book.registry == map[];
    StepKeeps(s, s', r);
  }

  /** A task's facts speak only of the row and its history. */
  lemma TaskFrame(s: Sys, s': Sys, t: Task)
    requires TaskOk(s, t) && s'.born == s.born && s'.reached == s.reached && s'.rows == s.rows
    ensures TaskOk(s', t)
  {
  }

  lemma TaskBook(s: Sys, r: nat, i: Input)
    requires Inv(s) && r in s.reqs && s.reqs[r].Leading? && !s.reqs[r].task.Ending? && !i.panics
    ensures var s' := Act(s, r, i); FlightsOk(s') && OutcomesOk(s') && forall f :: f in s.book.flights ==> f in s'.book.flights
  {
    var q := s.reqs[r];
    assert ReqOk(s, q);
    LeaderStepOk(s, q.task, i);
    hide Seen, LeaderStep, TaskOk, RowOk;
  }

  lemma TaskKeeps(s: Sys, r: nat, i: Input)
    requires Inv(s) && r in s.reqs && s.reqs[r].Leading? && !s.reqs[r].task.Ending? && !i.panics
    ensures Inv(Act(s, r, i))
  {
    var q := s.reqs[r];
    LeaderStepOk(s, q.task, i);
    TaskBook(s, r, i);
    var (t, rows) := LeaderStep(s, q.task, i);
    var s' := Act(s, r, i);
    TaskFrame(With(s, rows), s', t);
    hide TaskOk, LeaderStep, FlightsOk, OutcomesOk, RowsEvolve;
    StepKeeps(s, s', r);
  }

  lemma EnvironmentKeeps(s: Sys, e: Refresh.Event)
    requires Inv(s) && !e.Step?
    ensures Inv(Refresh.Next(s, e))
  {
    var s' := Refresh.Next(s, e);
    EnvironmentRows(s, e);
    RowKeeps(s, s');
    EnvironmentBook(s, e);
    hide ReqOk, RowOk, RowsEvolve, FlightsOk, OutcomesOk, RevokeSession, Prune;
    forall k | k in s'.reqs ensures ReqOk(s', s'.reqs[k]) {
      if k in s.reqs { OtherKeeps(s, s', s.reqs[k]); } else { assert s'.reqs[k] == Start(0); StartOk(s'); }
    }
  }

  lemma EnvironmentBook(s: Sys, e: Refresh.Event)
    requires Inv(s) && !e.Step?
    ensures FlightsOk(Refresh.Next(s, e)) && OutcomesOk(Refresh.Next(s, e))
  {
    hide ReqOk, RowOk, RevokeSession, Prune;
  }

  lemma StartOk(s: Sys)
    ensures ReqOk(s, Start(0))
  {
  }

  lemma EnvironmentRows(s: Sys, e: Refresh.Event)
    requires Inv(s) && !e.Step?
    ensures var s' := Refresh.Next(s, e);
            Grows(s, s') && SameVersion(s, s') && ReachedOk(s, s')
  {
    hide ReqOk, OutcomesOk, FlightsOk;
    if SID in s.rows { CurrentIsSeen(s); }
  }

  lemma NextKeeps(s: Sys, e: Refresh.Event)
    requires Inv(s)
    ensures Inv(Refresh.Next(s, e))
  {
    if e.Step? && e.r in s.reqs {
      var r, i := e.r, e.input;
      match s.reqs[r]
      case Start(_) => LookKeeps(s, r, i);
      case Looked(_, _, _) => LookedKeeps(s, r, i);
      case Waiting(_, _, _) => WaitKeeps(s, r, i);
      case Leading(_, _, _) => LeadKeeps(s, r, i);
      case Touching(_, _, _, _) => TouchKeeps(s, r, i);
      case Done(_) =>
    } else if !e.Step? {
      EnvironmentKeeps(s, e);
    }
  }
}
