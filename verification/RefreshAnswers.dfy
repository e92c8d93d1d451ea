/** What each answer of the authentication server leads to: which flights end
    Temporary or Indeterminate and leave the row alone, which rejection revokes
    it, and that a good answer rotates the tokens and lets requests through. */
module RefreshAnswers {
  import opened Bytes
  import opened Sessions
  import F = Flights
  import opened Refresh
  import opened RefreshSafety
  import opened RefreshResults
  import opened RefreshTokens

  /** A step in which storage works and nothing panics. */
  predicate Smooth(i: Input) { !i.storageFails && !i.readBackFails && !i.panics }

  predicate LeadsAt(s: Sys, r: nat, n: nat, f: nat, t: Task) { r in s.reqs && s.reqs[r] == Leading(n, f, t) }

  /** Flight `f` is over with outcome `o`, and its leader `r` stands at `q`. */
  predicate Over(s: Sys, r: nat, f: nat, o: F.Outcome, q: Req) {
    f in s.book.flights && s.book.flights[f].outcome == Some(o) && r in s.reqs && s.reqs[r] == q && s.leader.None?
  }

  lemma ExecOne(s: Sys, e: Refresh.Event, rest: seq<Refresh.Event>)
    requires Inv(s)
    ensures Inv(Refresh.Next(s, e)) && Exec(s, [e] + rest) == Exec(Refresh.Next(s, e), rest)
  {
    hide RowOk, OutcomesOk, FlightsOk, Act;
    RefreshSafety.NextKeeps(s, e);
    assert ([e] + rest)[1..] == rest;
  }

  /** One step of a leader that goes on. */
  lemma Moves(s: Sys, r: nat, n: nat, f: nat, t: Task, i: Input)
    requires Inv(s) && LeadsAt(s, r, n, f, t) && !t.Ending? && !i.panics
    ensures var s', (t', rows) := Refresh.Next(s, Step(r, i)), LeaderStep(s, t, i);
            LeadsAt(s', r, n, f, t') && s'.rows == rows && s'.now == s.now && s'.cfg == s.cfg && s'.born == s.born
  {
    hide LeaderStep;
  }

  /** The leader publishes its outcome, once. */
  lemma Publishes(s: Sys, r: nat, n: nat, f: nat, o: F.Outcome, i: Input)
    requires Inv(s) && LeadsAt(s, r, n, f, Ending(o))
    ensures var s' := Refresh.Next(s, Step(r, i));
            s'.rows == s.rows && Over(s', r, f, o, if o.ReadyAt? then Start(n + 1) else Done(if o.Rejected? then Unauthenticated else Unavailable))
  {
    assert FlightsOk(s);
  }

  // ----- answers that leave the row alone -----

  /** The first thing to go wrong with the answer is `e`. */
  predicate GoesWrong(i: Input, x: Row, e: RefreshError) {
    || i.prepare == Some(e)
    || (i.prepare.None? && i.refresh == Bad(e))
    || (i.prepare.None? && i.refresh.Good? && i.refresh.value.sessionId == x.authSession && i.verify == Bad(e))
  }

  /** The answer is good but for another session or user. */
  predicate ForAnother(i: Input, x: Row) {
    i.prepare.None? && i.refresh.Good? &&
    (i.refresh.value.sessionId != x.authSession ||
     (i.verify.Good? && (i.verify.value.authSession != x.authSession || i.verify.value.userId != x.userId)))
  }

  /** The answer is good but for how long it holds cannot be told. */
  predicate NoExpiry(i: Input, x: Row) {
    && i.prepare.None? && i.refresh.Good? && i.refresh.value.sessionId == x.authSession
    && i.verify.Good? && i.verify.value.authSession == x.authSession && i.verify.value.userId == x.userId && i.verify.value.exp.None?
  }

  /** Main result: a failure that may pass ends the flight Temporary, one that
      leaves it open what happened ends it Indeterminate, each with its class;
      an answer for someone else or without an expiry ends it Indeterminate. The
      row is as before, and the leader's request is told to come back later. */
  lemma FailuresLeaveTheRow(cfg: Config, born: Row, now: Time, events: seq<Refresh.Event>, r: nat, n: nat, f: nat, x: Row,
                            i: Input, k: Input, two: seq<Refresh.Event>)
    requires born.Valid() && LeadsAt(Run(cfg, born, now, events), r, n, f, Refreshing(x))
    requires !i.panics && two == [Step(r, i), Step(r, k)]
    ensures var s := Run(cfg, born, now, events); var s' := Exec(s, two);
            && (forall c :: GoesWrong(i, x, Passing(c)) ==> s'.rows == s.rows && Over(s', r, f, F.Temporary(c), Done(Unavailable)))
            && (forall c :: GoesWrong(i, x, Unclear(c)) ==> s'.rows == s.rows && Over(s', r, f, F.Indeterminate(c), Done(Unavailable)))
            && (ForAnother(i, x) ==> s'.rows == s.rows && exists c :: Over(s', r, f, F.Indeterminate(c), Done(Unavailable)))
            && (NoExpiry(i, x) ==> s'.rows == s.rows && Over(s', r, f, F.Indeterminate(F.TokenVerification), Done(Unavailable)))
            && (i.prepare == Some(WrongAudience) || (i.prepare.None? && i.refresh == Bad(WrongAudience)) ==>
                  s'.rows == s.rows && Over(s', r, f, F.Indeterminate(F.ContractDrift), Done(Unavailable)))
  {
    hide Run, Exec, Inv, Over, LeaderStep;
    var s := Run(cfg, born, now, events);
    assert two == [Step(r, i)] + ([Step(r, k)] + []);
    var s1 := Goes(s, r, n, f, Refreshing(x), i, [Step(r, k)] + []);
    Answered(s, x, i);
    var t := LeaderStep(s, Refreshing(x), i).0;
    if t.Ending? { Ends(s1, r, n, f, t.outcome, k); }
  }

  /** One step of a leader, and what is left to do. */
  lemma Goes(s: Sys, r: nat, n: nat, f: nat, t: Task, i: Input, rest: seq<Refresh.Event>) returns (s': Sys)
    requires Inv(s) && LeadsAt(s, r, n, f, t) && !t.Ending? && !i.panics
    ensures Inv(s') && Exec(s, [Step(r, i)] + rest) == Exec(s', rest)
    ensures var (t', rows) := LeaderStep(s, t, i);
            LeadsAt(s', r, n, f, t') && s'.rows == rows && s'.now == s.now && s'.cfg == s.cfg && s'.born == s.born
  {
    hide Inv, Exec, LeaderStep;
    ExecOne(s, Step(r, i), rest);
    s' := Next1(s, r, i);
    Moves(s, r, n, f, t, i);
  }

  /** The last step of a leader. */
  lemma Ends(s: Sys, r: nat, n: nat, f: nat, o: F.Outcome, i: Input)
    requires Inv(s) && LeadsAt(s, r, n, f, Ending(o))
    ensures var s' := Exec(s, [Step(r, i)] + []);
            s'.rows == s.rows && Over(s', r, f, o, if o.ReadyAt? then Start(n + 1) else Done(if o.Rejected? then Unauthenticated else Unavailable))
  {
    hide Inv, Exec, Over;
    ExecOne(s, Step(r, i), []);
    Publishes(s, r, n, f, o, i);
    ExecNone(Next1(s, r, i));
  }

  ghost function Next1(s: Sys, r: nat, i: Input): Sys
    requires Inv(s)
  {
    InvKnown(s);
    Refresh.Next(s, Step(r, i))
  }

  lemma ExecNone(s: Sys)
    requires Inv(s)
    ensures Exec(s, []) == s
  {
  }

  lemma Answered(s: Sys, x: Row, i: Input)
    ensures var (t, rows) := LeaderStep(s, Refreshing(x), i);
            && rows == s.rows
            && (forall c :: GoesWrong(i, x, Passing(c)) ==> t == Ending(F.Temporary(c)))
            && (forall c :: GoesWrong(i, x, Unclear(c)) ==> t == Ending(F.Indeterminate(c)))
            && (ForAnother(i, x) ==> t.Ending? && t.outcome.Indeterminate?)
            && (NoExpiry(i, x) ==> t == Ending(F.Indeterminate(F.TokenVerification)))
            && (i.prepare == Some(WrongAudience) || (i.prepare.None? && i.refresh == Bad(WrongAudience)) ==> t == Ending(F.Indeterminate(F.ContractDrift)))
  {
  }

  /** The first thing to go wrong with verifying a pending row is `e`. */
  predicate FailsToVerify(i: Input, e: RefreshError) { i.prepare == Some(e) || (i.prepare.None? && i.verify == Bad(e)) }

  lemma Reverified(s: Sys, p: Row, own: bool, i: Input)
    ensures var (t, rows) := LeaderStep(s, Recovering(p, own), i);
            && rows == s.rows
            && (forall c :: FailsToVerify(i, Passing(c)) ==> t == Ending(F.Temporary(c)))
            && (forall c :: FailsToVerify(i, Unclear(c)) ==> t == Ending(F.Indeterminate(c)))
            && (i.prepare.None? && i.verify.Good? && (i.verify.value.authSession != p.authSession || i.verify.value.userId != p.userId) ==>
                  t == Ending(F.Indeterminate(F.IdentityMismatch)))
            && (i.prepare.None? && i.verify == Bad(WrongAudience) ==> t == RevokeRead(p, F.AudienceRejected, own))
  {
  }

  /** The same for a row that waits for its identity: it stays pending unless
      its token verifies as this session's user. */
  lemma UnverifiedStaysPending(cfg: Config, born: Row, now: Time, events: seq<Refresh.Event>, r: nat, n: nat, f: nat, p: Row, own: bool,
                               i: Input, k: Input, two: seq<Refresh.Event>)
    requires born.Valid() && LeadsAt(Run(cfg, born, now, events), r, n, f, Recovering(p, own))
    requires !i.panics && two == [Step(r, i), Step(r, k)]
    ensures var s := Run(cfg, born, now, events); var s' := Exec(s, two);
            && (forall c :: FailsToVerify(i, Passing(c)) ==> s'.rows == s.rows && Over(s', r, f, F.Temporary(c), Done(Unavailable)))
            && (forall c :: FailsToVerify(i, Unclear(c)) ==> s'.rows == s.rows && Over(s', r, f, F.Indeterminate(c), Done(Unavailable)))
            && (i.prepare.None? && i.verify.Good? && (i.verify.value.authSession != p.authSession || i.verify.value.userId != p.userId) ==>
                  s'.rows == s.rows && Over(s', r, f, F.Indeterminate(F.IdentityMismatch), Done(Unavailable)))
  {
    hide Run, Exec, Inv, Over, LeaderStep;
    var s := Run(cfg, born, now, events);
    assert two == [Step(r, i)] + ([Step(r, k)] + []);
    var s1 := Goes(s, r, n, f, Recovering(p, own), i, [Step(r, k)] + []);
    Reverified(s, p, own, i);
    var t := LeaderStep(s, Recovering(p, own), i).0;
    if t.Ending? { Ends(s1, r, n, f, t.outcome, k); }
  }

  /** A leader's next step runs a statement. */
  predicate RunsStatement(t: Task) { MeetsRow(t) || t.Finalizing? || t.RevokeWrite? }

  lemma StorageFails(s: Sys, t: Task, i: Input)
    requires RunsStatement(t)
    ensures i.storageFails ==> LeaderStep(s, t, i) == (Ending(F.Indeterminate(F.Persistence)), s.rows)
    ensures i.readBackFails && (t.Persisting? || t.Finalizing?) ==> LeaderStep(s, t, i).0 == Ending(F.Indeterminate(F.Persistence))
    ensures t.Persisting? || t.Finalizing? ==> LeaderStep(s, t, i.(readBackFails := true)).1 == LeaderStep(s, t, i.(readBackFails := false)).1
  {
  }

  /** Where storage fails the flight ends undecided: before the statement
      nothing has changed, and when only the reading back fails the statement has
      done exactly what it does otherwise. */
  lemma StorageFailureIsUndecided(cfg: Config, born: Row, now: Time, events: seq<Refresh.Event>, r: nat, n: nat, f: nat, t: Task,
                                  i: Input, k: Input, two: seq<Refresh.Event>)
    requires born.Valid() && LeadsAt(Run(cfg, born, now, events), r, n, f, t) && RunsStatement(t)
    requires !i.panics && (i.storageFails || (i.readBackFails && (t.Persisting? || t.Finalizing?))) && two == [Step(r, i), Step(r, k)]
    ensures var s := Run(cfg, born, now, events); var s' := Exec(s, two);
            && Over(s', r, f, F.Indeterminate(F.Persistence), Done(Unavailable))
            && (i.storageFails ==> s'.rows == s.rows)
            && (!i.storageFails ==> s'.rows == LeaderStep(s, t, i.(readBackFails := false)).1)
  {
    hide Run, Exec, Inv, Over, LeaderStep;
    var s := Run(cfg, born, now, events);
    assert two == [Step(r, i)] + ([Step(r, k)] + []);
    var s1 := Goes(s, r, n, f, t, i, [Step(r, k)] + []);
    StorageFails(s, t, i);
    assert !i.storageFails ==> i == i.(readBackFails := true);
    Ends(s1, r, n, f, F.Indeterminate(F.Persistence), k);
  }

  /** A request whose own read or touch fails is told to come back later. */
  lemma FailedReadIsUnavailable(cfg: Config, born: Row, now: Time, events: seq<Refresh.Event>, r: nat, i: Input)
    requires born.Valid() && r in Run(cfg, born, now, events).reqs
    ensures var s := Run(cfg, born, now, events); var q, s' := s.reqs[r], Exec(s, [Step(r, i)]);
            && r in s'.reqs
            && (i.storageFails && (q.Start? || q.Touching?) ==> s'.reqs[r] == Done(Unavailable) && s'.rows == s.rows)
            && (i.readBackFails && q.Touching? && s'.rows != s.rows ==> s'.reqs[r] == Done(Unavailable))
  {
    hide Run, RowOk, OutcomesOk, FlightsOk, ReqOk, LeaderStep, TouchReady, TouchResult;
    var s := Run(cfg, born, now, events);
    assert [Step(r, i)] == [Step(r, i)] + [];
    ExecOne(s, Step(r, i), []);
    ExecNone(Next1(s, r, i));
  }

  /** A leader that panics, wherever it stands, leaves the row alone and ends
      its flight as aborted. */
  lemma PanicLeavesTheRow(cfg: Config, born: Row, now: Time, events: seq<Refresh.Event>, r: nat, n: nat, f: nat, t: Task,
                          i: Input, k: Input, two: seq<Refresh.Event>)
    requires born.Valid() && LeadsAt(Run(cfg, born, now, events), r, n, f, t) && !t.Ending?
    requires i.panics && two == [Step(r, i), Step(r, k)]
    ensures var s := Run(cfg, born, now, events); var s' := Exec(s, two);
            s'.rows == s.rows && Over(s', r, f, F.Indeterminate(F.LeaderAborted), Done(Unavailable))
  {
    hide Run, Exec, Over, LeaderStep, OutcomesOk, FlightsOk, RowOk, ReqOk;
    var s := Run(cfg, born, now, events);
    assert two == [Step(r, i)] + ([Step(r, k)] + []);
    ExecOne(s, Step(r, i), [Step(r, k)] + []);
    Aborts(s, r, n, f, t, i);
    Ends(Next1(s, r, i), r, n, f, F.Indeterminate(F.LeaderAborted), k);
  }

  lemma Aborts(s: Sys, r: nat, n: nat, f: nat, t: Task, i: Input)
    requires Inv(s) && LeadsAt(s, r, n, f, t) && !t.Ending? && i.panics
    ensures LeadsAt(Next1(s, r, i), r, n, f, Ending(F.Indeterminate(F.LeaderAborted))) && Next1(s, r, i).rows == s.rows
  {
  }

  // ----- a rejection -----

  /** The row is active and still as the snapshot `x` has it. */
  predicate Unchanged(s: Sys, x: Row) {
    && SID in s.rows && s.rows[SID].Active(s.now)
    && s.rows[SID].generation == x.generation && s.rows[SID].state == x.state && s.rows[SID].refreshToken == x.refreshToken
  }

  /** The server rejects the token itself, or the token it gave is for others. */
  predicate RejectedFor(i: Input, x: Row, reason: F.RejectedReason) {
    i.prepare.None? &&
    match reason
    case Remote(why) => i.refresh == Bad(RemoteRejected(why))
    case AudienceRejected => i.refresh.Good? && i.refresh.value.sessionId == x.authSession && i.verify == Bad(WrongAudience)
    case LocalInactive => false
  }

  lemma RowGuards(s: Sys, x: Row)
    requires RowOk(s) && Unchanged(s, x)
    ensures Matches(s.rows, SID, x, s.now) && LookupAt(s.rows, SID, s.now) == Live(s.rows[SID]) && !Moved(s.rows[SID], x)
  {
    GuardAgreesWithActive(s.rows[SID], s.now);
  }

  lemma Rejects(s: Sys, x: Row, reason: F.RejectedReason, i: Input, ok: Input)
    requires RowOk(s) && Unchanged(s, x) && Smooth(ok)
    ensures RejectedFor(i, x, reason) ==> LeaderStep(s, Refreshing(x), i) == (RevokeRead(x, reason, false), s.rows)
    ensures LeaderStep(s, RevokeRead(x, reason, false), ok) == (RevokeWrite(x, reason, false), s.rows)
    ensures LeaderStep(s, RevokeWrite(x, reason, false), ok) ==
      (Ending(F.Rejected(reason)), s.rows[SID := s.rows[SID].(revokedAt := Some(Stored(s.now)))])
  {
    RowGuards(s, x);
  }

  lemma SameTable(s: Sys, s': Sys, t: Task, i: Input)
    requires s'.rows == s.rows && s'.now == s.now && s'.cfg == s.cfg
    ensures LeaderStep(s', t, i) == LeaderStep(s, t, i)
  {
  }

  /** Main result: an active row whose own token is rejected is revoked, the
      flight ends Rejected for that reason, and the request must log in again. */
  lemma RejectionRevokes(cfg: Config, born: Row, now: Time, events: seq<Refresh.Event>, r: nat, n: nat, f: nat, x: Row,
                         reason: F.RejectedReason, i: Input, ok: Input, four: seq<Refresh.Event>)
    requires born.Valid() && LeadsAt(Run(cfg, born, now, events), r, n, f, Refreshing(x)) && Unchanged(Run(cfg, born, now, events), x)
    requires !i.panics && RejectedFor(i, x, reason) && Smooth(ok)
    requires four == [Step(r, i), Step(r, ok), Step(r, ok), Step(r, ok)]
    ensures var s := Run(cfg, born, now, events); var s' := Exec(s, four);
            && s'.rows == s.rows[SID := s.rows[SID].(revokedAt := Some(Stored(s.now)))]
            && Over(s', r, f, F.Rejected(reason), Done(Unauthenticated))
  {
    hide Run, Exec, Over, LeaderStep, Unchanged, OutcomesOk, FlightsOk;
    var s := Run(cfg, born, now, events);
    Rejects(s, x, reason, i, ok);
    var last := [Step(r, ok)] + [];
    assert four == [Step(r, i)] + ([Step(r, ok)] + ([Step(r, ok)] + last));
    hide Inv;
    var s1 := Goes(s, r, n, f, Refreshing(x), i, [Step(r, ok)] + ([Step(r, ok)] + last));
    SameTable(s, s1, RevokeRead(x, reason, false), ok);
    var s2 := Goes(s1, r, n, f, RevokeRead(x, reason, false), ok, [Step(r, ok)] + last);
    SameTable(s, s2, RevokeWrite(x, reason, false), ok);
    var s3 := Goes(s2, r, n, f, RevokeWrite(x, reason, false), ok, last);
    Ends(s3, r, n, f, F.Rejected(reason), ok);
  }

  // ----- a good answer -----

  /** The answer is for this session and verifies as its user until `exp`. */
  predicate Accepted(i: Input, x: Row, exp: Time) {
    && i.prepare.None? && i.refresh.Good? && i.refresh.value.sessionId == x.authSession
    && Verifies(i, x) && i.verify.value.exp == Some(exp)
  }

  predicate Verifies(i: Input, x: Row) {
    i.prepare.None? && i.verify.Good? && i.verify.value.authSession == x.authSession && i.verify.value.userId == x.userId
  }

  /** The row with the tokens of an answer, waiting for its identity. */
  function Renewed(row: Row, i: Input, exp: Time, at: Time): Row
    requires i.refresh.Good? && i.verify.Good?
  {
    row.(accessToken := i.refresh.value.accessToken, refreshToken := i.refresh.value.refreshToken, amr := i.verify.value.amr,
         accessExpires := Stored(exp), generation := row.generation + 1,
         state := Pending, pendingSince := Some(Stored(at)), sessionExpires := 0)
  }

  lemma Accepts(s: Sys, x: Row, i: Input, exp: Time, ok: Input)
    requires RowOk(s) && Unchanged(s, x) && Accepted(i, x, exp) && Smooth(ok) && x.userId == s.rows[SID].userId
    ensures LeaderStep(s, Refreshing(x), i).1 == s.rows && LeaderStep(s, Refreshing(x), i).0.Persisting?
    ensures LeaderStep(s, LeaderStep(s, Refreshing(x), i).0, ok) ==
      (Recovering(Renewed(s.rows[SID], i, exp, s.now), true), s.rows[SID := Renewed(s.rows[SID], i, exp, s.now)])
  {
    RowGuards(s, x);
    var row, row' := s.rows[SID], Renewed(s.rows[SID], i, exp, s.now);
    assert Stored(0) == 0;
    assert row'.Consistent() && row'.Active(s.now);
    assert PersistPending(s.rows, SID, x, LeaderStep(s, Refreshing(x), i).0.next, s.now) == s.rows[SID := row'];
  }

  lemma Finalizes(s: Sys, p: Row, j: Input, ok: Input)
    requires RowOk(s) && SID in s.rows && s.rows[SID] == p && p.Active(s.now) && p.state == Pending && Verifies(j, p) && Smooth(ok)
    ensures LeaderStep(s, Recovering(p, true), j) == (Finalizing(p, true), s.rows)
    ensures var row := p.(email := None, state := Ready, pendingSince := None, sessionExpires := p.idle);
            LeaderStep(s, Finalizing(p, true), ok) == (Ending(F.ReadyAt(p.generation)), s.rows[SID := row])
  {
    GuardAgreesWithActive(p, s.now);
    var row := p.(email := None, state := Ready, pendingSince := None, sessionExpires := p.idle);
    assert row.Consistent() && row.Active(s.now);
  }

  /** Main result: a good answer takes the row to its next generation with
      the two tokens, the methods and the expiry of that answer; once the
      identity is verified the row is ready, nothing else in it has changed, the
      flight ends Ready at that generation and the request looks again. */
  lemma GoodAnswerRotates(cfg: Config, born: Row, now: Time, events: seq<Refresh.Event>, r: nat, n: nat, f: nat, x: Row,
                          i: Input, exp: Time, j: Input, ok: Input, five: seq<Refresh.Event>)
    requires born.Valid() && LeadsAt(Run(cfg, born, now, events), r, n, f, Refreshing(x)) && Unchanged(Run(cfg, born, now, events), x)
    requires !i.panics && !j.panics && Accepted(i, x, exp) && Verifies(j, x) && Smooth(ok)
    requires five == [Step(r, i), Step(r, ok), Step(r, j), Step(r, ok), Step(r, ok)]
    ensures var s := Run(cfg, born, now, events); var s', row := Exec(s, five), s.rows[SID];
            && s'.rows == s.rows[SID := row.(accessToken := i.refresh.value.accessToken, refreshToken := i.refresh.value.refreshToken,
                                             amr := i.verify.value.amr, accessExpires := Stored(exp), generation := row.generation + 1,
                                             email := None, state := Ready, pendingSince := None, sessionExpires := row.idle)]
            && Over(s', r, f, F.ReadyAt(row.generation + 1), Start(n + 1))
  {
    hide Run, Exec, Over, LeaderStep, OutcomesOk, FlightsOk;
    var s := Run(cfg, born, now, events);
    var row, p := s.rows[SID], Renewed(s.rows[SID], i, exp, s.now);
    assert x.userId == row.userId && x.authSession == row.authSession by { SameOwner(s, r, n, f, x); }
    Accepts(s, x, i, exp, ok);
    var t := LeaderStep(s, Refreshing(x), i).0;
    var last := [Step(r, ok)] + [];
    assert five == [Step(r, i)] + ([Step(r, ok)] + ([Step(r, j)] + ([Step(r, ok)] + last)));
    hide Inv;
    var s1 := Goes(s, r, n, f, Refreshing(x), i, [Step(r, ok)] + ([Step(r, j)] + ([Step(r, ok)] + last)));
    SameTable(s, s1, t, ok);
    var s2 := Goes(s1, r, n, f, t, ok, [Step(r, j)] + ([Step(r, ok)] + last));
    assert RowOk(s2) by { InvRow(s2); }
    Finalizes(s2, p, j, ok);
    var s3 := Goes(s2, r, n, f, Recovering(p, true), j, [Step(r, ok)] + last);
    SameTable(s2, s3, Finalizing(p, true), ok);
    var s4 := Goes(s3, r, n, f, Finalizing(p, true), ok, last);
    Ends(s4, r, n, f, F.ReadyAt(p.generation), ok);
  }

  lemma InvRow(s: Sys)
    requires Inv(s)
    ensures RowOk(s)
  {
  }

  lemma SameOwner(s: Sys, r: nat, n: nat, f: nat, x: Row)
    requires Inv(s) && LeadsAt(s, r, n, f, Refreshing(x)) && SID in s.rows
    ensures x.userId == s.rows[SID].userId && x.authSession == s.rows[SID].authSession
  {
    assert ReqOk(s, s.reqs[r]);
  }

  // ----- letting requests through -----

  /** Main result: a request that finds an active, ready row whose access token
      is not up for refresh is let through as the row's user if the allowlist
      has that user, and is forbidden otherwise. */
  lemma ReadyIsServed(cfg: Config, born: Row, now: Time, events: seq<Refresh.Event>, r: nat, n: nat, ok: Input, three: seq<Refresh.Event>)
    requires born.Valid() && Smooth(ok) && n < 8 && three == [Step(r, ok), Step(r, ok), Step(r, ok)]
    requires var s := Run(cfg, born, now, events);
             && r in s.reqs && s.reqs[r] == Start(n) && SID in s.rows && s.rows[SID].Active(s.now) && s.rows[SID].state == Ready
             && s.rows[SID].accessExpires > s.now + cfg.skew * SECOND
    ensures var s' := Exec(Run(cfg, born, now, events), three);
            r in s'.reqs && s'.reqs[r] == Done(if born.userId in cfg.allowed then Allow(born.userId) else Forbidden)
  {
    hide Run, Exec, LeaderStep, OutcomesOk, FlightsOk;
    var s := Run(cfg, born, now, events);
    Constants(cfg, born, now, events);
    assert three == [Step(r, ok)] + ([Step(r, ok)] + ([Step(r, ok)] + []));
    ExecOne(s, Step(r, ok), [Step(r, ok)] + ([Step(r, ok)] + []));
    var s1 := Next1(s, r, ok);
    Found(s, r, n, ok);
    ExecOne(s1, Step(r, ok), [Step(r, ok)] + []);
    var s2 := Next1(s1, r, ok);
    Checked(s1, r, n, ok);
    ExecOne(s2, Step(r, ok), []);
    ExecNone(Next1(s2, r, ok));
    if born.userId in cfg.allowed { Slides(s2, r, n, ok); } else { Stays(s2, r, ok); }
  }

  /** The row that requests are let through by. */
  predicate Good(s: Sys) {
    && SID in s.rows && s.rows[SID].Active(s.now) && s.rows[SID].state == Ready && s.rows[SID].userId == s.born.userId
    && s.rows[SID].accessExpires > s.now + s.cfg.skew * SECOND
  }

  ghost predicate SameWorld(s: Sys, s': Sys) {
    s'.rows == s.rows && s'.now == s.now && s'.cfg == s.cfg && s'.born == s.born
  }

  lemma Found(s: Sys, r: nat, n: nat, ok: Input)
    requires Inv(s) && r in s.reqs && s.reqs[r] == Start(n) && n < MAX_TRIES && Smooth(ok)
    requires SID in s.rows && s.rows[SID].Active(s.now) && s.rows[SID].state == Ready && s.rows[SID].accessExpires > s.now + s.cfg.skew * SECOND
    ensures var s' := Next1(s, r, ok); SameWorld(s, s') && Good(s') && r in s'.reqs && s'.reqs[r] == Looked(n, s.rows[SID], s.now)
  {
  }

  lemma Checked(s: Sys, r: nat, n: nat, ok: Input)
    requires Inv(s) && Good(s) && r in s.reqs && s.reqs[r] == Looked(n, s.rows[SID], s.now)
    ensures var s' := Next1(s, r, ok);
            && SameWorld(s, s') && Good(s') && r in s'.reqs
            && s'.reqs[r] == if s.born.userId in s.cfg.allowed then Touching(n, s.rows[SID], s.now, s.now) else Done(Forbidden)
  {
  }

  lemma Slides(s: Sys, r: nat, n: nat, ok: Input)
    requires Inv(s) && Good(s) && r in s.reqs && s.reqs[r] == Touching(n, s.rows[SID], s.now, s.now) && Smooth(ok)
    ensures var s' := Next1(s, r, ok); r in s'.reqs && s'.reqs[r] == Done(Allow(s.born.userId))
  {
    TouchServes(s);
  }

  /** A touch of the present row does not lose it. */
  lemma TouchServes(s: Sys)
    requires RowOk(s) && Good(s)
    ensures var row := s.rows[SID]; var t := TouchResult(s.rows, SID, row, s.cfg.ttl, s.cfg.interval, s.now);
            (t.NotDue? || t.Advanced?) && t.row.userId == row.userId
  {
    var row := s.rows[SID];
    GuardAgreesWithActive(row, s.now);
    TouchStep(row, row, s.cfg.ttl, s.cfg.interval, s.now);
    StoredFixes(row.idle);
  }

  lemma Stays(s: Sys, r: nat, ok: Input)
    requires Inv(s) && r in s.reqs && s.reqs[r].Done?
    ensures Next1(s, r, ok) == s
  {
  }

  /** A request that finds the row up for refresh and no flight open leads one
      and refreshes with the row it has seen. */
  lemma DueIsRefreshed(cfg: Config, born: Row, now: Time, events: seq<Refresh.Event>, r: nat, n: nat, ok: Input, three: seq<Refresh.Event>)
    requires born.Valid() && Smooth(ok) && n < 8 && three == [Step(r, ok), Step(r, ok), Step(r, ok)]
    requires var s := Run(cfg, born, now, events);
             && r in s.reqs && s.reqs[r] == Start(n) && SID in s.rows && s.rows[SID].Active(s.now) && s.leader.None?
             && s.rows[SID].accessExpires <= s.now + cfg.skew * SECOND
    ensures var s := Run(cfg, born, now, events); var s' := Exec(s, three);
            LeadsAt(s', r, n, s.book.nextId, Refreshing(s.rows[SID])) && s'.rows == s.rows
  {
    hide Run, Exec, LeaderStep, OutcomesOk;
    var s := Run(cfg, born, now, events);
    Constants(cfg, born, now, events);
    assert three == [Step(r, ok)] + ([Step(r, ok)] + ([Step(r, ok)] + []));
    ExecOne(s, Step(r, ok), [Step(r, ok)] + ([Step(r, ok)] + []));
    var s1 := Next1(s, r, ok);
    assert SameWorld(s, s1) && s1.book == s.book && s1.leader.None? && r in s1.reqs && s1.reqs[r] == Looked(n, s.rows[SID], s.now);
    ExecOne(s1, Step(r, ok), [Step(r, ok)] + []);
    var s2 := Next1(s1, r, ok);
    Leads(s1, r, n, ok);
    hide Inv;
    var s3 := Goes(s2, r, n, s.book.nextId, Begin(s.rows[SID]), ok, []);
    ExecNone(s3);
    assert LeaderStep(s2, Begin(s.rows[SID]), ok) == (Refreshing(s.rows[SID]), s.rows) by { Due(s2, s.rows[SID], ok); }
  }

  lemma Leads(s: Sys, r: nat, n: nat, ok: Input)
    requires Inv(s) && s.leader.None? && SID in s.rows && r in s.reqs && s.reqs[r] == Looked(n, s.rows[SID], s.now) && NeedsRefresh(s, s.rows[SID])
    ensures var s' := Next1(s, r, ok); SameWorld(s, s') && LeadsAt(s', r, n, s.book.nextId, Begin(s.rows[SID]))
  {
    assert FlightsOk(s);
  }

  lemma Due(s: Sys, x: Row, ok: Input)
    requires NeedsRefresh(s, x)
    ensures LeaderStep(s, Begin(x), ok) == (Refreshing(x), s.rows)
  {
  }

  /** Whoever joined a flight goes where its outcome says: looks again once it
      is ready, logs in again after a rejection, comes back later otherwise. A
      request that only waited for the flight to close looks again. */
  lemma JoinersFollow(cfg: Config, born: Row, now: Time, events: seq<Refresh.Event>, r: nat, n: nat, f: nat, joined: bool, i: Input)
    requires born.Valid()
    requires var s := Run(cfg, born, now, events); r in s.reqs && s.reqs[r] == Waiting(n, f, joined)
    ensures var s := Run(cfg, born, now, events); var s' := Exec(s, [Step(r, i)]);
            && f in s.book.flights && r in s'.reqs
            && match s.book.flights[f].outcome
               case None => s'.reqs[r] == s.reqs[r]
               case Some(ReadyAt(_)) => s'.reqs[r] == Start(n + 1)
               case Some(Rejected(_)) => s'.reqs[r] == if joined then Done(Unauthenticated) else Start(n + 1)
               case Some(_) => s'.reqs[r] == if joined then Done(Unavailable) else Start(n + 1)
  {
    hide Run, RowOk, OutcomesOk, FlightsOk;
    var s := Run(cfg, born, now, events);
    assert ReqOk(s, s.reqs[r]);
    assert [Step(r, i)] == [Step(r, i)] + [];
    ExecOne(s, Step(r, i), []);
    ExecNone(Next1(s, r, i));
  }

  // ----- a row that has moved on, or is gone -----

  /** At its next step a leader meets the row again. */
  predicate MeetsRow(t: Task) { t.Persisting? || t.RevokeRead? || t.RevokeReread? }

  /** Where a leader goes that finds the active row moved on: it takes over a
      ready row, verifies a pending one, and gives up only if it wanted to write
      and the pending token is up for refresh again. */
  function Adopts(s: Sys, t: Task, row: Row): Task {
    if row.state == Ready then Ending(F.ReadyAt(row.generation))
    else if t.Persisting? && row.accessExpires <= s.now + s.cfg.skew * SECOND then Ending(F.Indeterminate(F.ContractDrift))
    else Recovering(row, true)
  }

  lemma MeetsMoved(s: Sys, t: Task, ok: Input)
    requires RowOk(s) && MeetsRow(t) && Smooth(ok)
    requires SID in s.rows && s.rows[SID].Active(s.now) && !Unchanged(s, t.s)
    ensures LeaderStep(s, t, ok) == (Adopts(s, t, s.rows[SID]), s.rows)
  {
  }

  lemma MeetsNone(s: Sys, t: Task, ok: Input)
    requires RowOk(s) && MeetsRow(t) && Smooth(ok)
    requires SID !in s.rows || !s.rows[SID].Active(s.now)
    ensures LeaderStep(s, t, ok) == (Ending(F.Rejected(F.LocalInactive)), s.rows)
  {
    if SID in s.rows { GuardAgreesWithActive(s.rows[SID], s.now); }
  }

  /** A leader that comes too late changes nothing: it adopts the row that has
      moved on, and ends the flight Rejected if the session is over. */
  lemma LateLeaderChangesNothing(cfg: Config, born: Row, now: Time, events: seq<Refresh.Event>, r: nat, n: nat, f: nat, t: Task, ok: Input)
    requires born.Valid() && LeadsAt(Run(cfg, born, now, events), r, n, f, t) && MeetsRow(t) && Smooth(ok)
    requires !Unchanged(Run(cfg, born, now, events), t.s)
    ensures var s := Run(cfg, born, now, events); var s' := Exec(s, [Step(r, ok)]);
            && s'.rows == s.rows
            && LeadsAt(s', r, n, f, if SID in s.rows && s.rows[SID].Active(s.now) then Adopts(s, t, s.rows[SID]) else Ending(F.Rejected(F.LocalInactive)))
  {
    hide Run, Exec, LeaderStep, OutcomesOk, FlightsOk, Unchanged;
    var s := Run(cfg, born, now, events);
    if SID in s.rows && s.rows[SID].Active(s.now) { MeetsMoved(s, t, ok); } else { MeetsNone(s, t, ok); }
    assert [Step(r, ok)] == [Step(r, ok)] + [];
    hide Inv;
    var s' := Goes(s, r, n, f, t, ok, []);
    ExecNone(s');
  }

  /** Whether the pending row that a leader wants to finalize is still there. */
  predicate StillPending(s: Sys, p: Row) {
    && SID in s.rows && s.rows[SID].Active(s.now) && s.rows[SID].state == Pending
    && s.rows[SID].generation == p.generation && s.rows[SID].userId == p.userId
  }

  lemma MeetsFinal(s: Sys, p: Row, own: bool, ok: Input)
    requires RowOk(s) && Seen(s, p) && Smooth(ok) && !StillPending(s, p)
    ensures LeaderStep(s, Finalizing(p, own), ok) ==
      (Ending(if SID !in s.rows || !s.rows[SID].Active(s.now) then F.Rejected(F.LocalInactive)
              else if s.rows[SID].state == Ready && s.rows[SID].generation == p.generation then F.ReadyAt(p.generation)
              else F.Indeterminate(F.Persistence)), s.rows)
  {
    if SID in s.rows { GuardAgreesWithActive(s.rows[SID], s.now); }
  }

  /** A leader that finds nothing left to finalize changes nothing: its flight
      is ready if another made that very generation ready, rejected if the
      session is over, and undecided otherwise. */
  lemma LateFinalizerChangesNothing(cfg: Config, born: Row, now: Time, events: seq<Refresh.Event>, r: nat, n: nat, f: nat, p: Row, own: bool, ok: Input)
    requires born.Valid() && LeadsAt(Run(cfg, born, now, events), r, n, f, Finalizing(p, own)) && Smooth(ok)
    requires !StillPending(Run(cfg, born, now, events), p)
    ensures var s := Run(cfg, born, now, events); var s' := Exec(s, [Step(r, ok)]);
            && s'.rows == s.rows
            && LeadsAt(s', r, n, f, Ending(
                 if SID !in s.rows || !s.rows[SID].Active(s.now) then F.Rejected(F.LocalInactive)
                 else if s.rows[SID].state == Ready && s.rows[SID].generation == p.generation then F.ReadyAt(p.generation)
                 else F.Indeterminate(F.Persistence)))
  {
    hide Run, Exec, LeaderStep, OutcomesOk, FlightsOk, StillPending;
    var s := Run(cfg, born, now, events);
    assert ReqOk(s, s.reqs[r]);
    MeetsFinal(s, p, own, ok);
    assert [Step(r, ok)] == [Step(r, ok)] + [];
    hide Inv;
    var s' := Goes(s, r, n, f, Finalizing(p, own), ok, []);
    ExecNone(s');
  }

  /** A request that finds no active session must log in. */
  lemma NoSessionIsUnauthenticated(cfg: Config, born: Row, now: Time, events: seq<Refresh.Event>, r: nat, n: nat, ok: Input)
    requires born.Valid() && Smooth(ok) && n < 8
    requires var s := Run(cfg, born, now, events); r in s.reqs && s.reqs[r] == Start(n) && (SID !in s.rows || !s.rows[SID].Active(s.now))
    ensures var s := Run(cfg, born, now, events); var s' := Exec(s, [Step(r, ok)]);
            r in s'.reqs && s'.reqs[r] == Done(Unauthenticated) && s'.rows == s.rows
  {
    hide Run, OutcomesOk, FlightsOk, ReqOk, LeaderStep;
    var s := Run(cfg, born, now, events);
    assert [Step(r, ok)] == [Step(r, ok)] + [];
    ExecOne(s, Step(r, ok), []);
    ExecNone(Next1(s, r, ok));
  }

  /** The row is active, ready and at the generation and deadline of `x`. */
  predicate StillThere(s: Sys, x: Row) {
    && SID in s.rows && s.rows[SID].Active(s.now) && s.rows[SID].state == Ready
    && s.rows[SID].generation == x.generation && s.rows[SID].idle == x.idle
  }

  /** A request whose touch comes too late, the row having moved on or its
      deadline having been moved by another, looks again. */
  lemma LostTouchLooksAgain(cfg: Config, born: Row, now: Time, events: seq<Refresh.Event>, r: nat, n: nat, x: Row, a: Time, b: Time, ok: Input)
    requires born.Valid() && Smooth(ok)
    requires var s := Run(cfg, born, now, events);
             && r in s.reqs && s.reqs[r] == Touching(n, x, a, b)
             && (!x.Active(s.now) || (TouchCandidate(x, cfg.ttl, cfg.interval, s.now).Some? && !StillThere(s, x)))
    ensures var s := Run(cfg, born, now, events); var s' := Exec(s, [Step(r, ok)]);
            r in s'.reqs && s'.reqs[r] == Start(n + 1) && s'.rows == s.rows
  {
    hide Run, OutcomesOk, FlightsOk, LeaderStep;
    var s := Run(cfg, born, now, events);
    Constants(cfg, born, now, events);
    assert ReqOk(s, s.reqs[r]);
    assert [Step(r, ok)] == [Step(r, ok)] + [];
    ExecOne(s, Step(r, ok), []);
    ExecNone(Next1(s, r, ok));
    LosesTouch(s, x);
  }

  lemma LosesTouch(s: Sys, x: Row)
    requires RowOk(s) && Seen(s, x) && x.state == Ready
    requires !x.Active(s.now) || (TouchCandidate(x, s.cfg.ttl, s.cfg.interval, s.now).Some? && !StillThere(s, x))
    ensures TouchReady(s.rows, SID, x, s.cfg.ttl, s.cfg.interval, s.now) == s.rows
    ensures TouchResult(s.rows, SID, x, s.cfg.ttl, s.cfg.interval, s.now) == Lost
  {
    StoredFixes(x.idle);
    if SID in s.rows { GuardAgreesWithActive(s.rows[SID], s.now); }
  }

  /** After eight tries a request is told to come back later. */
  lemma EightTriesAreEnough(s: Sys, r: nat, n: nat, i: Input)
    requires Inv(s) && r in s.reqs && s.reqs[r] == Start(n) && n >= 8
    ensures var s' := Next1(s, r, i); r in s'.reqs && s'.reqs[r] == Done(Unavailable) && s'.rows == s.rows
  {
  }

  // ----- who is to blame for an outcome -----

  /** Outcomes that only the server can cause. */
  predicate OfServer(o: F.Outcome) { o.Temporary? || (o.Rejected? && !o.reason.LocalInactive?) }

  /** What the server answered in this step calls for that outcome. */
  predicate Calls(i: Input, o: F.Outcome) {
    match o
    case Temporary(c) => i.prepare == Some(Passing(c)) || i.refresh == Bad(Passing(c)) || i.verify == Bad(Passing(c))
    case Rejected(Remote(why)) =>
      i.prepare == Some(RemoteRejected(why)) || i.refresh == Bad(RemoteRejected(why)) || i.verify == Bad(RemoteRejected(why))
    case Rejected(AudienceRejected) => i.verify == Bad(WrongAudience)
    case _ => false
  }

  /** In state `s` event `e` is a step in which the leader of flight `f` asks the
      server, and the answer calls for `o`. */
  predicate CallsFor(s: Sys, e: Refresh.Event, f: nat, o: F.Outcome) {
    && e.Step? && e.r in s.reqs && s.reqs[e.r].Leading? && s.reqs[e.r].flight == f && !e.input.panics
    && (s.reqs[e.r].task.Refreshing? || s.reqs[e.r].task.Recovering?) && Calls(e.input, o)
  }

  ghost predicate CalledAt(cfg: Config, born: Row, now: Time, events: seq<Refresh.Event>, i: nat, f: nat, o: F.Outcome)
    requires born.Valid() && i < |events|
  {
    CallsFor(Run(cfg, born, now, events[..i]), events[i], f, o)
  }

  ghost predicate Called(cfg: Config, born: Row, now: Time, events: seq<Refresh.Event>, f: nat, o: F.Outcome)
    requires born.Valid()
  {
    exists i :: 0 <= i < |events| && CalledAt(cfg, born, now, events, i, f, o)
  }

  /** The outcome a leader's task is bound for. */
  function BoundFor(t: Task): Option<F.Outcome> {
    match t
    case RevokeRead(_, reason, _) => Some(F.Rejected(reason))
    case RevokeWrite(_, reason, _) => Some(F.Rejected(reason))
    case Ending(o) => Some(o)
    case _ => None
  }

  ghost predicate AllCalled(cfg: Config, born: Row, now: Time, events: seq<Refresh.Event>)
    requires born.Valid()
  {
    var s := Run(cfg, born, now, events);
    && (forall r :: r in s.reqs && s.reqs[r].Leading? && BoundFor(s.reqs[r].task).Some? && OfServer(BoundFor(s.reqs[r].task).value) ==>
          Called(cfg, born, now, events, s.reqs[r].flight, BoundFor(s.reqs[r].task).value))
    && (forall f :: f in s.book.flights && s.book.flights[f].outcome.Some? && OfServer(s.book.flights[f].outcome.value) ==>
          Called(cfg, born, now, events, f, s.book.flights[f].outcome.value))
  }

  lemma LedCalls(s: Sys, t: Task, i: Input)
    requires !t.Ending?
    ensures var b, b' := BoundFor(t), BoundFor(LeaderStep(s, t, i).0);
            b'.Some? && OfServer(b'.value) ==> b' == b || ((t.Refreshing? || t.Recovering?) && Calls(i, b'.value))
  {
  }

  lemma BoundStep(s: Sys, e: Refresh.Event, r: nat)
    requires Inv(s)
    ensures var s' := Refresh.Next(s, e);
            r in s'.reqs && s'.reqs[r].Leading? && BoundFor(s'.reqs[r].task).Some? && OfServer(BoundFor(s'.reqs[r].task).value) ==>
              var f, o := s'.reqs[r].flight, BoundFor(s'.reqs[r].task);
              (r in s.reqs && s.reqs[r].Leading? && s.reqs[r].flight == f && BoundFor(s.reqs[r].task) == o) || CallsFor(s, e, f, o.value)
  {
    hide RowOk, ReqOk, OutcomesOk, FlightsOk, LeaderStep, Calls;
    if e.Step? && e.r in s.reqs && s.reqs[e.r].Leading? && !s.reqs[e.r].task.Ending? { LedCalls(s, s.reqs[e.r].task, e.input); }
  }

  lemma OutcomeStep(s: Sys, e: Refresh.Event, f: nat)
    requires Inv(s)
    ensures var s' := Refresh.Next(s, e);
            f in s'.book.flights && s'.book.flights[f].outcome.Some? ==>
              || (f in s.book.flights && s.book.flights[f].outcome == s'.book.flights[f].outcome)
              || (e.Step? && e.r in s.reqs && s.reqs[e.r].Leading? && s.reqs[e.r].flight == f && BoundFor(s.reqs[e.r].task) == s'.book.flights[f].outcome)
  {
    hide RowOk, ReqOk, OutcomesOk, LeaderStep;
  }

  lemma CalledStays(cfg: Config, born: Row, now: Time, events: seq<Refresh.Event>, e: Refresh.Event, f: nat, o: F.Outcome)
    requires born.Valid()
    ensures Called(cfg, born, now, events, f, o) ==> Called(cfg, born, now, events + [e], f, o)
    ensures CallsFor(Run(cfg, born, now, events), e, f, o) ==> Called(cfg, born, now, events + [e], f, o)
  {
    hide Run, CallsFor;
    var all := events + [e];
    if Called(cfg, born, now, events, f, o) {
      var i :| 0 <= i < |events| && CalledAt(cfg, born, now, events, i, f, o);
      assert all[..i] == events[..i] && all[i] == events[i];
      assert CalledAt(cfg, born, now, all, i, f, o);
    }
    assert all[..|events|] == events && all[|events|] == e;
    assert CalledAt(cfg, born, now, all, |events|, f, o) <==> CallsFor(Run(cfg, born, now, events), e, f, o);
  }

  lemma AllCalledStep(cfg: Config, born: Row, now: Time, events: seq<Refresh.Event>, e: Refresh.Event)
    requires born.Valid() && AllCalled(cfg, born, now, events)
    ensures AllCalled(cfg, born, now, events + [e])
  {
    hide Run, Inv, Refresh.Next, Called, OfServer, BoundFor, CallsFor;
    var s := Run(cfg, born, now, events);
    InvKnown(s);
    var s' := Refresh.Next(s, e);
    RunSnoc(cfg, born, now, events, e);
    forall r | r in s'.reqs && s'.reqs[r].Leading? && BoundFor(s'.reqs[r].task).Some? && OfServer(BoundFor(s'.reqs[r].task).value)
      ensures Called(cfg, born, now, events + [e], s'.reqs[r].flight, BoundFor(s'.reqs[r].task).value)
    {
      BoundStep(s, e, r);
      CalledStays(cfg, born, now, events, e, s'.reqs[r].flight, BoundFor(s'.reqs[r].task).value);
    }
    forall f | f in s'.book.flights && s'.book.flights[f].outcome.Some? && OfServer(s'.book.flights[f].outcome.value)
      ensures Called(cfg, born, now, events + [e], f, s'.book.flights[f].outcome.value)
    {
      OutcomeStep(s, e, f);
      CalledStays(cfg, born, now, events, e, f, s'.book.flights[f].outcome.value);
    }
  }

  lemma {:induction false} AllCalledHolds(cfg: Config, born: Row, now: Time, events: seq<Refresh.Event>)
    requires born.Valid()
    ensures AllCalled(cfg, born, now, events)
    decreases |events|
  {
    if events == [] {
      assert Run(cfg, born, now, events) == Fresh(cfg, born, now);
    } else {
      hide AllCalled;
      var n := |events| - 1;
      AllCalledHolds(cfg, born, now, events[..n]);
      AllCalledStep(cfg, born, now, events[..n], events[n]);
      assert events == events[..n] + [events[n]];
    }
  }

  /** Main result: a flight ends Temporary, or Rejected for a reason that is not
      local, only because the server gave its leader an answer that calls for
      exactly that. */
  lemma OutcomesAreCalledFor(cfg: Config, born: Row, now: Time, events: seq<Refresh.Event>, f: nat)
    requires born.Valid()
    ensures var s := Run(cfg, born, now, events);
            f in s.book.flights && s.book.flights[f].outcome.Some? && OfServer(s.book.flights[f].outcome.value) ==>
              Called(cfg, born, now, events, f, s.book.flights[f].outcome.value)
  {
    AllCalledHolds(cfg, born, now, events);
  }
}
