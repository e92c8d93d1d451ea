/** Where the tokens in the row come from: in every run they are those the
    login wrote or those of one accepted answer of the authentication server,
    each in its own place. */
module RefreshTokens {
  import opened Bytes
  import opened Sessions
  import opened Refresh
  import opened RefreshSafety
  import opened RefreshResults

  /** In state `s` event `e` brings the leader that is refreshing the answer
      `t`, which is for this session and verifies as this session's user. */
  predicate Answers(s: Sys, e: Refresh.Event, t: TokenResponse) {
    && e.Step? && e.r in s.reqs && s.reqs[e.r].Leading? && s.reqs[e.r].task.Refreshing? && !e.input.panics
    && e.input.prepare.None? && e.input.refresh == Good(t) && t.sessionId == s.born.authSession
    && e.input.verify.Good? && e.input.verify.value.authSession == s.born.authSession && e.input.verify.value.userId == s.born.userId
  }

  /** Event `i` brings request `r` the answer `t`, and `r` has done nothing since. */
  ghost predicate AnsweredAt(cfg: Config, born: Row, now: Time, events: seq<Refresh.Event>, i: nat, r: nat, t: TokenResponse)
    requires born.Valid() && i < |events|
  {
    && Answers(Run(cfg, born, now, events[..i]), events[i], t) && events[i].r == r
    && forall k :: i < k < |events| ==> !(events[k].Step? && events[k].r == r)
  }

  /** Event `j` is a step of request `r` and takes the row to generation `g`. */
  ghost predicate RaisesAt(cfg: Config, born: Row, now: Time, events: seq<Refresh.Event>, j: nat, r: nat, g: int)
    requires born.Valid() && j < |events|
  {
    var s := Run(cfg, born, now, events[..j]);
    var rows := Refresh.Next(s, events[j]).rows;
    && events[j].Step? && events[j].r == r
    && SID in s.rows && SID in rows && s.rows[SID].generation + 1 == g == rows[SID].generation
  }

  /** The write at event `j` made generation `g`, with the answer `t` that its
      request got at event `i`, in the step before. */
  ghost predicate RotatesAt(cfg: Config, born: Row, now: Time, events: seq<Refresh.Event>, i: nat, j: nat, g: int, t: TokenResponse)
    requires born.Valid() && i < j < |events|
  {
    events[j].Step? && AnsweredAt(cfg, born, now, events[..j], i, events[j].r, t) && RaisesAt(cfg, born, now, events, j, events[j].r, g)
  }

  /** Generation `g` was given this access token and this refresh token, by the
      login or by the answer whose write made it. */
  ghost predicate Issued(cfg: Config, born: Row, now: Time, events: seq<Refresh.Event>, g: int, access: string, refresh: string)
    requires born.Valid()
  {
    || (g == born.generation && access == born.accessToken && refresh == born.refreshToken)
    || exists i, j, t :: 0 <= i < j < |events| && RotatesAt(cfg, born, now, events, i, j, g, t) && t.accessToken == access && t.refreshToken == refresh
  }

  ghost predicate IssuedRow(cfg: Config, born: Row, now: Time, events: seq<Refresh.Event>, x: Row)
    requires born.Valid()
  {
    Issued(cfg, born, now, events, x.generation, x.accessToken, x.refreshToken)
  }

  /** The sight of the row that a request holds. */
  function Snapshot(q: Req): Option<Row> {
    match q
    case Looked(_, x, _) => Some(x)
    case Touching(_, x, _, _) => Some(x)
    case Leading(_, _, t) => if t.Ending? then None else Some(t.s)
    case _ => None
  }

  // ----- one event -----

  /** The row keeps its tokens, or a leader's write gives it the next ones. */
  ghost predicate RowKeepsTokens(s: Sys, e: Refresh.Event, row: Row, row': Row) {
    || (row'.generation == row.generation && row'.accessToken == row.accessToken && row'.refreshToken == row.refreshToken)
    || (&& e.Step? && e.r in s.reqs && s.reqs[e.r].Leading? && s.reqs[e.r].task.Persisting?
        && row'.generation == row.generation + 1
        && row'.accessToken == s.reqs[e.r].task.next.accessToken && row'.refreshToken == s.reqs[e.r].task.next.refreshToken)
  }

  lemma LedTokens(s: Sys, t: Task, i: Input)
    requires RowOk(s) && !t.Ending? && SID in s.rows && SID in LeaderStep(s, t, i).1
    ensures var row, row' := s.rows[SID], LeaderStep(s, t, i).1[SID];
            || (row'.generation == row.generation && row'.accessToken == row.accessToken && row'.refreshToken == row.refreshToken)
            || (&& t.Persisting? && row'.generation == row.generation + 1
                && row'.accessToken == t.next.accessToken && row'.refreshToken == t.next.refreshToken)
  {
  }

  lemma RowTokens(s: Sys, e: Refresh.Event)
    requires Inv(s) && SID in Refresh.Next(s, e).rows
    ensures SID in s.rows && RowKeepsTokens(s, e, s.rows[SID], Refresh.Next(s, e).rows[SID])
  {
    hide ReqOk, OutcomesOk, FlightsOk, LeaderStep;
    RowStep(s, e);
    if e.Step? && e.r in s.reqs && s.reqs[e.r].Leading? && !s.reqs[e.r].task.Ending? && !e.input.panics { LedTokens(s, s.reqs[e.r].task, e.input); }
  }

  lemma LedSnapshot(s: Sys, t: Task, i: Input)
    requires RowOk(s) && !t.Ending?
    ensures var (t', rows) := LeaderStep(s, t, i);
            && (!t'.Ending? ==> t'.s == t.s || (SID in rows && t'.s == rows[SID]))
            && (t'.Persisting? ==> t.Refreshing? && i.prepare.None? && i.refresh.Good? && i.refresh.value.sessionId == t.s.authSession
                                   && i.verify.Good? && i.verify.value.authSession == t.s.authSession && i.verify.value.userId == t.s.userId
                                   && t'.next.accessToken == i.refresh.value.accessToken && t'.next.refreshToken == i.refresh.value.refreshToken)
  {
  }

  /** A request keeps its sight of the row or takes the present one. */
  lemma SnapshotStep(s: Sys, e: Refresh.Event, r: nat)
    requires Inv(s) && r in Refresh.Next(s, e).reqs && Snapshot(Refresh.Next(s, e).reqs[r]).Some?
    ensures var s' := Refresh.Next(s, e); var x := Snapshot(s'.reqs[r]);
            (r in s.reqs && Snapshot(s.reqs[r]) == x) || (SID in s'.rows && x.value == s'.rows[SID])
  {
    hide RowOk, ReqOk, OutcomesOk, FlightsOk, LeaderStep;
    if e.Step? && e.r in s.reqs && s.reqs[e.r].Leading? && !s.reqs[e.r].task.Ending? { LedSnapshot(s, s.reqs[e.r].task, e.input); }
  }

  /** What a leader is about to write is the answer it has just got. */
  lemma PersistingStep(s: Sys, e: Refresh.Event, r: nat)
    requires Inv(s) && r in Refresh.Next(s, e).reqs && Refresh.Next(s, e).reqs[r].Leading? && Refresh.Next(s, e).reqs[r].task.Persisting?
    ensures var q := Refresh.Next(s, e).reqs[r];
            || (r in s.reqs && s.reqs[r] == q && !(e.Step? && e.r == r))
            || (&& e.Step? && e.r == r && e.input.refresh.Good? && Answers(s, e, e.input.refresh.value)
                && q.task.next.accessToken == e.input.refresh.value.accessToken && q.task.next.refreshToken == e.input.refresh.value.refreshToken)
  {
    hide OutcomesOk, FlightsOk, LeaderStep;
    if e.Step? && e.r in s.reqs && s.reqs[e.r].Leading? && !s.reqs[e.r].task.Ending? {
      assert ReqOk(s, s.reqs[e.r]);
      LedSnapshot(s, s.reqs[e.r].task, e.input);
    }
  }

  // ----- every run -----

  ghost predicate Pedigree(cfg: Config, born: Row, now: Time, events: seq<Refresh.Event>)
    requires born.Valid()
  {
    var s := Run(cfg, born, now, events);
    && (SID in s.rows ==> IssuedRow(cfg, born, now, events, s.rows[SID]))
    && (forall r :: r in s.reqs && Snapshot(s.reqs[r]).Some? ==> IssuedRow(cfg, born, now, events, Snapshot(s.reqs[r]).value))
    && (forall r :: r in s.reqs && s.reqs[r].Leading? && s.reqs[r].task.Persisting? ==> Holds(cfg, born, now, events, r, s.reqs[r].task.next))
  }

  /** Request `r` holds the tokens of the answer it got last. */
  ghost predicate Holds(cfg: Config, born: Row, now: Time, events: seq<Refresh.Event>, r: nat, next: Tokens)
    requires born.Valid()
  {
    exists i, t :: 0 <= i < |events| && AnsweredAt(cfg, born, now, events, i, r, t) && next.accessToken == t.accessToken && next.refreshToken == t.refreshToken
  }

  lemma RunSnoc(cfg: Config, born: Row, now: Time, events: seq<Refresh.Event>, e: Refresh.Event)
    requires born.Valid()
    ensures Run(cfg, born, now, events + [e]) == Refresh.Next(Run(cfg, born, now, events), e)
  {
    hide RowOk, OutcomesOk, FlightsOk, Act;
    FreshHolds(cfg, born, now);
    var s0 := Fresh(cfg, born, now);
    ExecSplit(s0, events, [e]);
    var s := Exec(s0, events);
    RefreshSafety.NextKeeps(s, e);
    assert Exec(s, [e]) == Exec(Refresh.Next(s, e), [e][1..]);
  }

  lemma IssuedStays(cfg: Config, born: Row, now: Time, events: seq<Refresh.Event>, e: Refresh.Event, x: Row)
    requires born.Valid() && IssuedRow(cfg, born, now, events, x)
    ensures IssuedRow(cfg, born, now, events + [e], x)
  {
    hide AnsweredAt, Run;
    if !(x.generation == born.generation && x.accessToken == born.accessToken && x.refreshToken == born.refreshToken) {
      var i, j, t :| 0 <= i < j < |events| && RotatesAt(cfg, born, now, events, i, j, x.generation, t)
        && t.accessToken == x.accessToken && t.refreshToken == x.refreshToken;
      var all := events + [e];
      assert all[..j] == events[..j] && all[j] == events[j];
      assert RotatesAt(cfg, born, now, all, i, j, x.generation, t);
    }
  }

  lemma HoldsStays(cfg: Config, born: Row, now: Time, events: seq<Refresh.Event>, e: Refresh.Event, r: nat, next: Tokens)
    requires born.Valid() && Holds(cfg, born, now, events, r, next) && !(e.Step? && e.r == r)
    ensures Holds(cfg, born, now, events + [e], r, next)
  {
    hide Run;
    var i, t :| 0 <= i < |events| && AnsweredAt(cfg, born, now, events, i, r, t) && next.accessToken == t.accessToken && next.refreshToken == t.refreshToken;
    var all := events + [e];
    assert all[..i] == events[..i] && all[i] == events[i];
    assert AnsweredAt(cfg, born, now, all, i, r, t);
  }

  lemma HoldsNow(cfg: Config, born: Row, now: Time, events: seq<Refresh.Event>, e: Refresh.Event, next: Tokens)
    requires born.Valid() && e.Step? && e.input.refresh.Good? && Answers(Run(cfg, born, now, events), e, e.input.refresh.value)
    requires next.accessToken == e.input.refresh.value.accessToken && next.refreshToken == e.input.refresh.value.refreshToken
    ensures Holds(cfg, born, now, events + [e], e.r, next)
  {
    hide Run;
    var all := events + [e];
    assert all[..|events|] == events && all[|events|] == e;
    assert AnsweredAt(cfg, born, now, all, |events|, e.r, e.input.refresh.value);
  }

  /** The write that makes a generation carries the answer its leader holds. */
  lemma IssuedNow(cfg: Config, born: Row, now: Time, events: seq<Refresh.Event>, e: Refresh.Event, next: Tokens, x: Row)
    requires born.Valid() && e.Step? && Holds(cfg, born, now, events, e.r, next)
    requires var s := Run(cfg, born, now, events);
             SID in s.rows && SID in Refresh.Next(s, e).rows && Refresh.Next(s, e).rows[SID] == x && x.generation == s.rows[SID].generation + 1
    requires x.accessToken == next.accessToken && x.refreshToken == next.refreshToken
    ensures IssuedRow(cfg, born, now, events + [e], x)
  {
    hide Run, AnsweredAt;
    var i, t :| 0 <= i < |events| && AnsweredAt(cfg, born, now, events, i, e.r, t) && next.accessToken == t.accessToken && next.refreshToken == t.refreshToken;
    var all, j := events + [e], |events|;
    assert all[..j] == events && all[j] == e;
    assert RotatesAt(cfg, born, now, all, i, j, x.generation, t);
  }

  lemma InvKnown(s: Sys)
    requires Inv(s)
    ensures FlightsKnown(s)
  {
    assert forall r :: r in s.reqs ==> ReqOk(s, s.reqs[r]);
  }

  lemma RowIssued(cfg: Config, born: Row, now: Time, events: seq<Refresh.Event>, e: Refresh.Event)
    requires born.Valid() && Pedigree(cfg, born, now, events)
    ensures var s' := Refresh.Next(Run(cfg, born, now, events), e);
            SID in s'.rows ==> IssuedRow(cfg, born, now, events + [e], s'.rows[SID])
  {
    hide Run, IssuedRow, Holds, Inv, Refresh.Next, Snapshot;
    var s := Run(cfg, born, now, events);
    InvKnown(s);
    var s' := Refresh.Next(s, e);
    if SID in s'.rows {
      RowTokens(s, e);
      var x, x' := s.rows[SID], s'.rows[SID];
      if x'.generation == x.generation && x'.accessToken == x.accessToken && x'.refreshToken == x.refreshToken {
        IssuedStays(cfg, born, now, events, e, x);
        SameTokens(cfg, born, now, events + [e], x, x');
      } else {
        IssuedNow(cfg, born, now, events, e, s.reqs[e.r].task.next, x');
      }
    }
  }

  lemma SameTokens(cfg: Config, born: Row, now: Time, events: seq<Refresh.Event>, x: Row, y: Row)
    requires born.Valid() && IssuedRow(cfg, born, now, events, x)
    requires x.generation == y.generation && x.accessToken == y.accessToken && x.refreshToken == y.refreshToken
    ensures IssuedRow(cfg, born, now, events, y)
  {
  }

  lemma PedigreeStep(cfg: Config, born: Row, now: Time, events: seq<Refresh.Event>, e: Refresh.Event)
    requires born.Valid() && Pedigree(cfg, born, now, events)
    ensures Pedigree(cfg, born, now, events + [e])
  {
    hide Run, IssuedRow, Holds, Inv, Refresh.Next, Snapshot;
    var s := Run(cfg, born, now, events);
    InvKnown(s);
    var s' := Refresh.Next(s, e);
    RunSnoc(cfg, born, now, events, e);
    RowIssued(cfg, born, now, events, e);
    forall r | r in s'.reqs && Snapshot(s'.reqs[r]).Some? ensures IssuedRow(cfg, born, now, events + [e], Snapshot(s'.reqs[r]).value) {
      SnapshotStep(s, e, r);
      if r in s.reqs && Snapshot(s.reqs[r]) == Snapshot(s'.reqs[r]) { IssuedStays(cfg, born, now, events, e, Snapshot(s.reqs[r]).value); }
    }
    forall r | r in s'.reqs && s'.reqs[r].Leading? && s'.reqs[r].task.Persisting? ensures Holds(cfg, born, now, events + [e], r, s'.reqs[r].task.next) {
      PersistingStep(s, e, r);
      if r in s.reqs && s.reqs[r] == s'.reqs[r] && !(e.Step? && e.r == r) {
        HoldsStays(cfg, born, now, events, e, r, s'.reqs[r].task.next);
      } else {
        HoldsNow(cfg, born, now, events, e, s'.reqs[r].task.next);
      }
    }
  }

  lemma {:induction false} PedigreeHolds(cfg: Config, born: Row, now: Time, events: seq<Refresh.Event>)
    requires born.Valid()
    ensures Pedigree(cfg, born, now, events)
    decreases |events|
  {
    if events == [] {
      assert Run(cfg, born, now, events) == Fresh(cfg, born, now);
    } else {
      hide Pedigree;
      var n := |events| - 1;
      PedigreeHolds(cfg, born, now, events[..n]);
      PedigreeStep(cfg, born, now, events[..n], events[n]);
      assert events == events[..n] + [events[n]];
    }
  }

  /** Main result: in every reachable state the row's access token and refresh
      token are those the login gave it, or those of the accepted answer whose
      write made the row's generation. A leader only ever sends a refresh token
      that was issued as one to this session, and only ever has an access token
      verified that was issued as one. */
  lemma TokensAreIssued(cfg: Config, born: Row, now: Time, events: seq<Refresh.Event>, r: nat)
    requires born.Valid()
    ensures var s := Run(cfg, born, now, events);
            && (SID in s.rows ==> Issued(cfg, born, now, events, s.rows[SID].generation, s.rows[SID].accessToken, s.rows[SID].refreshToken))
            && (r in s.reqs && s.reqs[r].Leading? && (s.reqs[r].task.Refreshing? || s.reqs[r].task.Recovering?) ==>
                  var x := s.reqs[r].task.s; Issued(cfg, born, now, events, x.generation, x.accessToken, x.refreshToken))
  {
    hide Issued;
    PedigreeHolds(cfg, born, now, events);
    var s := Run(cfg, born, now, events);
    if r in s.reqs && s.reqs[r].Leading? && (s.reqs[r].task.Refreshing? || s.reqs[r].task.Recovering?) {
      assert Snapshot(s.reqs[r]) == Some(s.reqs[r].task.s);
    }
  }
}
