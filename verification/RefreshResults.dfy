/** What holds in every run of the refresh protocol, for every configuration,
    every created row, every interleaving and every behaviour of the server. */
module RefreshResults {
  import opened Bytes
  import opened Sessions
  import opened Flights
  import opened Refresh
  import opened RefreshSafety

  ghost function Exec(s: Sys, events: seq<Refresh.Event>): (r: Sys)
    requires Inv(s)
    ensures Inv(r)
    decreases |events|
  {
    if events == [] then s else
    RefreshSafety.NextKeeps(s, events[0]);
    Exec(Refresh.Next(s, events[0]), events[1..])
  }

  /** A session from its creation on. */
  ghost function Run(cfg: Config, born: Row, now: Time, events: seq<Refresh.Event>): (s: Sys)
    requires born.Valid()
    ensures Inv(s)
  {
    FreshHolds(cfg, born, now);
    Exec(Fresh(cfg, born, now), events)
  }

  lemma FreshHolds(cfg: Config, born: Row, now: Time)
    requires born.Valid()
    ensures Inv(Fresh(cfg, born, now))
  {
  }

  // ----- versions -----

  lemma LeaderIs(s: Sys, r: nat)
    requires FlightsOk(s) && r in s.reqs && s.reqs[r].Leading?
    ensures s.leader == Some(r)
  {
  }

  /** What one event does to the row, whoever causes it. */
  lemma RowStep(s: Sys, e: Refresh.Event)
    requires Inv(s) && SID in Refresh.Next(s, e).rows
    ensures SID in s.rows && Evolves(s.rows[SID], Refresh.Next(s, e).rows[SID])
    ensures !SameVersion(s, Refresh.Next(s, e)) ==> e.Step? && s.leader == Some(e.r)
  {
    hide ReqOk, OutcomesOk, FlightsOk;
    CurrentIsSeen(s);
    if !e.Step? {
      EnvironmentRows(s, e);
    } else if e.r in s.reqs {
      var q := s.reqs[e.r];
      QuietStep(s);
      assert ReqOk(s, q);
      if q.Touching? {
        TouchedRow(s, q);
      } else if q.Leading? && !q.task.Ending? {
        LedRow(s, q, e.input);
        LeaderIs(s, e.r);
      }
    }
  }

  lemma TouchedRow(s: Sys, q: Req)
    requires RowOk(s) && q.Touching? && ReqOk(s, q)
    ensures var rows := TouchReady(s.rows, SID, q.s, s.cfg.ttl, s.cfg.interval, s.now);
            RowsEvolve(s.rows, rows) && SameVersion(s, With(s, rows)) && (SID in rows ==> rows[SID].revokedAt == s.rows[SID].revokedAt)
  {
    TouchStepOk(s, q.s);
  }

  lemma LedRow(s: Sys, q: Req, i: Input)
    requires RowOk(s) && q.Leading? && !q.task.Ending? && ReqOk(s, q)
    ensures var (t, rows) := LeaderStep(s, q.task, i); StepOk(s, q.task, t, rows)
  {
    LeaderStepOk(s, q.task, i);
  }

  /** While a leader holds the session's flight no other request changes the
      row's version, and without one nobody does. There is one leader at most. */
  lemma OnlyTheLeaderMovesTheVersion(cfg: Config, born: Row, now: Time, events: seq<Refresh.Event>, e: Refresh.Event)
    requires born.Valid()
    ensures var s := Run(cfg, born, now, events);
            && (SID in Refresh.Next(s, e).rows && !SameVersion(s, Refresh.Next(s, e)) ==> e.Step? && s.leader == Some(e.r))
            && (forall r, r' :: r in s.reqs && r' in s.reqs && s.reqs[r].Leading? && s.reqs[r'].Leading? ==> r == r')
  {
    var s := Run(cfg, born, now, events);
    if SID in Refresh.Next(s, e).rows { RowStep(s, e); }
    assert FlightsOk(s);
  }

  /** Over any stretch of a run the version's rank and the idle deadline only
      rise, the absolute deadline, the user and the auth session stay, tokens
      change only with the generation, and revocation is final. */
  lemma {:induction false} RowOnlyMovesForward(s: Sys, events: seq<Refresh.Event>)
    requires Inv(s) && SID in Exec(s, events).rows
    ensures SID in s.rows && Evolves(s.rows[SID], Exec(s, events).rows[SID])
    decreases |events|
  {
    hide Evolves, RowOk, OutcomesOk, FlightsOk;
    if events == [] {
      EvolvesSelf(s.rows[SID]);
    } else {
      RefreshSafety.NextKeeps(s, events[0]);
      var s' := Refresh.Next(s, events[0]);
      RowOnlyMovesForward(s', events[1..]);
      RowStep(s, events[0]);
      EvolvesTransitive(s.rows[SID], s'.rows[SID], Exec(s, events).rows[SID]);
    }
  }

  // ----- termination -----

  /** The steps a request can still take on its own. */
  function RequestMeasure(q: Req): nat {
    match q
    case Done(_) => 0
    case Start(n) => Left(n) + 18
    case Looked(n, _, _) => Left(n) + 17
    case Leading(n, _, t) => Left(n) + 2 + Measure(t)
    case Waiting(n, _, _) => Left(n) + 1
    case Touching(n, _, _, _) => Left(n) + 1
  }

  function Left(tries: nat): nat { if tries < MAX_TRIES then 20 * (MAX_TRIES - tries) else 0 }

  /** Every step a request takes, other than waiting for a flight that is
      still open, brings it closer to its decision. In particular recovery,
      revocation and use of the current row cannot call each other forever. */
  lemma EveryStepIsProgress(cfg: Config, born: Row, now: Time, events: seq<Refresh.Event>, r: nat, i: Input)
    requires born.Valid()
    requires var s := Run(cfg, born, now, events);
             r in s.reqs && !s.reqs[r].Done? && (s.reqs[r].Waiting? ==> s.book.flights[s.reqs[r].flight].outcome.Some?)
    ensures var s := Run(cfg, born, now, events);
            r in Act(s, r, i).reqs && RequestMeasure(Act(s, r, i).reqs[r]) < RequestMeasure(s.reqs[r])
  {
    Progress(Run(cfg, born, now, events), r, i);
  }

  lemma LaterVersion(s: Sys, t: Task, i: Input)
    requires RowOk(s) && TaskOk(s, t) && (t.Persisting? || t.RevokeRead? || t.RevokeReread?)
    ensures var (t', _) := LeaderStep(s, t, i); t'.Recovering? ==> t'.s.Rank() > t.s.Rank()
  {
  }

  /** Recovery entered again in the course of a flight works on a strictly
      later version of the row than the work that led to it. */
  lemma NestedCallIsLater(cfg: Config, born: Row, now: Time, events: seq<Refresh.Event>, r: nat, i: Input)
    requires born.Valid()
    requires var s := Run(cfg, born, now, events); r in s.reqs && s.reqs[r].Leading? && !s.reqs[r].task.Ending?
    ensures var s := Run(cfg, born, now, events); var t, q' := s.reqs[r].task, Act(s, r, i).reqs[r];
            q'.Leading? && q'.task.Recovering? && !t.Begin? ==> q'.task.s.Rank() > t.s.Rank()
  {
    var s := Run(cfg, born, now, events);
    var t := s.reqs[r].task;
    assert ReqOk(s, s.reqs[r]);
    if t.Persisting? || t.RevokeRead? || t.RevokeReread? { LaterVersion(s, t, i); }
  }

  lemma Progress(s: Sys, r: nat, i: Input)
    requires Inv(s) && r in s.reqs && !s.reqs[r].Done?
    requires s.reqs[r].Waiting? ==> s.book.flights[s.reqs[r].flight].outcome.Some?
    ensures r in Act(s, r, i).reqs && RequestMeasure(Act(s, r, i).reqs[r]) < RequestMeasure(s.reqs[r])
  {
    hide FlightsOk, OutcomesOk, Seen, TaskOk, LeaderStep;
    var q := s.reqs[r];
    assert ReqOk(s, q);
    if q.Leading? && !q.task.Ending? { LedRow(s, q, i); }
  }

  // ----- revocation -----

  ghost predicate Revokes(s: Sys, e: Refresh.Event)
    requires FlightsKnown(s)
  {
    NewlyRevoked(s.rows, Refresh.Next(s, e).rows)
  }

  lemma RevokeStepIs(s: Sys, e: Refresh.Event)
    requires Inv(s) && Revokes(s, e) && e != LogOut
    ensures e.Step? && s.leader == Some(e.r) && e.r in s.reqs && s.reqs[e.r].Leading?
    ensures var q, s' := s.reqs[e.r], Refresh.Next(s, e);
            && q.task.RevokeWrite? && !Moved(s.rows[SID], q.task.s)
            && s'.reqs[e.r] == q.(task := Ending(Rejected(q.task.reason))) && s'.revokers == s.revokers + {q.flight}
  {
    hide OutcomesOk, Seen, TaskOk;
    assert e.Step? && e.r in s.reqs;
    var q := s.reqs[e.r];
    assert ReqOk(s, q);
    if q.Touching? {
      TouchedRow(s, q);
    } else if q.Leading? && !q.task.Ending? {
      LedRow(s, q, e.input);
    }
  }

  /** A row is revoked only by logout, or by the leader of the session's
      flight for exactly the generation, token and identity state its
      rejection was obtained with; that flight then ends Rejected. A leader
      whose snapshot the row has moved past revokes nothing. */
  lemma StaleRejectionIsHarmless(cfg: Config, born: Row, now: Time, events: seq<Refresh.Event>, e: Refresh.Event)
    requires born.Valid() && e != LogOut
    requires Revokes(Run(cfg, born, now, events), e)
    ensures var s := Run(cfg, born, now, events);
            && e.Step? && s.leader == Some(e.r) && e.r in s.reqs && s.reqs[e.r].Leading?
            && s.reqs[e.r].task.RevokeWrite? && !Moved(s.rows[SID], s.reqs[e.r].task.s)
            && s.reqs[e.r].flight in Refresh.Next(s, e).revokers
  {
    RevokeStepIs(Run(cfg, born, now, events), e);
  }

  /** Event `i` of the run takes the row from not revoked to revoked, in a step
      of the leader of flight `f`. */
  ghost predicate RevokesAt(cfg: Config, born: Row, now: Time, events: seq<Refresh.Event>, i: nat, f: nat)
    requires born.Valid() && i < |events|
  {
    var s, e := Run(cfg, born, now, events[..i]), events[i];
    Revokes(s, e) && e.Step? && e.r in s.reqs && s.reqs[e.r].Leading? && s.reqs[e.r].flight == f
  }

  lemma {:induction false} ExecSplit(s: Sys, x: seq<Refresh.Event>, y: seq<Refresh.Event>)
    requires Inv(s)
    ensures Exec(s, x + y) == Exec(Exec(s, x), y)
    decreases |x|
  {
    hide RowOk, OutcomesOk, FlightsOk, Act;
    if x == [] {
      assert x + y == y;
    } else {
      RefreshSafety.NextKeeps(s, x[0]);
      ExecSplit(Refresh.Next(s, x[0]), x[1..], y);
      assert (x + y)[1..] == x[1..] + y;
    }
  }

  lemma RevokersStay(s: Sys, e: Refresh.Event)
    requires Inv(s)
    ensures s.revokers <= Refresh.Next(s, e).revokers
  {
    hide LeaderStep;
  }

  lemma {:induction false} RevokersStayOver(s: Sys, events: seq<Refresh.Event>)
    requires Inv(s)
    ensures s.revokers <= Exec(s, events).revokers
    decreases |events|
  {
    hide RowOk, OutcomesOk, FlightsOk, Act;
    if events != [] {
      RefreshSafety.NextKeeps(s, events[0]);
      RevokersStay(s, events[0]);
      RevokersStayOver(Refresh.Next(s, events[0]), events[1..]);
    }
  }

  lemma RevokedIsRecorded(cfg: Config, born: Row, now: Time, events: seq<Refresh.Event>, i: nat, f: nat)
    requires born.Valid() && i < |events| && RevokesAt(cfg, born, now, events, i, f)
    ensures f in Run(cfg, born, now, events).revokers
  {
    hide RowOk, OutcomesOk, FlightsOk, Act;
    FreshHolds(cfg, born, now);
    var s0, s := Fresh(cfg, born, now), Run(cfg, born, now, events[..i]);
    assert events == events[..i] + events[i..];
    ExecSplit(s0, events[..i], events[i..]);
    RevokeStepIs(s, events[i]);
    RefreshSafety.NextKeeps(s, events[i]);
    RevokersStayOver(Refresh.Next(s, events[i]), events[i..][1..]);
  }

  /** A flight in one of whose steps the row became revoked ends Rejected, so
      one that ended Temporary or Indeterminate revoked nothing; a Ready outcome
      names a version the row really had, and whoever joined never finds an
      older row afterwards. */
  lemma OutcomesTellTheTruth(cfg: Config, born: Row, now: Time, events: seq<Refresh.Event>, f: nat)
    requires born.Valid()
    ensures var s := Run(cfg, born, now, events);
            f in s.book.flights && s.book.flights[f].outcome.Some? ==>
              var o := s.book.flights[f].outcome.value;
              && (forall i :: 0 <= i < |events| && RevokesAt(cfg, born, now, events, i, f) ==> o.Rejected?)
              && (o.ReadyAt? ==> Version(o.generation, Ready) in s.reached)
              && (o.ReadyAt? && SID in s.rows ==> 2 * o.generation + 1 <= s.rows[SID].Rank())
  {
    hide RevokesAt;
    var s := Run(cfg, born, now, events);
    if f in s.book.flights && s.book.flights[f].outcome.Some? {
      assert OutcomeOk(s, s.book.flights[f].outcome.value);
      forall i | 0 <= i < |events| && RevokesAt(cfg, born, now, events, i, f) ensures s.book.flights[f].outcome.value.Rejected? {
        RevokedIsRecorded(cfg, born, now, events, i, f);
      }
    }
  }

  // ----- admission -----

  /** A request is allowed only as the row's own user, who is on the allowlist,
      and only after a read returned an active row with a verified identity and
      an access token that had not yet come up for refresh. */
  lemma AllowIsEarned(cfg: Config, born: Row, now: Time, events: seq<Refresh.Event>, e: Refresh.Event, r: nat, u: string)
    requires born.Valid()
    requires var s := Run(cfg, born, now, events); var s' := Refresh.Next(s, e);
             r in s'.reqs && s'.reqs[r] == Done(Allow(u)) && (r !in s.reqs || s.reqs[r] != s'.reqs[r])
    ensures u == born.userId && u in cfg.allowed
    ensures var s := Run(cfg, born, now, events);
            && r in s.reqs && s.reqs[r].Touching? && s.reqs[r].s.userId == u && s.reqs[r].s.state == Ready
            && s.reqs[r].s.Active(s.reqs[r].readAt) && s.reqs[r].readAt <= s.reqs[r].checkedAt <= s.now
            && s.reqs[r].s.accessExpires > s.reqs[r].checkedAt + cfg.skew * SECOND
  {
    hide RowOk, FlightsOk, OutcomesOk, LeaderStep, Seen, TaskOk, Act;
    var s := Run(cfg, born, now, events);
    var s' := Refresh.Next(s, e);
    Constants(cfg, born, now, events);
    RefreshSafety.NextKeeps(s, e);
    NextConstants(s, e);
    assert ReqOk(s', s'.reqs[r]);
    AllowComesFromTouch(s, e, r, u);
    assert ReqOk(s, s.reqs[r]);
  }

  lemma AllowComesFromTouch(s: Sys, e: Refresh.Event, r: nat, u: string)
    requires Inv(s)
    requires var s' := Refresh.Next(s, e); r in s'.reqs && s'.reqs[r] == Done(Allow(u)) && (r !in s.reqs || s.reqs[r] != s'.reqs[r])
    ensures e.Step? && e.r == r && r in s.reqs && s.reqs[r].Touching? && s.reqs[r].s.userId == u
  {
    hide LeaderStep, FlightsOk, OutcomesOk;
    if e.Step? && e.r in s.reqs && s.reqs[e.r].Touching? {
      assert ReqOk(s, s.reqs[e.r]);
      TouchedOwner(s, s.reqs[e.r].s);
    }
  }

  lemma {:induction false} Constants(cfg: Config, born: Row, now: Time, events: seq<Refresh.Event>)
    requires born.Valid()
    ensures Run(cfg, born, now, events).born == born && Run(cfg, born, now, events).cfg == cfg
  {
    FreshHolds(cfg, born, now);
    ConstantsFrom(Fresh(cfg, born, now), events);
  }

  lemma NextConstants(s: Sys, e: Refresh.Event)
    requires Inv(s)
    ensures Refresh.Next(s, e).born == s.born && Refresh.Next(s, e).cfg == s.cfg
  {
    hide LeaderStep;
  }

  lemma {:induction false} ConstantsFrom(s: Sys, events: seq<Refresh.Event>)
    requires Inv(s)
    ensures Exec(s, events).born == s.born && Exec(s, events).cfg == s.cfg
    decreases |events|
  {
    hide LeaderStep, RowOk, OutcomesOk, FlightsOk;
    if events != [] {
      RefreshSafety.NextKeeps(s, events[0]);
      NextConstants(s, events[0]);
      ConstantsFrom(Refresh.Next(s, events[0]), events[1..]);
    }
  }
}
