/** A rotated row is used only once its identity is verified: it becomes ready
    only through a leader that has just had this very access token verified as
    the session's user. And whoever sees the pending row meanwhile joins the
    flight that is verifying it. */
module RefreshIdentity {
  import opened Bytes
  import opened Sessions
  import F = Flights
  import opened Refresh
  import opened RefreshSafety
  import opened RefreshResults
  import opened RefreshTokens

  /** In state `s` event `e` tells the leader that is recovering the pending row
      `p` that its access token belongs to this session and its user. */
  predicate Verifies(s: Sys, e: Refresh.Event, p: Row) {
    && e.Step? && e.r in s.reqs && s.reqs[e.r].Leading? && s.reqs[e.r].task.Recovering? && s.reqs[e.r].task.s == p
    && !e.input.panics && e.input.prepare.None? && e.input.verify.Good?
    && e.input.verify.value.authSession == s.born.authSession && e.input.verify.value.userId == s.born.userId
  }

  /** Event `i` tells request `r` so, and `r` has done nothing since. */
  ghost predicate VerifiedAt(cfg: Config, born: Row, now: Time, events: seq<Refresh.Event>, i: nat, r: nat, p: Row)
    requires born.Valid() && i < |events|
  {
    && Verifies(Run(cfg, born, now, events[..i]), events[i], p) && events[i].r == r
    && forall k :: i < k < |events| ==> !(events[k].Step? && events[k].r == r)
  }

  ghost predicate Verified(cfg: Config, born: Row, now: Time, events: seq<Refresh.Event>, r: nat, p: Row)
    requires born.Valid()
  {
    exists i :: 0 <= i < |events| && VerifiedAt(cfg, born, now, events, i, r, p)
  }

  lemma LedFinalizing(s: Sys, t: Task, i: Input)
    requires !t.Ending?
    ensures var t' := LeaderStep(s, t, i).0;
            t'.Finalizing? ==> && t.Recovering? && t'.s == t.s && i.prepare.None? && i.verify.Good?
                               && i.verify.value.authSession == t.s.authSession && i.verify.value.userId == t.s.userId
  {
  }

  lemma FinalizingStep(s: Sys, e: Refresh.Event, r: nat)
    requires Inv(s) && r in Refresh.Next(s, e).reqs && Refresh.Next(s, e).reqs[r].Leading? && Refresh.Next(s, e).reqs[r].task.Finalizing?
    ensures var q := Refresh.Next(s, e).reqs[r];
            (r in s.reqs && s.reqs[r] == q && !(e.Step? && e.r == r)) || (e.Step? && e.r == r && Verifies(s, e, q.task.s))
  {
    hide OutcomesOk, FlightsOk, LeaderStep;
    if e.Step? && e.r in s.reqs && s.reqs[e.r].Leading? && !s.reqs[e.r].task.Ending? {
      assert ReqOk(s, s.reqs[e.r]);
      LedFinalizing(s, s.reqs[e.r].task, e.input);
    }
  }

  lemma VerifiedStays(cfg: Config, born: Row, now: Time, events: seq<Refresh.Event>, e: Refresh.Event, r: nat, p: Row)
    requires born.Valid()
    ensures Verified(cfg, born, now, events, r, p) && !(e.Step? && e.r == r) ==> Verified(cfg, born, now, events + [e], r, p)
    ensures e.Step? && Verifies(Run(cfg, born, now, events), e, p) && e.r == r ==> Verified(cfg, born, now, events + [e], r, p)
  {
    hide Run, Verifies;
    var all := events + [e];
    if Verified(cfg, born, now, events, r, p) && !(e.Step? && e.r == r) {
      var i :| 0 <= i < |events| && VerifiedAt(cfg, born, now, events, i, r, p);
      assert all[..i] == events[..i] && all[i] == events[i];
      assert VerifiedAt(cfg, born, now, all, i, r, p);
    }
    if e.Step? && Verifies(Run(cfg, born, now, events), e, p) && e.r == r {
      assert all[..|events|] == events && all[|events|] == e;
      assert VerifiedAt(cfg, born, now, all, |events|, r, p);
    }
  }

  /** Whoever is about to make a row ready has had it verified. */
  lemma {:induction false} FinalizerHasVerified(cfg: Config, born: Row, now: Time, events: seq<Refresh.Event>, r: nat)
    requires born.Valid()
    ensures var s := Run(cfg, born, now, events);
            r in s.reqs && s.reqs[r].Leading? && s.reqs[r].task.Finalizing? ==> Verified(cfg, born, now, events, r, s.reqs[r].task.s)
    decreases |events|
  {
    if events == [] {
      assert Run(cfg, born, now, events) == Fresh(cfg, born, now);
    } else {
      hide Run, Verified, Verifies, Inv, Refresh.Next;
      var n := |events| - 1;
      var before, e := events[..n], events[n];
      assert events == before + [e];
      FinalizerHasVerified(cfg, born, now, before, r);
      RunSnoc(cfg, born, now, before, e);
      var s := Run(cfg, born, now, before);
      InvKnown(s);
      var s' := Refresh.Next(s, e);
      if r in s'.reqs && s'.reqs[r].Leading? && s'.reqs[r].task.Finalizing? {
        FinalizingStep(s, e, r);
        VerifiedStays(cfg, born, now, before, e, r, s'.reqs[r].task.s);
      }
    }
  }

  /** The row was waiting for its identity and is ready after the event. */
  ghost predicate BecomesReady(s: Sys, e: Refresh.Event)
    requires FlightsKnown(s)
  {
    var rows := Refresh.Next(s, e).rows;
    SID in s.rows && SID in rows && s.rows[SID].state == Pending && rows[SID].state == Ready
  }

  lemma LedReady(s: Sys, t: Task, i: Input)
    requires RowOk(s) && !t.Ending? && SID in s.rows && SID in LeaderStep(s, t, i).1
    ensures var row, row' := s.rows[SID], LeaderStep(s, t, i).1[SID];
            row.state == Pending && row'.state == Ready ==> t.Finalizing? && t.s.generation == row.generation == row'.generation
  {
  }

  lemma ReadyStep(s: Sys, e: Refresh.Event)
    requires Inv(s) && BecomesReady(s, e)
    ensures e.Step? && e.r in s.reqs && s.reqs[e.r].Leading? && s.reqs[e.r].task.Finalizing?
    ensures s.reqs[e.r].task.s.generation == s.rows[SID].generation == Refresh.Next(s, e).rows[SID].generation
  {
    hide ReqOk, OutcomesOk, FlightsOk, LeaderStep;
    RowStep(s, e);
    if e.Step? && e.r in s.reqs && s.reqs[e.r].Leading? && !s.reqs[e.r].task.Ending? && !e.input.panics {
      LedReady(s, s.reqs[e.r].task, e.input);
    }
  }

  /** Main result: in every run the row becomes ready only in a step of the
      flight's leader, which in its step before was told that the access token of
      that very generation belongs to this session and its user. */
  lemma ReadyIsVerified(cfg: Config, born: Row, now: Time, events: seq<Refresh.Event>, e: Refresh.Event)
    requires born.Valid() && BecomesReady(Run(cfg, born, now, events), e)
    ensures var s := Run(cfg, born, now, events);
            && e.Step? && s.leader == Some(e.r)
            && exists p :: Verified(cfg, born, now, events, e.r, p)
                 && p.generation == s.rows[SID].generation && p.accessToken == s.rows[SID].accessToken && p.refreshToken == s.rows[SID].refreshToken
  {
    hide Run, Verified;
    var s := Run(cfg, born, now, events);
    ReadyStep(s, e);
    FinalizerHasVerified(cfg, born, now, events, e.r);
    LeaderIs(s, e.r);
    assert ReqOk(s, s.reqs[e.r]);
    var p := s.reqs[e.r].task.s;
    assert Verified(cfg, born, now, events, e.r, p);
  }

  // ----- joining the flight that is verifying -----

  /** A leader about to write has announced the version it is going to write. */
  ghost predicate Announced(s: Sys) {
    forall r :: r in s.reqs && s.reqs[r].Leading? && s.reqs[r].task.Persisting? && s.reqs[r].flight in s.book.flights ==>
      Version(s.reqs[r].task.s.generation + 1, Pending) in s.book.flights[s.reqs[r].flight].accepted
  }

  lemma AcceptedGrows(s: Sys, e: Refresh.Event, f: nat, v: Version)
    requires Inv(s) && f in s.book.flights && v in s.book.flights[f].accepted
    ensures f in Refresh.Next(s, e).book.flights && v in Refresh.Next(s, e).book.flights[f].accepted
  {
    hide RowOk, ReqOk, OutcomesOk, LeaderStep;
  }

  lemma AnnouncedStep(s: Sys, e: Refresh.Event)
    requires Inv(s) && Announced(s)
    ensures Announced(Refresh.Next(s, e))
  {
    hide Inv, Refresh.Next;
    InvKnown(s);
    var s' := Refresh.Next(s, e);
    forall r | r in s'.reqs && s'.reqs[r].Leading? && s'.reqs[r].task.Persisting? && s'.reqs[r].flight in s'.book.flights
      ensures Version(s'.reqs[r].task.s.generation + 1, Pending) in s'.book.flights[s'.reqs[r].flight].accepted
    {
      PersistingStep(s, e, r);
      var f, v := s'.reqs[r].flight, Version(s'.reqs[r].task.s.generation + 1, Pending);
      if r in s.reqs && s.reqs[r] == s'.reqs[r] {
        AcceptedGrows(s, e, f, v);
      } else {
        Announces(s, e);
      }
    }
  }

  lemma Announces(s: Sys, e: Refresh.Event)
    requires Inv(s) && e.Step? && e.r in s.reqs && s.reqs[e.r].Leading? && s.reqs[e.r].task.Refreshing?
    ensures var q := Refresh.Next(s, e).reqs[e.r];
            q.Leading? && q.task.Persisting? ==>
              && q.flight in Refresh.Next(s, e).book.flights
              && Version(q.task.s.generation + 1, Pending) in Refresh.Next(s, e).book.flights[q.flight].accepted
  {
    hide RowOk, OutcomesOk, LeaderStep;
    LeaderIs(s, e.r);
  }

  lemma {:induction false} AnnouncedHolds(cfg: Config, born: Row, now: Time, events: seq<Refresh.Event>)
    requires born.Valid()
    ensures Announced(Run(cfg, born, now, events))
    decreases |events|
  {
    if events == [] {
      assert Run(cfg, born, now, events) == Fresh(cfg, born, now);
    } else {
      hide Run, Announced, Inv, Refresh.Next;
      var n := |events| - 1;
      AnnouncedHolds(cfg, born, now, events[..n]);
      RunSnoc(cfg, born, now, events[..n], events[n]);
      assert events == events[..n] + [events[n]];
      AnnouncedStep(Run(cfg, born, now, events[..n]), events[n]);
    }
  }

  lemma LedRaise(s: Sys, t: Task, i: Input)
    requires RowOk(s) && !t.Ending? && SID in s.rows && SID in LeaderStep(s, t, i).1
    ensures var row, row' := s.rows[SID], LeaderStep(s, t, i).1[SID];
            row'.generation != row.generation ==> t.Persisting? && t.s.generation + 1 == row'.generation
  {
  }

  lemma RaiseStep(s: Sys, e: Refresh.Event)
    requires Inv(s) && SID in s.rows && SID in Refresh.Next(s, e).rows && Refresh.Next(s, e).rows[SID].generation != s.rows[SID].generation
    ensures e.Step? && e.r in s.reqs && s.reqs[e.r].Leading? && s.reqs[e.r].task.Persisting?
    ensures s.reqs[e.r].task.s.generation + 1 == Refresh.Next(s, e).rows[SID].generation
  {
    hide ReqOk, OutcomesOk, FlightsOk, LeaderStep;
    RowStep(s, e);
    if e.Step? && e.r in s.reqs && s.reqs[e.r].Leading? && !s.reqs[e.r].task.Ending? && !e.input.panics {
      LedRaise(s, s.reqs[e.r].task, e.input);
    }
  }

  lemma {:induction false} AcceptedStays(s: Sys, events: seq<Refresh.Event>, f: nat, v: Version)
    requires Inv(s) && f in s.book.flights && v in s.book.flights[f].accepted
    ensures f in Exec(s, events).book.flights && v in Exec(s, events).book.flights[f].accepted
    decreases |events|
  {
    hide RowOk, OutcomesOk, FlightsOk, Act;
    if events != [] {
      RefreshSafety.NextKeeps(s, events[0]);
      AcceptedGrows(s, events[0], f, v);
      AcceptedStays(Refresh.Next(s, events[0]), events[1..], f, v);
    }
  }

  /** The flight that writes a generation accepts its pending version from then on. */
  lemma WriterAccepts(cfg: Config, born: Row, now: Time, events: seq<Refresh.Event>, j: nat, r: nat, g: int)
    requires born.Valid() && j < |events| && RaisesAt(cfg, born, now, events, j, r, g)
    ensures var s := Run(cfg, born, now, events[..j]);
            && r in s.reqs && s.reqs[r].Leading?
            && var f, b := s.reqs[r].flight, Run(cfg, born, now, events).book; f in b.flights && Version(g, Pending) in b.flights[f].accepted
  {
    hide RowOk, OutcomesOk, FlightsOk, Act, LeaderStep;
    var s, e := Run(cfg, born, now, events[..j]), events[j];
    RaiseStep(s, e);
    AnnouncedHolds(cfg, born, now, events[..j]);
    assert ReqOk(s, s.reqs[r]);
    FreshHolds(cfg, born, now);
    assert events == events[..j] + events[j..];
    ExecSplit(Fresh(cfg, born, now), events[..j], events[j..]);
    AcceptedStays(s, events[j..], s.reqs[r].flight, Version(g, Pending));
  }

  /** Main result: while the flight that wrote a generation is open, whoever has
      seen the row pending at that generation joins it, and does not wait for it
      to close or lead another. */
  lemma PendingIsJoined(cfg: Config, born: Row, now: Time, events: seq<Refresh.Event>, j: nat, r: nat, g: int, k: nat, n: nat, row: Row, at: Time)
    requires born.Valid() && j < |events| && RaisesAt(cfg, born, now, events, j, r, g)
    requires var s0, s := Run(cfg, born, now, events[..j]), Run(cfg, born, now, events);
             && (r in s0.reqs && s0.reqs[r].Leading? && s0.reqs[r].flight in s.book.flights ==> s.book.flights[s0.reqs[r].flight].outcome.None?)
             && k in s.reqs && s.reqs[k] == Looked(n, row, at) && row.Observed() == Version(g, Pending)
    ensures var s0, s := Run(cfg, born, now, events[..j]), Run(cfg, born, now, events); var s' := AskFlight(s, k, s.reqs[k]);
            r in s0.reqs && s0.reqs[r].Leading? && k in s'.reqs && s'.reqs[k] == Waiting(n, s0.reqs[r].flight, true)
  {
    WriterAccepts(cfg, born, now, events, j, r, g);
    hide Run, RowOk, OutcomesOk;
    var s := Run(cfg, born, now, events);
    assert FlightsOk(s);
  }
}
