/** Who joins a flight: whoever asks with the version its leader asked with, or
    with one the leader added since. */
module FlightVersions {
  import opened Bytes
  import opened Sessions
  import opened Flights

  /** Event `i` of the run opened flight `f` for version `v`, or its leader
      added `v` to it. */
  ghost predicate TakesAt(events: seq<Event>, i: nat, f: nat, v: Version)
    requires i < |events|
  {
    var r := Exec(FIRST, events[..i]);
    match events[i]
    case Ask(session, observed) => observed == v && session !in r.book.registry && f == r.book.nextId
    case Alias(flight, observed) => flight == f && observed == v && f in r.leaders
    case _ => false
  }

  ghost predicate Taken(events: seq<Event>, f: nat, v: Version) {
    exists i :: 0 <= i < |events| && TakesAt(events, i, f, v)
  }

  lemma {:induction false} ExecSnoc(r: Run, events: seq<Event>, e: Event)
    requires RunInv(r)
    ensures Exec(r, events + [e]) == Next(Exec(r, events), e)
    decreases |events|
  {
    hide Next;
    if events == [] {
      NextKeeps(r, e);
      assert [] + [e] == [e] && [e][1..] == [];
    } else {
      NextKeeps(r, events[0]);
      ExecSnoc(Next(r, events[0]), events[1..], e);
      assert (events + [e])[1..] == events[1..] + [e];
    }
  }

  lemma AcceptedStep(r: Run, e: Event, f: nat, v: Version)
    requires RunInv(r)
    ensures var r' := Next(r, e);
            f in r'.book.flights && v in r'.book.flights[f].accepted <==>
              || (f in r.book.flights && v in r.book.flights[f].accepted)
              || (e.Ask? && e.observed == v && e.session !in r.book.registry && f == r.book.nextId)
              || (e.Alias? && e.flight == f && e.observed == v && f in r.leaders)
  {
  }

  lemma TakenSnoc(events: seq<Event>, e: Event, f: nat, v: Version)
    ensures var r := Exec(FIRST, events);
            Taken(events + [e], f, v) <==>
              || Taken(events, f, v)
              || (e.Ask? && e.observed == v && e.session !in r.book.registry && f == r.book.nextId)
              || (e.Alias? && e.flight == f && e.observed == v && f in r.leaders)
  {
    hide Exec;
    var all, n := events + [e], |events|;
    assert all[..n] == events && all[n] == e;
    forall i | 0 <= i < n ensures TakesAt(all, i, f, v) <==> TakesAt(events, i, f, v) { assert all[..i] == events[..i]; }
    assert TakesAt(all, n, f, v) <==>
      || (e.Ask? && e.observed == v && e.session !in Exec(FIRST, events).book.registry && f == Exec(FIRST, events).book.nextId)
      || (e.Alias? && e.flight == f && e.observed == v && f in Exec(FIRST, events).leaders);
  }

  /** In every run a flight accepts exactly the versions it was opened with and
      given by its leader. */
  lemma {:induction false} AcceptedIsTaken(events: seq<Event>, f: nat, v: Version)
    ensures var r := Exec(FIRST, events); f in r.book.flights && v in r.book.flights[f].accepted <==> Taken(events, f, v)
    decreases |events|
  {
    if events != [] {
      hide Exec, Next, Taken;
      var n := |events| - 1;
      var before, e := events[..n], events[n];
      assert events == before + [e];
      AcceptedIsTaken(before, f, v);
      ExecSnoc(FIRST, before, e);
      AcceptedStep(Exec(FIRST, before), e, f, v);
      TakenSnoc(before, e, f, v);
    }
  }

  /** Main result: in every run, whoever asks leads a new flight if the session
      has no leader, joins the leader's flight if the version was asked for or
      added by the leader, and otherwise waits for that flight to close. */
  lemma JoinExactly(events: seq<Event>, session: string, v: Version)
    ensures var r := Exec(FIRST, events); var got := Acquire(r.book, session, v).1;
            && (got.Leader? <==> forall f :: f in r.leaders ==> r.leaders[f] != session)
            && (forall f :: got == Joined(f) <==> f in r.leaders && r.leaders[f] == session && Taken(events, f, v))
            && (forall f :: got == WaitForClose(f) <==> f in r.leaders && r.leaders[f] == session && !Taken(events, f, v))
  {
    hide Exec, Taken;
    var r := Exec(FIRST, events);
    forall f ensures f in r.book.flights && v in r.book.flights[f].accepted <==> Taken(events, f, v) { AcceptedIsTaken(events, f, v); }
    Asked(r, session, v);
  }

  lemma Asked(r: Run, session: string, v: Version)
    requires RunInv(r)
    ensures var got := Acquire(r.book, session, v).1;
            && (got.Leader? <==> forall f :: f in r.leaders ==> r.leaders[f] != session)
            && (forall f :: got == Joined(f) <==> f in r.leaders && r.leaders[f] == session && v in r.book.flights[f].accepted)
            && (forall f :: got == WaitForClose(f) <==> f in r.leaders && r.leaders[f] == session && v !in r.book.flights[f].accepted)
  {
    if session in r.book.registry { assert r.book.registry[session] in r.leaders; }
  }

  /** Event `i` is an ask that joins flight `f`. */
  ghost predicate JoinsAt(events: seq<Event>, i: nat, f: nat)
    requires i < |events|
  {
    events[i].Ask? && Acquire(Exec(FIRST, events[..i]).book, events[i].session, events[i].observed).1 == Joined(f)
  }

  /** How many of the events join flight `f`. */
  ghost function Joins(events: seq<Event>, f: nat): nat {
    if events == [] then 0 else
    var n := |events| - 1;
    Joins(events[..n], f) + if JoinsAt(events, n, f) then 1 else 0
  }

  lemma JoinersStep(r: Run, e: Event, f: nat)
    requires RunInv(r)
    ensures var r' := Next(r, e); var joined := e.Ask? && Acquire(r.book, e.session, e.observed).1 == Joined(f);
            && (f in r.book.flights ==> f in r'.book.flights && r'.book.flights[f].joiners == r.book.flights[f].joiners + if joined then 1 else 0)
            && (f !in r.book.flights && f in r'.book.flights ==> r'.book.flights[f].joiners == 0)
            && (joined ==> f in r.book.flights)
  {
  }

  /** In every run a flight's count of joiners is the number of asks that
      joined it. */
  lemma {:induction false} JoinersAreCounted(events: seq<Event>, f: nat)
    ensures var r := Exec(FIRST, events);
            if f in r.book.flights then r.book.flights[f].joiners == Joins(events, f) else Joins(events, f) == 0
    decreases |events|
  {
    if events != [] {
      hide Exec, Next, Acquire;
      var n := |events| - 1;
      var before, e := events[..n], events[n];
      assert events == before + [e];
      JoinersAreCounted(before, f);
      ExecSnoc(FIRST, before, e);
      JoinersStep(Exec(FIRST, before), e, f);
    }
  }
}
