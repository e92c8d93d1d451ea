/** Single-flight coordination: at most one refresh per session at a time,
    and everyone who joined it gets the leader's outcome. */
module Flights {
  import opened Bytes
  import opened Sessions

  datatype RefreshRejected = Invalidated | Superseded

  datatype TemporaryClass = Timeout | Transport | RateLimited | Upstream

  datatype IndeterminateClass =
    | UnexpectedStatus | InvalidErrorBody | InvalidSuccessBody | TokenVerification
    | IdentityMismatch | ContractDrift | Persistence | LeaderAborted

  datatype RejectedReason = Remote(rejected: RefreshRejected) | AudienceRejected | LocalInactive

  datatype Outcome =
    | ReadyAt(generation: int)
    | Rejected(reason: RejectedReason)
    | Temporary(temporary: TemporaryClass)
    | Indeterminate(indeterminate: IndeterminateClass)

  datatype Flight = Flight(accepted: set<Version>, outcome: Option<Outcome>, joiners: nat)

  /** The registry and every flight ever opened, by id; holding an id stands
      for holding the shared handle. */
  datatype Book = Book(registry: map<string, nat>, flights: map<nat, Flight>, nextId: nat)

  datatype Acquired = Leader(flight: nat) | Joined(flight: nat) | WaitForClose(flight: nat)

  predicate Registered(b: Book, session: string) {
    session in b.registry && b.registry[session] in b.flights
  }

  function Acquire(b: Book, session: string, observed: Version): (Book, Acquired) {
    if Registered(b, session) && b.flights[b.registry[session]].outcome.None? then
      var f := b.registry[session];
      if observed in b.flights[f].accepted
      then (b.(flights := b.flights[f := b.flights[f].(joiners := b.flights[f].joiners + 1)]), Joined(f))
      else (b, WaitForClose(f))
    else
      (Book(b.registry[session := b.nextId], b.flights[b.nextId := Flight({observed}, None, 0)], b.nextId + 1), Leader(b.nextId))
  }

  function AddAlias(b: Book, f: nat, observed: Version): Book {
    if f in b.flights && b.flights[f].outcome.None?
    then b.(flights := b.flights[f := b.flights[f].(accepted := b.flights[f].accepted + {observed})])
    else b
  }

  function Complete(b: Book, session: string, f: nat, outcome: Outcome): (r: (Book, Outcome))
    requires f in b.flights
    ensures f in r.0.flights && r.0.flights[f].outcome == Some(r.1)
  {
    var shared := if b.flights[f].outcome.None? then outcome else b.flights[f].outcome.value;
    var flights := b.flights[f := b.flights[f].(outcome := Some(shared))];
    var registry := if session in b.registry && b.registry[session] == f then b.registry - {session} else b.registry;
    (Book(registry, flights, b.nextId), shared)
  }

  class FlightCoordinator {
    var registry: map<string, nat>
    var flights: map<nat, Flight>
    var nextId: nat

    ghost function View(): Book
      reads this
    {
      Book(registry, flights, nextId)
    }

    constructor ()
      ensures View() == Book(map[], map[], 0)
    {
      registry, flights, nextId := map[], map[], 0;
    }

    method AcquireFlight(session: string, observed: Version) returns (r: Acquired)
      requires session in registry ==> registry[session] in flights
      modifies this
      ensures (View(), r) == Acquire(old(View()), session, observed)
    {
      if session in registry {
        var f := registry[session];
        if flights[f].outcome.Some? {
          registry := registry - {session};
        } else if observed in flights[f].accepted {
          flights := flights[f := flights[f].(joiners := flights[f].joiners + 1)];
          return Joined(f);
        } else {
          return WaitForClose(f);
        }
      }
      var f := nextId;
      nextId := nextId + 1;
      flights := flights[f := Flight({observed}, None, 0)];
      registry := registry[session := f];
      assert registry == old(registry)[session := f];
      r := Leader(f);
    }

    method AddFlightAlias(f: nat, observed: Version)
      requires f in flights
      modifies this
      ensures View() == AddAlias(old(View()), f, observed)
    {
      if flights[f].outcome.None? {
        flights := flights[f := flights[f].(accepted := flights[f].accepted + {observed})];
      }
    }

    method CompleteFlight(session: string, f: nat, outcome: Outcome) returns (shared: Outcome)
      requires f in flights
      modifies this
      ensures (View(), shared) == Complete(old(View()), session, f, outcome)
    {
      if flights[f].outcome.None? { flights := flights[f := flights[f].(outcome := Some(outcome))]; }
      shared := flights[f].outcome.value;
      assert flights == old(flights)[f := old(flights)[f].(outcome := Some(shared))];
      if session in registry && registry[session] == f { registry := registry - {session}; }
    }

    /** A leader that goes away without completing. */
    method DropLeader(session: string, f: nat, completed: bool)
      requires f in flights
      modifies this
      ensures View() == if completed then old(View()) else Complete(old(View()), session, f, Indeterminate(LeaderAborted)).0
    {
      if !completed {
        var _ := CompleteFlight(session, f, Indeterminate(LeaderAborted));
      }
    }
  }

  // ----- every run of the coordinator -----

  /** The book with the leaders that have not completed yet; a leader value is
      consumed by completing or dropping it. */
  datatype Run = Run(book: Book, leaders: map<nat, string>)

  datatype Event =
    | Ask(session: string, observed: Version)
    | Alias(flight: nat, observed: Version)
    | Finish(flight: nat, outcome: Outcome)
    | Drop(flight: nat)

  const FIRST := Run(Book(map[], map[], 0), map[])

  function Next(r: Run, e: Event): Run
    requires RunInv(r)
  {
    match e
    case Ask(session, observed) =>
      var (b, got) := Acquire(r.book, session, observed);
      r.(book := b, leaders := if got.Leader? then r.leaders[got.flight := session] else r.leaders)
    case Alias(f, observed) => if f in r.leaders then r.(book := AddAlias(r.book, f, observed)) else r
    case Finish(f, outcome) => Completed(r, f, outcome)
    case Drop(f) => Completed(r, f, Indeterminate(LeaderAborted))
  }

  function Completed(r: Run, f: nat, outcome: Outcome): Run
    requires RunInv(r)
  {
    if f in r.leaders then r.(book := Complete(r.book, r.leaders[f], f, outcome).0, leaders := r.leaders - {f}) else r
  }

  /** A registered flight is open and led; an open flight is registered by its
      leader's session; ids are fresh. */
  predicate RunInv(r: Run) {
    && (forall f :: f in r.book.flights ==> f < r.book.nextId)
    && (forall s :: s in r.book.registry ==> r.book.registry[s] in r.leaders && r.leaders[r.book.registry[s]] == s)
    && (forall f :: f in r.leaders ==> f in r.book.flights && r.leaders[f] in r.book.registry && r.book.registry[r.leaders[f]] == f)
    && (forall f :: f in r.book.flights ==> (r.book.flights[f].outcome.None? <==> f in r.leaders))
  }

  ghost predicate Keeps(r: Run, r': Run) {
    && RunInv(r')
    && forall f :: f in r.book.flights ==>
         && f in r'.book.flights
         && (r.book.flights[f].outcome.Some? ==> r'.book.flights[f].outcome == r.book.flights[f].outcome)
  }

  lemma AskKeeps(r: Run, session: string, observed: Version)
    requires RunInv(r)
    ensures Keeps(r, Next(r, Ask(session, observed)))
  {
    var (b, got) := Acquire(r.book, session, observed);
    if got.Leader? {
      assert session !in r.book.registry;
      assert r.book.nextId !in r.leaders;
    }
  }

  lemma CompletedKeeps(r: Run, f: nat, outcome: Outcome)
    requires RunInv(r)
    ensures Keeps(r, Completed(r, f, outcome))
  {
    if f in r.leaders {
      var r' := Completed(r, f, outcome);
      assert r'.book.registry == r.book.registry - {r.leaders[f]};
    }
  }

  lemma NextKeeps(r: Run, e: Event)
    requires RunInv(r)
    ensures Keeps(r, Next(r, e))
  {
    match e
    case Ask(session, observed) => AskKeeps(r, session, observed);
    case Alias(_, _) =>
    case Finish(f, outcome) => CompletedKeeps(r, f, outcome);
    case Drop(f) => CompletedKeeps(r, f, Indeterminate(LeaderAborted));
  }

  function Exec(r: Run, events: seq<Event>): (r': Run)
    requires RunInv(r)
    ensures RunInv(r')
    decreases |events|
  {
    if events == [] then r else
    (NextKeeps(r, events[0]); Exec(Next(r, events[0]), events[1..]))
  }

  /** Each session has at most one flight without an outcome, and the flight
      the registry names never has one, so `acquire` never meets a finished
      flight to clean up. */
  lemma OneOpenFlight(events: seq<Event>, session: string, f: nat, g: nat)
    ensures var r := Exec(FIRST, events);
            && (f in r.leaders && g in r.leaders && r.leaders[f] == session && r.leaders[g] == session ==> f == g)
            && (session in r.book.registry ==> Registered(r.book, session) && r.book.flights[r.book.registry[session]].outcome.None?)
            && (f in r.book.flights && r.book.flights[f].outcome.None? ==> f in r.leaders)
  {
  }

  /** Once published, an outcome is what every waiter of that flight reads for
      the rest of the run. */
  lemma {:induction false} OutcomeIsFinal(r: Run, events: seq<Event>, f: nat)
    requires RunInv(r) && f in r.book.flights && r.book.flights[f].outcome.Some?
    ensures var r' := Exec(r, events); f in r'.book.flights && r'.book.flights[f].outcome == r.book.flights[f].outcome
    decreases |events|
  {
    if events != [] {
      NextKeeps(r, events[0]);
      OutcomeIsFinal(Next(r, events[0]), events[1..], f);
    }
  }

  /** Completing publishes exactly the leader's outcome, and dropping a leader
      publishes LeaderAborted; either closes the flight and frees the session. */
  lemma LeaderPublishes(r: Run, f: nat, outcome: Outcome, events: seq<Event>)
    requires RunInv(r) && f in r.leaders
    ensures var finished := Exec(Next(r, Finish(f, outcome)), events);
            f in finished.book.flights && finished.book.flights[f].outcome == Some(outcome)
    ensures var dropped := Exec(Next(r, Drop(f)), events);
            f in dropped.book.flights && dropped.book.flights[f].outcome == Some(Indeterminate(LeaderAborted))
    ensures r.leaders[f] !in Next(r, Finish(f, outcome)).book.registry
  {
    NextKeeps(r, Finish(f, outcome));
    NextKeeps(r, Drop(f));
    OutcomeIsFinal(Next(r, Finish(f, outcome)), events, f);
    OutcomeIsFinal(Next(r, Drop(f)), events, f);
  }

  /** The first outcome wins, and completing a flight again never takes the
      session from another flight. */
  lemma FirstOutcomeWins(b: Book, session: string, f: nat, first: Outcome, second: Outcome)
    requires f in b.flights && b.flights[f].outcome.None?
    ensures var b1 := Complete(b, session, f, first).0; var b2 := Complete(b1, session, f, second);
            b2.1 == first && b2.0 == b1
    ensures var b1 := Complete(b, session, f, first).0;
            && b1.flights == b.flights[f := b.flights[f].(outcome := Some(first))]
            && (forall s :: s in b1.registry <==> s in b.registry && !(s == session && b.registry[s] == f))
            && (forall s :: s in b1.registry ==> b1.registry[s] == b.registry[s])
  {
    var b1 := Complete(b, session, f, first).0;
    assert b1.flights[f := b1.flights[f].(outcome := Some(first))] == b1.flights;
  }
}
