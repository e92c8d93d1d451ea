/** One session's refresh protocol: any number of requests run
    `auth_decision` concurrently against the same row, the flight coordinator
    and an authentication server that may accept, reject, fail or answer
    nonsense. Every event is one atomic step: one statement on the table, one
    coordinator call, or a stretch that touches nothing shared. The table, the
    coordinator and the requests of other sessions are independent of these. */
module Refresh {
  import opened Bytes
  import opened Sessions
  import opened Flights

  const SID := "session"

  const MAX_TRIES := 8

  /** `allowed` are the users the allowlist admits and whose id is a safe header value. */
  datatype Config = Config(skew: int, ttl: int, interval: int, allowed: set<string>)

  // ----- the authentication server -----

  datatype RefreshError =
    | RemoteRejected(rejected: RefreshRejected)
    | WrongAudience
    | Passing(temporary: TemporaryClass)
    | Unclear(indeterminate: IndeterminateClass)

  datatype Answer<T> = Good(value: T) | Bad(error: RefreshError)

  datatype TokenResponse = TokenResponse(sessionId: string, accessToken: string, refreshToken: string)

  /** `exp` is None when the expiry is not a representable time. */
  datatype Verified = Verified(authSession: string, userId: string, amr: seq<string>, exp: Option<Time>)

  /** Everything the outside world decides about one step. Storage may fail
      before a statement, or after its update when the row is read back. */
  datatype Input = Input(
    storageFails: bool, readBackFails: bool, panics: bool, prepare: Option<RefreshError>, refresh: Answer<TokenResponse>, verify: Answer<Verified>)

  function ErrorOutcome(e: RefreshError): Outcome {
    match e
    case RemoteRejected(reason) => Rejected(Remote(reason))
    case WrongAudience => Indeterminate(ContractDrift)
    case Passing(c) => Temporary(c)
    case Unclear(c) => Indeterminate(c)
  }

  // ----- one request -----

  /** Where a flight's leader stands. `own` records that the snapshot it
      works on was read while it held the flight. */
  datatype Task =
    | Begin(s: Row)
    | Refreshing(s: Row)
    | Persisting(s: Row, next: Tokens)
    | Recovering(s: Row, own: bool)
    | Finalizing(s: Row, own: bool)
    | RevokeRead(s: Row, reason: RejectedReason, own: bool)
    | RevokeWrite(s: Row, reason: RejectedReason, own: bool)
    | RevokeReread(s: Row, own: bool)
    | Ending(outcome: Outcome)

  datatype Decision = Allow(userId: string) | Unauthenticated | Forbidden | Unavailable

  datatype Req =
    | Start(tries: nat)
    | Looked(tries: nat, s: Row, readAt: Time)
    | Waiting(tries: nat, flight: nat, joined: bool)
    | Leading(tries: nat, flight: nat, task: Task)
    | Touching(tries: nat, s: Row, readAt: Time, checkedAt: Time)
    | Done(decision: Decision)

  /** `born` is the row as created, `reached` every version it has had,
      `leader` the request holding the session's flight and `revokers` the
      flights that revoked the row. */
  datatype Sys = Sys(
    cfg: Config, born: Row, rows: Rows, book: Book, reqs: map<nat, Req>, now: Time,
    reached: set<Version>, leader: Option<nat>, revokers: set<nat>)

  predicate NeedsRefresh(s: Sys, r: Row) { r.accessExpires <= s.now + s.cfg.skew * SECOND }

  predicate Moved(current: Row, expected: Row) {
    current.Observed() != expected.Observed() || current.refreshToken != expected.refreshToken
  }

  function UseCurrent(s: Sys, current: Row): Task {
    if current.state == Pending then
      if NeedsRefresh(s, current) then Ending(Indeterminate(ContractDrift)) else Recovering(current, true)
    else Ending(ReadyAt(current.generation))
  }

  function UseCurrentWithoutRefresh(current: Row): Task {
    if current.state == Pending then Recovering(current, true) else Ending(ReadyAt(current.generation))
  }

  /** `refresh_gateway_session` up to the write: nothing shared is touched. */
  function AfterRemote(r: Row, i: Input): Task {
    if i.prepare.Some? then Ending(ErrorOutcome(i.prepare.value)) else
    match i.refresh
    case Bad(RemoteRejected(reason)) => RevokeRead(r, Remote(reason), false)
    case Bad(e) => Ending(ErrorOutcome(e))
    case Good(t) =>
      if t.sessionId != r.authSession then Ending(Indeterminate(ContractDrift)) else
      match i.verify
      case Bad(WrongAudience) => RevokeRead(r, AudienceRejected, false)
      case Bad(e) => Ending(ErrorOutcome(e))
      case Good(v) =>
        if v.authSession != r.authSession || v.userId != r.userId then Ending(Indeterminate(IdentityMismatch))
        else if v.exp.None? then Ending(Indeterminate(TokenVerification))
        else Persisting(r, Tokens(t.accessToken, t.refreshToken, v.userId, v.amr, v.exp.value))
  }

  /** `recover_pending_identity` up to the write. */
  function AfterVerify(p: Row, own: bool, i: Input): Task {
    if i.prepare.Some? then Ending(ErrorOutcome(i.prepare.value)) else
    match i.verify
    case Bad(WrongAudience) => RevokeRead(p, AudienceRejected, own)
    case Bad(e) => Ending(ErrorOutcome(e))
    case Good(v) =>
      if v.authSession != p.authSession || v.userId != p.userId then Ending(Indeterminate(IdentityMismatch))
      else Finalizing(p, own)
  }

  function AfterPersist(s: Sys, original: Row, result: Cas): Task {
    match result
    case Updated(p) => Recovering(p, true)
    case Current(c) => if Moved(c, original) then UseCurrent(s, c) else Ending(Indeterminate(Persistence))
    case Gone => Ending(Rejected(LocalInactive))
    case Unreadable => Ending(Indeterminate(Persistence))
  }

  function AfterFinalize(p: Row, result: Cas): Outcome {
    match result
    case Updated(r) => if r.state == Ready then ReadyAt(r.generation) else Indeterminate(Persistence)
    case Current(c) => if c.state == Ready && c.generation == p.generation then ReadyAt(c.generation) else Indeterminate(Persistence)
    case Gone => Rejected(LocalInactive)
    case Unreadable => Indeterminate(Persistence)
  }

  /** One step of the leader: its next task and the table after it. */
  function LeaderStep(s: Sys, t: Task, i: Input): (Task, Rows) {
    match t
    case Begin(r) =>
      (if NeedsRefresh(s, r) then Refreshing(r)
       else if r.state == Pending then Recovering(r, false) else Ending(ReadyAt(r.generation)), s.rows)
    case Refreshing(r) => (AfterRemote(r, i), s.rows)
    case Persisting(r, next) =>
      if i.storageFails then (Ending(Indeterminate(Persistence)), s.rows) else
      var rows := PersistPending(s.rows, SID, r, next, s.now);
      if i.readBackFails then (Ending(Indeterminate(Persistence)), rows) else
      (AfterPersist(s, r, Resolve(rows, SID, s.now, Matches(s.rows, SID, r, s.now))), rows)
    case Recovering(p, own) => (AfterVerify(p, own, i), s.rows)
    case Finalizing(p, own) =>
      if i.storageFails then (Ending(Indeterminate(Persistence)), s.rows) else
      var rows := FinalizePending(s.rows, SID, p, None, s.now);
      if i.readBackFails then (Ending(Indeterminate(Persistence)), rows) else
      (Ending(AfterFinalize(p, Resolve(rows, SID, s.now, CanFinalize(s.rows, SID, p, s.now)))), rows)
    case RevokeRead(e, reason, own) =>
      if i.storageFails then (Ending(Indeterminate(Persistence)), s.rows) else
      (match LookupAt(s.rows, SID, s.now)
       case Live(c) => if Moved(c, e) then UseCurrentWithoutRefresh(c) else RevokeWrite(e, reason, own)
       case Inactive => Ending(Rejected(LocalInactive))
       case Corrupt => Ending(Indeterminate(Persistence)), s.rows)
    case RevokeWrite(e, reason, own) =>
      if i.storageFails then (Ending(Indeterminate(Persistence)), s.rows)
      else if Matches(s.rows, SID, e, s.now) then (Ending(Rejected(reason)), ConditionalRevoke(s.rows, SID, e, s.now))
      else (RevokeReread(e, own), s.rows)
    case RevokeReread(e, own) =>
      if i.storageFails then (Ending(Indeterminate(Persistence)), s.rows) else
      (match LookupAt(s.rows, SID, s.now)
       case Live(c) => if Moved(c, e) then UseCurrentWithoutRefresh(c) else Ending(Indeterminate(Persistence))
       case Inactive => Ending(Rejected(LocalInactive))
       case Corrupt => Ending(Indeterminate(Persistence)), s.rows)
    case Ending(_) => (t, s.rows)
  }

  function Resolved(tries: nat, o: Outcome): Req {
    match o
    case ReadyAt(_) => Start(tries + 1)
    case Rejected(_) => Done(Unauthenticated)
    case Temporary(_) => Done(Unavailable)
    case Indeterminate(_) => Done(Unavailable)
  }

  function VersionsIn(rows: Rows): set<Version> { set id | id in rows :: rows[id].Observed() }

  /** Replaces one request's state and the table. */
  function Put(s: Sys, r: nat, q: Req, rows: Rows): Sys {
    s.(reqs := s.reqs[r := q], rows := rows, reached := s.reached + VersionsIn(rows))
  }

  /** The row is there before and after, and only after is it revoked. */
  predicate NewlyRevoked(rows: Rows, rows': Rows) {
    SID in rows && SID in rows' && rows[SID].revokedAt.None? && rows'[SID].revokedAt.Some?
  }

  function Lead(s: Sys, r: nat, q: Req, i: Input): Sys
    requires q.Leading? && q.flight in s.book.flights
  {
    if q.task.Ending? then
      var (b, shared) := Complete(s.book, SID, q.flight, q.task.outcome);
      Put(s, r, Resolved(q.tries, shared), s.rows).(book := b, leader := None)
    else if i.panics then Put(s, r, q.(task := Ending(Indeterminate(LeaderAborted))), s.rows)
    else
      var (t, rows) := LeaderStep(s, q.task, i);
      var b := if t.Persisting? then AddAlias(s.book, q.flight, Version(t.s.generation + 1, Pending)) else s.book;
      Put(s, r, q.(task := t), rows).(book := b, revokers := if NewlyRevoked(s.rows, rows) then s.revokers + {q.flight} else s.revokers)
  }

  function AskFlight(s: Sys, r: nat, q: Req): Sys
    requires q.Looked?
  {
    var (b, got) := Acquire(s.book, SID, q.s.Observed());
    match got
    case Leader(f) => Put(s, r, Leading(q.tries, f, Begin(q.s)), s.rows).(book := b, leader := Some(r))
    case Joined(f) => Put(s, r, Waiting(q.tries, f, true), s.rows).(book := b)
    case WaitForClose(f) => Put(s, r, Waiting(q.tries, f, false), s.rows).(book := b)
  }

  function Look(s: Sys, tries: nat, i: Input): Req {
    if tries >= MAX_TRIES || i.storageFails then Done(Unavailable) else
    match LookupAt(s.rows, SID, s.now)
    case Live(row) => Looked(tries, row, s.now)
    case Inactive => Done(Unauthenticated)
    case Corrupt => Done(Unavailable)
  }

  function Touch(s: Sys, r: nat, q: Req, i: Input): Sys
    requires q.Touching?
  {
    if i.storageFails then Put(s, r, Done(Unavailable), s.rows) else
    var rows := TouchReady(s.rows, SID, q.s, s.cfg.ttl, s.cfg.interval, s.now);
    Put(s, r,
        if i.readBackFails && rows != s.rows then Done(Unavailable) else
        match TouchResult(s.rows, SID, q.s, s.cfg.ttl, s.cfg.interval, s.now)
        case NotDue(row) => Done(Allow(row.userId))
        case Advanced(row) => Done(Allow(row.userId))
        case Lost => Start(q.tries + 1)
        case TouchFailed => Done(Unavailable),
        rows)
  }

  function Act(s: Sys, r: nat, i: Input): Sys
    requires r in s.reqs && FlightsKnown(s)
  {
    var q := s.reqs[r];
    match q
    case Start(tries) => Put(s, r, Look(s, tries, i), s.rows)
    case Looked(tries, row, readAt) =>
      if row.state == Pending || NeedsRefresh(s, row) then AskFlight(s, r, q)
      else if row.userId !in s.cfg.allowed then Put(s, r, Done(Forbidden), s.rows)
      else Put(s, r, Touching(tries, row, readAt, s.now), s.rows)
    case Waiting(tries, f, joined) =>
      var o := s.book.flights[f].outcome;
      if o.None? then s else Put(s, r, if joined then Resolved(tries, o.value) else Start(tries + 1), s.rows)
    case Leading(_, _, _) => Lead(s, r, q, i)
    case Touching(_, _, _, _) => Touch(s, r, q, i)
    case Done(_) => s
  }

  predicate FlightsKnown(s: Sys) {
    forall r :: r in s.reqs && (s.reqs[r].Waiting? || s.reqs[r].Leading?) ==> s.reqs[r].flight in s.book.flights
  }

  datatype Event = Arrive(r: nat) | Step(r: nat, input: Input) | Tick(to: Time) | LogOut | PruneOld

  function Next(s: Sys, e: Event): Sys
    requires FlightsKnown(s)
  {
    match e
    case Arrive(r) => if r in s.reqs then s else s.(reqs := s.reqs[r := Start(0)])
    case Step(r, i) => if r in s.reqs then Act(s, r, i) else s
    case Tick(to) => if to < s.now then s else s.(now := to)
    case LogOut => s.(rows := RevokeSession(s.rows, SID, s.now))
    case PruneOld => s.(rows := Prune(s.rows, s.now))
  }

  /** Just after the login callback created the row. */
  function Fresh(cfg: Config, born: Row, now: Time): Sys {
    Sys(cfg, born, map[SID := born], Book(map[], map[], 0), map[], now, {born.Observed()}, None, {})
  }
}
