/** The session table: what each guarded SQL statement does to it. Times are
    nanoseconds since the Unix epoch; the table keeps whole milliseconds. */
module Sessions {
  import opened Bytes

  type Time = int

  const MILLI := 1_000_000
  const SECOND := 1_000_000_000

  /** `format_time` followed by `parse_time`: drop what is below a millisecond. */
  function Stored(t: Time): (r: Time)
    ensures r <= t < r + MILLI && Aligned(r)
  {
    t - t % MILLI
  }

  predicate Aligned(t: Time) { t % MILLI == 0 }

  /** The text written as the compatibility deadline of a pending row. */
  const COMPAT_DENY_AT: Time := 0

  datatype IdentityState = Ready | Pending

  datatype Version = Version(generation: int, state: IdentityState)

  datatype Row = Row(
    authSession: string,
    accessToken: string,
    refreshToken: string,
    userId: string,
    email: Option<string>,
    amr: seq<string>,
    accessExpires: Time,
    sessionExpires: Time,
    idle: Time,
    absolute: Time,
    lastTouched: Time,
    state: IdentityState,
    pendingSince: Option<Time>,
    generation: int,
    revokedAt: Option<Time>)
  {
    function Observed(): Version { Version(generation, state) }

    /** The order in which a row moves through its versions. */
    function Rank(): int { 2 * generation + if state == Ready then 1 else 0 }

    /** `validate_session_invariants`, which every read applies. */
    predicate Consistent() {
      && idle <= absolute && generation >= 0
      && match state
         case Ready => pendingSince.None? && sessionExpires == idle
         case Pending => pendingSince.Some? && Stored(sessionExpires) == COMPAT_DENY_AT
    }

    /** `is_active`, at full precision. */
    predicate Active(now: Time) { revokedAt.None? && now < idle && now < absolute }

    /** The deadline conjuncts of the SQL guards, on stored text. */
    predicate Guarded(now: Time) { revokedAt.None? && idle > Stored(now) && absolute > Stored(now) }

    predicate OnTheMilli() { Aligned(idle) && Aligned(absolute) }

    predicate Valid() { Consistent() && OnTheMilli() }
  }

  /** The compare-and-set guards and the reads never disagree on expiry. */
  lemma GuardAgreesWithActive(r: Row, now: Time)
    requires r.OnTheMilli()
    ensures r.Guarded(now) <==> r.Active(now)
  {
    AlignedAbove(r.idle, now);
    AlignedAbove(r.absolute, now);
  }

  lemma AlignedAbove(d: Time, now: Time)
    requires Aligned(d)
    ensures d > Stored(now) <==> d > now
  {
    assert d == MILLI * (d / MILLI) && Stored(now) == MILLI * (now / MILLI);
  }

  datatype Lookup = Live(row: Row) | Inactive | Corrupt

  datatype Cas = Updated(row: Row) | Current(row: Row) | Gone | Unreadable

  datatype Touched = NotDue(row: Row) | Advanced(row: Row) | Lost | TouchFailed

  datatype Tokens = Tokens(accessToken: string, refreshToken: string, userId: string, amr: seq<string>, accessExpires: Time)

  datatype NewSession = NewSession(
    authSession: string, accessToken: string, refreshToken: string, userId: string, email: Option<string>,
    amr: seq<string>, accessExpires: Time, idleTtl: int, absoluteTtl: int)

  type Rows = map<string, Row>

  function LookupAt(rows: Rows, id: string, now: Time): Lookup {
    if id !in rows then Inactive
    else if !rows[id].Consistent() then Corrupt
    else if rows[id].Active(now) then Live(rows[id]) else Inactive
  }

  function MinTime(a: Time, b: Time): Time { if a <= b then a else b }

  function NewRow(input: NewSession, now: Time): Row {
    var absolute := now + input.absoluteTtl * SECOND;
    var idle := Stored(MinTime(now + input.idleTtl * SECOND, absolute));
    Row(input.authSession, input.accessToken, input.refreshToken, input.userId, input.email, input.amr,
        Stored(input.accessExpires), idle, idle, Stored(absolute), Stored(now), Ready, None, 0, None)
  }

  /** The row a caller's snapshot still describes, if the guards let it through. */
  predicate Matches(rows: Rows, id: string, expected: Row, now: Time) {
    && id in rows && rows[id].generation == expected.generation && rows[id].refreshToken == expected.refreshToken
    && rows[id].state == expected.state && rows[id].Guarded(now)
  }

  function RevokeSession(rows: Rows, id: string, now: Time): Rows {
    if id in rows && rows[id].revokedAt.None? then rows[id := rows[id].(revokedAt := Some(Stored(now)))] else rows
  }

  function ConditionalRevoke(rows: Rows, id: string, expected: Row, now: Time): Rows {
    if Matches(rows, id, expected, now) then rows[id := rows[id].(revokedAt := Some(Stored(now)))] else rows
  }

  function Rotated(r: Row, next: Tokens, now: Time): Row {
    r.(accessToken := next.accessToken, refreshToken := next.refreshToken, userId := next.userId, amr := next.amr,
       accessExpires := Stored(next.accessExpires), generation := r.generation + 1, state := Pending,
       pendingSince := Some(Stored(now)), sessionExpires := COMPAT_DENY_AT)
  }

  function PersistPending(rows: Rows, id: string, original: Row, next: Tokens, now: Time): Rows {
    if Matches(rows, id, original, now) then rows[id := Rotated(rows[id], next, now)] else rows
  }

  predicate CanFinalize(rows: Rows, id: string, pending: Row, now: Time) {
    && id in rows && rows[id].generation == pending.generation && rows[id].state == Pending
    && rows[id].userId == pending.userId && rows[id].Guarded(now)
  }

  function Finalized(r: Row, email: Option<string>): Row {
    r.(email := email, state := Ready, pendingSince := None, sessionExpires := r.idle)
  }

  function FinalizePending(rows: Rows, id: string, pending: Row, email: Option<string>, now: Time): Rows {
    if CanFinalize(rows, id, pending, now) then rows[id := Finalized(rows[id], email)] else rows
  }

  /** The new idle deadline a touch would write, when one is due. */
  function TouchCandidate(original: Row, ttl: int, interval: int, now: Time): Option<Time> {
    var candidate := MinTime(now + ttl * SECOND, original.absolute);
    if now - original.lastTouched < interval * SECOND || candidate <= original.idle then None else Some(candidate)
  }

  predicate CanTouch(rows: Rows, id: string, original: Row, now: Time) {
    && id in rows && rows[id].generation == original.generation && rows[id].state == Ready
    && rows[id].idle == Stored(original.idle) && rows[id].Guarded(now)
  }

  function TouchReady(rows: Rows, id: string, original: Row, ttl: int, interval: int, now: Time): Rows {
    var due := TouchCandidate(original, ttl, interval, now);
    if original.state == Ready && original.Active(now) && due.Some? && CanTouch(rows, id, original, now)
    then rows[id := rows[id].(idle := Stored(due.value), sessionExpires := Stored(due.value), lastTouched := Stored(now))]
    else rows
  }

  function Prune(rows: Rows, now: Time): Rows {
    map id | id in rows && rows[id].Guarded(now) :: rows[id]
  }

  /** The table behind the gateway. Each method is one statement, run at the
      clock sample `now` that the source takes before it. */
  class Store {
    var rows: Rows

    constructor ()
      ensures rows == map[]
    {
      rows := map[];
    }

    method LookupSession(id: string, now: Time) returns (r: Lookup)
      ensures r == LookupAt(rows, id, now)
    {
      if id !in rows { return Inactive; }
      if !rows[id].Consistent() { return Corrupt; }
      r := if rows[id].Active(now) then Live(rows[id]) else Inactive;
    }

    /** Prunes first. The random id is fresh; the caller gets the row it has
        just written. */
    method CreateSession(id: string, input: NewSession, prunedAt: Time, now: Time) returns (r: Lookup)
      requires id !in rows
      modifies this
      ensures rows == Prune(old(rows), prunedAt)[id := NewRow(input, now)] && r == LookupAt(rows, id, now)
      ensures input.absoluteTtl > 0 && input.idleTtl > 0 ==> r == Live(NewRow(input, now))
    {
      PruneExpired(prunedAt);
      var absolute := now + input.absoluteTtl * SECOND;
      var idle := Stored(MinTime(now + input.idleTtl * SECOND, absolute));
      rows := rows[id := Row(input.authSession, input.accessToken, input.refreshToken, input.userId, input.email, input.amr,
                             Stored(input.accessExpires), idle, idle, Stored(absolute), Stored(now), Ready, None, 0, None)];
      NewRowIsValid(input, now);
      r := LookupSession(id, now);
    }

    method Revoke(id: string, now: Time) returns (changed: bool)
      modifies this
      ensures rows == RevokeSession(old(rows), id, now) && changed == (rows != old(rows))
    {
      changed := id in rows && rows[id].revokedAt.None?;
      if changed { rows := rows[id := rows[id].(revokedAt := Some(Stored(now)))]; }
      assert changed ==> rows[id] != old(rows)[id];
    }

    method RevokeIfUnchanged(id: string, expected: Row, now: Time) returns (changed: bool)
      modifies this
      ensures rows == ConditionalRevoke(old(rows), id, expected, now) && changed == Matches(old(rows), id, expected, now)
    {
      changed := Matches(rows, id, expected, now);
      if changed { rows := rows[id := rows[id].(revokedAt := Some(Stored(now)))]; }
    }

    method Persist(id: string, original: Row, next: Tokens, now: Time) returns (r: Cas)
      modifies this
      ensures rows == PersistPending(old(rows), id, original, next, now)
      ensures r == Resolve(rows, id, now, Matches(old(rows), id, original, now))
    {
      var changed := Matches(rows, id, original, now);
      if changed { rows := rows[id := Rotated(rows[id], next, now)]; }
      r := ResolveCas(id, now, changed);
    }

    method Finalize(id: string, pending: Row, email: Option<string>, now: Time) returns (r: Cas)
      modifies this
      ensures rows == FinalizePending(old(rows), id, pending, email, now)
      ensures r == Resolve(rows, id, now, CanFinalize(old(rows), id, pending, now))
    {
      var changed := CanFinalize(rows, id, pending, now);
      if changed { rows := rows[id := Finalized(rows[id], email)]; }
      r := ResolveCas(id, now, changed);
    }

    method ResolveCas(id: string, now: Time, changed: bool) returns (r: Cas)
      ensures r == Resolve(rows, id, now, changed)
    {
      var looked := LookupSession(id, now);
      match looked {
        case Live(row) => r := if changed then Updated(row) else Current(row);
        case Inactive => r := Gone;
        case Corrupt => r := Unreadable;
      }
    }

    method Touch(id: string, original: Row, ttl: int, interval: int, now: Time) returns (r: Touched)
      modifies this
      ensures rows == TouchReady(old(rows), id, original, ttl, interval, now)
      ensures r == TouchResult(old(rows), id, original, ttl, interval, now)
    {
      if original.state != Ready || !original.Active(now) { return Lost; }
      if now - original.lastTouched < interval * SECOND { return NotDue(original); }
      var candidate := MinTime(now + ttl * SECOND, original.absolute);
      if candidate <= original.idle { return NotDue(original); }
      if !CanTouch(rows, id, original, now) { return Lost; }
      rows := rows[id := rows[id].(idle := Stored(candidate), sessionExpires := Stored(candidate), lastTouched := Stored(now))];
      var looked := LookupSession(id, now);
      match looked {
        case Live(row) => r := Advanced(row);
        case Inactive => r := Lost;
        case Corrupt => r := TouchFailed;
      }
    }

    method PruneExpired(now: Time)
      modifies this
      ensures rows == Prune(old(rows), now)
    {
      rows := map id | id in rows && !(rows[id].revokedAt.Some? || rows[id].idle <= Stored(now) || rows[id].absolute <= Stored(now)) :: rows[id];
    }
  }

  function Resolve(rows: Rows, id: string, now: Time, changed: bool): Cas {
    match LookupAt(rows, id, now)
    case Live(row) => if changed then Updated(row) else Current(row)
    case Inactive => Gone
    case Corrupt => Unreadable
  }

  function TouchResult(rows: Rows, id: string, original: Row, ttl: int, interval: int, now: Time): Touched {
    if original.state != Ready || !original.Active(now) then Lost
    else if TouchCandidate(original, ttl, interval, now).None? then NotDue(original)
    else if !CanTouch(rows, id, original, now) then Lost
    else match LookupAt(TouchReady(rows, id, original, ttl, interval, now), id, now)
         case Live(row) => Advanced(row)
         case Inactive => Lost
         case Corrupt => TouchFailed
  }

  lemma NewRowIsValid(input: NewSession, now: Time)
    ensures NewRow(input, now).Valid()
    ensures input.absoluteTtl > 0 && input.idleTtl > 0 ==> NewRow(input, now).Active(now)
  {
    var absolute := now + input.absoluteTtl * SECOND;
    StoredMonotone(MinTime(now + input.idleTtl * SECOND, absolute), absolute);
    if input.absoluteTtl > 0 && input.idleTtl > 0 {
      assert now + MILLI <= MinTime(now + input.idleTtl * SECOND, absolute);
    }
  }

  lemma StoredMonotone(a: Time, b: Time)
    requires a <= b
    ensures Stored(a) <= Stored(b)
  {
    assert a / MILLI <= b / MILLI && Stored(a) == MILLI * (a / MILLI) && Stored(b) == MILLI * (b / MILLI);
  }

  // ----- every interleaving of statements -----

  datatype Statement =
    | Create(id: string, input: NewSession)
    | Logout(id: string)
    | RevokeUnchanged(id: string, expected: Row)
    | PersistTokens(id: string, expected: Row, next: Tokens)
    | FinalizeIdentity(id: string, expected: Row, email: Option<string>)
    | TouchIdle(id: string, expected: Row, ttl: int, interval: int)
    | PruneAll

  /** The table, every session id ever handed out, and every (id, row) pair a
      read could have returned so far. */
  datatype Db = Db(rows: Rows, used: set<string>, shown: set<(string, Row)>)

  const EMPTY := Db(map[], {}, {})

  /** A caller only holds a row some read returned, and only rotates tokens
      for the user that row belongs to. */
  predicate Admissible(db: Db, op: Statement) {
    match op
    case Create(id, _) => id !in db.used
    case RevokeUnchanged(id, expected) => (id, expected) in db.shown
    case PersistTokens(id, expected, next) => (id, expected) in db.shown && next.userId == expected.userId
    case FinalizeIdentity(id, expected, _) => (id, expected) in db.shown
    case TouchIdle(id, expected, _, _) => (id, expected) in db.shown
    case _ => true
  }

  function RowsAfter(rows: Rows, op: Statement, now: Time): Rows {
    match op
    case Create(id, input) => rows[id := NewRow(input, now)]
    case Logout(id) => RevokeSession(rows, id, now)
    case RevokeUnchanged(id, expected) => ConditionalRevoke(rows, id, expected, now)
    case PersistTokens(id, expected, next) => PersistPending(rows, id, expected, next, now)
    case FinalizeIdentity(id, expected, email) => FinalizePending(rows, id, expected, email, now)
    case TouchIdle(id, expected, ttl, interval) => TouchReady(rows, id, expected, ttl, interval, now)
    case PruneAll => Prune(rows, now)
  }

  function Apply(db: Db, op: Statement, now: Time): Db {
    if !Admissible(db, op) then db else
    var rows := RowsAfter(db.rows, op, now);
    Db(rows, if op.Create? then db.used + {op.id} else db.used, db.shown + set id | id in rows :: (id, rows[id]))
  }

  /** How a row may change over any stretch of a run: deadlines, owner,
      version order, tokens bound to their generation, revocation final. */
  predicate Evolves(r: Row, r': Row) {
    && r'.absolute == r.absolute && r'.authSession == r.authSession && r'.userId == r.userId
    && r.idle <= r'.idle
    && r.Rank() <= r'.Rank() && r.generation <= r'.generation
    && (r'.generation == r.generation ==> r'.refreshToken == r.refreshToken && r'.accessToken == r.accessToken)
    && (r.revokedAt.Some? ==> r' == r)
  }

  /** A row that is not active at `now` keeps the reason for it. */
  predicate Frozen(r: Row, r': Row, now: Time) {
    !r.Active(now) ==> r'.revokedAt.Some? || (r'.idle == r.idle && r'.absolute == r.absolute)
  }

  ghost predicate DbInv(db: Db) {
    && (forall id :: id in db.rows ==> id in db.used && db.rows[id].Valid() && (id, db.rows[id]) in db.shown)
    && (forall id, r :: (id, r) in db.shown ==> id in db.used && r.Valid() && (id in db.rows ==> Evolves(r, db.rows[id])))
  }

  /** One row before and after a statement that leaves it in the table. */
  lemma StatementStep(db: Db, op: Statement, now: Time, id: string)
    requires DbInv(db) && Admissible(db, op) && id in db.rows && id in RowsAfter(db.rows, op, now)
    ensures var r, r' := db.rows[id], RowsAfter(db.rows, op, now)[id];
            r'.Valid() && Evolves(r, r') && Frozen(r, r', now)
  {
    var r := db.rows[id];
    GuardAgreesWithActive(r, now);
    if op.TouchIdle? && op.id == id { TouchStep(r, op.expected, op.ttl, op.interval, now); }
  }

  lemma TouchStep(r: Row, original: Row, ttl: int, interval: int, now: Time)
    requires r.Valid() && original.Valid() && Evolves(original, r)
    ensures var due := TouchCandidate(original, ttl, interval, now);
            due.Some? && r.idle == Stored(original.idle) ==> Aligned(Stored(due.value)) && r.idle <= Stored(due.value) <= r.absolute
  {
    var due := TouchCandidate(original, ttl, interval, now);
    if due.Some? {
      StoredMonotone(original.idle, due.value);
      StoredMonotone(due.value, original.absolute);
      StoredFixes(original.absolute);
    }
  }

  lemma StoredFixes(t: Time)
    requires Aligned(t)
    ensures Stored(t) == t
  {
  }

  lemma EvolvesTransitive(a: Row, b: Row, c: Row)
    requires Evolves(a, b) && Evolves(b, c)
    ensures Evolves(a, c)
  {
  }

  lemma KeysAfter(rows: Rows, op: Statement, now: Time)
    ensures forall id :: id in RowsAfter(rows, op, now) ==> id in rows || (op.Create? && id == op.id)
  {
  }

  lemma EvolvesSelf(r: Row)
    ensures Evolves(r, r)
  {
  }

  /** Every row a statement leaves or makes is valid and has evolved. */
  lemma RowsKeep(db: Db, op: Statement, now: Time, id: string)
    requires DbInv(db) && Admissible(db, op) && id in RowsAfter(db.rows, op, now)
    ensures var r := RowsAfter(db.rows, op, now)[id];
            r.Valid() && Evolves(r, r) && (id in db.rows ==> Evolves(db.rows[id], r))
  {
    KeysAfter(db.rows, op, now);
    if id in db.rows { StatementStep(db, op, now, id); } else { NewRowIsValid(op.input, now); }
    EvolvesSelf(RowsAfter(db.rows, op, now)[id]);
  }

  lemma ApplyKeeps(db: Db, op: Statement, now: Time)
    requires DbInv(db)
    ensures DbInv(Apply(db, op, now))
  {
    hide Evolves, RowsAfter;
    if Admissible(db, op) {
      var rows := RowsAfter(db.rows, op, now);
      KeysAfter(db.rows, op, now);
      forall id | id in rows ensures rows[id].Valid() && Evolves(rows[id], rows[id]) && (id in db.rows ==> Evolves(db.rows[id], rows[id])) {
        RowsKeep(db, op, now, id);
      }
      ShownKeeps(db, op, rows);
    }
  }

  lemma ShownKeeps(db: Db, op: Statement, rows: Rows)
    requires DbInv(db) && Admissible(db, op)
    requires forall id :: id in rows ==> id in db.rows || (op.Create? && id == op.id)
    requires forall id :: id in rows ==> rows[id].Valid() && (id in db.rows ==> Evolves(db.rows[id], rows[id]))
    ensures forall id, r :: (id, r) in db.shown && id in rows ==> Evolves(r, rows[id])
  {
    forall id, r | (id, r) in db.shown && id in rows ensures Evolves(r, rows[id]) {
      EvolvesTransitive(r, db.rows[id], rows[id]);
    }
  }

  datatype Stamped = Stamped(op: Statement, at: Time)

  /** The clock is monotone. */
  predicate InOrder(steps: seq<Stamped>, from: Time) {
    steps == [] || (from <= steps[0].at && InOrder(steps[1..], steps[0].at))
  }

  function LastTime(steps: seq<Stamped>, from: Time): Time {
    if steps == [] then from else LastTime(steps[1..], steps[0].at)
  }

  function Execute(db: Db, steps: seq<Stamped>): Db
    decreases |steps|
  {
    if steps == [] then db else Execute(Apply(db, steps[0].op, steps[0].at), steps[1..])
  }

  /** Main result: over every interleaving of statements, every row stays
      consistent and has evolved from every earlier sight of it. */
  lemma {:induction false} EveryRunKeepsRows(db: Db, steps: seq<Stamped>)
    requires DbInv(db)
    ensures DbInv(Execute(db, steps))
    ensures forall id :: id in db.rows && id in Execute(db, steps).rows ==> Evolves(db.rows[id], Execute(db, steps).rows[id])
    ensures db.shown <= Execute(db, steps).shown
    decreases |steps|
  {
    hide Apply, Evolves;
    if steps == [] {
      forall id | id in db.rows ensures Evolves(db.rows[id], db.rows[id]) { EvolvesSelf(db.rows[id]); }
    } else {
      ApplyKeeps(db, steps[0].op, steps[0].at);
      ShownGrows(db, steps[0].op, steps[0].at);
      EveryRunKeepsRows(Apply(db, steps[0].op, steps[0].at), steps[1..]);
    }
  }

  lemma ShownGrows(db: Db, op: Statement, now: Time)
    ensures db.shown <= Apply(db, op, now).shown && db.used <= Apply(db, op, now).used
  {
  }

  /** So it is from the empty table on. */
  lemma EveryRunFromEmpty(steps: seq<Stamped>)
    ensures DbInv(EMPTY) && DbInv(Execute(EMPTY, steps))
    ensures forall id :: id in Execute(EMPTY, steps).rows ==> Execute(EMPTY, steps).rows[id].Valid()
  {
    EveryRunKeepsRows(EMPTY, steps);
  }

  /** Main result: a session that is revoked, expired or deleted at some time
      is never active again, whatever runs afterwards. */
  lemma {:induction false} DeadStaysDead(db: Db, steps: seq<Stamped>, id: string, from: Time)
    requires DbInv(db) && InOrder(steps, from) && id in db.used
    requires id in db.rows ==> !db.rows[id].Active(from)
    ensures var end := Execute(db, steps); id in end.rows ==> !end.rows[id].Active(LastTime(steps, from))
    decreases |steps|
  {
    hide Evolves;
    if steps != [] {
      var op, now := steps[0].op, steps[0].at;
      var db' := Apply(db, op, now);
      ApplyKeeps(db, op, now);
      if id in db.rows && id in db'.rows && Admissible(db, op) { StatementStep(db, op, now, id); }
      KeysAfter(db.rows, op, now);
      DeadStaysDead(db', steps[1..], id, now);
    }
  }
}
