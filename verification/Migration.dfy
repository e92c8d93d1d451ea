/** Bringing a version 1 table, or rows an old binary wrote later, to the
    version 2 columns. */
module Migration {
  import opened Bytes
  import opened Sessions

  const SCHEMA_VERSION := 2
  const LEGACY_ABSOLUTE_TTL := 30 * 24 * 60 * 60 * SECOND

  datatype V2 = V2(idle: Time, absolute: Time, lastTouched: Time, state: IdentityState, pendingSince: Option<Time>)

  /** A table row; `v2` is None while the five new columns are NULL, and
      `parses` tells that its two old times are readable text. */
  datatype Columns = Columns(
    parses: bool,
    authSession: string, accessToken: string, refreshToken: string, userId: string, email: Option<string>,
    amr: seq<string>, accessExpires: Time, sessionExpires: Time, revokedAt: Option<Time>, generation: nat,
    created: Time, v2: Option<V2>)

  function Read(c: Columns): Row
    requires c.v2.Some?
  {
    Row(c.authSession, c.accessToken, c.refreshToken, c.userId, c.email, c.amr, c.accessExpires, c.sessionExpires,
        c.v2.value.idle, c.v2.value.absolute, c.v2.value.lastTouched, c.v2.value.state, c.v2.value.pendingSince,
        c.generation, c.revokedAt)
  }

  /** What the old binary took for a live session. */
  predicate LegacyActive(c: Columns, now: Time) { c.revokedAt.None? && now < c.sessionExpires }

  /** The row after backfill; None when a time does not parse or the deadline
      leaves the time range. */
  function Backfilled(c: Columns, limit: Time): Option<Columns> {
    if !c.parses || c.created + LEGACY_ABSOLUTE_TTL > limit then None else
    var absolute := MinTime(c.sessionExpires, c.created + LEGACY_ABSOLUTE_TTL);
    var idle := MinTime(c.sessionExpires, absolute);
    Some(c.(sessionExpires := Stored(idle), v2 := Some(V2(Stored(idle), Stored(absolute), Stored(c.created), Ready, None))))
  }

  type Table = map<string, Columns>

  class LegacyTable {
    var rows: Table
    const limit: Time

    constructor (rows: Table, limit: Time)
      ensures this.rows == rows && this.limit == limit
    {
      this.rows := rows;
      this.limit := limit;
    }

    /** The whole migration in one transaction: a time that does not parse
        or an overflow rolls back, and a newer schema is refused. */
    method Migrate(version: nat, order: seq<string>) returns (ok: bool)
      requires forall id :: id in order <==> id in rows
      modifies this
      ensures ok == MigrationFits(old(rows), version, limit)
      ensures rows == if ok then Migrated(old(rows), version, limit) else old(rows)
    {
      if version > SCHEMA_VERSION { return false; }
      var before := rows;
      ok := true;
      if version < 2 { ok := Fill(order, false); }
      if ok { ok := Fill(order, true); }
      if !ok { rows := before; }
    }

    /** Rewrites the listed rows one by one, all of them or only those whose
        new columns are NULL. */
    method Fill(order: seq<string>, onlyNull: bool) returns (ok: bool)
      requires forall id :: id in order <==> id in rows
      modifies this
      ensures ok == FillFits(old(rows), onlyNull, limit)
      ensures ok ==> rows == Filled(old(rows), onlyNull, limit)
    {
      var selected := rows;
      for i := 0 to |order|
        invariant rows.Keys == selected.Keys
        invariant forall id :: id in selected ==>
          if id in order[..i] && Selected(selected[id], onlyNull)
          then Backfilled(selected[id], limit) == Some(rows[id])
          else rows[id] == selected[id]
      {
        var id := order[i];
        assert order[..i + 1] == order[..i] + [id];
        if Selected(selected[id], onlyNull) {
          var next := Backfilled(selected[id], limit);
          if next.None? { return false; }
          rows := rows[id := next.value];
        }
      }
      assert order[..|order|] == order;
      ok := true;
    }
  }

  predicate Selected(c: Columns, onlyNull: bool) { onlyNull ==> c.v2.None? }

  predicate FillFits(rows: Table, onlyNull: bool, limit: Time) {
    forall id :: id in rows && Selected(rows[id], onlyNull) ==> Backfilled(rows[id], limit).Some?
  }

  function Filled(rows: Table, onlyNull: bool, limit: Time): Table
    requires FillFits(rows, onlyNull, limit)
  {
    map id | id in rows :: if Selected(rows[id], onlyNull) then Backfilled(rows[id], limit).value else rows[id]
  }

  /** Before version 2 every row is rewritten; then only the NULL ones are. */
  predicate MigrationFits(rows: Table, version: nat, limit: Time) {
    version <= SCHEMA_VERSION && FillFits(rows, version >= 2, limit)
  }

  function Migrated(rows: Table, version: nat, limit: Time): Table
    requires MigrationFits(rows, version, limit)
  {
    Filled(rows, version >= 2, limit)
  }

  /** Main result: after a migration every row can be read and is valid, no
      deadline reaches past the legacy one or thirty days after creation, and
      no session is alive that the old binary would have refused. */
  lemma MigrationIsSafe(rows: Table, version: nat, limit: Time, id: string)
    requires MigrationFits(rows, version, limit) && id in rows
    requires version >= 2 && rows[id].v2.Some? ==> Read(rows[id]).Valid()
    ensures var c, c' := rows[id], Migrated(rows, version, limit)[id];
            && c'.v2.Some? && Read(c').Valid() && Read(c').Observed().generation == c.generation
            && (version < 2 || c.v2.None? ==>
                  && c'.v2.value.idle <= c.sessionExpires && c'.v2.value.absolute <= c.sessionExpires
                  && c'.v2.value.absolute <= c.created + 2_592_000 * SECOND
                  && forall now :: Read(c').Active(now) ==> LegacyActive(c, now))
            && (version >= 2 && c.v2.Some? ==> c' == c)
  {
    var c := rows[id];
    if version < 2 || c.v2.None? {
      var absolute := MinTime(c.sessionExpires, c.created + LEGACY_ABSOLUTE_TTL);
      StoredMonotone(MinTime(c.sessionExpires, absolute), absolute);
    }
  }

  /** A session that the migration rewrites is alive afterwards exactly as long
      as it was alive before and is within thirty days of its creation, each
      deadline cut to the millisecond; everything else about it is kept. */
  lemma MigrationKeepsAlive(rows: Table, version: nat, limit: Time, id: string, now: Time)
    requires MigrationFits(rows, version, limit) && id in rows && (version < 2 || rows[id].v2.None?)
    ensures var c, c' := rows[id], Migrated(rows, version, limit)[id];
            && c'.v2.Some?
            && (Read(c').Active(now) <==> c.revokedAt.None? && now < Stored(c.sessionExpires) && now < Stored(c.created + 2_592_000 * SECOND))
            && c' == c.(v2 := c'.v2, sessionExpires := c'.sessionExpires) && Read(c').state == Ready && Read(c').lastTouched == Stored(c.created)
  {
    var c := rows[id];
    var end := c.created + LEGACY_ABSOLUTE_TTL;
    if c.sessionExpires <= end { StoredMonotone(c.sessionExpires, end); } else { StoredMonotone(end, c.sessionExpires); }
  }

  /** Running it again changes nothing. */
  lemma MigrationIsIdempotent(rows: Table, version: nat, limit: Time)
    requires MigrationFits(rows, version, limit)
    ensures var once := Migrated(rows, version, limit);
            MigrationFits(once, 2, limit) && Migrated(once, 2, limit) == once
  {
  }

  /** The table as the gateway opens it. */
  function Opened(rows: Table): Db
    requires forall id :: id in rows ==> rows[id].v2.Some?
  {
    var read := map id | id in rows :: Read(rows[id]);
    Db(read, read.Keys, set id | id in read :: (id, read[id]))
  }

  /** The run theorems of the session table start from any migrated table. */
  lemma MigratedTableStarts(rows: Table, version: nat, limit: Time)
    requires MigrationFits(rows, version, limit)
    requires forall id :: id in rows && version >= 2 && rows[id].v2.Some? ==> Read(rows[id]).Valid()
    ensures var t := Migrated(rows, version, limit); (forall id :: id in t ==> t[id].v2.Some?) && DbInv(Opened(t))
  {
    var t := Migrated(rows, version, limit);
    forall id | id in t ensures t[id].v2.Some? && Read(t[id]).Valid() && Evolves(Read(t[id]), Read(t[id])) {
      MigrationIsSafe(rows, version, limit, id);
      EvolvesSelf(Read(t[id]));
    }
  }
}
