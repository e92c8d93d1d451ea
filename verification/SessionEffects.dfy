/** What each statement on the session table does to a session, as its user
    and as an older binary on the same table see it. */
module SessionEffects {
  import opened Bytes
  import opened Sessions

  /** Every row of the table is valid. */
  ghost predicate Sound(rows: Rows) { forall id :: id in rows ==> rows[id].Valid() }

  /** The row is active and still has the version and the refresh token that
      the caller saw. */
  predicate Fresh(rows: Rows, id: string, seen: Row, now: Time) {
    && id in rows && rows[id].Active(now)
    && rows[id].generation == seen.generation && rows[id].state == seen.state && rows[id].refreshToken == seen.refreshToken
  }

  /** The guard of the compare-and-set statements says exactly that. */
  lemma MatchesMeans(rows: Rows, id: string, seen: Row, now: Time)
    requires Sound(rows)
    ensures Matches(rows, id, seen, now) <==> Fresh(rows, id, seen, now)
  {
    if id in rows { GuardAgreesWithActive(rows[id], now); }
  }

  /** A read returns the row if it is active and keeps the row's own rules, and
      reports a row that breaks them as such, neither as a session nor as none. */
  lemma LookupMeans(rows: Rows, id: string, now: Time)
    ensures match LookupAt(rows, id, now)
            case Live(r) => id in rows && r == rows[id] && r.Consistent() && r.Active(now)
            case Inactive => id !in rows || (rows[id].Consistent() && !rows[id].Active(now))
            case Corrupt => id in rows && !rows[id].Consistent()
  {
  }

  // ----- creation -----

  /** A new session carries what the login gave it, each in its place, is ready
      at generation zero, and lives for its idle time and never past its
      absolute time, both cut to the millisecond. */
  lemma CreationMeans(input: NewSession, now: Time)
    ensures var r := NewRow(input, now);
            && r.authSession == input.authSession && r.userId == input.userId && r.email == input.email && r.amr == input.amr
            && r.accessToken == input.accessToken && r.refreshToken == input.refreshToken
            && r.accessExpires == Stored(input.accessExpires)
            && r.state == Ready && r.generation == 0 && r.revokedAt.None? && r.pendingSince.None? && r.lastTouched == Stored(now)
    ensures var r, idle, absolute := NewRow(input, now), now + input.idleTtl * SECOND, now + input.absoluteTtl * SECOND;
            forall t :: r.Active(t) <==> t < Stored(idle) && t < Stored(absolute)
  {
    var idle, absolute := now + input.idleTtl * SECOND, now + input.absoluteTtl * SECOND;
    if idle <= absolute { StoredMonotone(idle, absolute); } else { StoredMonotone(absolute, idle); }
  }

  // ----- the end of a session -----

  /** After logout the session is not active at any time, and nothing else in
      the table has changed. */
  lemma LogoutEnds(rows: Rows, id: string, now: Time, at: Time)
    ensures var rows' := RevokeSession(rows, id, now);
            && rows'.Keys == rows.Keys && (id in rows ==> !rows'[id].Active(at))
            && (forall k :: k in rows && k != id ==> rows'[k] == rows[k])
            && (id in rows ==> rows'[id] == rows[id].(revokedAt := if rows[id].revokedAt.Some? then rows[id].revokedAt else Some(Stored(now))))
  {
    assert RevokeSession(rows, id, now).Keys == rows.Keys;
  }

  /** A revocation for a version ends the session if and only if it is active
      and still at that version; it changes nothing else. */
  lemma RevocationEnds(rows: Rows, id: string, seen: Row, now: Time)
    requires Sound(rows)
    ensures ConditionalRevoke(rows, id, seen, now) ==
      if Fresh(rows, id, seen, now) then rows[id := rows[id].(revokedAt := Some(Stored(now)))] else rows
  {
    MatchesMeans(rows, id, seen, now);
  }

  /** Pruning keeps exactly the active sessions, as they are. */
  lemma PruningKeepsActive(rows: Rows, now: Time, id: string)
    requires Sound(rows)
    ensures var rows' := Prune(rows, now); (id in rows' <==> id in rows && rows[id].Active(now)) && (id in rows' ==> rows'[id] == rows[id])
  {
    if id in rows { GuardAgreesWithActive(rows[id], now); }
  }

  // ----- rotation -----

  /** Rotation gives an active session that is still at the version the caller
      saw the new tokens, each in its place, and its next generation, pending;
      deadlines and owner stay. Otherwise the table is as before. */
  lemma RotationMeans(rows: Rows, id: string, seen: Row, next: Tokens, now: Time)
    requires Sound(rows)
    ensures var rows' := PersistPending(rows, id, seen, next, now);
            if Fresh(rows, id, seen, now) then
              var r, r' := rows[id], rows'[id];
              && rows' == rows[id := r']
              && r'.accessToken == next.accessToken && r'.refreshToken == next.refreshToken && r'.accessExpires == Stored(next.accessExpires)
              && r'.userId == next.userId && r'.amr == next.amr && r'.generation == r.generation + 1 && r'.state == Pending
              && r'.authSession == r.authSession && r'.email == r.email && r'.idle == r.idle && r'.absolute == r.absolute
              && r'.lastTouched == r.lastTouched && r'.revokedAt.None? && r'.pendingSince == Some(Stored(now))
            else rows' == rows
  {
    MatchesMeans(rows, id, seen, now);
  }

  /** Finalizing makes an active pending session of that generation and user
      ready again; tokens and deadlines stay. Otherwise the table is as before. */
  lemma FinalizingMeans(rows: Rows, id: string, seen: Row, email: Option<string>, now: Time)
    requires Sound(rows)
    ensures var rows' := FinalizePending(rows, id, seen, email, now);
            if id in rows && rows[id].Active(now) && rows[id].state == Pending && rows[id].generation == seen.generation && rows[id].userId == seen.userId
            then rows' == rows[id := rows[id].(email := email, state := Ready, pendingSince := None, sessionExpires := rows[id].idle)]
            else rows' == rows
  {
    if id in rows { GuardAgreesWithActive(rows[id], now); }
  }

  // ----- the idle deadline -----

  /** A touch is due when the interval has passed since the last one and the
      idle time from now on ends later than the present deadline. */
  predicate TouchDue(r: Row, ttl: int, interval: int, now: Time) {
    now >= r.lastTouched + interval * SECOND && now + ttl * SECOND > r.idle && r.absolute > r.idle
  }

  /** A touch of the present row of an active, ready session moves its deadline,
      when due, to the idle time from now on, but never past the absolute one;
      it always succeeds and changes nothing else. */
  lemma TouchMeans(rows: Rows, id: string, ttl: int, interval: int, now: Time)
    requires Sound(rows) && id in rows && rows[id].Active(now) && rows[id].state == Ready
    ensures var r := rows[id]; var rows', result := TouchReady(rows, id, r, ttl, interval, now), TouchResult(rows, id, r, ttl, interval, now);
            if TouchDue(r, ttl, interval, now) then
              var end := Stored(MinTime(now + ttl * SECOND, r.absolute));
              && rows' == rows[id := r.(idle := end, sessionExpires := end, lastTouched := Stored(now))] && result == Advanced(rows'[id])
              && r.idle <= end <= r.absolute && rows'[id].Valid() && rows'[id].Active(now)
            else rows' == rows && result == NotDue(r)
  {
    var r := rows[id];
    GuardAgreesWithActive(r, now);
    EvolvesSelf(r);
    TouchStep(r, r, ttl, interval, now);
    StoredFixes(r.idle);
  }

  /** A session that was touched is not touched again before the interval is
      over, whatever the idle time. */
  lemma TouchIsThrottled(rows: Rows, id: string, ttl: int, interval: int, now: Time, ttl': int, again: Time)
    requires Sound(rows) && id in rows && rows[id].Active(now) && rows[id].state == Ready && TouchDue(rows[id], ttl, interval, now)
    requires now <= again < Stored(now) + interval * SECOND
    ensures var rows' := TouchReady(rows, id, rows[id], ttl, interval, now);
            id in rows' && TouchReady(rows', id, rows'[id], ttl', interval, again) == rows'
  {
    TouchMeans(rows, id, ttl, interval, now);
  }

  /** A touch with an outdated sight of the row changes nothing: not one of an
      earlier version, and not one from before another touch. */
  lemma StaleTouchIsLost(rows: Rows, id: string, seen: Row, ttl: int, interval: int, now: Time)
    requires Sound(rows) && seen.Valid()
    requires id in rows && (rows[id].generation != seen.generation || rows[id].state != Ready || rows[id].idle != seen.idle || !rows[id].Active(now))
    ensures TouchReady(rows, id, seen, ttl, interval, now) == rows && !TouchResult(rows, id, seen, ttl, interval, now).Advanced?
  {
    GuardAgreesWithActive(rows[id], now);
    StoredFixes(seen.idle);
  }

  // ----- an older binary on the same table -----

  /** What the old binary takes for a live session. */
  predicate OldActive(r: Row, now: Time) { r.revokedAt.None? && now < r.sessionExpires }

  /** The old binary and the new one agree on every valid row, except that the
      old one refuses a row whose identity is still pending. */
  lemma OldBinaryAgrees(r: Row, now: Time)
    requires r.Valid() && now >= MILLI
    ensures OldActive(r, now) <==> r.Active(now) && r.state == Ready
    ensures r.pendingSince.Some? <==> r.state == Pending
  {
  }
}
