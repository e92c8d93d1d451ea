# Verified model of auth-mini-gateway

auth-mini-gateway is a reverse proxy that authenticates requests against an
auth server and forwards them over pooled HTTP/1 and HTTP/2 connections. This
project models the parts of it whose correctness is a statement about whole
runs, and proves those statements.

* **HTTP/2 SETTINGS proof and dispatch gate.** `H2Frames` reads a whole byte
  stream frame by frame (sections 3.4, 4.1 and 6.5 of RFC 9113, section 3 of
  RFC 8441). `ServerScanner` and `ClientAck` are the incremental parsers, as
  classes with the original's buffers and counters, refined to that reading.
  `GenerationControl` and `H2Proof` are the lifecycle lock and the proof state.
  `DispatchGate` interleaves reads, writes, proof steps, dispatches, retirement
  and close; a read acts in the three separately locked steps the code has.
  `GateRuns` says which connections do get proved and how one ends, and
  `H2Encoding` ties the reading of streams to a frame encoder.
* **Session refresh.** `Sessions` is the session table with its guarded SQL
  statements and `SessionEffects` what each does to a session, `Migration` the
  schema migration, `TimeText` the text the guards compare, `Flights` the
  single-flight coordinator and `FlightVersions` who joins a flight. `Refresh`
  runs any number of concurrent `auth_decision` calls for one session against
  them and against a server that may accept, reject, fail or answer nonsense;
  `RefreshSafety` is the invariant and `RefreshResults` what follows from it.
  `RefreshTokens` traces every token to the answer it came in,
  `RefreshIdentity` every ready row to the verification behind it, and
  `RefreshAnswers` says what each answer leads to.
* **Upstream ownership.** `OwnerPool` is the pool of eight slots, `Upstream`
  the transition system over permits, transports, slots, drivers and upgraded
  connections, `UpstreamSafety` its invariant, `UpstreamFailures` where coverage
  ends and exactly when, `UpstreamReturns` that nothing is lost,
  `UpstreamLives` the ways a connection takes, `RuntimePlan` the descriptor
  budget, `ExchangeLatch` the two-half latch, `ExchangeBodies` the upload and
  response objects that report to it, and `Resolver` with `ResolverReturns` the
  lookup accounting.
* **Canonical archive.** `ArchivePaths`, `UstarHeader` and `Archive` are the
  ustar writer and its strict parser, `Untar` a plain reader of the format.
* **Generator and text codecs.** `SplitMix`, `SplitMixGolden` and `Shuffle` are
  the seeded generator, its golden words, the bounded draw and the shuffle;
  `WebSocketHeader` splits header values around quoted strings; `Cookies` signs,
  encodes and reads cookies. `Bytes`, `Text` and `Utf8Encoding` hold what they
  share.

Each concurrent protocol is a function from a state and an event to the next
state; its theorems quantify over every sequence of events. What an object of
the source updates in place is a class whose methods are proved equal to the
function the theorems are about.

## Assumptions

* Each call of the store is one atomic step that samples its clock and runs
  its statement; the clock is monotone; new session ids are fresh.
* One gateway process. Locks are never poisoned. Storage may fail before a
  statement or at the read that follows an update, and a leader may panic, at
  any step.
* A stretch of code without an await runs on one thread of the runtime, so no
  more of them run at once than there are threads.
* The keyed hash of a cookie is some function whose values are ASCII without a
  dot, as base64url text is.
* Times in the table fall in the years 0000 to 9999 wherever their text is
  compared. Leap seconds do not occur.

## Findings

* A WebSocket upgrade over HTTP/1 that fails after the server's side was handed
  over leaves its socket open without a permit for a moment: the exchange is
  reported, and so the already finished driver joined and the permit returned,
  before the upgrade future with the socket in it is dropped
  (src/proxy.rs:4042-4046 and 4114-4120; likewise 1984-1991, 2000-2005 and
  2047-2052, where a 101 response is refused). `UpstreamFailures.FailedUpgradeLeavesASocket`
  gives a run, `ExposedExactlyWhenUpgradeFailed` proves that a live transport
  can lose its cover if and only if its upgrade failed after the handover,
  `CoveredWithoutFailures` that all is covered otherwise, and `LiveIsBounded`
  that the sockets exceed the planned number by one a thread at most.
* After the server breaks the opening rules the scanner keeps being fed and
  can find its footing again, so that the connection control becomes
  LiveEnabled although the proof has failed for good.
  `DispatchGate.ControlAloneIsNotTheGate` gives the bytes. Nothing is enqueued,
  because dispatch also needs the private gate; `EnqueueIsBacked` proves it.
  `ControlIsReplay` says what the control is on every stream, and
  `ControlFollowsStream` that this is what the stream calls for as long as it
  keeps the opening rules.
* The cookie decoder takes `%+A` for the byte 10, since the number parser it
  uses allows a plus sign (`Cookies.PlusIsTaken`). `Cookies.StrictExactly`
  proves that it differs from a decoder that wants two digits on exactly the
  texts it accepts with a plus sign in an escape. The encoder writes no such
  text.
* In the archive parser the set of seen paths and the member-count limit never
  refuse anything: the strict path order and the length limit already do
  (`Archive.ParseArchive` proves both).
* In the flight coordinator the clean-up branch for a registered flight that
  already has an outcome is never taken (`Flights.OneOpenFlight`).

## Model

| member | source | states |
|---|---|---|
| `ServerScanner.ServerFrameScanner.Feed` | src/proxy.rs:498-546 | one feed of the buffered scanner, fragment by fragment, ends in the state, observation and error of the byte-at-a-time reader; it terminates on every input |
| `ServerScanner.ServerFrameScanner.BeginFrame` | src/proxy.rs:548-580 | a complete header is decoded and classified as the byte-at-a-time reader does; an illegal first frame is refused |
| `ServerScanner.ServerFrameScanner.ConsumePair` | src/proxy.rs:582-601 | a complete setting is checked and recorded, with the last value winning |
| `ServerScanner.ServerFrameScanner.FinishFrame` | src/proxy.rs:603-620 | the end of a frame publishes initial settings once, or a withdrawal |
| `ServerScanner.ServerFrameScanner.constructor` | src/proxy.rs:484-497 | a new scanner expects a frame header and has seen nothing |
| `ServerScanner.Run` | src/proxy.rs:498-620 | once the initial SETTINGS frame is accepted no further byte can make the scanner fail or change the recorded initial settings |
| `ServerScanner.RunSplit` | src/proxy.rs:498-546 | reading a concatenation is reading one part and then the other |
| `ServerScanner.RunJudges` | src/proxy.rs:484-620 | on every stream the scanner fails exactly when the stream violates the opening rules, and otherwise has observed exactly the last-value-wins initial settings and the withdrawals of the complete later SETTINGS frames |
| `ServerScanner.ChunksDoNotMatter` | src/proxy.rs:497-620 | for every split into chunks the state, error and merged observation are those of one feed of the concatenation |
| `ClientAck.ClientAckParser.Feed` | src/proxy.rs:632-685 | one feed of the acknowledgement parser ends as the byte-at-a-time reader does, or fails when that does |
| `ClientAck.ClientAckParser.TakeHeader` | src/proxy.rs:655-682 | header bytes are collected; an acknowledgement must be empty and on stream 0, any other frame is skipped |
| `ClientAck.ClientAckParser.constructor` | src/proxy.rs:622-631 | a new parser waits for the first byte of the preface |
| `ClientAck.RunSplit` | src/proxy.rs:632-685 | fragment boundaries do not matter to the acknowledgement parser |
| `ClientAck.RunJudges` | src/proxy.rs:631-685 | on every stream the parser fails exactly when the preface is wrong or the first acknowledgement is malformed, and has seen the acknowledgement exactly when the whole preface and a complete empty acknowledgement were written |
| `GenerationControl.GenerationControl.constructor` | src/proxy.rs:227-235 | a new control is proving and not selectable |
| `GenerationControl.GenerationControl.InstallInitial` | src/proxy.rs:237-249 | initial settings are installed only while proving and are refused otherwise, with no change |
| `GenerationControl.GenerationControl.RevokeIfEnabled` | src/proxy.rs:251-267 | only an enabled connection is revoked, which also asks for its retirement |
| `GenerationControl.GenerationControl.InitialStateMatches` | src/proxy.rs:273-280 | true exactly in the state a fresh installation of those settings gives |
| `GenerationControl.GenerationControl.LinearizeDispatch` | src/proxy.rs:288-307 | a dispatch is admitted exactly in the live states that permit its kind |
| `GenerationControl.GenerationControl.MarkRetiring` | src/proxy.rs:309-316 | retiring takes effect in every state but closed |
| `GenerationControl.GenerationControl.MarkClosed` | src/proxy.rs:318-323 | closing takes effect in every state |
| `H2Proof.H2ProofState.constructor` | src/proxy.rs:346-356 | a new proof state is pending over fresh parsers |
| `H2Proof.H2ProofState.ObserveInbound` | src/proxy.rs:362-388 | scan, install, revoke, publish, in that order; a refused installation or a scan error fails the proof |
| `H2Proof.H2ProofState.Notify` | src/proxy.rs:374-388 | the part of an inbound observation that runs after the parser lock is released |
| `H2Proof.H2ProofState.ObserveOutbound` | src/proxy.rs:390-424 | written bytes are parsed while the proof is pending, and ignored afterwards |
| `H2Proof.H2ProofState.ObserveOutboundVectored` | src/proxy.rs:394-403 | observing a partial vectored write equals observing the first accepted bytes of the concatenated buffers |
| `H2Proof.H2ProofState.CurrentProof` | src/proxy.rs:426-435 | ready exactly when the acknowledgement and the initial settings have been seen |
| `H2Proof.H2ProofState.PublishStatus` | src/proxy.rs:437-441 | only a pending status is replaced, and only by a final one |
| `H2Proof.H2ProofState.IoFailed` | src/proxy.rs:405-407 | an I/O failure fails the proof |
| `H2Proof.H2ProofState.MarkTransportDropped` | src/proxy.rs:443-448 | a dropped transport is recorded and fails a pending proof |
| `H2Proof.OutboundSplit` | src/proxy.rs:390-424 | two writes observed one after the other are the concatenated write |
| `DispatchGate.EnqueueIsBacked` | src/proxy.rs:226-337 | in every interleaving an extended CONNECT is enqueued only if the server's initial SETTINGS enabled it and no later complete SETTINGS frame withdrew it, an ordinary request only after valid initial SETTINGS and not once what they enabled is withdrawn, and either only after preface and acknowledgement were sent; what was acted on is a prefix of the bytes read, and all of them unless a reader is between scanning and acting |
| `DispatchGate.GateIsExact` | src/proxy.rs:288-307 | without retirement or close a proved connection takes extended CONNECT if and only if the server enabled it and has not withdrawn it, and ordinary requests if and only if it has not withdrawn what it enabled |
| `DispatchGate.ControlIsReplay` | src/proxy.rs:362-388 | in every run without retirement and close, on every stream, scanner and control are those of the fragments replayed one by one, errors and refused installations included |
| `DispatchGate.ControlFollowsStream` | src/proxy.rs:362-388 | while the stream keeps the opening rules the control state is the one the stream calls for |
| `DispatchGate.ReadyIsBacked` | src/proxy.rs:362-448 | Ready(s) is published only when s is what the stream's initial SETTINGS decode to, the control was installed, and preface and empty acknowledgement were written |
| `DispatchGate.LifeMovesForward` | src/proxy.rs:226-337 | over every run the lifecycle rank never decreases, disabled never becomes enabled and Failed is final |
| `DispatchGate.NothingAfterTheEnd` | src/proxy.rs:288-323 | after a retirement, a close or an acted-on withdrawal nothing of either kind is ever enqueued again |
| `DispatchGate.ControlAloneIsNotTheGate` | src/proxy.rs:869-954 | concrete bytes after which the control is enabled although the stream violated the opening rules and the proof failed; nothing is enqueued |
| `GateRuns.LegalOpeningIsProved` | src/proxy.rs:869-954 | every server that opens legally and every client that writes its preface and an empty acknowledgement can be proved, unless the server has already withdrawn what it enabled, and then takes exactly what was offered |
| `GateRuns.OfferIsTaken` | src/proxy.rs:288-307 | so for every legal list of settings and every list of client frames: ordinary requests are taken, extended CONNECT exactly if the last switch for it is on |
| `GateRuns.ProofIsAgreed` | src/proxy.rs:869-905 | in every run a connection is proved only by a check in which the HTTP library agrees, after Ready was read, and each reading is good for one check |
| `GateRuns.EndsAreExact` | src/proxy.rs:226-337 | in every run a connection is closed exactly if told to close, retiring exactly if told to retire and not to close, selectable exactly while live, and a revoked one has asked for retirement |
| `GateRuns.LostIsNeverProved` | src/proxy.rs:405-448 | a connection whose transport dropped before the proof, or that failed before Ready was read, is never proved or dispatched to |
| `H2Encoding.HeaderDecodes` | src/proxy.rs:548-580 | decoding a frame header gives back what was encoded, whatever the other flags, the reserved bit and the bytes behind |
| `H2Encoding.HeaderEncodes` | src/proxy.rs:548-580 | encoding a decoded header gives back its nine bytes |
| `H2Encoding.SettingsDecode` | src/proxy.rs:582-601 | the settings read from a payload are those written into it |
| `H2Encoding.FramesDecode` | src/proxy.rs:498-620 | the complete frames read from a stream are those written into it |
| `H2Encoding.OpeningIsJudged` | src/proxy.rs:548-620 | a server that sends settings and then frames is refused exactly if a value is forbidden, offers extended CONNECT exactly if its last switch is on, limits streams by its last limit, and withdraws exactly if a later SETTINGS frame ends on off |
| `H2Encoding.OtherOpeningsViolate` | src/proxy.rs:548-580 | any other first frame is refused: wrong type, acknowledgement, stream, length |
| `H2Encoding.ClientIsJudged` | src/proxy.rs:632-685 | preface, client frames and an acknowledgement are accepted exactly if the acknowledgement is empty and on stream 0 |
| `H2Encoding.PrefaceIsText` | src/proxy.rs:51 | the preface is the text of section 3.4 of RFC 9113 |
| `Sessions.GuardAgreesWithActive` | src/db.rs:664-668 | the deadline guards on stored milliseconds agree with the full-precision activity test at every instant |
| `Sessions.Store.LookupSession` | src/db.rs:248-265 | a read returns the row exactly if it is consistent and active now |
| `Sessions.Store.CreateSession` | src/db.rs:206-246 | creation prunes, then inserts the row with its deadlines truncated and idle capped by absolute |
| `Sessions.Store.Revoke` | src/db.rs:277-284 | logout revokes a row that is not revoked yet and changes nothing else |
| `Sessions.Store.RevokeIfUnchanged` | src/db.rs:286-304 | revokes exactly a row that still has the expected generation, token and state and is active |
| `Sessions.Store.Persist` | src/db.rs:306-339 | rotation replaces tokens, advances the generation and enters Pending exactly under its guards, and otherwise reports the current row |
| `Sessions.Store.Finalize` | src/db.rs:341-365 | a pending row of that generation and user becomes Ready exactly under its guards |
| `Sessions.Store.ResolveCas` | src/db.rs:432-443 | what a compare-and-set reports is read from the table after it |
| `Sessions.Store.Touch` | src/db.rs:367-415 | the idle deadline is advanced exactly when due and the snapshot is still current |
| `Sessions.Store.PruneExpired` | src/db.rs:417-430 | exactly the revoked and expired rows are deleted |
| `Sessions.NewRowIsValid` | src/db.rs:206-246 | a created row satisfies the row invariant |
| `Sessions.StatementStep` | src/db.rs:277-430 | every guarded statement keeps the row invariant and moves a row only forward; one that is not active stays so |
| `Sessions.EveryRunKeepsRows` | src/db.rs:277-430 | over every interleaving of statements each row stays consistent, its absolute deadline, user and auth session are fixed, idle never decreases, tokens change only with the generation, and revocation is final |
| `Sessions.EveryRunFromEmpty` | src/db.rs:206-430 | the row invariant holds in every run that starts from the empty table |
| `Sessions.DeadStaysDead` | src/db.rs:664-668 | a session that is revoked, expired or deleted is never active again in any run |
| `SessionEffects.MatchesMeans` | src/db.rs:286-339 | the guard of the compare-and-set statements holds exactly for an active row that still has the generation, state and refresh token the caller saw |
| `SessionEffects.LookupMeans` | src/db.rs:248-265 | a row that breaks its own rules is reported as such, neither as a session nor as none |
| `SessionEffects.CreationMeans` | src/db.rs:206-246 | a new session carries what the login gave it, each in its place, and is active exactly until its idle or absolute time is over |
| `SessionEffects.LogoutEnds` | src/db.rs:277-284 | after logout the session is not active at any time and nothing else has changed |
| `SessionEffects.RevocationEnds` | src/db.rs:286-304 | a revocation ends exactly an active session still at that version |
| `SessionEffects.PruningKeepsActive` | src/db.rs:417-430 | pruning keeps exactly the active sessions, as they are |
| `SessionEffects.RotationMeans` | src/db.rs:306-339 | rotation puts each new token in its place, advances the generation and keeps deadlines and owner, or changes nothing |
| `SessionEffects.FinalizingMeans` | src/db.rs:341-365 | finalizing makes an active pending session of that generation and user ready and keeps tokens and deadlines, or changes nothing |
| `SessionEffects.TouchMeans` | src/db.rs:367-415 | a touch of the present row succeeds; when due it moves the deadline to the idle time from now, never past the absolute one, and otherwise changes nothing |
| `SessionEffects.TouchIsThrottled` | src/db.rs:367-415 | a touched session is not touched again before the interval is over |
| `SessionEffects.StaleTouchIsLost` | src/db.rs:367-415 | a touch with an outdated sight of the row changes nothing |
| `SessionEffects.OldBinaryAgrees` | src/db.rs:643-668 | on every valid row the old binary agrees with the new one, except that it refuses a pending row |
| `Migration.LegacyTable.Migrate` | src/db.rs:446-479 | the migration fills all rows below version 2 and only the NULL ones at version 2, or refuses a newer schema, an unreadable time or an overflow and leaves the table as it was |
| `Migration.LegacyTable.Fill` | src/db.rs:481-569 | backfill and repair rewrite exactly the selected rows, or stop at a time that does not parse or overflows |
| `Migration.MigrationIsSafe` | src/db.rs:481-569 | after a migration every row is valid, no deadline reaches past the legacy one or thirty days after creation, and no session is alive that was not before |
| `Migration.MigrationKeepsAlive` | src/db.rs:481-569 | a rewritten session is alive exactly as long as it was before and is within thirty days of its creation, to the millisecond; everything else is kept |
| `Migration.MigrationIsIdempotent` | src/db.rs:446-479 | migrating again changes nothing |
| `Migration.MigratedTableStarts` | src/db.rs:446-479 | a migrated table satisfies the invariant that the run theorems of the session table start from |
| `TimeText.CivilOf` | src/util.rs:45-47 | every instant has a valid calendar date and time of day that counts back to it |
| `TimeText.CountOrder` | src/util.rs:45-51 | calendar order is the order of time, across month lengths and leap years |
| `TimeText.PrintedOrder` | src/util.rs:45-47 | fixed-width text of two dates compares bytewise as the dates do |
| `TimeText.TextOrderIsTimeOrder` | src/util.rs:45-51 | for all instants of the years 0000 to 9999 the bytewise order of their text is the order of their stored milliseconds, and equal text means equal milliseconds |
| `TimeText.ParseFormat` | src/util.rs:45-51 | parsing the text of an instant gives the instant truncated to the millisecond |
| `TimeText.ParseExactly` | src/util.rs:45-51 | the parser reads exactly the texts of instants on the millisecond in the years 0000 to 9999, and gives the instant |
| `TimeText.MonthLengths` | src/util.rs:45-47 | the months have their lengths, February by the Gregorian rule |
| `TimeText.FormatIs` | src/util.rs:45-47 | an instant is printed as the one valid date and time of day with its count of milliseconds |
| `TimeText.PrintedIs` | src/util.rs:45-47 | the text is the fields of a date with the separators of RFC 3339 |
| `TimeText.EpochText` | src/db.rs:12 | the deadline written for a pending row is the text of the epoch |
| `TimeText.TextGuardAgreesWithActive` | src/db.rs:286-304 | the SQL deadline guards, comparing text, decide exactly as the full-precision activity test |
| `Flights.FlightCoordinator.constructor` | src/flight.rs:23-32 | a new coordinator has no flights |
| `Flights.FlightCoordinator.AcquireFlight` | src/flight.rs:64-97 | leads if no flight is open, joins if the version is accepted, and otherwise waits for the flight to close |
| `Flights.FlightCoordinator.AddFlightAlias` | src/flight.rs:144-149 | the flight accepts one more version |
| `Flights.FlightCoordinator.CompleteFlight` | src/flight.rs:99-119 | publishes an outcome only if there is none, frees the session, and returns the published one |
| `Flights.FlightCoordinator.DropLeader` | src/flight.rs:160-172 | a leader dropped without completing publishes LeaderAborted |
| `Flights.OneOpenFlight` | src/flight.rs:64-119 | in every run a session has at most one flight without outcome and a registered flight never has one |
| `Flights.OutcomeIsFinal` | src/flight.rs:99-119 | a published outcome is what every waiter reads for the rest of the run |
| `Flights.LeaderPublishes` | src/flight.rs:151-188 | every joiner gets the leader's outcome, or LeaderAborted if the leader was dropped |
| `Flights.FirstOutcomeWins` | src/flight.rs:99-119 | the first outcome wins, and completing a flight never frees a session that another flight holds |
| `FlightVersions.AcceptedIsTaken` | src/flight.rs:64-149 | in every run a flight accepts exactly the versions it was opened with and given by its leader |
| `FlightVersions.JoinExactly` | src/flight.rs:64-97 | in every run whoever asks leads if there is no leader, joins exactly if the version is one of those, and otherwise waits for the flight to close |
| `FlightVersions.JoinersAreCounted` | src/flight.rs:64-97 | the count of joiners is the number of asks that joined |
| `RefreshSafety.LeaderStepOk` | src/server.rs:1898-2129 | every step of a flight's leader keeps the row invariant, revokes only the exact version its rejection was obtained with, and gets closer to an outcome |
| `RefreshSafety.NextKeeps` | src/server.rs:1772-2162 | the protocol invariant survives every event of every request, the server, the clock, logout and pruning |
| `RefreshResults.OnlyTheLeaderMovesTheVersion` | src/server.rs:1880-1978 | in every run only the one leader of the session's flight changes the row's version |
| `RefreshResults.RowOnlyMovesForward` | src/db.rs:306-365 | over any stretch of a run the version rank only rises, and owner and absolute deadline stay |
| `RefreshResults.EveryStepIsProgress` | src/server.rs:1786-1878 | every step other than waiting for an open flight brings a request closer to its decision, so recovery, revocation and use of the current row cannot call each other for ever |
| `RefreshResults.NestedCallIsLater` | src/server.rs:1997-2129 | recovery entered again in a flight works on a strictly later version |
| `RefreshResults.StaleRejectionIsHarmless` | src/server.rs:1980-2042 | apart from logout a row is revoked only by its flight's leader and only if it still has the generation, token and state the rejection was obtained with |
| `RefreshResults.OutcomesTellTheTruth` | src/server.rs:1898-2142 | a flight in one of whose leader's steps the row went from not revoked to revoked ends Rejected, so one ending Temporary or Indeterminate revoked nothing; a Ready outcome names a version the row had |
| `RefreshResults.AllowIsEarned` | src/server.rs:1842-1878 | Allow is given only as the row's own user, whom the allowlist check saw, after a read returned an active Ready row whose token had not come up for refresh |
| `RefreshTokens.TokensAreIssued` | src/server.rs:1898-1978 | in every run the row's tokens are those of the login or of the accepted answer whose write made the row's generation, each in its place, and a leader only sends or verifies tokens issued as such to this session |
| `RefreshIdentity.ReadyIsVerified` | src/server.rs:2078-2129 | in every run a pending row becomes ready only through the leader, who in its step before was told that the access token of that generation belongs to this session and user |
| `RefreshIdentity.PendingIsJoined` | src/server.rs:1944-1960 | while the flight that wrote a generation is open, whoever has seen the row pending at it joins that flight |
| `RefreshAnswers.FailuresLeaveTheRow` | src/server.rs:1898-1950 | a passing failure ends the flight Temporary, an unclear one, an answer for someone else or one without an expiry Indeterminate, with its class; the row is as before and the request is told to come back |
| `RefreshAnswers.UnverifiedStaysPending` | src/server.rs:2078-2106 | the same for a row that waits for its identity |
| `RefreshAnswers.StorageFailureIsUndecided` | src/server.rs:1951-2129 | where storage fails the flight ends undecided, with nothing changed before the statement and everything done when only the reading back fails |
| `RefreshAnswers.FailedReadIsUnavailable` | src/server.rs:1786-1878 | a request whose own read or touch fails is told to come back later |
| `RefreshAnswers.PanicLeavesTheRow` | src/flight.rs:160-172 | a leader that panics leaves the row alone and its flight ends as aborted |
| `RefreshAnswers.RejectionRevokes` | src/server.rs:1980-2042 | an active row whose own token is rejected is revoked, the flight ends Rejected for that reason and the request must log in again |
| `RefreshAnswers.GoodAnswerRotates` | src/server.rs:1898-2129 | a good answer takes the row to its next generation with the tokens, methods and expiry of that answer and, once verified, ready; nothing else in the row changes |
| `RefreshAnswers.ReadyIsServed` | src/server.rs:1842-1878 | a request that finds an active, ready row with a fresh token is let through as its user exactly if the allowlist has that user |
| `RefreshAnswers.DueIsRefreshed` | src/server.rs:1786-1800 | a request that finds the row up for refresh and no flight open leads one and refreshes |
| `RefreshAnswers.JoinersFollow` | src/server.rs:1800-1841 | whoever joined a flight goes where its outcome says |
| `RefreshAnswers.LateLeaderChangesNothing` | src/server.rs:1951-2076 | a leader that finds the row moved on or gone changes nothing: it adopts the present row or ends Rejected |
| `RefreshAnswers.LateFinalizerChangesNothing` | src/server.rs:2107-2129 | a leader that finds nothing left to finalize changes nothing and says what it found |
| `RefreshAnswers.NoSessionIsUnauthenticated` | src/server.rs:1786-1799 | a request that finds no active session must log in |
| `RefreshAnswers.LostTouchLooksAgain` | src/server.rs:1849-1878 | a request whose touch comes too late looks again |
| `RefreshAnswers.EightTriesAreEnough` | src/server.rs:1786-1878 | after eight tries a request is told to come back later |
| `RefreshAnswers.OutcomesAreCalledFor` | src/server.rs:1898-2142 | a flight ends Temporary, or Rejected for a reason that is not local, only because an answer to its leader calls for exactly that |
| `OwnerPool.Pool.constructor` | src/proxy.rs:1835 | a new pool is empty |
| `OwnerPool.Pool.Push` | src/proxy.rs:3046-3058 | an entry is added exactly if fewer than eight are there |
| `OwnerPool.Pool.TakeIdle` | src/proxy.rs:2123-2135 | the first idle HTTP/1 owner is taken out, if there is one |
| `OwnerPool.Pool.RetireGeneration` | src/proxy.rs:1214-1223 | the slot of that generation is marked retiring, and no other |
| `OwnerPool.Pool.RemoveRetiring` | src/proxy.rs:1226-1232 | the retiring slot of that generation is removed, and no other |
| `OwnerPool.Generation.constructor` | src/proxy.rs:2308-2318 | a new generation has its master sender and is not published |
| `OwnerPool.Generation.Retire` | src/proxy.rs:1198-1204 | marks the control retiring and drops the master sender |
| `OwnerPool.Generation.PublishSlot` | src/proxy.rs:1244-1256 | publishes exactly if the control is selectable and fewer than eight slots are taken |
| `OwnerPool.Generation.RetireWithSlot` | src/proxy.rs:1206-1224 | retires the generation and, if it is published, marks its slot and no other |
| `OwnerPool.RetiredIsScoped` | src/proxy.rs:1206-1224 | retirement by id touches no slot of another transport |
| `UpstreamSafety.NextKeeps` | src/proxy.rs:2080-2394 | admission, lookup, dialing, gate, publication, selection, parking, upgrade, tunnel, failed upgrade, retirement, cancellation and teardown all keep the ownership invariant |
| `UpstreamSafety.PermitsAreConserved` | src/proxy.rs:1638-1677 | permits held, forgotten ones included, and permits available add up to the limit in every reachable state |
| `UpstreamSafety.EveryTransportIsCoveredOnce` | src/proxy.rs:2793-3075 | in every reachable state a live transport has a permit of its own or a pool slot of its own if and only if it is not a failed upgrade, handed over, whose driver was joined; never both or two |
| `UpstreamSafety.LiveIsBounded` | src/runtime_plan.rs:64-82 | live upstream transports never exceed the active limit plus eight plus the upgrades failing at that moment, at most one a thread; and not the active limit plus eight if none of them had been handed over |
| `UpstreamSafety.SlotsFollowDrivers` | src/proxy.rs:1258-1322 | a published generation keeps its slot until its transport has dropped and has none once its driver has finished |
| `UpstreamFailures.FlagsRecordEvents` | src/proxy.rs:4009-4120 | handover, early report and join of an upgraded connection are each recorded by their own event only, and for good |
| `UpstreamFailures.ExposedExactlyWhenUpgradeFailed` | src/proxy.rs:4042-4120 | in every reachable state a driver join can leave a live transport without permit and slot if and only if its upgrade failed after the handover |
| `UpstreamFailures.CoveredWithoutFailures` | src/proxy.rs:2793-3075 | in every run without a failing upgrade all live transports are covered and at most the active limit plus eight |
| `UpstreamFailures.FailedUpgradeLeavesASocket` | src/proxy.rs:4114-4120 | a run with one permit after which two sockets are open, one of them under no permit and in no slot |
| `UpstreamReturns.NoPermitIsLost` | src/proxy.rs:1638-1677 | from every reachable state some events, without a new request or a leak, give back every permit that was not leaked before |
| `UpstreamReturns.SlotIsFreed` | src/proxy.rs:1258-1322 | from every reachable state a generation's slot is freed once its driver stops and its transport drops, and no other goes |
| `UpstreamReturns.StaleIsReselected` | src/proxy.rs:2123-2160 | the permit of a request that found its connection stale stays with the request, unless that is cancelled |
| `UpstreamReturns.ParkedIsReused` | src/proxy.rs:2123-2135 | the next request takes the idle connection parked first and opens none |
| `UpstreamReturns.PublishedWhenSelectable` | src/proxy.rs:1244-1256 | in every run a generation is published exactly if it was selectable when it passed the gate and there was room, and only a published one is shared |
| `UpstreamLives.RequestConnects` | src/proxy.rs:2080-2394 | admission, lookup, dial and connect, from any state, leave one permit and one socket more |
| `UpstreamLives.RedialsAfterLoss` | src/proxy.rs:2080-2394 | a socket lost while dialing is closed and replaced under the same permit |
| `UpstreamLives.Http1Life` | src/proxy.rs:2793-3075 | an HTTP/1 connection gives its permit back once its driver is joined |
| `UpstreamLives.FullPoolRetires` | src/proxy.rs:3046-3058 | a connection that comes back while the pool is full is closed instead |
| `UpstreamLives.UpgradeLife` | src/proxy.rs:4009-4120 | of an upgraded connection that ends in order nothing is left |
| `UpstreamLives.SharedLife` | src/proxy.rs:1519-1664 | a published connection serves several requests, gives each permit back with its exchange and keeps its slot |
| `UpstreamLives.PrivateLife` | src/proxy.rs:1638-1677 | a private connection keeps its permit until its transport has dropped |
| `UpstreamLives.RetiringTakesEffect` | src/proxy.rs:1206-1224 | retiring takes a generation out of selection and leaves every other slot alone |
| `UpstreamLives.LeakIsForEver` | src/proxy.rs:2793-3075 | a permit leaked at runtime teardown keeps accounting for its socket and never comes back |
| `RuntimePlan.BudgetSuffices` | src/runtime_plan.rs:64-82 | with the required descriptor limit every reachable state leaves the listener and the reserve available, less one a thread while upgrades fail; and the whole reserve if no open transport is an upgrade that failed after its handover |
| `RuntimePlan.RequiredIs` | src/runtime_plan.rs:64-82 | the required number is what the configuration adds up to, or none if that does not fit a machine word |
| `ExchangeLatch.ExchangeLatch.constructor` | src/proxy.rs:1443-1451 | a new latch holds the resource and neither half |
| `ExchangeLatch.ExchangeLatch.Report` | src/proxy.rs:1453-1486 | the first report of each half is kept, and the resource is handed out when both are there |
| `ExchangeLatch.FinishedOnceByBothHalves` | src/proxy.rs:1426-1486 | for every order and repetition of calls the resource is finished at most once, exactly when both halves reported, reusable exactly if the first report of each said so |
| `ExchangeBodies.TrackedRequestBody.constructor` | src/proxy.rs:4226-4247 | a new upload holds the latch and is terminal at once if its body has ended |
| `ExchangeBodies.TrackedRequestBody.ObserveTerminal` | src/proxy.rs:4249-4260 | only the first terminal observation counts; a clean one completes the upload, any other cancels it unless complete |
| `ExchangeBodies.TrackedRequestBody.PollFrame` | src/proxy.rs:4291-4327 | a poll ends the upload cleanly at the end of the body or its trailers, and uncleanly on cancellation or error |
| `ExchangeBodies.TrackedRequestBody.FinishOnDrop` | src/proxy.rs:4262-4282 | dropping reports the request half, once, with the terminal observation |
| `ExchangeBodies.ExchangeResponseBody.Done` | src/proxy.rs:4363-4378 | the response half is reported once and the latch let go |
| `ExchangeBodies.ExchangeResponseBody.PollFrame` | src/proxy.rs:4390-4418 | reading to the end reports the reuse flag, an error reports no reuse |
| `ExchangeBodies.ExchangeResponseBody.Dispose` | src/proxy.rs:4380-4384 | a body dropped early reports no reuse |
| `ExchangeBodies.FinishedExactlyOnce` | src/proxy.rs:4217-4384 | in every interleaving of polls, cancellations, guards, bridges and drops each half reports at most once, the resource is finished at most once and only after the upload was dropped, and it has been finished once both are gone |
| `ExchangeBodies.ReuseIsEarned` | src/proxy.rs:4217-4418 | told by the events alone, a connection is reused exactly if the upload was dropped after it came to its own end without error or stored cancellation, and the response allowed reuse and came to its own end likewise |
| `ExchangeBodies.UploadStateIsTold` | src/proxy.rs:4249-4282 | an upload counts as complete exactly if it came to its own end, as cancelled once it ended otherwise, and a cancellation that looks after its end is ignored |
| `ExchangeBodies.FinishIsTold` | src/proxy.rs:1453-1486 | told by the events alone, the exact list of finishes of every exchange, with reuse and reason |
| `Resolver.ResolverAccounting.constructor` | src/proxy.rs:2416-2435 | all counters start at zero |
| `Resolver.ResolverAccounting.Record` | src/proxy.rs:2448-2483 | each accounting call makes exactly its additions |
| `Resolver.StepsMakeTheCalls` | src/proxy.rs:2557-2697 | the atomic steps of a lookup's owner make the additions of the accounting calls in their order |
| `Resolver.CountersAddUp` | src/proxy.rs:2416-2578 | between any two atomic additions of every run, submitted lookups are those owned by request or cleanup and those just being moved, live ones are at most the submitted, those at most the counted permits, those at most the taken ones, those at most the limit, nothing goes below zero, and the total counts every lookup ever submitted |
| `Resolver.ReleasedOnlyAfterJoin` | src/proxy.rs:2557-2697 | in every run R of a submitted lookup is returned, and after it U, only after an earlier event joined its finished task |
| `ResolverReturns.EveryLookupEnds` | src/proxy.rs:2547-2697 | from every reachable state some events, without a new lookup, give back R and U of every lookup and bring every counter to zero |
| `ResolverReturns.AdmissionIsExact` | src/proxy.rs:2547-2578 | a lookup is admitted exactly while fewer than the limit hold R |
| `ResolverReturns.AbortedNeverRuns` | src/proxy.rs:2675-2697 | a task aborted while queued never runs and is joined at once |
| `ResolverReturns.LeavingHandsOver` | src/proxy.rs:2557-2697 | a request that goes away hands its lookup, with both permits, to the cleanup |
| `ArchivePaths.FindParts` | benchmarks/http2-regression/src/seal.rs:236-254 | the backward search finds the last slash at which both ustar fields fit, if any |
| `ArchivePaths.PartsRejoin` | benchmarks/http2-regression/src/seal.rs:195-254 | a valid path is recovered from its two fields, which fit and hold no NUL |
| `ArchivePaths.ValidMeans` | benchmarks/http2-regression/src/seal.rs:195-254 | a path is valid exactly if it is printable without backslashes, every component is there and is neither the directory nor its parent, and it fits the fields |
| `UstarHeader.WriteOctal` | benchmarks/http2-regression/src/archive.rs:223-236 | a numeric field is written, and nothing else, exactly if the value fits |
| `UstarHeader.TextFits` | benchmarks/http2-regression/src/archive.rs:228-234 | padded octal text has its nominal width exactly when the value is below that power of eight |
| `UstarHeader.OctalRoundTrip` | benchmarks/http2-regression/src/archive.rs:223-260 | a field parses to a value exactly when writing that value gives the field |
| `UstarHeader.NulRoundTrip` | benchmarks/http2-regression/src/archive.rs:215-247 | NUL-free text written to a field is read back |
| `UstarHeader.ChecksumFits` | benchmarks/http2-regression/src/archive.rs:207-211 | the sum of any block fits six octal digits |
| `UstarHeader.CanonicalHeader` | benchmarks/http2-regression/src/archive.rs:188-213 | the block filled field by field is the canonical header, or none for a bad path or size |
| `UstarHeader.HeaderRoundTrip` | benchmarks/http2-regression/src/archive.rs:126-146 | the parser accepts a header block exactly if it is the canonical header of that path and size, and no header is an all-zero block |
| `UstarHeader.SumAppend` | benchmarks/http2-regression/src/archive.rs:206 | the sum of a concatenation is that of its parts |
| `UstarHeader.SumIsTotal` | benchmarks/http2-regression/src/archive.rs:206 | the sum is the total of all bytes, counted from the front |
| `UstarHeader.HeaderIsUstar` | benchmarks/http2-regression/src/archive.rs:188-213 | in terms of its own bytes: name and prefix give the path, the size field the size, the checksum field the total of all 512 bytes with its own counted as blanks, and every other field is as the format fixes it |
| `Archive.CanonicalArchive` | benchmarks/http2-regression/src/archive.rs:47-90 | the writer succeeds exactly on distinct valid paths within the length limit, with the members laid out in byte order |
| `Archive.Project` | benchmarks/http2-regression/src/archive.rs:50-69 | the projected length is computed exactly if all paths are valid and distinct |
| `Archive.LayoutLength` | benchmarks/http2-regression/src/archive.rs:50-88 | the projected length is the length of the archive |
| `Archive.ParseArchive` | benchmarks/http2-regression/src/archive.rs:92-186 | the offset-driven parser computes the recursive reading of the input |
| `Archive.ParseExact` | benchmarks/http2-regression/src/archive.rs:92-186 | the parser accepts exactly the byte strings that are the archive of a canonical member list, and returns that list |
| `Archive.WriteThenParse` | benchmarks/http2-regression/src/archive.rs:47-186 | parsing what was written returns the members, all of them, in byte order |
| `Archive.ParseThenWrite` | benchmarks/http2-regression/src/archive.rs:47-186 | rewriting the members of any accepted input reproduces it byte for byte |
| `Untar.AnyReaderReadsIt` | benchmarks/http2-regression/src/archive.rs:47-90 | a plain ustar reader that knows nothing of the writer reads every archive back, file by file |
| `SplitMix.SplitMix64.constructor` | benchmarks/http2-regression/src/rng.rs:16-19 | the seed is the first state |
| `SplitMix.SplitMix64.NextU64` | benchmarks/http2-regression/src/rng.rs:27-35 | a draw advances the state by one step of the sequence and returns the mixed state |
| `SplitMix.XorShiftIsInjective` | benchmarks/http2-regression/src/rng.rs:30-33 | xor of a number with its right shift loses nothing, for every number and shift |
| `SplitMix.MixIsInjective` | benchmarks/http2-regression/src/rng.rs:27-35 | the mixing function is injective on 64-bit words |
| `SplitMix.RepeatsExactly` | benchmarks/http2-regression/src/rng.rs:27-35 | two draws of one seed give the same word exactly if their positions agree modulo 2^64 |
| `SplitMixGolden.GoldenWords` | benchmarks/http2-regression/src/rng.rs:61-74 | the first four words for seed 0 are those the original checks itself against |
| `Shuffle.DrawBounded` | benchmarks/http2-regression/src/rng.rs:38-49 | the rejection loop returns the first accepted word reduced, below the bound |
| `Shuffle.DrawsAreUniform` | benchmarks/http2-regression/src/rng.rs:37-49 | for every bound, each number below it is drawn from the same number of 64-bit words |
| `Shuffle.FirstAccepted` | benchmarks/http2-regression/src/rng.rs:38-49 | a draw takes the first word that it would accept alone |
| `Shuffle.FisherYates` | benchmarks/http2-regression/src/rng.rs:51-59 | the in-place shuffle is a permutation, and the one that its draws select |
| `Shuffle.ShuffledKeeps` | benchmarks/http2-regression/src/rng.rs:51-59 | whatever the draws, nothing is lost or duplicated |
| `Shuffle.DrawsAreUnique` | benchmarks/http2-regression/src/rng.rs:51-59 | on distinct values different draws give different orders |
| `Shuffle.ExactlyOneRun` | benchmarks/http2-regression/src/rng.rs:51-59 | each order of distinct values comes from exactly one run of legal draws |
| `WebSocketHeader.Split` | src/proxy.rs:3779-3815 | the scan over quote state computes the pieces, or refuses |
| `WebSocketHeader.SplitAccepts` | src/proxy.rs:3779-3815 | splitting succeeds exactly if every quoted string is well formed and closed, whatever the delimiter |
| `WebSocketHeader.SplitIsTheDecomposition` | src/proxy.rs:3779-3815 | the pieces are the only ones without an unquoted delimiter that join to the value |
| `WebSocketHeader.ExtensionsSplit` | src/proxy.rs:3735-3741 | every piece of a successful comma split also splits on semicolon |
| `WebSocketHeader.ValidQuoted` | src/proxy.rs:3817-3840 | the loop accepts exactly a quoted string |
| `WebSocketHeader.QuotedIsOnePiece` | src/proxy.rs:3817-3840 | validator and splitter agree on quoted strings, which are never cut |
| `WebSocketHeader.QuotingIsExact` | src/proxy.rs:3817-3840 | a text with its quotes and backslashes escaped, and whatever else, is one valid quoted string exactly if it is printable |
| `Cookies.UnsignExact` | src/cookies.rs:39-52 | a text is accepted with a value exactly if it is that value signed |
| `Cookies.TimingEq` | src/util.rs:72-84 | the accumulated difference is zero exactly for equal texts |
| `Cookies.UnsignValue` | src/cookies.rs:43-52 | the verifier, comparing every byte, decides as the exact comparison |
| `Cookies.PercentEncode` | src/cookies.rs:108-118 | the loop encodes byte by byte |
| `Cookies.PercentDecode` | src/cookies.rs:120-138 | the loop decodes, or refuses a bad escape or text that is not UTF-8 |
| `Cookies.DecodeEncode` | src/cookies.rs:108-138 | decoding undoes encoding, for every byte string |
| `Cookies.StrictExactly` | src/cookies.rs:120-138 | the decoder agrees with one that takes two hexadecimal digits only, on exactly the texts it does not accept with a plus sign in an escape |
| `Cookies.PlusIsTaken` | src/cookies.rs:129-130 | an escape with a plus sign that the decoder accepts |
| `Cookies.EncodeIsSafe` | src/cookies.rs:108-118 | encoded text holds no semicolon, equals sign or white space |
| `Cookies.EncodingOf` | src/cookies.rs:108-118 | an unreserved character stands for itself, any other byte for a percent sign and two upper-case digits |
| `Cookies.EscapesDecode` | src/cookies.rs:120-138 | an escape in either case stands for its byte |
| `Cookies.TrimMeans` | src/cookies.rs:54-64 | trimming takes all white space off both ends and nothing else |
| `Utf8Encoding.Utf8Exactly` | src/cookies.rs:137 | the validity test accepts exactly the encodings of Unicode scalar values |
| `Cookies.ParseCookie` | src/cookies.rs:54-64 | the first pair of the name decides |
| `Cookies.CookieRoundTrip` | src/cookies.rs:13-64 | a signed, encoded value in any Cookie header without an earlier pair of that name is read back |
| `Cookies.OnlySignedIsRead` | src/cookies.rs:13-52 | a value is read exactly if the first pair of that name decodes to that value signed |

## Left out

- Reads and writes after a revocation: the original also refuses them (`io_must_fail`); the model lets them happen, so its safety results cover more runs than there are.
- The two writes of `mark_retiring` and `revoke_if_enabled` (selectable flag, then state) are one step; a reader between them sees a connection that is not selectable yet still live.
- ExchangeBodies.FinishedExactlyOnce: a WebSocket candidate whose runtime is gone is leaked on purpose and then never reports; the model has it as a forgotten bridge. Upgrade futures, leases and wakers are not modelled.
- Stream reservation inside a generation (`try_reserve`, its creator count and the HTTP/2 stream limit) and readiness of hyper's sender.
- ClientAck.ClientAckParser.Feed: after a refusal only the acknowledgement flag is described, because a failed proof never feeds the parser again.
- ClientAck.ClientAckParser.TakeHeader: likewise after a refusal.
- TimeText.ParseFormat: the parser reads the one form that is written; other spellings that RFC 3339 allows, and leap seconds, are not modelled.
- Which upgrade failure it is: a failed or refused upgrade is one event, whichever of the four places reports it. At runtime teardown a forgotten permit stays held.
- UpstreamReturns.NoPermitIsLost: says that some continuation gives every permit back, because schedules and fairness are not modelled; which events bring a holder closer is given by `EndingEvent`.
- ResolverReturns.EveryLookupEnds: likewise for lookups.
- RefreshAnswers.GoodAnswerRotates: the leader's steps follow each other without an event of another request between them, because what those can and cannot do to the row is what `RefreshSafety`, `RefreshTokens` and `RefreshIdentity` state for every interleaving.
- RefreshAnswers.RejectionRevokes: likewise.
- Other sessions: the refresh protocol is modelled for one session, whose row, flight and requests no other session touches. Flights are ids in a map, not shared handles.
- Whether each refresh token is sent at most once: a leader may act on a snapshot read before it acquired the flight, so it is not; stale leaders are proved harmless instead.
- Rows with only some of the version 2 columns NULL, which no statement writes.
- Shuffle.DrawBounded: a stream of words that never yields an accepted one has no result, because the original then draws for ever.
- The kinds of error the archive writer and parser report, and the creation of an archive from files on disk with hashes.
- WebSocketHeader.ExtensionsSplit: extension and parameter names, their uniqueness and the token alphabet are not modelled, only the splitting.
- Trimming of white space other than ASCII, which a header value that converts to text cannot hold.
- `Expires` and the other attributes of a Set-Cookie header.
- hyper, Tokio, rustls, reqwest and SQLite themselves; JWT, HMAC, SHA and zstd; timeouts, wakers and fairness.
- URL, CIDR and environment parsing, request and response construction, login pages, logging, the accept loop and process start-up, build and bundle tooling: they would add only easy members.
