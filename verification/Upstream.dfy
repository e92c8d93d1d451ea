/** Ownership of upstream sockets: admission permits (U), the idle pool,
    HTTP/1 owners, upgraded HTTP/1 connections, HTTP/2 generations published or
    private, retirement and cancellation, as one transition system. Sockets may
    close at any time. */
module Upstream {
  import opened Bytes
  import opened OwnerPool

  /** What the holder of one U permit is doing. */
  datatype Holder =
    | Requesting                              // admitted, between phases, no transport
    | Resolving                               // permit inside a blocking lookup, or its cleanup
    | Dialing(socket: Option<nat>)            // connect, TLS or handshake future
    | H1Owned(transport: nat)                 // active owner: request, latch or parking task
    | Tunneled(transport: nat)                // the server has switched protocols
    | H1Retiring(transport: nat, resume: bool) // driver aborted but not joined yet
    | Gated(transport: nat)                   // private gate before the SETTINGS proof
    | Exclusive(transport: nat)               // exchange on a private generation
    | Shared(transport: nat)                  // exchange on a published generation
    | Draining(transport: nat)                // permit waiting for the transport to drop
    | Forgotten(owned: Option<nat>)           // leaked on purpose at runtime teardown

  /** The transport a permit accounts for. */
  function Owns(h: Holder): Option<nat> {
    match h
    case Requesting => None
    case Resolving => None
    case Dialing(socket) => socket
    case H1Owned(t) => Some(t)
    case Tunneled(t) => Some(t)
    case H1Retiring(t, _) => Some(t)
    case Gated(t) => Some(t)
    case Exclusive(t) => Some(t)
    case Shared(_) => None
    case Draining(t) => Some(t)
    case Forgotten(owned) => owned
  }

  datatype Stage = Running | Stopped | Finished

  datatype Driver = Driver(published: bool, stage: Stage)

  /** An HTTP/1 connection after a 101 response. The driver hands the socket
      over and ends (`handed`); the socket then belongs to the receiving end,
      which is the response, the upgrade future or the bridge (`open`). `early`
      records that the exchange was reported while the receiving end was still
      there, `joined` that the driver has been joined. No flag is ever taken
      back, except that the receiving end goes away. */
  datatype Tunnel = Tunnel(handed: bool, open: bool, early: bool, joined: bool)

  /** `workers` is the number of threads that run tasks. */
  datatype Up = Up(
    limit: nat, workers: nat, free: nat, held: map<nat, Holder>, nextPermit: nat,
    pool: seq<Entry>, live: set<nat>, drivers: map<nat, Driver>, tunnels: map<nat, Tunnel>, nextTransport: nat)

  function Idle(limit: nat, workers: nat): Up { Up(limit, workers, limit, map[], 0, [], {}, map[], map[], 0) }

  /** Early reports whose receiving end is not dropped yet. From the report to
      the drop the code does not wait for anything, so each occupies a thread. */
  function Sections(tunnels: map<nat, Tunnel>): set<nat> {
    set t | t in tunnels && tunnels[t].early && tunnels[t].open
  }

  datatype Event =
    | Admit
    | Leave(p: nat)
    | LookUp(p: nat)
    | LookupJoined(p: nat, byRequest: bool)
    | Dial(p: nat)
    | SocketOpens(p: nat)
    | SocketLost(p: nat)
    | DialEnds(p: nat)
    | BecomesH1(p: nat)
    | EntersGate(p: nat)
    | LeavesGate(p: nat)
    | PassesGate(p: nat, selectable: bool)
    | Reserves(p: nat, generation: nat)
    | TakesIdle(p: nat)
    | FoundStale(p: nat)
    | ReselectionCancelled(p: nat)
    | EndsH1(p: nat)
    | Parks(p: nat)
    | DriverJoined(p: nat)
    | SwitchesProtocols(p: nat)
    | TunnelEnds(p: nat)                      // receiving end dropped, then reported
    | UpgradeFails(p: nat)                    // reported, receiving end dropped later
    | HandsOver(transport: nat)
    | ReceiverDrops(transport: nat)
    | EndsShared(p: nat)
    | EndsExclusive(p: nat)
    | Drained(p: nat)
    | Retires(generation: nat)
    | DriverStops(generation: nat)
    | SlotFreed(generation: nat)
    | Closes(transport: nat)
    | Forgets(p: nat)

  function Set(s: Up, p: nat, h: Holder): Up { s.(held := s.held[p := h]) }

  function Release(s: Up, p: nat): Up { s.(held := s.held - {p}, free := s.free + 1) }

  function Close(s: Up, t: Option<nat>): Up { if t.None? then s else s.(live := s.live - {t.value}) }

  function PutTunnel(s: Up, t: nat, x: Tunnel): Up { s.(tunnels := s.tunnels[t := x]) }

  /** The permit of an upgraded connection goes once the driver is joined. A
      driver that was aborted before handing over took the socket with it. */
  function JoinTunnel(s: Up, p: nat, t: nat): Up
    requires t in s.tunnels
  {
    var x := s.tunnels[t];
    Release(PutTunnel(if x.handed then s else Close(s, Some(t)), t, x.(joined := true)), p)
  }

  /** Events of a system part rather than of a permit's holder. */
  predicate OfSystem(e: Event) {
    e.Admit? || e.Retires? || e.DriverStops? || e.SlotFreed? || e.Closes? || e.HandsOver? || e.ReceiverDrops?
  }

  function Next(s: Up, e: Event): Up {
    match e
    case Admit =>
      if s.free == 0 then s
      else s.(free := s.free - 1, held := s.held[s.nextPermit := Requesting], nextPermit := s.nextPermit + 1)
    case Retires(g) =>
      if g in s.drivers && s.drivers[g].published then s.(pool := Retired(s.pool, g)) else s
    case DriverStops(g) =>
      if g !in s.drivers || s.drivers[g].stage != Running then s else
      s.(drivers := s.drivers[g := s.drivers[g].(stage := Stopped)],
         pool := if s.drivers[g].published then Retired(s.pool, g) else s.pool)
    case SlotFreed(g) =>
      if g !in s.drivers || s.drivers[g].stage != Stopped || g in s.live then s else
      s.(drivers := s.drivers[g := s.drivers[g].(stage := Finished)],
         pool := if s.drivers[g].published then Without(s.pool, RetiringH2(g)) else s.pool)
    case Closes(t) => s.(live := s.live - {t})
    case HandsOver(t) =>
      if t in s.tunnels && s.tunnels[t].open && !s.tunnels[t].joined then PutTunnel(s, t, s.tunnels[t].(handed := true)) else s
    case ReceiverDrops(t) =>
      if t !in s.tunnels || !s.tunnels[t].open then s else
      PutTunnel(if s.tunnels[t].handed then Close(s, Some(t)) else s, t, s.tunnels[t].(open := false))
    case _ => if e.p in s.held then Act(s, e, s.held[e.p]) else s
  }

  /** Events of the holder of one permit; an event that does not fit is none. */
  function Act(s: Up, e: Event, h: Holder): Up
    requires !OfSystem(e)
  {
    match h
    case Requesting => ActRequesting(s, e)
    case Resolving => ActResolving(s, e)
    case Dialing(socket) => ActDialing(s, e, socket)
    case H1Owned(t) => ActH1Owned(s, e, t)
    case Tunneled(t) => ActTunneled(s, e, t)
    case H1Retiring(t, resume) => ActH1Retiring(s, e, t, resume)
    case Gated(t) => ActGated(s, e, t)
    case Exclusive(t) => if e.EndsExclusive? then Set(s, e.p, Draining(t)) else s
    case Shared(_) => if e.EndsShared? then Release(s, e.p) else s
    case Draining(t) =>
      if e.Drained? then if t in s.live then s else Release(s, e.p)
      else if e.Forgets? then Set(s, e.p, Forgotten(Some(t))) else s
    case Forgotten(_) => s
  }

  function ActRequesting(s: Up, e: Event): Up
    requires !OfSystem(e)
  {
    match e
    case Leave(p) => Release(s, p)
    case LookUp(p) => Set(s, p, Resolving)
    case Dial(p) => Set(s, p, Dialing(None))
    case Reserves(p, g) => if g in s.drivers && s.drivers[g].published then Set(s, p, Shared(g)) else s
    case TakesIdle(p) =>
      var i := FirstH1(s.pool, 0);
      if i == |s.pool| then s
      else Set(s, p, H1Owned(s.pool[i].transport)).(pool := s.pool[..i] + s.pool[i + 1..])
    case _ => s
  }

  function ActResolving(s: Up, e: Event): Up
    requires !OfSystem(e)
  {
    match e
    case LookupJoined(p, byRequest) => if byRequest then Set(s, p, Requesting) else Release(s, p)
    case Forgets(p) => Set(s, p, Forgotten(None))
    case _ => s
  }

  function ActDialing(s: Up, e: Event, socket: Option<nat>): Up
    requires !OfSystem(e)
  {
    match e
    case SocketOpens(p) =>
      if socket.Some? then s else
      Set(s, p, Dialing(Some(s.nextTransport))).(live := s.live + {s.nextTransport}, nextTransport := s.nextTransport + 1)
    case SocketLost(p) => Set(Close(s, socket), p, Dialing(None))
    case DialEnds(p) => Release(Close(s, socket), p)
    case BecomesH1(p) => if socket.Some? then Set(s, p, H1Owned(socket.value)) else s
    case EntersGate(p) => if socket.Some? then Set(s, p, Gated(socket.value)) else s
    case _ => s
  }

  function ActH1Owned(s: Up, e: Event, t: nat): Up
    requires !OfSystem(e)
  {
    match e
    case FoundStale(p) => Set(s, p, H1Retiring(t, true))
    case EndsH1(p) => Set(s, p, H1Retiring(t, false))
    case Parks(p) =>
      if |s.pool| < CAPACITY then Release(s.(pool := s.pool + [H1(t)]), p) else Set(s, p, H1Retiring(t, false))
    case SwitchesProtocols(p) => PutTunnel(Set(s, p, Tunneled(t)), t, Tunnel(false, true, false, false))
    case _ => s
  }

  function ActTunneled(s: Up, e: Event, t: nat): Up
    requires !OfSystem(e)
  {
    if t !in s.tunnels then s else
    match e
    case TunnelEnds(p) => if s.tunnels[t].open then s else Set(s, p, H1Retiring(t, false))
    case UpgradeFails(p) =>
      if s.tunnels[t].open && |Sections(s.tunnels)| < s.workers
      then PutTunnel(Set(s, p, H1Retiring(t, false)), t, s.tunnels[t].(early := true)) else s
    case _ => s
  }

  function ActH1Retiring(s: Up, e: Event, t: nat, resume: bool): Up
    requires !OfSystem(e)
  {
    match e
    case ReselectionCancelled(p) => Set(s, p, H1Retiring(t, false))
    case DriverJoined(p) =>
      if t in s.tunnels then JoinTunnel(s, p, t)
      else if resume then Set(Close(s, Some(t)), p, Requesting) else Release(Close(s, Some(t)), p)
    case Forgets(p) => Set(s, p, Forgotten(Some(t)))
    case _ => s
  }

  function ActGated(s: Up, e: Event, t: nat): Up
    requires !OfSystem(e)
  {
    match e
    case LeavesGate(p) => Set(s, p, Draining(t))
    case PassesGate(p, selectable) =>
      if selectable && |s.pool| < CAPACITY
      then Set(s, p, Shared(t)).(pool := s.pool + [H2(t)], drivers := s.drivers[t := Driver(true, Running)])
      else Set(s, p, Exclusive(t)).(drivers := s.drivers[t := Driver(false, Running)])
    case _ => s
  }

  function Exec(s: Up, events: seq<Event>): Up
    decreases |events|
  {
    if events == [] then s else Exec(Next(s, events[0]), events[1..])
  }
}
