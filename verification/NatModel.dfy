/** The NAT box as an abstract state machine: one map of translations, the
    gateway leases and the allocation cursor. The port index the program keeps
    beside the translations is absent here; `NatBox` shows that it adds nothing. */
module NatModel {
  import opened Options

  type Port = p: int | 0 <= p < 0x1_0000

  /** A transport address; addresses are only ever compared. */
  datatype Endpoint = Endpoint(ip: nat, port: Port)

  datatype MappingKey = EndpointIndependent | DstPort | DstAddr | DstAddrPort

  datatype Allocator = Preserving | Sequential(stride: nat) | Random

  datatype Filtering = AnySource | AddressRestricted | PortRestricted

  datatype Config = Config(
    mapping: MappingKey,
    allocator: Allocator,
    filtering: Filtering,
    idle: nat,
    lo: Port,
    hi: Port)
  {
    /** A port range is given low end first. */
    predicate Ok() { lo <= hi }

    function Span(): (n: nat)
      requires Ok()
    {
      hi - lo + 1
    }

    predicate InPool(port: Port) { lo <= port <= hi }

    /** A zero stride is read as one; the preserving fallback also walks by one. */
    function Stride(): (n: nat)
      ensures n >= 1
    {
      if allocator.Sequential? && allocator.stride >= 1 then allocator.stride else 1
    }

    /** Number of draws the random allocator makes before it gives up. */
    function Tries(): (n: nat)
      requires Ok()
      ensures n >= 64 && n >= 2 * Span() && (n == 64 || n == 2 * Span())
    {
      if 2 * Span() > 64 then 2 * Span() else 64
    }
  }

  datatype MapKey = KeyAny | KeyPort(port: Port) | KeyAddr(ip: nat) | KeyAddrPort(ip: nat, port: Port)

  function KeyOf(mapping: MappingKey, dst: Endpoint): (k: MapKey)
  {
    match mapping
    case EndpointIndependent => KeyAny
    case DstPort => KeyPort(dst.port)
    case DstAddr => KeyAddr(dst.ip)
    case DstAddrPort => KeyAddrPort(dst.ip, dst.port)
  }

  datatype Slot = Slot(internal: Endpoint, key: MapKey)

  datatype Mapping = Mapping(internal: Endpoint, externalPort: Port, lastRefresh: nat, allowed: set<Endpoint>)

  datatype Lease = Lease(internal: Endpoint, expiresAt: nat)

  datatype DropReason = NoMapping | MappingExpired | Filtered | PortPoolExhausted

  datatype Result<+T> = Ok(value: T) | Err(reason: DropReason)

  /** How a datagram left: by a gateway lease, or by a translation that was
      either found or freshly allocated. */
  datatype Pass = Pass(external: Port, created: bool, pinned: bool)

  datatype Nat = Nat(mappings: map<Slot, Mapping>, leases: map<Port, Lease>, cursor: Port)

  predicate Expired(cfg: Config, m: Mapping, now: nat)
  {
    (if now >= m.lastRefresh then now - m.lastRefresh else 0) > cfg.idle
  }

  predicate LiveSlot(cfg: Config, a: Nat, now: nat, slot: Slot)
  {
    slot in a.mappings && !Expired(cfg, a.mappings[slot], now)
  }

  predicate LiveLease(a: Nat, now: nat, port: Port)
  {
    port in a.leases && now <= a.leases[port].expiresAt
  }

  function SlotsOn(a: Nat, port: Port): (s: set<Slot>)
  {
    set slot | slot in a.mappings && a.mappings[slot].externalPort == port
  }

  // ---- cleaning up -------------------------------------------------------

  function DropLease(a: Nat, port: Port): (b: Nat) { a.(leases := a.leases - {port}) }

  function DropSlots(a: Nat, gone: set<Slot>): (b: Nat) { a.(mappings := a.mappings - gone) }

  function ExpiredOn(cfg: Config, a: Nat, now: nat, port: Port): (s: set<Slot>)
  {
    set slot | slot in a.mappings && a.mappings[slot].externalPort == port && Expired(cfg, a.mappings[slot], now)
  }

  /** Forget whatever has run out on one port. */
  function Prune(cfg: Config, a: Nat, now: nat, port: Port): (b: Nat)
  {
    var a1 := if LiveLease(a, now, port) then a else DropLease(a, port);
    DropSlots(a1, ExpiredOn(cfg, a, now, port))
  }

  // ---- port availability and allocation ------------------------------------

  predicate LeaseBlocks(a: Nat, now: nat, port: Port, share: Option<Endpoint>)
  {
    LiveLease(a, now, port) && share != Some(a.leases[port].internal)
  }

  ghost predicate PortFree(cfg: Config, a: Nat, now: nat, port: Port, share: Option<Endpoint>)
  {
    && !LeaseBlocks(a, now, port, share)
    && forall slot | slot in a.mappings && a.mappings[slot].externalPort == port && LiveSlot(cfg, a, now, slot) ::
         share == Some(slot.internal)
  }

  /** Asking about a port also cleans it, unless a foreign lease ends the question early. */
  function Asked(cfg: Config, a: Nat, now: nat, port: Port, share: Option<Endpoint>): (b: Nat)
  {
    if LeaseBlocks(a, now, port, share) then a else Prune(cfg, a, now, port)
  }

  function NextCursor(cfg: Config, port: Port): (next: Port)
    requires cfg.Ok() && cfg.InPool(port)
    ensures cfg.InPool(next)
  {
    cfg.lo + (port - cfg.lo + cfg.Stride()) % cfg.Span()
  }

  /** Walk the pool from the cursor for at most `n` candidates. */
  ghost function Walk(cfg: Config, a: Nat, now: nat, n: nat): (r: (Nat, Option<Port>))
    requires cfg.Ok() && cfg.InPool(a.cursor)
    ensures cfg.InPool(r.0.cursor)
    decreases n
  {
    if n == 0 then (a, None)
    else
      var candidate := a.cursor;
      var a1 := a.(cursor := NextCursor(cfg, candidate));
      var a2 := Asked(cfg, a1, now, candidate, None);
      if PortFree(cfg, a1, now, candidate, None) then (a2, Some(candidate))
      else Walk(cfg, a2, now, n - 1)
  }

  /** Try the drawn ports in order. */
  ghost function Draw(cfg: Config, a: Nat, now: nat, draws: seq<Port>): (r: (Nat, Option<Port>))
    ensures r.0.cursor == a.cursor
    decreases |draws|
  {
    if draws == [] then (a, None)
    else
      var a1 := Asked(cfg, a, now, draws[0], None);
      if PortFree(cfg, a, now, draws[0], None) then (a1, Some(draws[0]))
      else Draw(cfg, a1, now, draws[1..])
  }

  predicate GoodDraws(cfg: Config, draws: seq<Port>)
  {
    cfg.Ok() && |draws| == cfg.Tries() && forall k :: 0 <= k < |draws| ==> cfg.InPool(draws[k])
  }

  ghost function Allocate(cfg: Config, a: Nat, now: nat, src: Endpoint, draws: seq<Port>): (r: (Nat, Option<Port>))
    requires cfg.Ok() && cfg.InPool(a.cursor)
    ensures cfg.InPool(r.0.cursor)
  {
    var own := cfg.allocator.Preserving? && cfg.InPool(src.port);
    if own && PortFree(cfg, a, now, src.port, Some(src)) then
      (Asked(cfg, a, now, src.port, Some(src)), Some(src.port))
    else
      var a1 := if own then Asked(cfg, a, now, src.port, Some(src)) else a;
      if cfg.allocator.Random? then Draw(cfg, a1, now, draws) else Walk(cfg, a1, now, cfg.Span())
  }

  // ---- outbound ------------------------------------------------------------

  predicate Pins(a: Nat, now: nat, src: Endpoint, port: Port)
  {
    LiveLease(a, now, port) && a.leases[port].internal == src
  }

  ghost predicate Pinned(a: Nat, now: nat, src: Endpoint)
  {
    exists port :: Pins(a, now, src, port)
  }

  ghost predicate IsPinnedPort(a: Nat, now: nat, src: Endpoint, port: Port)
  {
    Pins(a, now, src, port) && forall q :: Pins(a, now, src, q) ==> port <= q
  }

  lemma LowestPin(a: Nat, now: nat, src: Endpoint, port: Port) returns (low: Port)
    requires Pins(a, now, src, port)
    ensures IsPinnedPort(a, now, src, low)
    decreases port
  {
    if q: Port :| Pins(a, now, src, q) && q < port {
      low := LowestPin(a, now, src, q);
    } else {
      low := port;
    }
  }

  /** The lowest external port leased to `src`, as an ordered map yields it first. */
  ghost function PinnedPort(a: Nat, now: nat, src: Endpoint): (port: Port)
    requires Pinned(a, now, src)
    ensures IsPinnedPort(a, now, src, port)
  {
    var p :| Pins(a, now, src, p);
    assert exists low :: IsPinnedPort(a, now, src, low) by { var low := LowestPin(a, now, src, p); }
    var low :| IsPinnedPort(a, now, src, low);
    low
  }

  function Touch(m: Mapping, now: nat, dst: Endpoint): (r: Mapping)
  {
    m.(lastRefresh := now, allowed := m.allowed + {dst})
  }

  ghost function Outbound(cfg: Config, a: Nat, now: nat, src: Endpoint, dst: Endpoint, draws: seq<Port>)
    : (r: (Nat, Result<Pass>))
    requires cfg.Ok() && cfg.InPool(a.cursor)
    ensures cfg.InPool(r.0.cursor)
  {
    var slot := Slot(src, KeyOf(cfg.mapping, dst));
    if Pinned(a, now, src) then
      (a, Ok(Pass(PinnedPort(a, now, src), false, true)))
    else if LiveSlot(cfg, a, now, slot) then
      (a.(mappings := a.mappings[slot := Touch(a.mappings[slot], now, dst)]),
       Ok(Pass(a.mappings[slot].externalPort, false, false)))
    else
      var (a1, port) := Allocate(cfg, DropSlots(a, {slot}), now, src, draws);
      match port
      case None => (a1, Err(PortPoolExhausted))
      case Some(p) => (a1.(mappings := a1.mappings[slot := Mapping(src, p, now, {dst})]), Ok(Pass(p, true, false)))
  }

  // ---- inbound -------------------------------------------------------------

  predicate Passes(filtering: Filtering, allowed: set<Endpoint>, src: Endpoint)
  {
    match filtering
    case AnySource => true
    case AddressRestricted => exists e | e in allowed :: e.ip == src.ip
    case PortRestricted => src in allowed
  }

  predicate Admits(cfg: Config, a: Nat, now: nat, src: Endpoint, port: Port, slot: Slot)
  {
    LiveSlot(cfg, a, now, slot) && a.mappings[slot].externalPort == port
    && Passes(cfg.filtering, a.mappings[slot].allowed, src)
  }

  ghost function Verdict(cfg: Config, a: Nat, now: nat, src: Endpoint, port: Port): (r: Result<Endpoint>)
  {
    if LiveLease(a, now, port) then Ok(a.leases[port].internal)
    else if SlotsOn(a, port) == {} then Err(NoMapping)
    else if slot :| Admits(cfg, a, now, src, port, slot) then Ok(slot.internal)
    else if exists slot :: slot in SlotsOn(a, port) && LiveSlot(cfg, a, now, slot) then Err(Filtered)
    else Err(MappingExpired)
  }

  ghost function Inbound(cfg: Config, a: Nat, now: nat, src: Endpoint, dst: Endpoint): (r: (Nat, Result<Endpoint>))
    ensures r.0.cursor == a.cursor
  {
    (if LiveLease(a, now, dst.port) then a else Prune(cfg, a, now, dst.port), Verdict(cfg, a, now, src, dst.port))
  }

  // ---- gateway leases --------------------------------------------------------

  /** The ports tried for a new lease: the requested one, then the whole pool
      once round, starting from the requested port when it lies in the pool. */
  function Candidate(cfg: Config, requested: Port, k: nat): (port: Port)
    requires cfg.Ok()
    ensures k > 0 ==> cfg.InPool(port)
  {
    if k == 0 then requested
    else
      var base := if cfg.InPool(requested) then requested else cfg.lo;
      cfg.lo + (base - cfg.lo + (k - 1)) % cfg.Span()
  }

  ghost function LeaseFrom(cfg: Config, a: Nat, now: nat, internal: Endpoint, requested: Port, expiresAt: nat, k: nat)
    : (r: (Nat, Option<Port>))
    requires cfg.Ok() && k <= cfg.Span() + 1
    ensures r.0.cursor == a.cursor
    decreases cfg.Span() + 1 - k
  {
    if k == cfg.Span() + 1 then (a, None)
    else
      var port := Candidate(cfg, requested, k);
      if LiveLease(a, now, port) then LeaseFrom(cfg, a, now, internal, requested, expiresAt, k + 1)
      else
        var a1 := Prune(cfg, a, now, port);
        if PortFree(cfg, a, now, port, Some(internal)) then
          (a1.(leases := a1.leases[port := Lease(internal, expiresAt)]), Some(port))
        else LeaseFrom(cfg, a1, now, internal, requested, expiresAt, k + 1)
  }

  ghost function Install(cfg: Config, a: Nat, now: nat, internal: Endpoint, requested: Port, lifetime: nat)
    : (r: (Nat, Option<Port>))
    requires cfg.Ok()
    ensures r.0.cursor == a.cursor
  {
    if requested in a.leases && a.leases[requested].internal == internal then
      (a.(leases := a.leases[requested := Lease(internal, now + lifetime)]), Some(requested))
    else LeaseFrom(cfg, a, now, internal, requested, now + lifetime, 0)
  }

  function Remove(a: Nat, internal: Endpoint, port: Port): (b: Nat)
  {
    if port in a.leases && a.leases[port].internal == internal then DropLease(a, port) else a
  }

  // ---- whole runs ------------------------------------------------------------

  datatype Event =
    | Send(now: nat, src: Endpoint, dst: Endpoint, draws: seq<Port>)
    | Receive(now: nat, src: Endpoint, dst: Endpoint)
    | Grant(now: nat, internal: Endpoint, requested: Port, lifetime: nat)
    | Revoke(now: nat, internal: Endpoint, port: Port)

  ghost function Step(cfg: Config, a: Nat, e: Event): (b: Nat)
    requires cfg.Ok() && cfg.InPool(a.cursor)
    ensures cfg.InPool(b.cursor)
  {
    match e
    case Send(now, src, dst, draws) => Outbound(cfg, a, now, src, dst, draws).0
    case Receive(now, src, dst) => Inbound(cfg, a, now, src, dst).0
    case Grant(now, internal, requested, lifetime) => Install(cfg, a, now, internal, requested, lifetime).0
    case Revoke(_, internal, port) => Remove(a, internal, port)
  }

  function Fresh(cfg: Config): (a: Nat) { Nat(map[], map[], cfg.lo) }

  /** The state after a run, counted from a new box. */
  ghost function Run(cfg: Config, es: seq<Event>): (a: Nat)
    requires cfg.Ok()
    ensures cfg.InPool(a.cursor)
    decreases |es|
  {
    if es == [] then Fresh(cfg) else Step(cfg, Run(cfg, es[..|es| - 1]), es[|es| - 1])
  }

  /** The clock never goes back. */
  predicate Ordered(es: seq<Event>) { forall i, j :: 0 <= i < j < |es| ==> es[i].now <= es[j].now }
}
