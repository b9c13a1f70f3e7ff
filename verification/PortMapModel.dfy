/** The port-mapping ladder as a state machine: PCP, then NAT-PMP, then UPnP, and the
    v6 pinhole beside it. Times are in milliseconds. What the gateway's bytes say is
    decided by the parsers, which are inputs here. */
module PortMapModel {
  import opened Options

  const STEP_TIMEOUT: nat := 2000
  const STEP_ATTEMPTS: nat := 2
  const TCP_TIMEOUT: nat := 4000
  const LADDER_RETRY: nat := 60000
  const REQUEST_LIFETIME_SECS: nat := 3600
  const MIN_LEASE_SECS: nat := 15
  const MAX_HTTP_RESPONSE: nat := 65536

  datatype Address = Address(ip: nat, port: nat)

  datatype Protocol = ByPcp | ByNatPmp | ByUpnp

  datatype Mapped = Mapped(protocol: Protocol, external: Address, leaseSecs: nat, grantedAt: nat)
  {
    predicate Expired(now: nat) { now >= grantedAt + leaseSecs * 1000 }
  }

  datatype Phase =
    | Idle(at: nat)
    | Pcp(attempt: nat, deadline: nat)
    | NatPmpExternal(attempt: nat, deadline: nat)
    | NatPmpMap(attempt: nat, deadline: nat, externalIp: nat)
    | Ssdp(attempt: nat, deadline: nat)
    | UpnpDescribe(conn: nat, deadline: nat)
    | UpnpExternal(conn: nat, deadline: nat)
    | UpnpMap(conn: nat, deadline: nat, externalIp: nat)
  {
    predicate Upnp() { UpnpDescribe? || UpnpExternal? || UpnpMap? }

    /** When the phase wants to be driven next. */
    function Due(): (n: nat) { if Idle? then at else deadline }
  }

  datatype PinPhase = Off | Resting(at: nat) | Waiting(attempt: nat, deadline: nat)

  /** What an HTTP answer says, as far as the ladder asks. */
  datatype Page = Page(ok: bool, control: Option<string>, externalIp: Option<nat>, added: bool)

  datatype Config = Config(gatewayIp: nat, internalPort: nat, hasV6: bool,
                           complete: seq<bv8> -> bool, parse: seq<bv8> -> Option<Page>)

  /** `open` are the TCP connections that neither end has closed. */
  datatype State = State(
    bound: bool, nonce: nat, nonceV6: nat,
    phase: Phase, mapped: Option<Mapped>, pin: PinPhase, pinhole: Option<Mapped>,
    endpoint: Option<Address>, path: string, control: Option<string>, buf: seq<bv8>,
    malformed: nat, denials: nat, open: set<nat>)

  /** What the environment answers during one call: the clock, the nonces drawn if a
      socket is bound for the ladder or for the pinhole, and a new connection. */
  datatype Env = Env(now: nat, bind: Option<(nat, nat)>, bindPin: Option<(nat, nat)>, conn: Option<nat>)

  datatype PcpAnswer = PcpAnswer(nonce: nat, result: nat, lifetimeSecs: nat, external: Address)
  {
    predicate Refused() { result != 0 || lifetimeSecs < MIN_LEASE_SECS }
  }

  /** A datagram as each of the parsers reads it. */
  datatype Datagram = Datagram(
    fromIp: nat, pcp: Option<PcpAnswer>, natPmpExternal: Option<(nat, nat)>,
    natPmpMap: Option<(nat, nat, nat)>, ssdp: Option<(Address, string)>)

  datatype TcpEvent = Connected(id: nat) | Data(id: nat, bytes: seq<bv8>) | Closed(id: nat)

  function Fresh(cfg: Config, now: nat): (next: State)
  {
    State(false, 0, 0, Idle(now), None, if cfg.hasV6 then Resting(now) else Off, None, None, "", None, [], 0, 0, {})
  }

  // ---- requests --------------------------------------------------------------------

  function EnsureSocket(s: State, bind: Option<(nat, nat)>): (next: State)
  {
    if !s.bound && bind.Some? then s.(bound := true, nonce := bind.value.0, nonceV6 := bind.value.1) else s
  }

  function LadderFailed(s: State, now: nat): (next: State) { s.(phase := Idle(now + LADDER_RETRY)) }

  /** Enter a rung that speaks UDP, or give up if no socket can be had. */
  function Enter(s: State, env: Env, phase: Phase): (next: State)
  {
    var t := EnsureSocket(s, env.bind);
    if t.bound then t.(phase := phase) else LadderFailed(t, env.now)
  }

  function SendPcp(s: State, env: Env, attempt: nat): (next: State)
  {
    Enter(s, env, Pcp(attempt, env.now + STEP_TIMEOUT))
  }

  function SendNatPmpExternal(s: State, env: Env, attempt: nat): (next: State)
  {
    Enter(s, env, NatPmpExternal(attempt, env.now + STEP_TIMEOUT))
  }

  function SendNatPmpMap(s: State, env: Env, attempt: nat, ip: nat): (next: State)
  {
    Enter(s, env, NatPmpMap(attempt, env.now + STEP_TIMEOUT, ip))
  }

  function SendSsdp(s: State, env: Env, attempt: nat): (next: State)
  {
    Enter(s, env, Ssdp(attempt, env.now + STEP_TIMEOUT))
  }

  /** The state with the new connection open; `None` if there is none to be had. */
  function OpenHttp(s: State, env: Env): (r: Option<State>)
  {
    if s.endpoint.None? || env.conn.None? then None
    else Some(s.(buf := [], open := s.open + {env.conn.value}))
  }

  function SendDescribe(s: State, env: Env): (next: State)
  {
    match OpenHttp(s, env)
    case None => LadderFailed(s, env.now)
    case Some(t) => t.(phase := UpnpDescribe(env.conn.value, env.now + TCP_TIMEOUT))
  }

  function SendExternal(s: State, env: Env, control: string): (next: State)
  {
    match OpenHttp(s, env)
    case None => LadderFailed(s, env.now)
    case Some(t) => t.(control := Some(control), phase := UpnpExternal(env.conn.value, env.now + TCP_TIMEOUT))
  }

  function SendMap(s: State, env: Env, control: string, ip: nat): (next: State)
  {
    match OpenHttp(s, env)
    case None => LadderFailed(s, env.now)
    case Some(t) => t.(control := Some(control), phase := UpnpMap(env.conn.value, env.now + TCP_TIMEOUT, ip))
  }

  // ---- the timer ---------------------------------------------------------------------

  function Withdraw(s: State, now: nat): (next: State)
  {
    s.(mapped := if s.mapped.Some? && s.mapped.value.Expired(now) then None else s.mapped,
       pinhole := if s.pinhole.Some? && s.pinhole.value.Expired(now) then None else s.pinhole)
  }

  /** The full ladder, or the rung that granted the mapping to renew. */
  function Start(s: State, env: Env): (next: State)
  {
    match s.mapped
    case None => SendPcp(s, env, 0)
    case Some(m) =>
      match m.protocol
      case ByPcp => SendPcp(s, env, 0)
      case ByNatPmp => SendNatPmpMap(s, env, 0, m.external.ip)
      case ByUpnp =>
        if s.endpoint.Some? && s.control.Some? then SendMap(s, env, s.control.value, m.external.ip)
        else SendSsdp(s, env, 0)
  }

  /** The next rung when the current one has not answered by its deadline. */
  function Overdue(s: State, env: Env): (next: State)
  {
    match s.phase
    case Idle(_) => Start(s, env)
    case Pcp(a, _) => if a + 1 < STEP_ATTEMPTS then SendPcp(s, env, a + 1) else SendNatPmpExternal(s, env, 0)
    case NatPmpExternal(a, _) =>
      if a + 1 < STEP_ATTEMPTS then SendNatPmpExternal(s, env, a + 1) else SendSsdp(s, env, 0)
    case NatPmpMap(a, _, ip) =>
      if a + 1 < STEP_ATTEMPTS then SendNatPmpMap(s, env, a + 1, ip) else SendSsdp(s, env, 0)
    case Ssdp(a, _) => if a + 1 < STEP_ATTEMPTS then SendSsdp(s, env, a + 1) else LadderFailed(s, env.now)
    case UpnpDescribe(conn, _) => LadderFailed(s.(open := s.open - {conn}, buf := []), env.now)
    case UpnpExternal(conn, _) => LadderFailed(s.(open := s.open - {conn}, buf := []), env.now)
    case UpnpMap(conn, _, _) => LadderFailed(s.(open := s.open - {conn}, buf := []), env.now)
  }

  function DrivePhase(s: State, env: Env): (next: State) { if env.now >= s.phase.Due() then Overdue(s, env) else s }

  function SendPinhole(s: State, env: Env, attempt: nat): (next: State)
  {
    var t := EnsureSocket(s, env.bindPin);
    t.(pin := if t.bound then Waiting(attempt, env.now + STEP_TIMEOUT) else Resting(env.now + LADDER_RETRY))
  }

  function DrivePinhole(cfg: Config, s: State, env: Env): (next: State)
  {
    if !cfg.hasV6 then s
    else
      match s.pin
      case Off => s
      case Resting(at) => if env.now >= at then SendPinhole(s, env, 0) else s
      case Waiting(a, deadline) =>
        if env.now < deadline then s
        else if a + 1 < STEP_ATTEMPTS then SendPinhole(s, env, a + 1)
        else s.(pin := Resting(env.now + LADDER_RETRY))
  }

  function OnTimer(cfg: Config, s: State, env: Env): (next: State)
  {
    DrivePinhole(cfg, DrivePhase(Withdraw(s, env.now), env), env)
  }

  /** The next moment at which the machine wants its timer. */
  function PollTimeout(s: State): (n: nat)
  {
    match s.pin
    case Off => s.phase.Due()
    case Resting(at) => if at < s.phase.Due() then at else s.phase.Due()
    case Waiting(_, deadline) => if deadline < s.phase.Due() then deadline else s.phase.Due()
  }

  // ---- answers -----------------------------------------------------------------------

  function Granted(s: State, now: nat, protocol: Protocol, external: Address, leaseSecs: nat): (next: State)
  {
    s.(mapped := Some(Mapped(protocol, external, leaseSecs, now)), phase := Idle(now + leaseSecs * 500))
  }

  function Malformed(s: State): (next: State) { s.(malformed := s.malformed + 1) }

  function Denied(s: State): (next: State) { s.(denials := s.denials + 1) }

  function PinholeAnswered(s: State, now: nat, r: PcpAnswer): (next: State)
  {
    if r.Refused() then Denied(s).(pin := Resting(now + LADDER_RETRY))
    else s.(pinhole := Some(Mapped(ByPcp, r.external, r.lifetimeSecs, now)), pin := Resting(now + r.lifetimeSecs * 500))
  }

  function PcpAnswered(s: State, env: Env, d: Datagram): (next: State)
  {
    match d.pcp
    case None => Malformed(s)
    case Some(r) =>
      if r.nonce != s.nonce then s
      else if r.Refused() then SendNatPmpExternal(Denied(s), env, 0)
      else Granted(s, env.now, ByPcp, r.external, r.lifetimeSecs)
  }

  function ExternalAnswered(s: State, env: Env, d: Datagram): (next: State)
  {
    match d.natPmpExternal
    case None => Malformed(s)
    case Some((result, ip)) => if result != 0 then SendSsdp(Denied(s), env, 0) else SendNatPmpMap(s, env, 0, ip)
  }

  function MapAnswered(s: State, env: Env, d: Datagram, ip: nat): (next: State)
  {
    match d.natPmpMap
    case None => Malformed(s)
    case Some((result, port, secs)) =>
      if result != 0 || secs < MIN_LEASE_SECS then SendSsdp(Denied(s), env, 0)
      else Granted(s, env.now, ByNatPmp, Address(ip, port), secs)
  }

  function SsdpAnswered(cfg: Config, s: State, env: Env, d: Datagram): (next: State)
  {
    match d.ssdp
    case None => Malformed(s)
    case Some((endpoint, path)) =>
      if endpoint.ip != cfg.gatewayIp then Malformed(s)
      else SendDescribe(s.(endpoint := Some(endpoint), path := path), env)
  }

  function OnDatagram(cfg: Config, s: State, env: Env, d: Datagram): (next: State)
  {
    if d.fromIp != cfg.gatewayIp then s
    else if d.pcp.Some? && d.pcp.value.nonce == s.nonceV6 then PinholeAnswered(s, env.now, d.pcp.value)
    else
      match s.phase
      case Pcp(_, _) => PcpAnswered(s, env, d)
      case NatPmpExternal(_, _) => ExternalAnswered(s, env, d)
      case NatPmpMap(_, _, ip) => MapAnswered(s, env, d, ip)
      case Ssdp(_, _) => SsdpAnswered(cfg, s, env, d)
      case _ => s
  }

  function FinishHttp(cfg: Config, s: State, env: Env): (next: State)
  {
    var page, t := cfg.parse(s.buf), s.(buf := []);
    if page.None? then LadderFailed(Malformed(t), env.now)
    else
      var p := page.value;
      match s.phase
      case UpnpDescribe(_, _) =>
        if p.ok && p.control.Some? then SendExternal(t, env, p.control.value) else LadderFailed(Malformed(t), env.now)
      case UpnpExternal(_, _) =>
        if p.ok && p.externalIp.Some? && s.control.Some? then SendMap(t, env, s.control.value, p.externalIp.value)
        else LadderFailed(Malformed(t), env.now)
      case UpnpMap(_, _, ip) =>
        if p.ok && p.added then Granted(t, env.now, ByUpnp, Address(ip, cfg.internalPort), REQUEST_LIFETIME_SECS)
        else LadderFailed(Denied(t), env.now)
      case _ => t
  }

  function OnTcpEvent(cfg: Config, s: State, env: Env, e: TcpEvent): (next: State)
  {
    if !s.phase.Upnp() || e.id != s.phase.conn then s
    else
      match e
      case Connected(_) => s
      case Data(id, bytes) =>
        var t := s.(buf := s.buf + bytes);
        if |t.buf| > MAX_HTTP_RESPONSE then LadderFailed(Malformed(t.(open := t.open - {id}, buf := [])), env.now)
        else if cfg.complete(t.buf) then FinishHttp(cfg, t.(open := t.open - {id}), env)
        else t
      case Closed(id) =>
        var t := s.(open := s.open - {id});
        if cfg.parse(t.buf).Some? then FinishHttp(cfg, t, env) else LadderFailed(t.(buf := []), env.now)
  }
}
