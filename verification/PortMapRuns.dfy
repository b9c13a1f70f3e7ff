/** How long the ladder can take, whatever the gateway answers, and when its timer is
    sure to lie ahead. */
module PortMapRuns {
  import opened Options
  import opened PortMapModel

  datatype Event = Timer(env: Env) | Received(env: Env, d: Datagram) | Tcp(env: Env, e: TcpEvent)

  function Step(cfg: Config, s: State, event: Event): (next: State)
  {
    match event
    case Timer(env) => OnTimer(cfg, s, env)
    case Received(env, d) => OnDatagram(cfg, s, env, d)
    case Tcp(env, e) => OnTcpEvent(cfg, s, env, e)
  }

  function Run(cfg: Config, s: State, events: seq<Event>): (next: State)
    decreases |events|
  {
    if events == [] then s else Run(cfg, Step(cfg, s, events[0]), events[1..])
  }

  // ---- what every step keeps -----------------------------------------------------------

  /** Soundness apart from the phase: UPnP only ever talks to the gateway, the buffer is
      bounded, no lease is too short, and a UPnP mapping can be renewed over UPnP. */
  predicate Base(cfg: Config, s: State)
  {
    && (s.endpoint.Some? ==> s.endpoint.value.ip == cfg.gatewayIp)
    && |s.buf| <= MAX_HTTP_RESPONSE
    && (s.mapped.Some? ==> s.mapped.value.leaseSecs >= MIN_LEASE_SECS)
    && (s.pinhole.Some? ==> s.pinhole.value.leaseSecs >= MIN_LEASE_SECS)
    && (s.pin.Waiting? ==> s.pin.attempt < STEP_ATTEMPTS)
    && (s.mapped.Some? && s.mapped.value.protocol.ByUpnp? ==> s.endpoint.Some? && s.control.Some?)
  }

  /** Soundness of the phase: retransmits are bounded, UPnP has exactly its own connection
      open, and outside UPnP nothing is open or buffered. */
  predicate PhaseSound(s: State)
  {
    if s.phase.Upnp() then
      s.endpoint.Some? && s.open == {s.phase.conn} && (s.phase.UpnpDescribe? || s.control.Some?)
    else
      Quiet(s) && (s.phase.Idle? || (s.phase.attempt < STEP_ATTEMPTS && s.bound))
  }

  predicate Quiet(s: State) { s.open == {} && s.buf == [] }

  predicate Sound(cfg: Config, s: State) { Base(cfg, s) && PhaseSound(s) }

  lemma EnterSound(cfg: Config, s: State, env: Env, phase: Phase)
    requires Base(cfg, s) && Quiet(s)
    requires !phase.Idle? && !phase.Upnp() && phase.attempt < STEP_ATTEMPTS
    ensures Sound(cfg, Enter(s, env, phase))
  {
  }

  lemma DescribeSound(cfg: Config, s: State, env: Env)
    requires Base(cfg, s) && Quiet(s)
    ensures Sound(cfg, SendDescribe(s, env))
  {
  }

  lemma ExternalSound(cfg: Config, s: State, env: Env, control: string)
    requires Base(cfg, s) && Quiet(s)
    ensures Sound(cfg, SendExternal(s, env, control))
  {
  }

  lemma MapSound(cfg: Config, s: State, env: Env, control: string, ip: nat)
    requires Base(cfg, s) && Quiet(s)
    ensures Sound(cfg, SendMap(s, env, control, ip))
  {
  }

  lemma StartSound(cfg: Config, s: State, env: Env)
    requires Base(cfg, s) && Quiet(s)
    ensures Sound(cfg, Start(s, env))
  {
    if s.mapped.None? || s.mapped.value.protocol.ByPcp? {
      EnterSound(cfg, s, env, Pcp(0, env.now + STEP_TIMEOUT));
    } else if s.mapped.value.protocol.ByNatPmp? {
      EnterSound(cfg, s, env, NatPmpMap(0, env.now + STEP_TIMEOUT, s.mapped.value.external.ip));
    } else {
      MapSound(cfg, s, env, s.control.value, s.mapped.value.external.ip);
    }
  }

  lemma HangUpSound(cfg: Config, s: State, env: Env, conn: nat)
    requires Base(cfg, s) && s.open == {conn}
    ensures Sound(cfg, LadderFailed(s.(open := s.open - {conn}, buf := []), env.now))
  {
  }

  lemma OverdueSound(cfg: Config, s: State, env: Env)
    requires Sound(cfg, s)
    ensures Sound(cfg, Overdue(s, env))
  {
    var due := env.now + STEP_TIMEOUT;
    if s.phase.Upnp() {
      HangUpSound(cfg, s, env, s.phase.conn);
    } else if s.phase.Idle? {
      StartSound(cfg, s, env);
    } else if s.phase.Pcp? {
      EnterSound(cfg, s, env, if s.phase.attempt == 0 then Pcp(1, due) else NatPmpExternal(0, due));
    } else if s.phase.NatPmpExternal? {
      EnterSound(cfg, s, env, if s.phase.attempt == 0 then NatPmpExternal(1, due) else Ssdp(0, due));
    } else if s.phase.NatPmpMap? {
      EnterSound(cfg, s, env, if s.phase.attempt == 0 then NatPmpMap(1, due, s.phase.externalIp) else Ssdp(0, due));
    } else if s.phase.attempt == 0 {
      EnterSound(cfg, s, env, Ssdp(1, due));
    }
  }

  lemma TimerSound(cfg: Config, s: State, env: Env)
    requires Sound(cfg, s)
    ensures Sound(cfg, OnTimer(cfg, s, env))
  {
    var w := Withdraw(s, env.now);
    assert Sound(cfg, w);
    OverdueSound(cfg, w, env);
    PinholeSound(cfg, DrivePhase(w, env), env);
  }

  lemma PinholeSound(cfg: Config, s: State, env: Env)
    requires Sound(cfg, s)
    ensures Sound(cfg, DrivePinhole(cfg, s, env))
  {
  }

  /** Counters do not matter to soundness, and the wake-up of an idle machine neither. */
  lemma CountersSound(cfg: Config, s: State)
    requires Sound(cfg, s)
    ensures Sound(cfg, Malformed(s)) && Sound(cfg, Denied(s))
  {
  }

  lemma GrantedSound(cfg: Config, s: State, now: nat, protocol: Protocol, external: Address, secs: nat)
    requires Base(cfg, s) && Quiet(s) && secs >= MIN_LEASE_SECS &&
        (protocol.ByUpnp? ==> s.endpoint.Some? && s.control.Some?)
    ensures Sound(cfg, Granted(s, now, protocol, external, secs))
  {
  }

  lemma PinholeAnsweredSound(cfg: Config, s: State, now: nat, r: PcpAnswer)
    requires Sound(cfg, s)
    ensures Sound(cfg, PinholeAnswered(s, now, r))
  {
  }

  lemma PcpAnsweredSound(cfg: Config, s: State, env: Env, d: Datagram)
    requires Sound(cfg, s) && Quiet(s)
    ensures Sound(cfg, PcpAnswered(s, env, d))
  {
    CountersSound(cfg, s);
    if d.pcp.Some? {
      var r := d.pcp.value;
      if r.Refused() {
        EnterSound(cfg, Denied(s), env, NatPmpExternal(0, env.now + STEP_TIMEOUT));
      } else {
        GrantedSound(cfg, s, env.now, ByPcp, r.external, r.lifetimeSecs);
      }
    }
  }

  lemma ExternalAnsweredSound(cfg: Config, s: State, env: Env, d: Datagram)
    requires Sound(cfg, s) && Quiet(s)
    ensures Sound(cfg, ExternalAnswered(s, env, d))
  {
    CountersSound(cfg, s);
    if d.natPmpExternal.Some? {
      if d.natPmpExternal.value.0 != 0 {
        EnterSound(cfg, Denied(s), env, Ssdp(0, env.now + STEP_TIMEOUT));
      } else {
        EnterSound(cfg, s, env, NatPmpMap(0, env.now + STEP_TIMEOUT, d.natPmpExternal.value.1));
      }
    }
  }

  lemma MapAnsweredSound(cfg: Config, s: State, env: Env, d: Datagram, ip: nat)
    requires Sound(cfg, s) && Quiet(s)
    ensures Sound(cfg, MapAnswered(s, env, d, ip))
  {
    CountersSound(cfg, s);
    if d.natPmpMap.Some? {
      var (result, port, secs) := d.natPmpMap.value;
      if result != 0 || secs < MIN_LEASE_SECS {
        EnterSound(cfg, Denied(s), env, Ssdp(0, env.now + STEP_TIMEOUT));
      } else {
        GrantedSound(cfg, s, env.now, ByNatPmp, Address(ip, port), secs);
      }
    }
  }

  lemma SsdpAnsweredSound(cfg: Config, s: State, env: Env, d: Datagram)
    requires Sound(cfg, s) && Quiet(s)
    ensures Sound(cfg, SsdpAnswered(cfg, s, env, d))
  {
    CountersSound(cfg, s);
    if d.ssdp.Some? && d.ssdp.value.0.ip == cfg.gatewayIp {
      DescribeSound(cfg, s.(endpoint := Some(d.ssdp.value.0), path := d.ssdp.value.1), env);
    }
  }

  lemma DatagramSound(cfg: Config, s: State, env: Env, d: Datagram)
    requires Sound(cfg, s)
    ensures Sound(cfg, OnDatagram(cfg, s, env, d))
  {
    if d.pcp.Some? && d.pcp.value.nonce == s.nonceV6 {
      PinholeAnsweredSound(cfg, s, env.now, d.pcp.value);
    } else {
      match s.phase
      case Pcp(_, _) => PcpAnsweredSound(cfg, s, env, d);
      case NatPmpExternal(_, _) => ExternalAnsweredSound(cfg, s, env, d);
      case NatPmpMap(_, _, ip) => MapAnsweredSound(cfg, s, env, d, ip);
      case Ssdp(_, _) => SsdpAnsweredSound(cfg, s, env, d);
      case _ =>
    }
  }

  /** An answer that has been read whole: its connection is closed. */
  lemma FinishSound(cfg: Config, s: State, env: Env)
    requires Base(cfg, s) && s.open == {} && s.phase.Upnp() && s.endpoint.Some? &&
        (s.phase.UpnpDescribe? || s.control.Some?)
    ensures Sound(cfg, FinishHttp(cfg, s, env))
  {
    var page, t := cfg.parse(s.buf), s.(buf := []);
    if page.Some? {
      var p := page.value;
      if s.phase.UpnpDescribe? {
        if p.control.Some? { ExternalSound(cfg, t, env, p.control.value); }
      } else if s.phase.UpnpExternal? {
        if p.externalIp.Some? { MapSound(cfg, t, env, s.control.value, p.externalIp.value); }
      }
    }
  }

  lemma TcpSound(cfg: Config, s: State, env: Env, e: TcpEvent)
    requires Sound(cfg, s)
    ensures Sound(cfg, OnTcpEvent(cfg, s, env, e))
  {
    if s.phase.Upnp() && e.id == s.phase.conn {
      if e.Data? {
        if |s.buf + e.bytes| <= MAX_HTTP_RESPONSE {
          FinishSound(cfg, s.(buf := s.buf + e.bytes).(open := s.open - {e.id}), env);
        }
      } else if e.Closed? {
        FinishSound(cfg, s.(open := s.open - {e.id}), env);
      }
    }
  }

  /** Every event keeps the state sound. */
  lemma StepKeepsSound(cfg: Config, s: State, event: Event)
    requires Sound(cfg, s)
    ensures Sound(cfg, Step(cfg, s, event))
  {
    match event
    case Timer(env) => TimerSound(cfg, s, env);
    case Received(env, d) => DatagramSound(cfg, s, env, d);
    case Tcp(env, e) => TcpSound(cfg, s, env, e);
  }

  lemma {:induction false} RunSound(cfg: Config, s: State, events: seq<Event>)
    requires Sound(cfg, s)
    ensures Sound(cfg, Run(cfg, s, events))
    decreases |events|
  {
    if events != [] {
      StepKeepsSound(cfg, s, events[0]);
      RunSound(cfg, Step(cfg, s, events[0]), events[1..]);
    }
  }

  /** After any run a renewal starts on the rung of the protocol that granted the mapping,
      for the address it granted: a UPnP gateway is never searched for again. */
  lemma RenewalResumes(cfg: Config, start: nat, events: seq<Event>, env: Env)
    requires var s := Run(cfg, Fresh(cfg, start), events); s.mapped.Some? && s.bound && env.conn.Some?
    ensures var s := Run(cfg, Fresh(cfg, start), events);
            var p, m := Start(s, env).phase, s.mapped.value;
            match m.protocol
            case ByPcp => p == Pcp(0, env.now + STEP_TIMEOUT)
            case ByNatPmp => p == NatPmpMap(0, env.now + STEP_TIMEOUT, m.external.ip)
            case ByUpnp => p == UpnpMap(env.conn.value, env.now + TCP_TIMEOUT, m.external.ip)
  {
    RunSound(cfg, Fresh(cfg, start), events);
  }

  // ---- the ladder ----------------------------------------------------------------------

  /** The place of a phase on the ladder, counting each retransmit as a rung. */
  function Rung(p: Phase): (n: nat)
  {
    match p
    case Idle(_) => 0
    case Pcp(a, _) => 1 + a
    case NatPmpExternal(a, _) => 3 + a
    case NatPmpMap(a, _, _) => 5 + a
    case Ssdp(a, _) => 7 + a
    case UpnpDescribe(_, _) => 9
    case UpnpExternal(_, _) => 10
    case UpnpMap(_, _, _) => 11
  }

  /** The time that the rungs after this one may still take. */
  function Remaining(p: Phase): (n: int)
  {
    match p
    case Idle(_) => 0
    case Pcp(a, _) => (STEP_ATTEMPTS - 1 - a) * STEP_TIMEOUT + 3 * STEP_ATTEMPTS * STEP_TIMEOUT + 3 * TCP_TIMEOUT
    case NatPmpExternal(a, _) => (STEP_ATTEMPTS - 1 - a) * STEP_TIMEOUT + 2 * STEP_ATTEMPTS * STEP_TIMEOUT +
      3 * TCP_TIMEOUT
    case NatPmpMap(a, _, _) => (STEP_ATTEMPTS - 1 - a) * STEP_TIMEOUT + STEP_ATTEMPTS * STEP_TIMEOUT + 3 * TCP_TIMEOUT
    case Ssdp(a, _) => (STEP_ATTEMPTS - 1 - a) * STEP_TIMEOUT + 3 * TCP_TIMEOUT
    case UpnpDescribe(_, _) => 2 * TCP_TIMEOUT
    case UpnpExternal(_, _) => TCP_TIMEOUT
    case UpnpMap(_, _, _) => 0
  }

  /** The whole ladder: four datagram exchanges and three HTTP ones. */
  const LADDER_TIME: nat := 4 * STEP_ATTEMPTS * STEP_TIMEOUT + 3 * TCP_TIMEOUT

  /** When this ladder is over at the latest. */
  function Latest(p: Phase): (n: int) { p.Due() + Remaining(p) }

  /** One event leaves the phase alone, ends the ladder or climbs, never going back or
      allowing itself more time than was left. */
  predicate Climbs(p: Phase, q: Phase)
  {
    q == p || q.Idle? || (Rung(q) > Rung(p) && Latest(q) <= Latest(p))
  }

  lemma EnterClimbs(s: State, env: Env, p: Phase, q: Phase)
    requires !p.Idle? && Rung(q) > Rung(p) && Latest(q) <= Latest(p)
    ensures Climbs(p, Enter(s, env, q).phase) && Enter(s, env, q).phase != p
  {
  }

  lemma OverdueClimbs(cfg: Config, s: State, env: Env)
    requires Sound(cfg, s) && !s.phase.Idle? && env.now == s.phase.deadline
    ensures Climbs(s.phase, Overdue(s, env).phase) && Overdue(s, env).phase != s.phase
  {
    var p, due := s.phase, env.now + STEP_TIMEOUT;
    if p.Pcp? {
      EnterClimbs(s, env, p, if p.attempt == 0 then Pcp(1, due) else NatPmpExternal(0, due));
    } else if p.NatPmpExternal? {
      EnterClimbs(s, env, p, if p.attempt == 0 then NatPmpExternal(1, due) else Ssdp(0, due));
    } else if p.NatPmpMap? {
      EnterClimbs(s, env, p, if p.attempt == 0 then NatPmpMap(1, due, p.externalIp) else Ssdp(0, due));
    } else if p.Ssdp? && p.attempt == 0 {
      EnterClimbs(s, env, p, Ssdp(1, due));
    }
  }

  lemma TimerClimbs(cfg: Config, s: State, env: Env)
    requires Sound(cfg, s) && !s.phase.Idle? && env.now <= s.phase.deadline
    ensures Climbs(s.phase, OnTimer(cfg, s, env).phase)
    ensures env.now == s.phase.deadline ==> OnTimer(cfg, s, env).phase != s.phase
  {
    var w := Withdraw(s, env.now);
    PinholeKeepsPhase(cfg, DrivePhase(w, env), env);
    if env.now == s.phase.deadline {
      OverdueClimbs(cfg, w, env);
    }
  }

  lemma PinholeKeepsPhase(cfg: Config, s: State, env: Env)
    ensures DrivePinhole(cfg, s, env).phase == s.phase
  {
  }

  lemma UdpAnswerClimbs(s: State, env: Env, d: Datagram)
    requires !s.phase.Idle? && env.now <= s.phase.deadline && (!s.phase.Upnp() ==> s.phase.attempt < STEP_ATTEMPTS)
    ensures s.phase.Pcp? ==> Climbs(s.phase, PcpAnswered(s, env, d).phase)
    ensures s.phase.NatPmpExternal? ==> Climbs(s.phase, ExternalAnswered(s, env, d).phase)
    ensures s.phase.NatPmpMap? ==> Climbs(s.phase, MapAnswered(s, env, d, s.phase.externalIp).phase)
  {
  }

  lemma SsdpAnswerClimbs(cfg: Config, s: State, env: Env, d: Datagram)
    requires s.phase.Ssdp? && env.now <= s.phase.deadline && s.phase.attempt < STEP_ATTEMPTS
    ensures Climbs(s.phase, SsdpAnswered(cfg, s, env, d).phase)
  {
  }

  lemma DatagramClimbs(cfg: Config, s: State, env: Env, d: Datagram)
    requires Sound(cfg, s) && !s.phase.Idle? && env.now <= s.phase.deadline
    ensures Climbs(s.phase, OnDatagram(cfg, s, env, d).phase)
  {
    if d.pcp.None? || d.pcp.value.nonce != s.nonceV6 {
      if s.phase.Ssdp? {
        SsdpAnswerClimbs(cfg, s, env, d);
      } else {
        UdpAnswerClimbs(s, env, d);
      }
    }
  }

  lemma TcpClimbs(cfg: Config, s: State, env: Env, e: TcpEvent)
    requires Sound(cfg, s) && !s.phase.Idle? && env.now <= s.phase.deadline
    ensures Climbs(s.phase, OnTcpEvent(cfg, s, env, e).phase)
  {
  }

  /** No event moves to an earlier rung or gives the ladder more time. */
  lemma StepClimbs(cfg: Config, s: State, event: Event)
    requires Sound(cfg, s) && !s.phase.Idle? && event.env.now <= s.phase.deadline
    ensures Climbs(s.phase, Step(cfg, s, event).phase)
    ensures event.Timer? && event.env.now == s.phase.deadline ==> Step(cfg, s, event).phase != s.phase
  {
    match event
    case Timer(env) => TimerClimbs(cfg, s, env);
    case Received(env, d) => DatagramClimbs(cfg, s, env, d);
    case Tcp(env, e) => TcpClimbs(cfg, s, env, e);
  }

  /** Timers run at their deadlines: until the ladder ends, no event comes after the
      deadline of the current rung. */
  predicate OnTime(cfg: Config, s: State, events: seq<Event>)
    decreases |events|
  {
    events == [] ||
    (!s.phase.Idle? && events[0].env.now <= s.phase.deadline && OnTime(cfg, Step(cfg, s, events[0]), events[1..]))
  }

  /** The timer runs at or after `t` as the last event. */
  predicate EndsWithTimer(events: seq<Event>, t: int)
  {
    events != [] && events[|events| - 1].Timer? && events[|events| - 1].env.now >= t
  }

  lemma {:induction false} RunClimbs(cfg: Config, s: State, events: seq<Event>, t: int)
    requires Sound(cfg, s) && OnTime(cfg, s, events) && !s.phase.Idle? && Latest(s.phase) <= t
    ensures var p := Run(cfg, s, events).phase;
            Sound(cfg, Run(cfg, s, events)) && (p.Idle? || (Rung(p) >= Rung(s.phase) && Latest(p) <= t))
    ensures EndsWithTimer(events, t) ==> Run(cfg, s, events).phase.Idle?
    decreases |events|
  {
    if events != [] {
      var next := Step(cfg, s, events[0]);
      StepKeepsSound(cfg, s, events[0]);
      StepClimbs(cfg, s, events[0]);
      RemainingNonNegative(cfg, s);
      RemainingNonNegative(cfg, next);
      if !next.phase.Idle? {
        RunClimbs(cfg, next, events[1..], t);
      }
    }
  }

  lemma RemainingNonNegative(cfg: Config, s: State)
    requires Sound(cfg, s)
    ensures Remaining(s.phase) >= 0
  {
  }

  lemma StartsInTime(cfg: Config, s: State, env: Env)
    ensures var p := Start(s, env).phase;
            p.Idle? || (!p.Idle? && Latest(p) <= env.now + LADDER_TIME)
  {
  }

  /** A ladder or a renewal started at `env.now` is over 28 seconds later, if timers run at
      their deadlines: what is still under way is due by then, and a timer that runs at
      that moment leaves the machine idle. */
  lemma LadderBound(cfg: Config, s: State, env: Env, events: seq<Event>)
    requires Sound(cfg, s) && s.phase.Idle? && env.now >= s.phase.at
    requires OnTime(cfg, OnTimer(cfg, s, env), events)
    ensures var p := Run(cfg, OnTimer(cfg, s, env), events).phase;
            p.Idle? || p.deadline <= env.now + 28000
    ensures EndsWithTimer(events, env.now + 28000) ==> Run(cfg, OnTimer(cfg, s, env), events).phase.Idle?
  {
    var t := OnTimer(cfg, s, env);
    StepKeepsSound(cfg, s, Timer(env));
    StartsInTime(cfg, Withdraw(s, env.now), env);
    PinholeKeepsPhase(cfg, DrivePhase(Withdraw(s, env.now), env), env);
    if !t.phase.Idle? {
      RunClimbs(cfg, t, events, env.now + LADDER_TIME);
      RemainingNonNegative(cfg, Run(cfg, t, events));
    }
  }

  // ---- the bound is reached --------------------------------------------------------------

  function At(now: nat, conn: nat): (env: Env) { Env(now, Some((1, 2)), None, Some(conn)) }

  /** A gateway that answers everything, but refuses the last request. */
  function Grudging(): (cfg: Config)
  {
    Config(1, 7, false, _ => true, _ => Some(Page(true, Some("control"), Some(9), false)))
  }

  /** Its answers, each at the last moment: over HTTP, from NAT-PMP on, and all of them. */
  function LastHttp(t: nat): (r: seq<Event>)
  {
    [Tcp(At(t + 20000, 1), Data(0, []))] + [Tcp(At(t + 24000, 2), Data(1, []))]
  }

  function LastNatPmp(t: nat): (r: seq<Event>)
  {
    [Timer(At(t + 10000, 0))] + ([Timer(At(t + 12000, 0))] + ([Timer(At(t + 14000, 0))] +
    ([Received(At(t + 16000, 0), Datagram(1, None, None, None, Some((Address(1, 80), "/"))))] + LastHttp(t))))
  }

  function LastMoment(t: nat): (r: seq<Event>)
  {
    [Timer(At(t + 2000, 0))] + ([Timer(At(t + 4000, 0))] + ([Timer(At(t + 6000, 0))] +
    ([Received(At(t + 8000, 0), Datagram(1, None, Some((0, 9)), None, None))] + LastNatPmp(t))))
  }

  /** From `s` the run is on time and ends in phase `p`. */
  predicate Leads(s: State, events: seq<Event>, p: Phase)
  {
    OnTime(Grudging(), s, events) && Run(Grudging(), s, events).phase == p
  }

  lemma Then(s: State, e: Event, rest: seq<Event>, p: Phase)
    requires !s.phase.Idle? && e.env.now <= s.phase.deadline && Leads(Step(Grudging(), s, e), rest, p)
    ensures Leads(s, [e] + rest, p)
  {
  }

  /** `s` waits on a rung that speaks UDP. */
  predicate On(s: State, p: Phase) { s.bound && s.nonceV6 == 2 && s.phase == p && s.pin.Off? }

  lemma TimerMoves(s: State, p: Phase, q: Phase, now: nat)
    requires On(s, p) && p.Due() == now
    requires || (p.Pcp? && q == (if p.attempt == 0 then Pcp(1, now + 2000) else NatPmpExternal(0, now + 2000)))
             || (p.NatPmpExternal? && p.attempt == 0 && q == NatPmpExternal(1, now + 2000))
             || (p.NatPmpMap? && p.attempt == 0 && q == NatPmpMap(1, now + 2000, p.externalIp))
             || (p.NatPmpMap? && p.attempt == 1 && q == Ssdp(0, now + 2000))
             || (p.Ssdp? && p.attempt == 0 && q == Ssdp(1, now + 2000))
    ensures On(Step(Grudging(), s, Timer(At(now, 0))), q)
  {
  }

  lemma HttpTight(s: State, t: nat)
    requires s.phase == UpnpDescribe(0, t + 20000) && s.endpoint.Some? && s.buf == []
    ensures Leads(s, LastHttp(t), UpnpMap(2, t + LADDER_TIME, 9))
  {
    var e, f := Tcp(At(t + 20000, 1), Data(0, [])), Tcp(At(t + 24000, 2), Data(1, []));
    var s1 := Step(Grudging(), s, e);
    assert s1.phase == UpnpExternal(1, t + 24000) && s1.endpoint.Some? && s1.control.Some? && s1.buf == [];
    var s2 := Step(Grudging(), s1, f);
    assert Leads(s2, [], UpnpMap(2, t + LADDER_TIME, 9));
    Then(s1, f, [], UpnpMap(2, t + LADDER_TIME, 9));
    Then(s, e, [f], UpnpMap(2, t + LADDER_TIME, 9));
  }

  lemma NatPmpTight(s: State, t: nat)
    requires On(s, NatPmpMap(0, t + 10000, 9))
    ensures Leads(s, LastNatPmp(t), UpnpMap(2, t + LADDER_TIME, 9))
  {
    var p := UpnpMap(2, t + LADDER_TIME, 9);
    var e1, e2, e3 := Timer(At(t + 10000, 0)), Timer(At(t + 12000, 0)), Timer(At(t + 14000, 0));
    var e4 := Received(At(t + 16000, 0), Datagram(1, None, None, None, Some((Address(1, 80), "/"))));
    var s1 := Step(Grudging(), s, e1);
    TimerMoves(s, NatPmpMap(0, t + 10000, 9), NatPmpMap(1, t + 12000, 9), t + 10000);
    var s2 := Step(Grudging(), s1, e2);
    TimerMoves(s1, NatPmpMap(1, t + 12000, 9), Ssdp(0, t + 14000), t + 12000);
    var s3 := Step(Grudging(), s2, e3);
    TimerMoves(s2, Ssdp(0, t + 14000), Ssdp(1, t + 16000), t + 14000);
    HttpTight(Step(Grudging(), s3, e4), t);
    Then(s3, e4, LastHttp(t), p);
    Then(s2, e3, [e4] + LastHttp(t), p);
    Then(s1, e2, [e3] + ([e4] + LastHttp(t)), p);
    Then(s, e1, [e2] + ([e3] + ([e4] + LastHttp(t))), p);
  }

  /** The ladder can take the whole 28 seconds. */
  lemma LadderTight(t: nat)
    ensures Leads(OnTimer(Grudging(), Fresh(Grudging(), t), At(t, 0)), LastMoment(t), UpnpMap(2, t + 28000, 9))
  {
    var s, p := OnTimer(Grudging(), Fresh(Grudging(), t), At(t, 0)), UpnpMap(2, t + LADDER_TIME, 9);
    var e1, e2, e3 := Timer(At(t + 2000, 0)), Timer(At(t + 4000, 0)), Timer(At(t + 6000, 0));
    var e4 := Received(At(t + 8000, 0), Datagram(1, None, Some((0, 9)), None, None));
    assert On(s, Pcp(0, t + 2000));
    var s1 := Step(Grudging(), s, e1);
    TimerMoves(s, Pcp(0, t + 2000), Pcp(1, t + 4000), t + 2000);
    var s2 := Step(Grudging(), s1, e2);
    TimerMoves(s1, Pcp(1, t + 4000), NatPmpExternal(0, t + 6000), t + 4000);
    var s3 := Step(Grudging(), s2, e3);
    TimerMoves(s2, NatPmpExternal(0, t + 6000), NatPmpExternal(1, t + 8000), t + 6000);
    NatPmpTight(Step(Grudging(), s3, e4), t);
    Then(s3, e4, LastNatPmp(t), p);
    Then(s2, e3, [e4] + LastNatPmp(t), p);
    Then(s1, e2, [e3] + ([e4] + LastNatPmp(t)), p);
    Then(s, e1, [e2] + ([e3] + ([e4] + LastNatPmp(t))), p);
  }

  // ---- leases ----------------------------------------------------------------------------

  /** A lease was granted at `now`, and the ladder sleeps for half of it. */
  predicate JustGranted(s: State, now: nat)
  {
    s.mapped.Some? && s.mapped.value.grantedAt == now && s.phase == Idle(now + s.mapped.value.leaseSecs * 500)
  }

  predicate NoneExpired(s: State, now: nat)
  {
    (s.mapped.Some? ==> !s.mapped.value.Expired(now)) && (s.pinhole.Some? ==> !s.pinhole.value.Expired(now))
  }

  lemma EnterKeepsLeases(s: State, env: Env, p: Phase)
    ensures Enter(s, env, p).mapped == s.mapped && Enter(s, env, p).pinhole == s.pinhole
  {
  }

  lemma OverdueKeepsLeases(s: State, env: Env)
    ensures Overdue(s, env).mapped == s.mapped && Overdue(s, env).pinhole == s.pinhole
  {
    var p, due := s.phase, env.now + STEP_TIMEOUT;
    if p.Idle? {
      StartKeepsLeases(s, env);
    } else if p.Pcp? {
      EnterKeepsLeases(s, env, if p.attempt == 0 then Pcp(1, due) else NatPmpExternal(0, due));
    } else if p.NatPmpExternal? {
      EnterKeepsLeases(s, env, if p.attempt == 0 then NatPmpExternal(1, due) else Ssdp(0, due));
    } else if p.NatPmpMap? {
      EnterKeepsLeases(s, env, if p.attempt == 0 then NatPmpMap(1, due, p.externalIp) else Ssdp(0, due));
    } else if p.Ssdp? && p.attempt == 0 {
      EnterKeepsLeases(s, env, Ssdp(1, due));
    }
  }

  lemma StartKeepsLeases(s: State, env: Env)
    ensures Start(s, env).mapped == s.mapped && Start(s, env).pinhole == s.pinhole
  {
  }

  /** No lease that has expired survives the timer, and none that lives is lost. */
  lemma TimerWithdraws(cfg: Config, s: State, env: Env)
    ensures NoneExpired(OnTimer(cfg, s, env), env.now)
    ensures s.mapped.Some? && !s.mapped.value.Expired(env.now) ==> OnTimer(cfg, s, env).mapped == s.mapped
    ensures s.pinhole.Some? && !s.pinhole.value.Expired(env.now) ==> OnTimer(cfg, s, env).pinhole == s.pinhole
  {
    var w := Withdraw(s, env.now);
    OverdueKeepsLeases(w, env);
    PinholeKeepsLeases(cfg, DrivePhase(w, env), env);
  }

  lemma PinholeKeepsLeases(cfg: Config, s: State, env: Env)
    ensures DrivePinhole(cfg, s, env).mapped == s.mapped && DrivePinhole(cfg, s, env).pinhole == s.pinhole
  {
  }

  /** An answer leaves the mapping alone or grants one, with the ladder asleep until half of
      the lease is over. */
  lemma AnswerGrants(cfg: Config, s: State, env: Env, d: Datagram)
    ensures OnDatagram(cfg, s, env, d).mapped == s.mapped || JustGranted(OnDatagram(cfg, s, env, d), env.now)
  {
  }

  /** A UPnP answer changes the mapping only if it confirms the request, and then to the
      internal port at the address that the gateway gave before. */
  lemma FinishGrants(cfg: Config, s: State, env: Env)
    ensures var t, page := FinishHttp(cfg, s, env), cfg.parse(s.buf);
            t.mapped == s.mapped ||
            (&& s.phase.UpnpMap? && page.Some? && page.value.ok && page.value.added && JustGranted(t, env.now)
             && t.mapped.value == Mapped(ByUpnp, Address(s.phase.externalIp, cfg.internalPort), 3600, env.now))
    ensures FinishHttp(cfg, s, env).buf == []
  {
  }

  lemma TcpGrants(cfg: Config, s: State, env: Env, e: TcpEvent)
    ensures OnTcpEvent(cfg, s, env, e).mapped == s.mapped || JustGranted(OnTcpEvent(cfg, s, env, e), env.now)
  {
    if s.phase.Upnp() && e.id == s.phase.conn {
      if e.Data? {
        FinishGrants(cfg, s.(buf := s.buf + e.bytes).(open := s.open - {e.id}), env);
      } else if e.Closed? {
        FinishGrants(cfg, s.(open := s.open - {e.id}), env);
      }
    }
  }

  // ---- the next deadline ---------------------------------------------------------------

  /** A pinhole phase is due, but without a v6 socket nothing drives it. */
  predicate Stuck(cfg: Config, s: State, now: nat)
  {
    !cfg.hasV6 && ((s.pin.Resting? && s.pin.at <= now) || (s.pin.Waiting? && s.pin.deadline <= now))
  }

  lemma EnterAhead(s: State, env: Env, p: Phase)
    requires p.Due() > env.now
    ensures Enter(s, env, p).phase.Due() > env.now && Enter(s, env, p).pin == s.pin
  {
  }

  lemma OverdueAhead(s: State, env: Env)
    ensures Overdue(s, env).phase.Due() > env.now && Overdue(s, env).pin == s.pin
  {
    var p, due := s.phase, env.now + STEP_TIMEOUT;
    if p.Idle? {
      StartAhead(s, env);
    } else if p.Pcp? {
      EnterAhead(s, env, if p.attempt == 0 then Pcp(1, due) else NatPmpExternal(0, due));
    } else if p.NatPmpExternal? {
      EnterAhead(s, env, if p.attempt == 0 then NatPmpExternal(1, due) else Ssdp(0, due));
    } else if p.NatPmpMap? {
      EnterAhead(s, env, if p.attempt == 0 then NatPmpMap(1, due, p.externalIp) else Ssdp(0, due));
    } else if p.Ssdp? && p.attempt == 0 {
      EnterAhead(s, env, Ssdp(1, due));
    }
  }

  lemma StartAhead(s: State, env: Env)
    ensures Start(s, env).phase.Due() > env.now && Start(s, env).pin == s.pin
  {
  }

  lemma PinholeAhead(cfg: Config, s: State, env: Env)
    requires s.phase.Due() > env.now
    ensures PollTimeout(DrivePinhole(cfg, s, env)) > env.now <==> !Stuck(cfg, s, env.now)
  {
  }

  /** After the timer has run the next deadline lies ahead, except exactly in stuck states. */
  lemma TimerAheadIff(cfg: Config, s: State, env: Env)
    ensures PollTimeout(OnTimer(cfg, s, env)) > env.now <==> !Stuck(cfg, s, env.now)
  {
    var w := Withdraw(s, env.now);
    OverdueAhead(w, env);
    PinholeAhead(cfg, DrivePhase(w, env), env);
  }

  /** The event is a PCP answer with the nonce of a pinhole. */
  predicate Pinhole(cfg: Config, s: State, event: Event)
  {
    event.Received? && event.d.fromIp == cfg.gatewayIp && event.d.pcp.Some? && event.d.pcp.value.nonce == s.nonceV6
  }

  /** No pinhole answer arrives in the run. */
  predicate NoPinhole(cfg: Config, s: State, events: seq<Event>)
    decreases |events|
  {
    events == [] || (!Pinhole(cfg, s, events[0]) && NoPinhole(cfg, Step(cfg, s, events[0]), events[1..]))
  }

  lemma StepStaysOff(cfg: Config, s: State, event: Event)
    requires !cfg.hasV6 && s.pin.Off? && !Pinhole(cfg, s, event)
    ensures Step(cfg, s, event).pin.Off?
  {
    match event
    case Timer(env) => OverdueAhead(Withdraw(s, env.now), env);
    case Received(env, d) => AnswersKeepPin(cfg, s, env, d);
    case Tcp(env, e) => TcpKeepsPin(cfg, s, env, e);
  }

  lemma AnswersKeepPin(cfg: Config, s: State, env: Env, d: Datagram)
    requires !Pinhole(cfg, s, Received(env, d))
    ensures OnDatagram(cfg, s, env, d).pin == s.pin
  {
  }

  lemma TcpKeepsPin(cfg: Config, s: State, env: Env, e: TcpEvent)
    ensures OnTcpEvent(cfg, s, env, e).pin == s.pin
  {
  }

  lemma {:induction false} RunStaysOff(cfg: Config, s: State, events: seq<Event>)
    requires !cfg.hasV6 && s.pin.Off? && NoPinhole(cfg, s, events)
    ensures Run(cfg, s, events).pin.Off?
    decreases |events|
  {
    if events != [] {
      StepStaysOff(cfg, s, events[0]);
      RunStaysOff(cfg, Step(cfg, s, events[0]), events[1..]);
    }
  }

  /** Without a v6 socket nothing ever turns a pinhole phase off again. */
  lemma StepStaysOn(cfg: Config, s: State, event: Event)
    requires !cfg.hasV6 && (!s.pin.Off? || Pinhole(cfg, s, event))
    ensures !Step(cfg, s, event).pin.Off?
  {
    match event
    case Timer(env) => OverdueAhead(Withdraw(s, env.now), env);
    case Received(env, d) =>
      if !Pinhole(cfg, s, event) {
        AnswersKeepPin(cfg, s, env, d);
      }
    case Tcp(env, e) => TcpKeepsPin(cfg, s, env, e);
  }

  lemma {:induction false} RunTurnsOn(cfg: Config, s: State, events: seq<Event>)
    requires !cfg.hasV6 && (!s.pin.Off? || !NoPinhole(cfg, s, events))
    ensures !Run(cfg, s, events).pin.Off?
    decreases |events|
  {
    if events != [] {
      if !s.pin.Off? || Pinhole(cfg, s, events[0]) {
        StepStaysOn(cfg, s, events[0]);
      }
      RunTurnsOn(cfg, Step(cfg, s, events[0]), events[1..]);
    }
  }

  lemma PinnedIsStuck(cfg: Config, s: State) returns (env: Env)
    requires !cfg.hasV6 && !s.pin.Off?
    ensures PollTimeout(OnTimer(cfg, s, env)) <= env.now
  {
    env := Env(if s.pin.Resting? then s.pin.at else s.pin.deadline, None, None, None);
    TimerAheadIff(cfg, s, env);
  }

  /** After a run, every timer leaves the next deadline ahead exactly if a v6 socket is
      configured or no pinhole answer arrived in the run. */
  lemma RunAheadIff(cfg: Config, start: nat, events: seq<Event>)
    ensures (forall env :: PollTimeout(OnTimer(cfg, Run(cfg, Fresh(cfg, start), events), env)) > env.now) <==>
            cfg.hasV6 || NoPinhole(cfg, Fresh(cfg, start), events)
  {
    var s := Run(cfg, Fresh(cfg, start), events);
    if cfg.hasV6 || NoPinhole(cfg, Fresh(cfg, start), events) {
      if !cfg.hasV6 {
        RunStaysOff(cfg, Fresh(cfg, start), events);
      }
      forall env
        ensures PollTimeout(OnTimer(cfg, s, env)) > env.now
      {
        TimerAheadIff(cfg, s, env);
      }
    } else {
      RunTurnsOn(cfg, Fresh(cfg, start), events);
      var env := PinnedIsStuck(cfg, s);
      assert !(PollTimeout(OnTimer(cfg, s, env)) > env.now);
    }
  }

  /** Once stuck, the machine asks for a timer in the past from then on. */
  lemma StuckForever(cfg: Config, s: State, env: Env, later: nat)
    requires Stuck(cfg, s, env.now) && later >= env.now
    ensures Stuck(cfg, OnTimer(cfg, s, env), later)
    ensures PollTimeout(OnTimer(cfg, s, env)) <= env.now
  {
  }

  /** Without a v6 socket one answer with the pinhole's nonce is enough to get there, whether
      it grants or refuses. The state does not matter; datagrams arrive once a socket is bound. */
  lemma AnswerSticks(cfg: Config, s: State, env: Env, d: Datagram, later: nat)
    requires !cfg.hasV6 && Pinhole(cfg, s, Received(env, d))
    requires later >= env.now + LADDER_RETRY && later >= env.now + d.pcp.value.lifetimeSecs * 500
    ensures Stuck(cfg, OnDatagram(cfg, s, env, d), later)
  {
  }

  /** The witness: the first timer binds the socket and draws the nonces, an answer with the
      pinhole's nonce comes from the gateway, and from some moment on the deadline is past. */
  lemma StuckReached(cfg: Config, t: nat, nonces: (nat, nat), d: Datagram, later: Env) returns (events: seq<Event>)
    requires !cfg.hasV6 && d.fromIp == cfg.gatewayIp && d.pcp.Some? && d.pcp.value.nonce == nonces.1
    requires later.now >= t + LADDER_RETRY && later.now >= t + d.pcp.value.lifetimeSecs * 500
    ensures |events| == 2 && events[1].Received? && Step(cfg, Fresh(cfg, t), events[0]).bound
    ensures PollTimeout(OnTimer(cfg, Run(cfg, Fresh(cfg, t), events), later)) <= later.now
  {
    var env := Env(t, Some(nonces), None, None);
    events := [Timer(env), Received(env, d)];
    var s := OnTimer(cfg, Fresh(cfg, t), env);
    assert s.bound && s.nonceV6 == nonces.1;
    AnswerSticks(cfg, s, env, d, later.now);
    TwoSteps(cfg, Fresh(cfg, t), events);
    StuckForever(cfg, OnDatagram(cfg, s, env, d), later, later.now);
  }

  lemma TwoSteps(cfg: Config, s: State, events: seq<Event>)
    requires |events| == 2
    ensures Run(cfg, s, events) == Step(cfg, Step(cfg, s, events[0]), events[1])
  {
    var t := Step(cfg, s, events[0]);
    assert Run(cfg, s, events) == Run(cfg, t, events[1..]);
    assert Run(cfg, t, events[1..]) == Run(cfg, Step(cfg, t, events[1]), events[1..][1..]);
    assert events[1..][1..] == [];
  }
}
