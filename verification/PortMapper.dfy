/** The port mapper as the program keeps it: one object whose fields each handler
    changes step by step. Every handler does what the state machine does, and keeps
    the state sound. */
module PortMapper {
  import opened Options
  import opened PortMapModel
  import opened PortMapRuns
  import opened PortMapEffects

  class Mapper {
    const config: Config
    var bound: bool
    var nonce: nat
    var nonceV6: nat
    var phase: Phase
    var mapped: Option<Mapped>
    var pin: PinPhase
    var pinhole: Option<Mapped>
    var endpoint: Option<Address>
    var path: string
    var control: Option<string>
    var buf: seq<bv8>
    var malformed: nat
    var denials: nat
    var open: set<nat>

    ghost function Now(): (next: State)
      reads this
    {
      State(bound, nonce, nonceV6, phase, mapped, pin, pinhole, endpoint, path, control, buf, malformed, denials, open)
    }

    /** UPnP talks to the gateway alone, over the one connection that is open, and what is
        buffered, retried and leased is bounded. */
    ghost predicate Valid()
      reads this
    {
      Sound(config, Now())
    }

    constructor (config: Config, now: nat)
      ensures Valid() && this.config == config && Now() == Fresh(config, now)
      ensures mapped == None && pinhole == None && phase == Idle(now)
      ensures pin == if config.hasV6 then Resting(now) else Off
    {
      this.config := config;
      bound, nonce, nonceV6 := false, 0, 0;
      phase, mapped := Idle(now), None;
      pin, pinhole := if config.hasV6 then Resting(now) else Off, None;
      endpoint, path, control, buf := None, "", None, [];
      malformed, denials, open := 0, 0, {};
    }

    /** The granted address, as long as its lease lives. */
    function MappedExternal(now: nat): (external: Option<Address>)
      reads this
      ensures external == if mapped.Some? && now < mapped.value.grantedAt + mapped.value.leaseSecs * 1000
                          then Some(mapped.value.external) else None
    {
      if mapped.Some? && !mapped.value.Expired(now) then Some(mapped.value.external) else None
    }

    /** The moments for which the ladder and the pinhole wait. */
    ghost function Moments(): (ms: set<nat>)
      reads this
    {
      {phase.Due()} + if pin.Resting? then {pin.at} else if pin.Waiting? then {pin.deadline} else {}
    }

    method Poll() returns (deadline: nat)
      ensures deadline == PollTimeout(Now())
      ensures deadline in Moments() && forall m | m in Moments() :: deadline <= m
    {
      deadline := if phase.Idle? then phase.at else phase.deadline;
      if pin.Resting? && pin.at < deadline {
        deadline := pin.at;
      } else if pin.Waiting? && pin.deadline < deadline {
        deadline := pin.deadline;
      }
    }

    method BindSocket(drawn: Option<(nat, nat)>) returns (ok: bool)
      modifies this`bound, this`nonce, this`nonceV6
      ensures Now() == EnsureSocket(old(Now()), drawn) && ok == bound
    {
      if !bound && drawn.Some? {
        nonce, nonceV6 := drawn.value.0, drawn.value.1;
        bound := true;
      }
      ok := bound;
    }

    method Fail(now: nat)
      modifies this
      ensures Now() == LadderFailed(old(Now()), now)
    {
      phase := Idle(now + LADDER_RETRY);
    }

    method EnterRung(env: Env, next: Phase)
      modifies this
      ensures Now() == Enter(old(Now()), env, next)
    {
      var ok := BindSocket(env.bind);
      if ok {
        phase := next;
      } else {
        Fail(env.now);
      }
    }

    method Connect(env: Env) returns (conn: Option<nat>)
      modifies this
      ensures conn.Some? <==> OpenHttp(old(Now()), env).Some?
      ensures conn.Some? ==> conn == env.conn && Now() == OpenHttp(old(Now()), env).value
      ensures conn.None? ==> Now() == old(Now())
    {
      if endpoint.None? || env.conn.None? {
        return None;
      }
      buf := [];
      open := open + {env.conn.value};
      return env.conn;
    }

    method RequestDescription(env: Env)
      modifies this
      ensures Now() == SendDescribe(old(Now()), env)
    {
      var conn := Connect(env);
      if conn.Some? {
        phase := UpnpDescribe(conn.value, env.now + TCP_TIMEOUT);
      } else {
        Fail(env.now);
      }
    }

    method RequestExternal(env: Env, url: string)
      modifies this
      ensures Now() == SendExternal(old(Now()), env, url)
    {
      var conn := Connect(env);
      if conn.Some? {
        control := Some(url);
        phase := UpnpExternal(conn.value, env.now + TCP_TIMEOUT);
      } else {
        Fail(env.now);
      }
    }

    method RequestMap(env: Env, url: string, ip: nat)
      modifies this
      ensures Now() == SendMap(old(Now()), env, url, ip)
    {
      var conn := Connect(env);
      if conn.Some? {
        control := Some(url);
        phase := UpnpMap(conn.value, env.now + TCP_TIMEOUT, ip);
      } else {
        Fail(env.now);
      }
    }

    method StartOrRenew(env: Env)
      modifies this
      ensures Now() == Start(old(Now()), env)
    {
      if mapped.None? || mapped.value.protocol.ByPcp? {
        EnterRung(env, Pcp(0, env.now + STEP_TIMEOUT));
      } else if mapped.value.protocol.ByNatPmp? {
        EnterRung(env, NatPmpMap(0, env.now + STEP_TIMEOUT, mapped.value.external.ip));
      } else if endpoint.Some? && control.Some? {
        RequestMap(env, control.value, mapped.value.external.ip);
      } else {
        EnterRung(env, Ssdp(0, env.now + STEP_TIMEOUT));
      }
    }

    method HangUp(conn: nat, now: nat)
      modifies this
      ensures Now() == LadderFailed(old(Now()).(open := old(open) - {conn}, buf := []), now)
    {
      open := open - {conn};
      buf := [];
      Fail(now);
    }

    method Drive(env: Env)
      modifies this
      ensures Now() == DrivePhase(old(Now()), env)
    {
      var due := env.now + STEP_TIMEOUT;
      match phase {
        case Idle(at) =>
          if env.now >= at { StartOrRenew(env); }
        case Pcp(a, deadline) =>
          if env.now >= deadline {
            if a + 1 < STEP_ATTEMPTS {
              EnterRung(env, Pcp(a + 1, due));
            } else {
              EnterRung(env, NatPmpExternal(0, due));
            }
          }
        case NatPmpExternal(a, deadline) =>
          if env.now >= deadline {
            if a + 1 < STEP_ATTEMPTS {
              EnterRung(env, NatPmpExternal(a + 1, due));
            } else {
              EnterRung(env, Ssdp(0, due));
            }
          }
        case NatPmpMap(a, deadline, ip) =>
          if env.now >= deadline {
            if a + 1 < STEP_ATTEMPTS {
              EnterRung(env, NatPmpMap(a + 1, due, ip));
            } else {
              EnterRung(env, Ssdp(0, due));
            }
          }
        case Ssdp(a, deadline) =>
          if env.now >= deadline {
            if a + 1 < STEP_ATTEMPTS {
              EnterRung(env, Ssdp(a + 1, due));
            } else {
              Fail(env.now);
            }
          }
        case UpnpDescribe(conn, deadline) =>
          if env.now >= deadline { HangUp(conn, env.now); }
        case UpnpExternal(conn, deadline) =>
          if env.now >= deadline { HangUp(conn, env.now); }
        case UpnpMap(conn, deadline, _) =>
          if env.now >= deadline { HangUp(conn, env.now); }
      }
    }

    method RequestPinhole(env: Env, attempt: nat)
      modifies this`bound, this`nonce, this`nonceV6, this`pin
      ensures Now() == SendPinhole(old(Now()), env, attempt)
    {
      var ok := BindSocket(env.bindPin);
      pin := if ok then Waiting(attempt, env.now + STEP_TIMEOUT) else Resting(env.now + LADDER_RETRY);
    }

    /** The pinhole is driven without regard to the ladder, which it leaves alone; with a v6
        socket its next moment then lies ahead. */
    method DrivePin(env: Env)
      modifies this`bound, this`nonce, this`nonceV6, this`pin
      ensures Now() == DrivePinhole(config, old(Now()), env)
      ensures config.hasV6 && pin.Resting? ==> pin.at > env.now
      ensures config.hasV6 && pin.Waiting? ==> pin.deadline > env.now
      ensures !config.hasV6 ==> Now() == old(Now())
    {
      if config.hasV6 {
        if pin.Resting? {
          if env.now >= pin.at { RequestPinhole(env, 0); }
        } else if pin.Waiting? && env.now >= pin.deadline {
          if pin.attempt + 1 < STEP_ATTEMPTS {
            RequestPinhole(env, pin.attempt + 1);
          } else {
            pin := Resting(env.now + LADDER_RETRY);
          }
        }
      }
    }

    method TakeTimer(env: Env)
      modifies this
      ensures Now() == OnTimer(config, old(Now()), env)
    {
      if mapped.Some? && mapped.value.Expired(env.now) {
        mapped := None;
      }
      if pinhole.Some? && pinhole.value.Expired(env.now) {
        pinhole := None;
      }
      assert Now() == Withdraw(old(Now()), env.now);
      Drive(env);
      DrivePin(env);
    }

    method Grant(now: nat, protocol: Protocol, external: Address, leaseSecs: nat)
      modifies this
      ensures Now() == Granted(old(Now()), now, protocol, external, leaseSecs)
    {
      mapped := Some(Mapped(protocol, external, leaseSecs, now));
      phase := Idle(now + leaseSecs * 500);
    }

    method HandlePinholeAnswer(now: nat, r: PcpAnswer)
      modifies this
      ensures Now() == PinholeAnswered(old(Now()), now, r)
    {
      if r.Refused() {
        denials := denials + 1;
        pin := Resting(now + LADDER_RETRY);
      } else {
        pinhole := Some(Mapped(ByPcp, r.external, r.lifetimeSecs, now));
        pin := Resting(now + r.lifetimeSecs * 500);
      }
    }

    method HandlePcp(env: Env, d: Datagram)
      modifies this
      ensures Now() == PcpAnswered(old(Now()), env, d)
    {
      if d.pcp.None? {
        malformed := malformed + 1;
      } else if d.pcp.value.nonce == nonce {
        if d.pcp.value.Refused() {
          denials := denials + 1;
          EnterRung(env, NatPmpExternal(0, env.now + STEP_TIMEOUT));
        } else {
          Grant(env.now, ByPcp, d.pcp.value.external, d.pcp.value.lifetimeSecs);
        }
      }
    }

    method HandleExternal(env: Env, d: Datagram)
      modifies this
      ensures Now() == ExternalAnswered(old(Now()), env, d)
    {
      if d.natPmpExternal.None? {
        malformed := malformed + 1;
      } else if d.natPmpExternal.value.0 != 0 {
        denials := denials + 1;
        EnterRung(env, Ssdp(0, env.now + STEP_TIMEOUT));
      } else {
        EnterRung(env, NatPmpMap(0, env.now + STEP_TIMEOUT, d.natPmpExternal.value.1));
      }
    }

    method HandleMap(env: Env, d: Datagram, ip: nat)
      modifies this
      ensures Now() == MapAnswered(old(Now()), env, d, ip)
    {
      if d.natPmpMap.None? {
        malformed := malformed + 1;
      } else {
        var (result, port, secs) := d.natPmpMap.value;
        if result != 0 || secs < MIN_LEASE_SECS {
          denials := denials + 1;
          EnterRung(env, Ssdp(0, env.now + STEP_TIMEOUT));
        } else {
          Grant(env.now, ByNatPmp, Address(ip, port), secs);
        }
      }
    }

    method HandleSsdp(env: Env, d: Datagram)
      modifies this
      ensures Now() == SsdpAnswered(config, old(Now()), env, d)
    {
      if d.ssdp.None? || d.ssdp.value.0.ip != config.gatewayIp {
        malformed := malformed + 1;
      } else {
        endpoint, path := Some(d.ssdp.value.0), d.ssdp.value.1;
        RequestDescription(env);
      }
    }

    method TakeDatagram(env: Env, d: Datagram)
      modifies this
      ensures Now() == OnDatagram(config, old(Now()), env, d)
    {
      if d.fromIp != config.gatewayIp {
        return;
      }
      if d.pcp.Some? && d.pcp.value.nonce == nonceV6 {
        HandlePinholeAnswer(env.now, d.pcp.value);
        return;
      }
      match phase {
        case Pcp(_, _) => HandlePcp(env, d);
        case NatPmpExternal(_, _) => HandleExternal(env, d);
        case NatPmpMap(_, _, ip) => HandleMap(env, d, ip);
        case Ssdp(_, _) => HandleSsdp(env, d);
        case _ =>
      }
    }

    method Reject(now: nat)
      modifies this
      ensures Now() == LadderFailed(Malformed(old(Now())), now)
    {
      malformed := malformed + 1;
      Fail(now);
    }

    /** Only the confirmation of the mapping changes what is mapped. */
    method Finish(env: Env)
      modifies this
      ensures Now() == FinishHttp(config, old(Now()), env) && buf == []
      ensures mapped != old(mapped) ==>
                && old(phase).UpnpMap? && mapped.Some? && phase == Idle(env.now + mapped.value.leaseSecs * 500)
                && mapped.value.external == Address(old(phase).externalIp, config.internalPort)
                && mapped.value.leaseSecs == 3600
    {
      FinishGrants(config, Now(), env);
      var page := config.parse(buf);
      buf := [];
      if page.None? {
        Reject(env.now);
        return;
      }
      var p := page.value;
      match phase {
        case UpnpDescribe(_, _) =>
          if p.ok && p.control.Some? {
            RequestExternal(env, p.control.value);
          } else {
            Reject(env.now);
          }
        case UpnpExternal(_, _) =>
          if p.ok && p.externalIp.Some? && control.Some? {
            RequestMap(env, control.value, p.externalIp.value);
          } else {
            Reject(env.now);
          }
        case UpnpMap(_, _, ip) =>
          if p.ok && p.added {
            Grant(env.now, ByUpnp, Address(ip, config.internalPort), REQUEST_LIFETIME_SECS);
          } else {
            denials := denials + 1;
            Fail(env.now);
          }
        case _ =>
      }
    }

    method TakeTcp(env: Env, e: TcpEvent)
      modifies this
      ensures Now() == OnTcpEvent(config, old(Now()), env, e)
    {
      if !phase.Upnp() || e.id != phase.conn {
        return;
      }
      match e {
        case Connected(_) =>
        case Data(id, bytes) =>
          buf := buf + bytes;
          if |buf| > MAX_HTTP_RESPONSE {
            open := open - {id};
            buf := [];
            Reject(env.now);
          } else if config.complete(buf) {
            open := open - {id};
            Finish(env);
          }
        case Closed(id) =>
          open := open - {id};
          if config.parse(buf).Some? {
            Finish(env);
          } else {
            buf := [];
            Fail(env.now);
          }
      }
    }

    // ---- the handlers ------------------------------------------------------------------

    /** Right after the timer the next deadline lies ahead, unless the pinhole is stuck; no
        expired lease is left; and a ladder under way has not gone back. */
    method HandleTimer(env: Env)
      requires Valid()
      modifies this
      ensures Valid() && Now() == OnTimer(config, old(Now()), env)
      ensures PollTimeout(Now()) > env.now <==> !Stuck(config, old(Now()), env.now)
      ensures NoneExpired(Now(), env.now)
      ensures !old(phase).Idle? && env.now <= old(phase).deadline ==> Climbs(old(phase), phase)
      ensures !old(phase).Idle? && env.now == old(phase).deadline ==> phase != old(phase)
      // where the ladder and the pinhole go, and when they will be due
      ensures Ticks(old(Now()), Now(), env.now) && Starts(old(Now()), Now(), env)
      ensures PinTicks(config, old(Now()), Now(), env)
      // the nonces are those drawn for the socket, once
      ensures Binds(old(Now()), Now(), env)
    {
      ghost var before := Now();
      TimerSound(config, before, env);
      TimerAheadIff(config, before, env);
      TimerWithdraws(config, before, env);
      TimerTicks(config, before, env);
      TimerStarts(config, before, env);
      TimerPins(config, before, env);
      TimerBinds(config, before, env);
      if !before.phase.Idle? && env.now <= before.phase.deadline {
        TimerClimbs(config, before, env);
      }
      TakeTimer(env);
    }

    /** Strangers change nothing; a pinhole answer leaves the ladder alone, and any other
        answer the pinhole; a changed mapping was granted just now; and a ladder that is on
        time has not gone back. */
    method HandleDatagram(env: Env, d: Datagram)
      requires Valid()
      modifies this
      ensures Valid() && Now() == OnDatagram(config, old(Now()), env, d)
      ensures d.fromIp != config.gatewayIp ==> Now() == old(Now())
      ensures if Pinhole(config, old(Now()), Received(env, d)) then phase == old(phase) else pin == old(pin)
      ensures mapped == old(mapped) || JustGranted(Now(), env.now)
      ensures !old(phase).Idle? && env.now <= old(phase).deadline ==> Climbs(old(phase), phase)
      // what is granted is what the gateway said, for as long as it said, and it is granted
      // exactly if it is not refused and answers the pending request
      ensures Maps(config, old(Now()), Now(), env.now, d) && Pins(config, old(Now()), Now(), env.now, d)
      // a refusal goes on to the next protocol
      ensures Moves(config, old(Now()), Now(), env, d)
    {
      ghost var before := Now();
      DatagramSound(config, before, env, d);
      DatagramMaps(config, before, env, d);
      DatagramPins(config, before, env, d);
      DatagramMoves(config, before, env, d);
      AnswerGrants(config, before, env, d);
      if !Pinhole(config, before, Received(env, d)) {
        AnswersKeepPin(config, before, env, d);
      }
      if !before.phase.Idle? && env.now <= before.phase.deadline {
        DatagramClimbs(config, before, env, d);
      }
      TakeDatagram(env, d);
    }

    /** Only the connection of the current rung is listened to; a changed mapping was granted
        just now; and a ladder that is on time has not gone back. */
    method HandleTcp(env: Env, e: TcpEvent)
      requires Valid()
      modifies this
      ensures Valid() && Now() == OnTcpEvent(config, old(Now()), env, e)
      ensures !old(phase).Upnp() || e.id != old(phase).conn ==> Now() == old(Now())
      ensures pin == old(pin) && (mapped == old(mapped) || JustGranted(Now(), env.now))
      ensures !old(phase).Idle? && env.now <= old(phase).deadline ==> Climbs(old(phase), phase)
      // what each answer leads to; a confirmed mapping runs an hour
      ensures Speaks(config, old(Now()), Now(), env, e)
    {
      ghost var before := Now();
      TcpSound(config, before, env, e);
      TcpSpeaks(config, before, env, e);
      TcpGrants(config, before, env, e);
      TcpKeepsPin(config, before, env, e);
      if !before.phase.Idle? && env.now <= before.phase.deadline {
        TcpClimbs(config, before, env, e);
      }
      TakeTcp(env, e);
    }
  }
}
