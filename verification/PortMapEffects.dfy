/** What one event does to the port mapper, field by field and in plain numbers
    (milliseconds, leases in seconds). */
module PortMapEffects {
  import opened Options
  import opened PortMapModel
  import opened PortMapRuns

  // ---- datagrams ---------------------------------------------------------------------

  /** The gateway's answer to the pinhole request. */
  predicate ForPin(cfg: Config, s: State, d: Datagram)
  {
    d.fromIp == cfg.gatewayIp && d.pcp.Some? && d.pcp.value.nonce == s.nonceV6
  }

  /** Any other datagram of the gateway. */
  predicate ForLadder(cfg: Config, s: State, d: Datagram) { d.fromIp == cfg.gatewayIp && !ForPin(cfg, s, d) }

  predicate PcpGrants(r: PcpAnswer) { r.result == 0 && r.lifetimeSecs >= 15 }

  /** The datagram grants the mapping over PCP: the gateway answers the pending request. */
  predicate ByPcpGrant(cfg: Config, s: State, d: Datagram)
  {
    ForLadder(cfg, s, d) && s.phase.Pcp? && d.pcp.Some? && d.pcp.value.nonce == s.nonce && PcpGrants(d.pcp.value)
  }

  predicate ByNatPmpGrant(cfg: Config, s: State, d: Datagram)
  {
    && ForLadder(cfg, s, d) && s.phase.NatPmpMap?
    && d.natPmpMap.Some? && d.natPmpMap.value.0 == 0 && d.natPmpMap.value.2 >= 15
  }

  /** The mapping changes exactly if it is granted, to what the gateway said. */
  predicate Maps(cfg: Config, s: State, t: State, now: nat, d: Datagram)
  {
    if ByPcpGrant(cfg, s, d) then
      && t.mapped == Some(Mapped(ByPcp, d.pcp.value.external, d.pcp.value.lifetimeSecs, now))
      && t.phase == Idle(now + d.pcp.value.lifetimeSecs * 500)
    else if ByNatPmpGrant(cfg, s, d) then
      var (_, port, secs) := d.natPmpMap.value;
      && t.mapped == Some(Mapped(ByNatPmp, Address(s.phase.externalIp, port), secs, now))
      && t.phase == Idle(now + secs * 500)
    else t.mapped == s.mapped
  }

  /** So does the pinhole, which otherwise rests for a minute if it is refused. */
  predicate Pins(cfg: Config, s: State, t: State, now: nat, d: Datagram)
  {
    if ForPin(cfg, s, d) then
      var r := d.pcp.value;
      if PcpGrants(r) then
        && t.pinhole == Some(Mapped(ByPcp, r.external, r.lifetimeSecs, now))
        && t.pin == Resting(now + r.lifetimeSecs * 500)
      else t.pinhole == s.pinhole && t.pin == Resting(now + 60000) && t.denials == s.denials + 1
    else t.pinhole == s.pinhole && t.pin == s.pin
  }

  /** A refusal goes on to the next protocol, and what cannot be read changes only a counter. */
  predicate Moves(cfg: Config, s: State, t: State, env: Env, d: Datagram)
  {
    if !ForLadder(cfg, s, d) then t.phase == s.phase
    else
      match s.phase
      case Pcp(_, _) =>
        if d.pcp.None? then Unread(s, t)
        else if d.pcp.value.nonce != s.nonce then t == s
        else PcpGrants(d.pcp.value) || Refused(s, t, NatPmpExternal(0, env.now + 2000))
      case NatPmpExternal(_, _) =>
        if d.natPmpExternal.None? then Unread(s, t)
        else if d.natPmpExternal.value.0 != 0 then Refused(s, t, Ssdp(0, env.now + 2000))
        else t == s.(phase := NatPmpMap(0, env.now + 2000, d.natPmpExternal.value.1))
      case NatPmpMap(_, _, _) =>
        if d.natPmpMap.None? then Unread(s, t)
        else (d.natPmpMap.value.0 == 0 && d.natPmpMap.value.2 >= 15) || Refused(s, t, Ssdp(0, env.now + 2000))
      case Ssdp(_, _) =>
        if d.ssdp.None? || d.ssdp.value.0.ip != cfg.gatewayIp then Unread(s, t)
        else
          && t.endpoint == Some(d.ssdp.value.0) && t.path == d.ssdp.value.1
          && t.phase == if env.conn.Some? then UpnpDescribe(env.conn.value, env.now + 4000) else Idle(env.now + 60000)
      case _ => t == s
  }

  predicate Unread(s: State, t: State) { t == s.(malformed := s.malformed + 1) }

  predicate Refused(s: State, t: State, next: Phase) { t == s.(denials := s.denials + 1, phase := next) }

  lemma DatagramMaps(cfg: Config, s: State, env: Env, d: Datagram)
    ensures Maps(cfg, s, OnDatagram(cfg, s, env, d), env.now, d)
  {
  }

  lemma DatagramPins(cfg: Config, s: State, env: Env, d: Datagram)
    ensures Pins(cfg, s, OnDatagram(cfg, s, env, d), env.now, d)
  {
  }

  lemma DatagramMoves(cfg: Config, s: State, env: Env, d: Datagram)
    requires !s.phase.Idle? && !s.phase.Upnp() ==> s.bound
    ensures Moves(cfg, s, OnDatagram(cfg, s, env, d), env, d)
  {
  }

  // ---- the UPnP connection -------------------------------------------------------------

  /** What became of a whole answer on the connection of the current rung. */
  predicate Concludes(cfg: Config, s: State, t: State, env: Env, page: Option<Page>)
  {
    var retry := Idle(env.now + 60000);
    var good := page.Some? && page.value.ok;
    match s.phase
    case UpnpDescribe(_, _) =>
      if good && page.value.control.Some? then
        && t.phase == (if env.conn.Some? then UpnpExternal(env.conn.value, env.now + 4000) else retry)
        && (env.conn.Some? ==> t.control == page.value.control)
      else t.phase == retry && t.malformed == s.malformed + 1
    case UpnpExternal(_, _) =>
      if good && page.value.externalIp.Some? then
        var ip := page.value.externalIp.value;
        && t.phase == (if env.conn.Some? then UpnpMap(env.conn.value, env.now + 4000, ip) else retry)
        && t.control == s.control
      else t.phase == retry && t.malformed == s.malformed + 1
    case UpnpMap(_, _, ip) =>
      if good && page.value.added then
        && t.mapped == Some(Mapped(ByUpnp, Address(ip, cfg.internalPort), 3600, env.now))
        && t.phase == Idle(env.now + 1800000)
      else t.phase == retry && (if page.None? then t.malformed == s.malformed + 1 else t.denials == s.denials + 1)
    case _ => true
  }

  /** Only the last answer of all can change the mapping. */
  predicate Speaks(cfg: Config, s: State, t: State, env: Env, e: TcpEvent)
  {
    if !s.phase.Upnp() || e.id != s.phase.conn || e.Connected? then t == s
    else
      var buf := if e.Data? then s.buf + e.bytes else s.buf;
      var page := cfg.parse(buf);
      && (!(s.phase.UpnpMap? && page.Some? && page.value.ok && page.value.added) ==> t.mapped == s.mapped)
      && t.pin == s.pin && t.pinhole == s.pinhole
      && if e.Data? && |buf| > 65536 then
           t == s.(phase := Idle(env.now + 60000), malformed := s.malformed + 1, open := s.open - {e.id}, buf := [])
         else if e.Data? && !cfg.complete(buf) then t == s.(buf := buf)
         else if e.Closed? && page.None? then
           t == s.(phase := Idle(env.now + 60000), open := s.open - {e.id}, buf := [])
         else Concludes(cfg, s, t, env, page)
  }

  lemma FinishConcludes(cfg: Config, s: State, env: Env)
    requires s.phase.Upnp() && s.endpoint.Some? && (s.phase.UpnpDescribe? || s.control.Some?)
    ensures Concludes(cfg, s, FinishHttp(cfg, s, env), env, cfg.parse(s.buf))
  {
  }

  lemma TcpSpeaks(cfg: Config, s: State, env: Env, e: TcpEvent)
    requires Sound(cfg, s)
    ensures Speaks(cfg, s, OnTcpEvent(cfg, s, env, e), env, e)
  {
    if s.phase.Upnp() && e.id == s.phase.conn {
      if e.Data? {
        FinishConcludes(cfg, s.(buf := s.buf + e.bytes).(open := s.open - {e.id}), env);
      } else if e.Closed? {
        FinishConcludes(cfg, s.(open := s.open - {e.id}), env);
      }
    }
  }

  // ---- the timer -------------------------------------------------------------------------

  /** Where the ladder goes when a rung is overdue; `None` if it gives up. */
  function NextRung(p: Phase, now: nat): (q: Option<Phase>)
    requires !p.Idle? && !p.Upnp() ==> p.attempt <= 1
  {
    match p
    case Pcp(a, _) => Some(if a == 0 then Pcp(1, now + 2000) else NatPmpExternal(0, now + 2000))
    case NatPmpExternal(a, _) => Some(if a == 0 then NatPmpExternal(1, now + 2000) else Ssdp(0, now + 2000))
    case NatPmpMap(a, _, ip) => Some(if a == 0 then NatPmpMap(1, now + 2000, ip) else Ssdp(0, now + 2000))
    case Ssdp(a, _) => if a == 0 then Some(Ssdp(1, now + 2000)) else None
    case _ => None
  }

  /** The ladder after the timer: each request is sent twice, two seconds apart, each
      connection has four seconds, and a ladder that has given up rests for a minute. */
  predicate Ticks(s: State, t: State, now: nat)
    requires !s.phase.Idle? && !s.phase.Upnp() ==> s.phase.attempt <= 1
  {
    if s.phase.Idle? then now < s.phase.at ==> t.phase == s.phase
    else if now < s.phase.deadline then t.phase == s.phase && t.open == s.open && t.buf == s.buf
    else
      && t.phase == (if NextRung(s.phase, now).Some? then NextRung(s.phase, now).value else Idle(now + 60000))
      && t.open == {} && t.buf == []
  }

  /** The mapping to renew: the one granted, unless its lease has run out. */
  function ToRenew(s: State, now: nat): (m: Option<Mapped>)
  {
    if s.mapped.Some? && now < s.mapped.value.grantedAt + s.mapped.value.leaseSecs * 1000 then s.mapped else None
  }

  /** A ladder that starts asks over PCP first; a renewal asks whoever granted the mapping. */
  predicate Starts(s: State, t: State, env: Env)
  {
    s.phase.Idle? && env.now >= s.phase.at ==>
      var m, retry, udp := ToRenew(s, env.now), Idle(env.now + 60000), s.bound || env.bind.Some?;
      if m.Some? && m.value.protocol.ByUpnp? then
        t.phase == if env.conn.Some? then UpnpMap(env.conn.value, env.now + 4000, m.value.external.ip) else retry
      else if m.Some? && m.value.protocol.ByNatPmp? then
        t.phase == if udp then NatPmpMap(0, env.now + 2000, m.value.external.ip) else retry
      else
        t.phase == if udp then Pcp(0, env.now + 2000) else retry
  }

  /** The pinhole has one retransmit as well, and then a minute's rest. */
  predicate PinTicks(cfg: Config, s: State, t: State, env: Env)
  {
    if !cfg.hasV6 || s.pin.Off? then t.pin == s.pin
    else if s.pin.Resting? then
      if env.now < s.pin.at then t.pin == s.pin
      else t.pin == if t.bound then Waiting(0, env.now + 2000) else Resting(env.now + 60000)
    else if env.now < s.pin.deadline then t.pin == s.pin
    else t.pin == if s.pin.attempt == 0 && t.bound then Waiting(1, env.now + 2000) else Resting(env.now + 60000)
  }

  lemma PinholeKeepsLadder(cfg: Config, s: State, env: Env)
    ensures var t := DrivePinhole(cfg, s, env);
            t.phase == s.phase && t.open == s.open && t.buf == s.buf && t.mapped == s.mapped
  {
  }

  lemma OverdueTicks(cfg: Config, s: State, env: Env)
    requires Sound(cfg, s) && !s.phase.Idle? && env.now >= s.phase.deadline
    ensures Ticks(s, Overdue(s, env), env.now)
  {
  }

  lemma TimerTicks(cfg: Config, s: State, env: Env)
    requires Sound(cfg, s)
    ensures Ticks(s, OnTimer(cfg, s, env), env.now)
  {
    var w := Withdraw(s, env.now);
    PinholeKeepsLadder(cfg, DrivePhase(w, env), env);
    if !s.phase.Idle? && env.now >= s.phase.deadline {
      OverdueTicks(cfg, w, env);
    }
  }

  lemma TimerStarts(cfg: Config, s: State, env: Env)
    requires Sound(cfg, s)
    ensures Starts(s, OnTimer(cfg, s, env), env)
  {
    PinholeKeepsLadder(cfg, DrivePhase(Withdraw(s, env.now), env), env);
  }

  lemma TimerPins(cfg: Config, s: State, env: Env)
    requires Sound(cfg, s)
    ensures PinTicks(cfg, s, OnTimer(cfg, s, env), env)
  {
    OverdueAhead(Withdraw(s, env.now), env);
  }

  /** The nonces are drawn when the socket is bound, and kept. */
  predicate Binds(s: State, t: State, env: Env)
  {
    if t.bound == s.bound then t.nonce == s.nonce && t.nonceV6 == s.nonceV6
    else t.bound && (env.bind == Some((t.nonce, t.nonceV6)) || env.bindPin == Some((t.nonce, t.nonceV6)))
  }

  lemma OverdueBinds(s: State, env: Env)
    ensures Binds(s, Overdue(s, env), env)
  {
  }

  lemma TimerBinds(cfg: Config, s: State, env: Env)
    ensures Binds(s, OnTimer(cfg, s, env), env)
  {
    var w := Withdraw(s, env.now);
    OverdueBinds(w, env);
    PinholeBinds(cfg, DrivePhase(w, env), env);
  }

  lemma PinholeBinds(cfg: Config, s: State, env: Env)
    ensures Binds(s, DrivePinhole(cfg, s, env), env)
    ensures s.bound ==> DrivePinhole(cfg, s, env).bound
  {
  }

  // ---- whole runs ------------------------------------------------------------------------

  /** The connection of the last rung has delivered a whole page that confirms the mapping. */
  predicate ByUpnpGrant(cfg: Config, s: State, e: TcpEvent)
  {
    s.phase.UpnpMap? && e.id == s.phase.conn && !e.Connected? &&
    var buf := if e.Data? then s.buf + e.bytes else s.buf;
    (e.Data? ==> |buf| <= 65536 && cfg.complete(buf)) &&
    cfg.parse(buf).Some? && cfg.parse(buf).value.ok && cfg.parse(buf).value.added
  }

  /** The mapping that an event grants, if it grants one. */
  function GrantOf(cfg: Config, s: State, event: Event): (m: Option<Mapped>)
  {
    match event
    case Timer(_) => None
    case Received(env, d) =>
      if ByPcpGrant(cfg, s, d) then Some(Mapped(ByPcp, d.pcp.value.external, d.pcp.value.lifetimeSecs, env.now))
      else if ByNatPmpGrant(cfg, s, d) then
        Some(Mapped(ByNatPmp, Address(s.phase.externalIp, d.natPmpMap.value.1), d.natPmpMap.value.2, env.now))
      else None
    case Tcp(env, e) =>
      if ByUpnpGrant(cfg, s, e) then
        Some(Mapped(ByUpnp, Address(s.phase.externalIp, cfg.internalPort), 3600, env.now))
      else None
  }

  /** The event is a timer that finds the lease run out. */
  predicate RunsOut(m: Mapped, event: Event)
  {
    event.Timer? && event.env.now >= m.grantedAt + m.leaseSecs * 1000
  }

  lemma StepMaps(cfg: Config, s: State, event: Event)
    requires Sound(cfg, s)
    ensures Step(cfg, s, event).mapped ==
            if GrantOf(cfg, s, event).Some? then GrantOf(cfg, s, event)
            else if s.mapped.Some? && RunsOut(s.mapped.value, event) then None
            else s.mapped
  {
    match event
    case Timer(env) => TimerWithdraws(cfg, s, env);
    case Received(env, d) => AnswerMaps(cfg, s, env, d);
    case Tcp(env, e) => TcpMaps(cfg, s, env, e);
  }

  lemma AnswerMaps(cfg: Config, s: State, env: Env, d: Datagram)
    ensures var m := GrantOf(cfg, s, Received(env, d));
            OnDatagram(cfg, s, env, d).mapped == if m.Some? then m else s.mapped
  {
    DatagramMaps(cfg, s, env, d);
  }

  lemma TcpMaps(cfg: Config, s: State, env: Env, e: TcpEvent)
    requires Sound(cfg, s)
    ensures var m := GrantOf(cfg, s, Tcp(env, e));
            OnTcpEvent(cfg, s, env, e).mapped == if m.Some? then m else s.mapped
  {
    TcpSpeaks(cfg, s, env, e);
  }

  lemma {:induction false} RunSnoc(cfg: Config, s: State, events: seq<Event>, n: nat)
    requires n < |events|
    ensures Run(cfg, s, events[..n + 1]) == Step(cfg, Run(cfg, s, events[..n]), events[n])
    decreases n
  {
    var next, rest := Step(cfg, s, events[0]), events[1..];
    assert events[..n + 1][1..] == rest[..n];
    if n == 0 {
      assert Run(cfg, next, rest[..0]) == next;
    } else {
      assert events[..n][1..] == rest[..n - 1];
      RunSnoc(cfg, next, rest, n - 1);
    }
  }

  /** Event `k` granted `m`, nothing was granted since, and no timer has found it run out. */
  ghost predicate Stands(cfg: Config, s: State, events: seq<Event>, k: nat, m: Mapped)
  {
    && k < |events| && GrantOf(cfg, Run(cfg, s, events[..k]), events[k]) == Some(m)
    && forall j | k < j < |events| ::
         GrantOf(cfg, Run(cfg, s, events[..j]), events[j]) == None && !RunsOut(m, events[j])
  }

  lemma StandsSnoc(cfg: Config, s: State, events: seq<Event>, n: nat, k: nat, m: Mapped)
    requires n < |events|
    ensures Stands(cfg, s, events[..n + 1], k, m) <==>
            if k == n then GrantOf(cfg, Run(cfg, s, events[..n]), events[n]) == Some(m)
            else
              && Stands(cfg, s, events[..n], k, m)
              && GrantOf(cfg, Run(cfg, s, events[..n]), events[n]) == None && !RunsOut(m, events[n])
  {
    var now, was := events[..n + 1], events[..n];
    forall j | 0 <= j <= n
      ensures now[..j] == events[..j] && (j < n ==> was[..j] == events[..j])
    {
    }
  }

  ghost predicate InForce(cfg: Config, s: State, events: seq<Event>, m: Mapped)
  {
    exists k: nat :: Stands(cfg, s, events, k, m)
  }

  lemma InForceSnoc(cfg: Config, s: State, events: seq<Event>, n: nat, m: Mapped)
    requires n < |events|
    ensures var g := GrantOf(cfg, Run(cfg, s, events[..n]), events[n]);
            InForce(cfg, s, events[..n + 1], m) <==>
            if g.Some? then g == Some(m) else InForce(cfg, s, events[..n], m) && !RunsOut(m, events[n])
  {
    var was, now := events[..n], events[..n + 1];
    StandsSnoc(cfg, s, events, n, n, m);
    if k: nat :| Stands(cfg, s, now, k, m) {
      StandsSnoc(cfg, s, events, n, k, m);
    }
    if k: nat :| Stands(cfg, s, was, k, m) {
      StandsSnoc(cfg, s, events, n, k, m);
    }
  }

  /** After every run, `m` is the mapping exactly if some event granted it (the gateway's
      answer to the request that was pending, or the page that confirms it), nothing was
      granted since, and no timer has come after its lease. */
  lemma {:induction false} MappedExact(cfg: Config, start: nat, events: seq<Event>, m: Mapped)
    ensures Run(cfg, Fresh(cfg, start), events).mapped == Some(m) <==> InForce(cfg, Fresh(cfg, start), events, m)
    decreases |events|
  {
    if events != [] {
      var s, n := Fresh(cfg, start), |events| - 1;
      var before := events[..n];
      assert events[..n + 1] == events;
      MappedExact(cfg, start, before, m);
      RunSound(cfg, s, before);
      RunSnoc(cfg, s, events, n);
      StepMaps(cfg, Run(cfg, s, before), events[n]);
      InForceSnoc(cfg, s, events, n, m);
    }
  }

  // ---- a gateway that stays silent -------------------------------------------------------

  /** The phase after the `i`-th timer, if nothing is ever answered. */
  function SilentPhase(t: nat, i: nat): (p: Phase)
  {
    if i == 0 then Pcp(0, t + 2000)
    else if i == 1 then Pcp(1, t + 4000)
    else if i == 2 then NatPmpExternal(0, t + 6000)
    else if i == 3 then NatPmpExternal(1, t + 8000)
    else if i == 4 then Ssdp(0, t + 10000)
    else if i == 5 then Ssdp(1, t + 12000)
    else Idle(t + 72000)
  }

  /** Timers alone, two seconds apart. */
  predicate Silent(events: seq<Event>, t: nat)
  {
    forall i | 0 <= i < |events| :: events[i].Timer? && events[i].env.now == t + 2000 * i
  }

  /** Without answers, PCP, NAT-PMP and SSDP are each asked twice, two seconds apart, and the
      ladder has given up twelve seconds after it started, for a minute. */
  lemma {:induction false} SilentLadder(cfg: Config, t: nat, events: seq<Event>, n: nat)
    requires n < |events| && n <= 6 && Silent(events, t) && events[0].env.bind.Some?
    ensures Run(cfg, Fresh(cfg, t), events[..n + 1]).phase == SilentPhase(t, n)
    ensures Run(cfg, Fresh(cfg, t), events[..n + 1]).mapped == None
    decreases n
  {
    var s := Run(cfg, Fresh(cfg, t), events[..n]);
    RunSound(cfg, Fresh(cfg, t), events[..n]);
    RunSnoc(cfg, Fresh(cfg, t), events, n);
    StepMaps(cfg, s, events[n]);
    if n == 0 {
      TimerStarts(cfg, s, events[0].env);
    } else {
      SilentLadder(cfg, t, events, n - 1);
      TimerTicks(cfg, s, events[n].env);
    }
  }
}
