/** Gateway leases over whole runs: who holds a port, told from the requests alone. */
module NatLeases {
  import opened Options
  import opened NatModel
  import opened NatInvariants
  import opened NatEffects
  import opened NatRuns

  /** The port granted by event `k`. */
  ghost function Granted(cfg: Config, es: seq<Event>, k: nat): (port: Option<Port>)
    requires cfg.Ok() && k < |es|
  {
    var e := es[k];
    if e.Grant? then Install(cfg, Run(cfg, es[..k]), e.now, e.internal, e.requested, e.lifetime).1 else None
  }

  /** Event `k` gave `port` to someone, or its holder `internal` gave it back. */
  ghost predicate Disturbs(cfg: Config, es: seq<Event>, k: nat, internal: Endpoint, port: Port)
    requires cfg.Ok() && k < |es|
  {
    Granted(cfg, es, k) == Some(port) || (es[k].Revoke? && es[k].internal == internal && es[k].port == port)
  }

  /** Event `k` granted `port` to `internal`, and nothing has disturbed that since. */
  ghost predicate Stands(cfg: Config, es: seq<Event>, k: nat, internal: Endpoint, port: Port)
    requires cfg.Ok()
  {
    && k < |es| && Granted(cfg, es, k) == Some(port) && es[k].internal == internal
    && forall j | k < j < |es| :: !Disturbs(cfg, es, j, internal, port)
  }

  /** One event, seen from a port: granted, given back, or left alone until its lease runs out. */
  lemma StepLeases(cfg: Config, es: seq<Event>, n: nat, port: Port)
    requires cfg.Ok() && n < |es|
    ensures var a, b, e := Run(cfg, es[..n]), Run(cfg, es[..n + 1]), es[n];
            if Granted(cfg, es, n) == Some(port) then
              port in b.leases && b.leases[port] == Lease(e.internal, e.now + e.lifetime)
            else if port in a.leases && Disturbs(cfg, es, n, a.leases[port].internal, port) then port !in b.leases
            else
              && (port in b.leases ==> port in a.leases && b.leases[port] == a.leases[port])
              && (port in a.leases && e.now <= a.leases[port].expiresAt ==> port in b.leases)
  {
    var a, e := Run(cfg, es[..n]), es[n];
    RunStep(cfg, es, n);
    RunKeepsInv(cfg, es[..n]);
    match e
    case Send(now, src, dst, draws) => OutboundSends(cfg, a, now, src, dst, draws);
    case Receive(now, src, dst) => AskedShrinks(cfg, a, now, dst.port, None);
    case Grant(now, internal, requested, lifetime) => InstallLeases(cfg, a, now, internal, requested, lifetime);
    case Revoke(_, _, _) =>
  }

  lemma StandsStep(cfg: Config, es: seq<Event>, n: nat, k: nat, internal: Endpoint, port: Port)
    requires cfg.Ok() && n < |es|
    ensures Stands(cfg, es[..n + 1], k, internal, port) <==>
            if k == n then Granted(cfg, es, n) == Some(port) && es[n].internal == internal
            else Stands(cfg, es[..n], k, internal, port) && !Disturbs(cfg, es, n, internal, port)
  {
    var now, was := es[..n + 1], es[..n];
    forall j | 0 <= j <= n
      ensures now[..j] == es[..j] && (j < n ==> was[..j] == es[..j])
    {
    }
    if k < n && Stands(cfg, now, k, internal, port) {
      forall j | k < j < n
        ensures !Disturbs(cfg, was, j, internal, port)
      {
        assert !Disturbs(cfg, now, j, internal, port);
      }
      assert !Disturbs(cfg, now, n, internal, port);
    }
    if k < n && Stands(cfg, was, k, internal, port) && !Disturbs(cfg, es, n, internal, port) {
      forall j | k < j < n + 1
        ensures !Disturbs(cfg, now, j, internal, port)
      {
        if j < n { assert !Disturbs(cfg, was, j, internal, port); }
      }
    }
  }

  /** `internal` holds `port` until `until`, by the requests made so far. */
  ghost predicate Entitled(cfg: Config, es: seq<Event>, internal: Endpoint, port: Port, until: nat)
    requires cfg.Ok()
  {
    exists k: nat :: Stands(cfg, es, k, internal, port) && until == es[k].now + es[k].lifetime
  }

  /** Some live lease on the port is due to the requests made so far. */
  ghost predicate Taken(cfg: Config, es: seq<Event>, now: nat, internal: Endpoint, port: Port)
    requires cfg.Ok()
  {
    exists until: nat :: now <= until && Entitled(cfg, es, internal, port, until)
  }

  lemma EntitledStep(cfg: Config, es: seq<Event>, internal: Endpoint, port: Port, until: nat)
    requires cfg.Ok() && es != []
    ensures var n := |es| - 1;
            Entitled(cfg, es, internal, port, until) <==>
            || (Granted(cfg, es, n) == Some(port) && es[n].internal == internal && until == es[n].now + es[n].lifetime)
            || (Entitled(cfg, es[..n], internal, port, until) && !Disturbs(cfg, es, n, internal, port))
  {
    var n := |es| - 1;
    assert es[..n + 1] == es;
    if k: nat :| Stands(cfg, es, k, internal, port) && until == es[k].now + es[k].lifetime {
      StandsStep(cfg, es, n, k, internal, port);
    }
    if k: nat :| Stands(cfg, es[..n], k, internal, port) && until == es[k].now + es[k].lifetime {
      StandsStep(cfg, es, n, k, internal, port);
    }
    StandsStep(cfg, es, n, n, internal, port);
  }

  /** The box knows no lease but those that stand, and forgets none before it runs out. */
  lemma {:induction false} LeaseKnown(cfg: Config, es: seq<Event>, now: nat, internal: Endpoint, port: Port, until: nat)
    requires cfg.Ok() && By(es, now)
    ensures var m := Run(cfg, es).leases;
            && (port in m && m[port] == Lease(internal, until) ==> Entitled(cfg, es, internal, port, until))
            && (Entitled(cfg, es, internal, port, until) && now <= until ==>
                  port in m && m[port] == Lease(internal, until))
    decreases |es|
  {
    if es != [] {
      var n := |es| - 1;
      assert es[..n + 1] == es;
      LeaseKnown(cfg, es[..n], es[n].now, internal, port, until);
      EntitledStep(cfg, es, internal, port, until);
      StepLeases(cfg, es, n, port);
    }
  }

  /** At every moment, a live lease until `until` is on the port exactly if the last request
      that was granted this port came from `internal`, for that long, and `internal` has not
      given the port back since. Traffic, other requests and other sockets play no part. */
  lemma LeaseExact(cfg: Config, es: seq<Event>, now: nat, internal: Endpoint, port: Port, until: nat)
    requires cfg.Ok() && By(es, now) && now <= until
    ensures var m := Run(cfg, es).leases;
            port in m && m[port] == Lease(internal, until) <==> Entitled(cfg, es, internal, port, until)
  {
    LeaseKnown(cfg, es, now, internal, port, until);
  }

  lemma TakenExact(cfg: Config, es: seq<Event>, now: nat, internal: Endpoint, port: Port)
    requires cfg.Ok() && By(es, now)
    ensures Taken(cfg, es, now, internal, port) <==> Holds(Run(cfg, es), now, internal, port)
  {
    var m := Run(cfg, es).leases;
    if until: nat :| now <= until && Entitled(cfg, es, internal, port, until) {
      LeaseExact(cfg, es, now, internal, port, until);
    }
    if Holds(Run(cfg, es), now, internal, port) {
      LeaseExact(cfg, es, now, internal, port, m[port].expiresAt);
    }
  }

  /** Who is let in, on every port and in every run, from requests and departures alone: the
      holder of a lease is reached by anyone; on a port without one, a socket is reached exactly
      as far as its own departures have opened the port. */
  lemma AdmittedExactly(cfg: Config, es: seq<Event>, now: nat, src: Endpoint, port: Port, i: Endpoint)
    requires cfg.Ok() && By(es, now)
    ensures Verdict(cfg, Run(cfg, es), now, src, port) == Ok(i) <==>
            || Taken(cfg, es, now, i, port)
            || (&& (forall other :: !Taken(cfg, es, now, other, port))
                && exists k: nat :: Opens(cfg, Log(cfg, es), k, src, port, now) && Log(cfg, es)[k].src == i)
  {
    var a := Run(cfg, es);
    forall other
      ensures Taken(cfg, es, now, other, port) <==> Holds(a, now, other, port)
    {
      TakenExact(cfg, es, now, other, port);
    }
    if LiveLease(a, now, port) {
      assert Holds(a, now, a.leases[port].internal, port);
    } else {
      AdmissionExact(cfg, es, now, src, port, i);
    }
  }

  /** A socket that holds a lease shows the lowest port it holds one on, wherever it sends. */
  lemma LeaseShown(cfg: Config, es: seq<Event>, now: nat, src: Endpoint, dst: Endpoint, draws: seq<Port>, port: Port)
    requires cfg.Ok() && By(es, now)
    requires Taken(cfg, es, now, src, port) && forall p: Port | p < port :: !Taken(cfg, es, now, src, p)
    ensures Outbound(cfg, Run(cfg, es), now, src, dst, draws).1 == Ok(Pass(port, false, true))
  {
    forall p
      ensures Taken(cfg, es, now, src, p) <==> Holds(Run(cfg, es), now, src, p)
    {
      TakenExact(cfg, es, now, src, p);
    }
    LowestIsShown(cfg, Run(cfg, es), now, src, dst, draws, port);
  }

  lemma LowestIsShown(cfg: Config, a: Nat, now: nat, src: Endpoint, dst: Endpoint, draws: seq<Port>, port: Port)
    requires cfg.Ok() && cfg.InPool(a.cursor)
    requires Holds(a, now, src, port) && forall p: Port | p < port :: !Holds(a, now, src, p)
    ensures Outbound(cfg, a, now, src, dst, draws).1 == Ok(Pass(port, false, true))
  {
    assert Pins(a, now, src, port);
    var shown := PinnedPort(a, now, src);
    assert Holds(a, now, src, shown);
  }
}
