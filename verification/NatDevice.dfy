/** The NAT box as it runs: translations indexed twice, by slot and by external
    port, updated in place. Each method is tied to its `NatModel` counterpart,
    which knows only the first index. */
module NatDevice {
  import opened Options
  import opened Collections
  import opened NatModel
  import opened NatInvariants
  import opened NatEffects

  /** The two indexes describe the same slots. */
  ghost predicate Coherent(mappings: map<Slot, Mapping>, byPort: map<Port, seq<Slot>>)
  {
    && (forall p | p in byPort :: byPort[p] != [] && Distinct(byPort[p]))
    && (forall p, s | p in byPort && s in byPort[p] :: s in mappings && mappings[s].externalPort == p)
    && (forall s | s in mappings :: mappings[s].externalPort in byPort && s in byPort[mappings[s].externalPort])
  }

  /** Keep every occupant but one. */
  function Retain(slots: seq<Slot>, gone: Slot): (r: seq<Slot>)
    ensures forall s :: s in r <==> s in slots && s != gone
    ensures Distinct(slots) ==> Distinct(r)
  {
    if slots == [] then []
    else
      var rest := Retain(slots[1..], gone);
      assert Distinct(slots) ==> Distinct(slots[1..]) && slots[0] !in slots[1..];
      if slots[0] == gone then rest else [slots[0]] + rest
  }

  lemma DropMore(a: Nat, gone: seq<Slot>, k: nat)
    requires k < |gone|
    ensures DropSlots(DropSlots(a, Members(gone[..k])), {gone[k]}) == DropSlots(a, Members(gone[..k + 1]))
  {
  }

  /** What a scan of the slots on `port` may conclude. */
  ghost predicate Fits(cfg: Config, a: Nat, now: nat, src: Endpoint, port: Port, r: Result<Endpoint>)
  {
    && SlotsOn(a, port) != {}
    && match r
       case Ok(internal) => exists s :: Admits(cfg, a, now, src, port, s) && a.mappings[s].internal == internal
       case Err(reason) =>
         && (forall s :: !Admits(cfg, a, now, src, port, s))
         && reason == if exists s :: s in SlotsOn(a, port) && LiveSlot(cfg, a, now, s) then Filtered else MappingExpired
  }

  /** With owned ports a scan has only one possible outcome. */
  lemma VerdictFits(cfg: Config, a: Nat, b: Nat, now: nat, src: Endpoint, port: Port, r: Result<Endpoint>)
    requires Owned(a) && b.mappings == a.mappings && !LiveLease(a, now, port)
    requires Fits(cfg, b, now, src, port, r)
    ensures r == Verdict(cfg, a, now, src, port)
  {
    assert SlotsOn(a, port) == SlotsOn(b, port);
    assert forall s :: Admits(cfg, b, now, src, port, s) <==> Admits(cfg, a, now, src, port, s);
    assert forall s :: LiveSlot(cfg, b, now, s) <==> LiveSlot(cfg, a, now, s);
  }

  class NatBox {
    const cfg: Config
    var mappings: map<Slot, Mapping>
    var byPort: map<Port, seq<Slot>>
    var staticMaps: map<Port, Lease>
    var nextPort: Port

    /** The box without its port index. */
    ghost function View(): (r: Nat)
      reads this
    {
      Nat(mappings, staticMaps, nextPort)
    }

    /** The indexes agree and the cursor is in the pool. */
    ghost predicate Sync()
      reads this
    {
      cfg.Ok() && cfg.InPool(nextPort) && Coherent(mappings, byPort)
    }

    ghost predicate Valid()
      reads this
    {
      Sync() && Inv(cfg, View())
    }

    constructor (config: Config)
      requires config.Ok()
      ensures cfg == config && Valid() && View() == Fresh(config)
      ensures mappings == map[] && staticMaps == map[] && nextPort == config.lo
    {
      cfg := config;
      mappings, byPort, staticMaps := map[], map[], map[];
      nextPort := config.lo;
    }

    /** Remove a slot from both indexes. */
    method Evict(slot: Slot)
      requires Sync()
      modifies this`mappings, this`byPort
      ensures Sync()
      ensures View() == DropSlots(old(View()), {slot})
    {
      if slot in mappings {
        var port := mappings[slot].externalPort;
        mappings := mappings - {slot};
        if port in byPort {
          var slots := Retain(byPort[port], slot);
          byPort := if slots == [] then byPort - {port} else byPort[port := slots];
        }
      }
      assert mappings == old(mappings) - {slot};
    }

    method EvictAll(gone: seq<Slot>)
      requires Sync()
      modifies this`mappings, this`byPort
      ensures Sync()
      ensures View() == DropSlots(old(View()), Members(gone))
    {
      var k := 0;
      assert mappings == mappings - Members(gone[..0]);
      while k < |gone|
        invariant 0 <= k <= |gone|
        invariant Sync()
        invariant View() == DropSlots(old(View()), Members(gone[..k]))
      {
        Evict(gone[k]);
        DropMore(old(View()), gone, k);
        k := k + 1;
      }
      assert gone[..k] == gone;
    }

    /** Look through the slots of one port for what has run out and for whom `share`
        does not cover. */
    method Survey(now: nat, port: Port, share: Option<Endpoint>) returns (expired: seq<Slot>, blocked: bool)
      requires Sync() && port in byPort
      ensures Members(expired) == ExpiredOn(cfg, View(), now, port)
      ensures blocked <==>
              exists s :: s in SlotsOn(View(), port) && LiveSlot(cfg, View(), now, s) && share != Some(s.internal)
    {
      var slots := byPort[port];
      expired, blocked := [], false;
      for k := 0 to |slots|
        invariant forall s :: s in expired <==> s in slots[..k] && Expired(cfg, mappings[s], now)
        invariant blocked <==> exists s :: s in slots[..k] && LiveSlot(cfg, View(), now, s) && share != Some(s.internal)
      {
        var slot := slots[k];
        var live := slot in mappings && !Expired(cfg, mappings[slot], now);
        if !live {
          expired := expired + [slot];
        } else if share != Some(slot.internal) {
          blocked := true;
        }
      }
    }

    /** Whether `port` can take a new translation; with `share` set the port may
        already serve that socket. */
    method PortAvailable(now: nat, port: Port, share: Option<Endpoint>) returns (free: bool)
      requires Sync()
      modifies this`mappings, this`byPort, this`staticMaps
      ensures Sync()
      ensures View() == Asked(cfg, old(View()), now, port, share)
      ensures free <==> PortFree(cfg, old(View()), now, port, share)
    {
      if port in staticMaps {
        if now <= staticMaps[port].expiresAt {
          if share != Some(staticMaps[port].internal) {
            return false;
          }
        } else {
          staticMaps := staticMaps - {port};
        }
      }
      assert staticMaps == (if LiveLease(old(View()), now, port) then old(staticMaps) else old(staticMaps) - {port});
      if port !in byPort {
        assert ExpiredOn(cfg, old(View()), now, port) == {};
        assert mappings - {} == mappings;
        return true;
      }
      var expired, blocked := Survey(now, port, share);
      EvictAll(expired);
      return !blocked;
    }

    /** Pick an external port for a new translation. */
    method AllocatePort(now: nat, internal: Endpoint, draws: seq<Port>) returns (port: Option<Port>)
      requires Sync() && GoodDraws(cfg, draws)
      modifies this`mappings, this`byPort, this`staticMaps, this`nextPort
      ensures Sync()
      ensures (View(), port) == Allocate(cfg, old(View()), now, internal, draws)
      // the own port if it is to be preserved and can be, the next one of the walk, or the first drawn one
      ensures Chosen(cfg, old(View()), View(), now, internal, draws, port)
    {
      AllocateChooses(cfg, View(), now, internal, draws);
      port := SearchPort(now, internal, draws);
    }

    method SearchPort(now: nat, internal: Endpoint, draws: seq<Port>) returns (port: Option<Port>)
      requires Sync() && GoodDraws(cfg, draws)
      modifies this`mappings, this`byPort, this`staticMaps, this`nextPort
      ensures Sync()
      ensures (View(), port) == Allocate(cfg, old(View()), now, internal, draws)
    {
      if cfg.allocator.Preserving? && cfg.InPool(internal.port) {
        var own := PortAvailable(now, internal.port, Some(internal));
        if own {
          return Some(internal.port);
        }
      }
      if cfg.allocator.Random? {
        port := DrawPort(now, draws);
      } else {
        port := WalkPort(now);
      }
    }

    /** Try the drawn ports. */
    method DrawPort(now: nat, draws: seq<Port>) returns (port: Option<Port>)
      requires Sync()
      modifies this`mappings, this`byPort, this`staticMaps
      ensures Sync()
      ensures (View(), port) == Draw(cfg, old(View()), now, draws)
    {
      for k := 0 to |draws|
        invariant Sync()
        invariant Draw(cfg, old(View()), now, draws) == Draw(cfg, View(), now, draws[k..])
      {
        assert draws[k..][1..] == draws[k + 1..];
        var free := PortAvailable(now, draws[k], None);
        if free {
          return Some(draws[k]);
        }
      }
      return None;
    }

    /** Try the ports from the cursor on, once round the pool. */
    method WalkPort(now: nat) returns (port: Option<Port>)
      requires Sync()
      modifies this`mappings, this`byPort, this`staticMaps, this`nextPort
      ensures Sync()
      ensures (View(), port) == Walk(cfg, old(View()), now, cfg.Span())
    {
      for k := 0 to cfg.Span()
        invariant Sync()
        invariant Walk(cfg, old(View()), now, cfg.Span()) == Walk(cfg, View(), now, cfg.Span() - k)
      {
        var candidate := nextPort;
        nextPort := NextCursor(cfg, candidate);
        var free := PortAvailable(now, candidate, None);
        if free {
          return Some(candidate);
        }
      }
      return None;
    }

    /** The first live lease of `src` in port order. */
    method FindPin(now: nat, src: Endpoint) returns (pin: Option<Port>)
      ensures pin.Some? ==> IsPinnedPort(View(), now, src, pin.value)
      ensures pin.None? ==> !Pinned(View(), now, src)
    {
      for port: int := 0 to 0x1_0000
        invariant forall q: Port :: Pins(View(), now, src, q) ==> port <= q
      {
        if port in staticMaps && staticMaps[port].internal == src && now <= staticMaps[port].expiresAt {
          return Some(port);
        }
      }
      return None;
    }

    /** Enter a new translation in both indexes. */
    method Open(slot: Slot, mapping: Mapping)
      requires Sync() && slot !in mappings
      modifies this`mappings, this`byPort
      ensures Sync()
      ensures View() == old(View()).(mappings := old(mappings)[slot := mapping])
    {
      var port := mapping.externalPort;
      mappings := mappings[slot := mapping];
      byPort := byPort[port := (if port in byPort then byPort[port] else []) + [slot]];
    }

    /** A datagram leaves the local network. */
    method Outbound(now: nat, src: Endpoint, dst: Endpoint, draws: seq<Port>) returns (r: Result<Pass>)
      requires Valid() && GoodDraws(cfg, draws)
      modifies this`mappings, this`byPort, this`staticMaps, this`nextPort
      ensures Valid()
      ensures (View(), r) == NatModel.Outbound(cfg, old(View()), now, src, dst, draws)
      // by the lowest lease, or else by the translation in use, or else by a fresh one
      ensures Sends(cfg, old(View()), View(), now, src, dst, draws, r)
      // the port shown leads back to the sender: from anywhere by a lease, and else from `dst`
      ensures forall from | r.Ok? && (r.value.pinned || from == dst) ::
                Verdict(cfg, View(), now, from, r.value.external) == Ok(src)
    {
      OutboundKeepsInv(cfg, View(), now, src, dst, draws);
      OutboundSends(cfg, View(), now, src, dst, draws);
      forall from {
        SendersAreReached(cfg, View(), now, src, dst, draws, from);
      }
      var pin := FindPin(now, src);
      if pin.Some? {
        return Ok(Pass(pin.value, false, true));
      }
      r := Translate(now, src, dst, draws);
    }

    /** Send by a translation, found or fresh. */
    method Translate(now: nat, src: Endpoint, dst: Endpoint, draws: seq<Port>) returns (r: Result<Pass>)
      requires Sync() && GoodDraws(cfg, draws) && !Pinned(View(), now, src)
      modifies this`mappings, this`byPort, this`staticMaps, this`nextPort
      ensures Sync()
      ensures (View(), r) == NatModel.Outbound(cfg, old(View()), now, src, dst, draws)
    {
      var slot := Slot(src, KeyOf(cfg.mapping, dst));
      if slot in mappings && Expired(cfg, mappings[slot], now) {
        Evict(slot);
      }
      if slot in mappings {
        mappings := mappings[slot := Touch(mappings[slot], now, dst)];
        return Ok(Pass(mappings[slot].externalPort, false, false));
      }
      assert mappings == old(mappings) - {slot};
      AllocateAllocates(cfg, View(), now, src, draws);
      var port := AllocatePort(now, src, draws);
      if port == None {
        return Err(PortPoolExhausted);
      }
      Open(slot, Mapping(src, port.value, now, {dst}));
      return Ok(Pass(port.value, true, false));
    }

    /** Look through the slots of one port: which have run out, whether any is
        alive, and whom the filtering rule lets `src` reach. */
    method Scan(now: nat, src: Endpoint, port: Port) returns (expired: seq<Slot>, sawLive: bool,
                admitted: Option<Endpoint>)
      requires Sync() && port in byPort
      ensures Members(expired) == ExpiredOn(cfg, View(), now, port)
      ensures sawLive <==> exists s :: s in SlotsOn(View(), port) && LiveSlot(cfg, View(), now, s)
      ensures admitted.None? ==> forall s :: !Admits(cfg, View(), now, src, port, s)
      ensures admitted.Some? ==>
                exists s :: Admits(cfg, View(), now, src, port, s) && mappings[s].internal == admitted.value
    {
      var slots := byPort[port];
      expired, sawLive, admitted := [], false, None;
      for k := 0 to |slots|
        invariant forall s :: s in expired <==> s in slots[..k] && Expired(cfg, mappings[s], now)
        invariant sawLive <==> exists s :: s in slots[..k] && LiveSlot(cfg, View(), now, s)
        invariant admitted.None? ==> forall s :: s in slots[..k] ==> !Admits(cfg, View(), now, src, port, s)
        invariant admitted.Some? ==>
                    exists s :: Admits(cfg, View(), now, src, port, s) && mappings[s].internal == admitted.value
      {
        // The agreement of the indexes is what makes this lookup succeed.
        var mapping := mappings[slots[k]];
        if Expired(cfg, mapping, now) {
          expired := expired + [slots[k]];
        } else {
          sawLive := true;
          assert LiveSlot(cfg, View(), now, slots[k]);
          if Passes(cfg.filtering, mapping.allowed, src) && admitted == None {
            assert Admits(cfg, View(), now, src, port, slots[k]);
            admitted := Some(mapping.internal);
          }
        }
      }
    }

    /** Judge `src` against the slots of a port, dropping those that have run out. */
    method Filter(now: nat, src: Endpoint, port: Port) returns (r: Result<Endpoint>)
      requires Sync() && port in byPort
      modifies this`mappings, this`byPort
      ensures Sync()
      ensures View() == DropSlots(old(View()), ExpiredOn(cfg, old(View()), now, port))
      ensures Fits(cfg, old(View()), now, src, port, r)
    {
      assert byPort[port][0] in SlotsOn(View(), port);
      var expired, sawLive, admitted := Scan(now, src, port);
      EvictAll(expired);
      match admitted
      case Some(internal) => r := Ok(internal);
      case None => r := if sawLive then Err(Filtered) else Err(MappingExpired);
    }

    /** A datagram arrives on the external address. */
    method Inbound(now: nat, src: Endpoint, dst: Endpoint) returns (r: Result<Endpoint>)
      requires Valid()
      modifies this`mappings, this`byPort, this`staticMaps
      ensures Valid()
      ensures (View(), r) == NatModel.Inbound(cfg, old(View()), now, src, dst)
      // the lessee, or the socket of a translation whose contacts let `src` in, or else the reason
      ensures Judged(cfg, old(View()), now, src, dst.port, r)
      ensures if old(Kept(View(), now, dst.port)) then View() == old(View())
              else Cleaned(cfg, old(View()), View(), now, dst.port)
    {
      VerdictJudges(cfg, View(), now, src, dst.port);
      PruneCleans(cfg, View(), now, dst.port);
      StepKeepsInv(cfg, View(), Receive(now, src, dst));
      r := Deliver(now, src, dst.port);
    }

    /** Look up a port: its lease first, then the translations on it. */
    method Deliver(now: nat, src: Endpoint, port: Port) returns (r: Result<Endpoint>)
      requires Sync() && Owned(View())
      modifies this`mappings, this`byPort, this`staticMaps
      ensures Sync()
      ensures View() == if old(LiveLease(View(), now, port)) then old(View()) else Prune(cfg, old(View()), now, port)
      ensures r == Verdict(cfg, old(View()), now, src, port)
    {
      if port in staticMaps {
        if now <= staticMaps[port].expiresAt {
          return Ok(staticMaps[port].internal);
        }
        staticMaps := staticMaps - {port};
      }
      assert staticMaps == old(staticMaps) - {port};
      if port !in byPort {
        assert SlotsOn(old(View()), port) == {};
        assert ExpiredOn(cfg, old(View()), now, port) == {};
        assert mappings - {} == mappings;
        return Err(NoMapping);
      }
      ghost var a := View();
      r := Filter(now, src, port);
      VerdictFits(cfg, old(View()), a, now, src, port, r);
    }

    /** Install or renew a gateway lease. */
    method InstallStatic(now: nat, internal: Endpoint, requested: Port, lifetime: nat) returns (r: Option<Port>)
      requires Valid()
      modifies this`mappings, this`byPort, this`staticMaps
      ensures Valid()
      ensures (View(), r) == Install(cfg, old(View()), now, internal, requested, lifetime)
      // the requested port if it can be, or else the next one that can; none only if there is none
      ensures Grants(cfg, old(View()), now, internal, requested, r)
      // a granted lease, new or renewed, runs its whole lifetime, and all else alive is as it was
      ensures Leases(cfg, old(View()), View(), now, internal, now + lifetime, r)
      ensures forall from | r.Some? :: Verdict(cfg, View(), now, from, r.value) == Ok(internal)
    {
      InstallGrants(cfg, View(), now, internal, requested, lifetime);
      InstallLeases(cfg, View(), now, internal, requested, lifetime);
      InstallKeepsInv(cfg, View(), now, internal, requested, lifetime);
      forall from {
        LeaseAdmits(cfg, View(), now, internal, requested, lifetime, from);
      }
      r := RenewOrLease(now, internal, requested, lifetime);
    }

    method RenewOrLease(now: nat, internal: Endpoint, requested: Port, lifetime: nat) returns (r: Option<Port>)
      requires Sync()
      modifies this`mappings, this`byPort, this`staticMaps
      ensures Sync()
      ensures (View(), r) == Install(cfg, old(View()), now, internal, requested, lifetime)
    {
      var expiresAt := now + lifetime;
      if requested in staticMaps && staticMaps[requested].internal == internal {
        staticMaps := staticMaps[requested := Lease(internal, expiresAt)];
        return Some(requested);
      }
      r := InstallFirst(now, internal, requested, expiresAt);
    }

    /** Lease the first candidate port that can serve `internal`. */
    method InstallFirst(now: nat, internal: Endpoint, requested: Port, expiresAt: nat) returns (r: Option<Port>)
      requires Sync()
      modifies this`mappings, this`byPort, this`staticMaps
      ensures Sync()
      ensures (View(), r) == LeaseFrom(cfg, old(View()), now, internal, requested, expiresAt, 0)
    {
      for k := 0 to cfg.Span() + 1
        invariant Sync()
        invariant LeaseFrom(cfg, old(View()), now, internal, requested, expiresAt, 0)
               == LeaseFrom(cfg, View(), now, internal, requested, expiresAt, k)
      {
        var port := Candidate(cfg, requested, k);
        var ok := TryLease(now, internal, port, expiresAt);
        if ok {
          return Some(port);
        }
      }
      return None;
    }

    /** Lease one port if nothing stands in the way. */
    method TryLease(now: nat, internal: Endpoint, port: Port, expiresAt: nat) returns (ok: bool)
      requires Sync()
      modifies this`mappings, this`byPort, this`staticMaps
      ensures Sync()
      ensures ok <==> !LiveLease(old(View()), now, port) && PortFree(cfg, old(View()), now, port, Some(internal))
      ensures LiveLease(old(View()), now, port) ==> View() == old(View())
      ensures !LiveLease(old(View()), now, port) ==>
                var a := Prune(cfg, old(View()), now, port);
                View() == if ok then a.(leases := a.leases[port := Lease(internal, expiresAt)]) else a
    {
      if port in staticMaps && now <= staticMaps[port].expiresAt {
        return false;
      }
      staticMaps := staticMaps - {port};
      ok := PortAvailable(now, port, Some(internal));
      if ok {
        staticMaps := staticMaps[port := Lease(internal, expiresAt)];
      }
    }

    /** Give a lease back. */
    method RemoveStatic(internal: Endpoint, port: Port)
      requires Valid()
      modifies this`staticMaps
      ensures Valid()
      ensures View() == Remove(old(View()), internal, port)
      // the owner's lease is gone, and a foreign one is not
      ensures staticMaps == if old(port in staticMaps && staticMaps[port].internal == internal)
                            then old(staticMaps) - {port} else old(staticMaps)
    {
      if port in staticMaps && staticMaps[port].internal == internal {
        staticMaps := staticMaps - {port};
      }
    }
  }
}
