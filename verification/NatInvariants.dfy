/** What every operation of the NAT keeps: each external port serves one internal
    socket, and cleaning up never removes anything that is still alive. */
module NatInvariants {
  import opened Options
  import opened NatModel

  /** Everything recorded on an external port belongs to one internal socket. */
  ghost predicate Owned(a: Nat)
  {
    && (forall s | s in a.mappings :: a.mappings[s].internal == s.internal)
    && (forall s, t | s in a.mappings && t in a.mappings :: a.mappings[s].externalPort == a.mappings[t].externalPort ==>
        s.internal == t.internal)
    && (forall s | s in a.mappings :: a.mappings[s].externalPort in a.leases ==>
        a.leases[a.mappings[s].externalPort].internal == s.internal)
  }

  /** Without port preservation no external port carries two translations. */
  ghost predicate Unshared(a: Nat)
  {
    forall s, t | s in a.mappings && t in a.mappings :: a.mappings[s].externalPort == a.mappings[t].externalPort ==>
      s == t
  }

  ghost predicate Inv(cfg: Config, a: Nat)
  {
    && cfg.Ok()
    && cfg.InPool(a.cursor)
    && Owned(a)
    && (!cfg.allocator.Preserving? ==> Unshared(a))
  }

  /** `b` is `a` after some run-out entries were forgotten. */
  ghost predicate Shrinks(cfg: Config, a: Nat, b: Nat, now: nat)
  {
    && (forall s | s in b.mappings :: s in a.mappings && b.mappings[s] == a.mappings[s])
    && (forall s | s in a.mappings && s !in b.mappings :: Expired(cfg, a.mappings[s], now))
    && (forall p | p in b.leases :: p in a.leases && b.leases[p] == a.leases[p])
    && (forall p | p in a.leases && p !in b.leases :: a.leases[p].expiresAt < now)
  }

  lemma ShrinksTransitive(cfg: Config, a: Nat, b: Nat, c: Nat, now: nat)
    requires Shrinks(cfg, a, b, now) && Shrinks(cfg, b, c, now)
    ensures Shrinks(cfg, a, c, now)
  {
  }

  lemma AskedShrinks(cfg: Config, a: Nat, now: nat, port: Port, share: Option<Endpoint>)
    ensures Shrinks(cfg, a, Asked(cfg, a, now, port, share), now)
    ensures Shrinks(cfg, a, Prune(cfg, a, now, port), now)
  {
  }

  /** Whether a port is free does not depend on run-out entries. */
  lemma ShrinksSamePorts(cfg: Config, a: Nat, b: Nat, now: nat, port: Port, share: Option<Endpoint>)
    requires Shrinks(cfg, a, b, now)
    ensures PortFree(cfg, a, now, port, share) <==> PortFree(cfg, b, now, port, share)
    ensures LeaseBlocks(a, now, port, share) <==> LeaseBlocks(b, now, port, share)
  {
  }

  /** A port handed out for `src` carries nothing that is not `src`'s, and nothing
      at all unless ports are preserved. */
  ghost predicate Handed(cfg: Config, a: Nat, src: Endpoint, port: Port)
  {
    && (forall s | s in a.mappings && a.mappings[s].externalPort == port ::
        cfg.allocator.Preserving? && s.internal == src)
    && (port in a.leases ==> a.leases[port].internal == src)
  }

  lemma AskedHands(cfg: Config, a: Nat, now: nat, src: Endpoint, port: Port, share: Option<Endpoint>)
    requires PortFree(cfg, a, now, port, share)
    requires share == None || (cfg.allocator.Preserving? && share == Some(src))
    ensures Handed(cfg, Asked(cfg, a, now, port, share), src, port)
  {
  }

  ghost predicate Allocated(cfg: Config, a: Nat, now: nat, src: Endpoint, r: (Nat, Option<Port>))
  {
    && Shrinks(cfg, a, r.0, now)
    && (r.1.Some? ==> Handed(cfg, r.0, src, r.1.value))
  }

  lemma {:induction false} WalkAllocates(cfg: Config, a: Nat, now: nat, src: Endpoint, n: nat)
    requires cfg.Ok() && cfg.InPool(a.cursor)
    ensures Allocated(cfg, a, now, src, Walk(cfg, a, now, n))
    decreases n
  {
    if n > 0 {
      var candidate := a.cursor;
      var a1 := a.(cursor := NextCursor(cfg, candidate));
      var a2 := Asked(cfg, a1, now, candidate, None);
      AskedShrinks(cfg, a1, now, candidate, None);
      if PortFree(cfg, a1, now, candidate, None) {
        AskedHands(cfg, a1, now, src, candidate, None);
      } else {
        WalkAllocates(cfg, a2, now, src, n - 1);
        ShrinksTransitive(cfg, a, a2, Walk(cfg, a2, now, n - 1).0, now);
      }
    }
  }

  lemma {:induction false} DrawAllocates(cfg: Config, a: Nat, now: nat, src: Endpoint, draws: seq<Port>)
    ensures Allocated(cfg, a, now, src, Draw(cfg, a, now, draws))
    decreases |draws|
  {
    if draws != [] {
      var a1 := Asked(cfg, a, now, draws[0], None);
      AskedShrinks(cfg, a, now, draws[0], None);
      if PortFree(cfg, a, now, draws[0], None) {
        AskedHands(cfg, a, now, src, draws[0], None);
      } else {
        DrawAllocates(cfg, a1, now, src, draws[1..]);
        ShrinksTransitive(cfg, a, a1, Draw(cfg, a1, now, draws[1..]).0, now);
      }
    }
  }

  lemma AllocateAllocates(cfg: Config, a: Nat, now: nat, src: Endpoint, draws: seq<Port>)
    requires cfg.Ok() && cfg.InPool(a.cursor)
    ensures Allocated(cfg, a, now, src, Allocate(cfg, a, now, src, draws))
  {
    var own := cfg.allocator.Preserving? && cfg.InPool(src.port);
    AskedShrinks(cfg, a, now, src.port, Some(src));
    if own && PortFree(cfg, a, now, src.port, Some(src)) {
      AskedHands(cfg, a, now, src, src.port, Some(src));
    } else {
      var a1 := if own then Asked(cfg, a, now, src.port, Some(src)) else a;
      WalkAllocates(cfg, a1, now, src, cfg.Span());
      DrawAllocates(cfg, a1, now, src, draws);
      ShrinksTransitive(cfg, a, a1, Allocate(cfg, a, now, src, draws).0, now);
    }
  }

  lemma {:induction false} WalkInPool(cfg: Config, a: Nat, now: nat, n: nat)
    requires cfg.Ok() && cfg.InPool(a.cursor)
    ensures Walk(cfg, a, now, n).1.Some? ==> cfg.InPool(Walk(cfg, a, now, n).1.value)
    decreases n
  {
    if n > 0 {
      var a1 := a.(cursor := NextCursor(cfg, a.cursor));
      if !PortFree(cfg, a1, now, a.cursor, None) {
        WalkInPool(cfg, Asked(cfg, a1, now, a.cursor, None), now, n - 1);
      }
    }
  }

  lemma {:induction false} DrawInPool(cfg: Config, a: Nat, now: nat, draws: seq<Port>)
    requires forall k | 0 <= k < |draws| :: cfg.InPool(draws[k])
    ensures Draw(cfg, a, now, draws).1.Some? ==> cfg.InPool(Draw(cfg, a, now, draws).1.value)
    decreases |draws|
  {
    if draws != [] && !PortFree(cfg, a, now, draws[0], None) {
      DrawInPool(cfg, Asked(cfg, a, now, draws[0], None), now, draws[1..]);
    }
  }

  /** Neither an allocated port nor the cursor ever leaves the pool. */
  lemma AllocatesInPool(cfg: Config, a: Nat, now: nat, src: Endpoint, draws: seq<Port>)
    requires cfg.Ok() && cfg.InPool(a.cursor) && (cfg.allocator.Random? ==> GoodDraws(cfg, draws))
    ensures var r := Allocate(cfg, a, now, src, draws);
            cfg.InPool(r.0.cursor) && (r.1.Some? ==> cfg.InPool(r.1.value))
  {
    var own := cfg.allocator.Preserving? && cfg.InPool(src.port);
    var a1 := if own then Asked(cfg, a, now, src.port, Some(src)) else a;
    WalkInPool(cfg, a1, now, cfg.Span());
    if cfg.allocator.Random? {
      DrawInPool(cfg, a1, now, draws);
    }
  }

  ghost predicate Leased(cfg: Config, a: Nat, now: nat, internal: Endpoint, expiresAt: nat, r: (Nat, Option<Port>))
  {
    match r.1
    case None => Shrinks(cfg, a, r.0, now)
    case Some(port) =>
      && port in r.0.leases && r.0.leases[port] == Lease(internal, expiresAt)
      && (forall s | s in r.0.mappings && r.0.mappings[s].externalPort == port :: s.internal == internal)
      && !LiveLease(a, now, port)
      && Shrinks(cfg, a, DropLease(r.0, port), now)
  }

  lemma {:induction false} LeaseFromLeases(cfg: Config, a: Nat, now: nat, internal: Endpoint, requested: Port,
                                           expiresAt: nat, k: nat)
    requires cfg.Ok() && k <= cfg.Span() + 1
    ensures Leased(cfg, a, now, internal, expiresAt, LeaseFrom(cfg, a, now, internal, requested, expiresAt, k))
    decreases cfg.Span() + 1 - k
  {
    if k <= cfg.Span() {
      var port := Candidate(cfg, requested, k);
      if LiveLease(a, now, port) {
        LeaseFromLeases(cfg, a, now, internal, requested, expiresAt, k + 1);
      } else {
        var a1 := Prune(cfg, a, now, port);
        AskedShrinks(cfg, a, now, port, Some(internal));
        if !PortFree(cfg, a, now, port, Some(internal)) {
          LeaseFromLeases(cfg, a1, now, internal, requested, expiresAt, k + 1);
          var r := LeaseFrom(cfg, a1, now, internal, requested, expiresAt, k + 1);
          if r.1.Some? {
            ShrinksTransitive(cfg, a, a1, DropLease(r.0, r.1.value), now);
          } else {
            ShrinksTransitive(cfg, a, a1, r.0, now);
          }
        }
      }
    }
  }

  lemma ShrinksKeepsInv(cfg: Config, a: Nat, b: Nat, now: nat)
    requires Inv(cfg, a) && Shrinks(cfg, a, b, now) && cfg.InPool(b.cursor)
    ensures Inv(cfg, b)
  {
  }

  /** Port ownership is kept by every operation. */
  lemma StepKeepsInv(cfg: Config, a: Nat, e: Event)
    requires Inv(cfg, a)
    ensures Inv(cfg, Step(cfg, a, e))
  {
    match e
    case Send(now, src, dst, draws) => OutboundKeepsInv(cfg, a, now, src, dst, draws);
    case Receive(now, src, dst) =>
      AskedShrinks(cfg, a, now, dst.port, None);
      ShrinksKeepsInv(cfg, a, Prune(cfg, a, now, dst.port), now);
    case Grant(now, internal, requested, lifetime) => InstallKeepsInv(cfg, a, now, internal, requested, lifetime);
    case Revoke(_, internal, port) =>
  }

  lemma TouchKeepsInv(cfg: Config, a: Nat, slot: Slot, now: nat, dst: Endpoint)
    requires Inv(cfg, a) && slot in a.mappings
    ensures Inv(cfg, a.(mappings := a.mappings[slot := Touch(a.mappings[slot], now, dst)]))
  {
  }

  lemma OpenKeepsInv(cfg: Config, a: Nat, slot: Slot, port: Port, now: nat, dst: Endpoint)
    requires Inv(cfg, a) && slot !in a.mappings && Handed(cfg, a, slot.internal, port)
    ensures Inv(cfg, a.(mappings := a.mappings[slot := Mapping(slot.internal, port, now, {dst})]))
  {
  }

  lemma OutboundKeepsInv(cfg: Config, a: Nat, now: nat, src: Endpoint, dst: Endpoint, draws: seq<Port>)
    requires Inv(cfg, a)
    ensures Inv(cfg, Outbound(cfg, a, now, src, dst, draws).0)
  {
    var slot := Slot(src, KeyOf(cfg.mapping, dst));
    if Pinned(a, now, src) {
    } else if LiveSlot(cfg, a, now, slot) {
      TouchKeepsInv(cfg, a, slot, now, dst);
    } else {
      var r := OpeningState(cfg, a, now, src, dst, draws);
      ShrinksKeepsInv(cfg, a, r.0, now);
      if r.1.Some? {
        OpenKeepsInv(cfg, r.0, slot, r.1.value, now, dst);
      }
    }
  }

  /** The state in which a fresh translation is entered. */
  lemma OpeningState(cfg: Config, a: Nat, now: nat, src: Endpoint, dst: Endpoint, draws: seq<Port>)
    returns (r: (Nat, Option<Port>))
    requires cfg.Ok() && cfg.InPool(a.cursor)
    requires !LiveSlot(cfg, a, now, Slot(src, KeyOf(cfg.mapping, dst)))
    ensures r == Allocate(cfg, DropSlots(a, {Slot(src, KeyOf(cfg.mapping, dst))}), now, src, draws)
    ensures Allocated(cfg, a, now, src, r)
    ensures Slot(src, KeyOf(cfg.mapping, dst)) !in r.0.mappings
  {
    var a0 := DropSlots(a, {Slot(src, KeyOf(cfg.mapping, dst))});
    r := Allocate(cfg, a0, now, src, draws);
    AllocateAllocates(cfg, a0, now, src, draws);
    assert Shrinks(cfg, a, a0, now);
    ShrinksTransitive(cfg, a, a0, r.0, now);
  }

  lemma InstallKeepsInv(cfg: Config, a: Nat, now: nat, internal: Endpoint, requested: Port, lifetime: nat)
    requires Inv(cfg, a)
    ensures Inv(cfg, Install(cfg, a, now, internal, requested, lifetime).0)
  {
    if !(requested in a.leases && a.leases[requested].internal == internal) {
      LeaseFromLeases(cfg, a, now, internal, requested, now + lifetime, 0);
      var r := LeaseFrom(cfg, a, now, internal, requested, now + lifetime, 0);
      var b := if r.1.Some? then DropLease(r.0, r.1.value) else r.0;
      ShrinksKeepsInv(cfg, a, b, now);
    }
  }

  /** Every reachable state keeps the ownership of ports. */
  lemma {:induction false} RunKeepsInv(cfg: Config, es: seq<Event>)
    requires cfg.Ok()
    ensures Inv(cfg, Run(cfg, es))
    decreases |es|
  {
    if es != [] {
      RunKeepsInv(cfg, es[..|es| - 1]);
      StepKeepsInv(cfg, Run(cfg, es[..|es| - 1]), es[|es| - 1]);
    }
  }
}
