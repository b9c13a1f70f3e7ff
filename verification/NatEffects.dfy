/** What one operation of the NAT does, told in plain facts about the tables before and
    after it: no rule of `NatModel` is named where its meaning can be written out. */
module NatEffects {
  import opened Options
  import opened Arith
  import opened NatModel
  import opened NatInvariants

  /** `internal` holds a lease on the port that has not run out. */
  predicate Holds(a: Nat, now: nat, internal: Endpoint, port: Port)
  {
    port in a.leases && a.leases[port].internal == internal && now <= a.leases[port].expiresAt
  }

  /** The lease on the port has not run out, whoever holds it. */
  predicate Kept(a: Nat, now: nat, port: Port) { port in a.leases && now <= a.leases[port].expiresAt }

  /** The slot has a translation that was used within the idle timeout. */
  predicate Used(cfg: Config, a: Nat, now: nat, slot: Slot)
  {
    slot in a.mappings && now <= a.mappings[slot].lastRefresh + cfg.idle
  }

  predicate UsedOn(cfg: Config, a: Nat, now: nat, slot: Slot, port: Port)
  {
    Used(cfg, a, now, slot) && a.mappings[slot].externalPort == port
  }

  /** Two destinations share a translation exactly if the mapping rule cannot tell them apart. */
  lemma SameKeyIff(mapping: MappingKey, d: Endpoint, e: Endpoint)
    ensures KeyOf(mapping, d) == KeyOf(mapping, e) <==>
              match mapping
              case EndpointIndependent => true
              case DstPort => d.port == e.port
              case DstAddr => d.ip == e.ip
              case DstAddrPort => d == e
  {
  }

  // ---- which ports are free ----------------------------------------------------------

  /** Nothing alive on the port belongs to anyone but `share`. */
  ghost predicate Vacant(cfg: Config, a: Nat, now: nat, port: Port, share: Option<Endpoint>)
  {
    && (Kept(a, now, port) ==> share == Some(a.leases[port].internal))
    && (forall s | s in a.mappings && UsedOn(cfg, a, now, s, port) :: share == Some(s.internal))
  }

  lemma FreeIsVacant(cfg: Config, a: Nat, now: nat, port: Port, share: Option<Endpoint>)
    ensures PortFree(cfg, a, now, port, share) <==> Vacant(cfg, a, now, port, share)
  {
    assert forall s | s in a.mappings :: LiveSlot(cfg, a, now, s) <==> Used(cfg, a, now, s);
  }

  /** The port is cleaned: nothing on it has run out, and nothing else has changed. */
  ghost predicate Cleaned(cfg: Config, a: Nat, b: Nat, now: nat, port: Port)
  {
    && b.leases == (if Kept(a, now, port) then a.leases else a.leases - {port})
    && (forall s :: s in b.mappings <==>
                    s in a.mappings && (a.mappings[s].externalPort == port ==> Used(cfg, a, now, s)))
    && (forall s | s in b.mappings :: b.mappings[s] == a.mappings[s])
    && b.cursor == a.cursor
  }

  lemma PruneCleans(cfg: Config, a: Nat, now: nat, port: Port)
    ensures Cleaned(cfg, a, Prune(cfg, a, now, port), now, port)
  {
  }

  /** Asking about a port tells whether anybody else is alive on it, and cleans it, unless a
      foreign lease ends the question early. */
  lemma AskedMeans(cfg: Config, a: Nat, now: nat, port: Port, share: Option<Endpoint>)
    ensures PortFree(cfg, a, now, port, share) <==> Vacant(cfg, a, now, port, share)
    ensures var b := Asked(cfg, a, now, port, share);
            if Kept(a, now, port) && share != Some(a.leases[port].internal) then b == a
            else Cleaned(cfg, a, b, now, port)
  {
    FreeIsVacant(cfg, a, now, port, share);
    PruneCleans(cfg, a, now, port);
  }

  // ---- allocation --------------------------------------------------------------------

  /** The random allocator takes the first drawn port that is free. */
  ghost predicate FirstFree(cfg: Config, a: Nat, now: nat, draws: seq<Port>, r: Option<Port>)
  {
    match r
    case None => forall k :: 0 <= k < |draws| ==> !Vacant(cfg, a, now, draws[k], None)
    case Some(port) =>
      exists k :: 0 <= k < |draws| && draws[k] == port && Vacant(cfg, a, now, port, None) &&
                  forall j :: 0 <= j < k ==> !Vacant(cfg, a, now, draws[j], None)
  }

  lemma ShrinksVacant(cfg: Config, a: Nat, b: Nat, now: nat, port: Port, share: Option<Endpoint>)
    requires Shrinks(cfg, a, b, now)
    ensures Vacant(cfg, a, now, port, share) <==> Vacant(cfg, b, now, port, share)
  {
    ShrinksSamePorts(cfg, a, b, now, port, share);
    FreeIsVacant(cfg, a, now, port, share);
    FreeIsVacant(cfg, b, now, port, share);
  }

  lemma {:induction false} DrawsFirstFree(cfg: Config, a: Nat, now: nat, draws: seq<Port>)
    ensures FirstFree(cfg, a, now, draws, Draw(cfg, a, now, draws).1)
    decreases |draws|
  {
    if draws != [] {
      FreeIsVacant(cfg, a, now, draws[0], None);
      if !PortFree(cfg, a, now, draws[0], None) {
        var b, rest := Asked(cfg, a, now, draws[0], None), draws[1..];
        AskedShrinks(cfg, a, now, draws[0], None);
        DrawsFirstFree(cfg, b, now, rest);
        forall k | 0 <= k < |rest|
          ensures Vacant(cfg, a, now, draws[k + 1], None) <==> Vacant(cfg, b, now, rest[k], None)
        {
          ShrinksVacant(cfg, a, b, now, rest[k], None);
        }
        FirstFreeLater(cfg, a, b, now, draws, Draw(cfg, b, now, rest).1);
      }
    }
  }

  lemma FirstFreeLater(cfg: Config, a: Nat, b: Nat, now: nat, draws: seq<Port>, r: Option<Port>)
    requires draws != [] && !Vacant(cfg, a, now, draws[0], None)
    requires forall k | 0 <= k < |draws| - 1 ::
               Vacant(cfg, a, now, draws[k + 1], None) <==> Vacant(cfg, b, now, draws[1..][k], None)
    requires FirstFree(cfg, b, now, draws[1..], r)
    ensures FirstFree(cfg, a, now, draws, r)
  {
    if r.None? {
      forall k | 0 <= k < |draws|
        ensures !Vacant(cfg, a, now, draws[k], None)
      {
        if k > 0 { assert draws[1..][k - 1] == draws[k]; }
      }
    } else {
      var k :| 0 <= k < |draws| - 1 && draws[1..][k] == r.value && Vacant(cfg, b, now, r.value, None) &&
               forall j :: 0 <= j < k ==> !Vacant(cfg, b, now, draws[1..][j], None);
      assert draws[k + 1] == r.value;
      forall j | 0 <= j < k + 1
        ensures !Vacant(cfg, a, now, draws[j], None)
      {
        if j > 0 { assert draws[1..][j - 1] == draws[j]; }
      }
    }
  }

  /** The walk leaves the cursor one stride past the port it takes. */
  lemma {:induction false} WalkMovesOn(cfg: Config, a: Nat, now: nat, n: nat)
    requires cfg.Ok() && cfg.InPool(a.cursor)
    ensures var r := Walk(cfg, a, now, n);
            r.1.Some? ==> cfg.InPool(r.1.value) && r.0.cursor == NextCursor(cfg, r.1.value)
    decreases n
  {
    if n > 0 {
      var a1 := a.(cursor := NextCursor(cfg, a.cursor));
      if !PortFree(cfg, a1, now, a.cursor, None) {
        WalkMovesOn(cfg, Asked(cfg, a1, now, a.cursor, None), now, n - 1);
      }
    }
  }

  /** `next` lies one stride past `port`, round the pool. */
  predicate StepsOn(cfg: Config, port: Port, stride: nat, next: Port)
  {
    cfg.lo <= port <= cfg.hi && next == cfg.lo + (port - cfg.lo + stride) % (cfg.hi - cfg.lo + 1)
  }

  /** The choice of a port for a new translation. */
  ghost predicate Chosen(cfg: Config, a: Nat, b: Nat, now: nat, src: Endpoint, draws: seq<Port>, r: Option<Port>)
  {
    var own := cfg.allocator.Preserving? && cfg.lo <= src.port <= cfg.hi && Vacant(cfg, a, now, src.port, Some(src));
    && (own ==> r == Some(src.port) && b.cursor == a.cursor)
    && (!own && r.Some? ==> Vacant(cfg, a, now, r.value, None))
    && match cfg.allocator
       case Preserving => !own && r.Some? ==> StepsOn(cfg, r.value, 1, b.cursor)
       case Sequential(stride) => r.Some? ==> StepsOn(cfg, r.value, if stride == 0 then 1 else stride, b.cursor)
       case Random => FirstFree(cfg, a, now, draws, r) && b.cursor == a.cursor
  }

  lemma {:induction false} WalkVacant(cfg: Config, a: Nat, now: nat, n: nat)
    requires cfg.Ok() && cfg.InPool(a.cursor)
    ensures var r := Walk(cfg, a, now, n); r.1.Some? ==> Vacant(cfg, a, now, r.1.value, None)
    decreases n
  {
    if n > 0 {
      var a1 := a.(cursor := NextCursor(cfg, a.cursor));
      var b := Asked(cfg, a1, now, a.cursor, None);
      FreeIsVacant(cfg, a1, now, a.cursor, None);
      CursorIsNothing(cfg, a, a1, b, now, a.cursor);
      if !PortFree(cfg, a1, now, a.cursor, None) {
        WalkVacant(cfg, b, now, n - 1);
        var r := Walk(cfg, b, now, n - 1);
        if r.1.Some? {
          ShrinksVacant(cfg, a, b, now, r.1.value, None);
        }
      }
    }
  }

  lemma CursorIsNothing(cfg: Config, a: Nat, a1: Nat, b: Nat, now: nat, port: Port)
    requires a1 == a.(cursor := a1.cursor) && b == Asked(cfg, a1, now, port, None)
    ensures Vacant(cfg, a, now, port, None) <==> Vacant(cfg, a1, now, port, None)
    ensures Shrinks(cfg, a, b, now)
  {
    AskedShrinks(cfg, a1, now, port, None);
  }

  lemma WalkChooses(cfg: Config, a: Nat, now: nat, r: (Nat, Option<Port>))
    requires cfg.Ok() && cfg.InPool(a.cursor) && r == Walk(cfg, a, now, cfg.Span())
    ensures r.1.Some? ==> Vacant(cfg, a, now, r.1.value, None) && StepsOn(cfg, r.1.value, cfg.Stride(), r.0.cursor)
  {
    WalkMovesOn(cfg, a, now, cfg.Span());
    WalkVacant(cfg, a, now, cfg.Span());
  }

  lemma PreservingChooses(cfg: Config, a: Nat, now: nat, src: Endpoint, draws: seq<Port>)
    requires cfg.Ok() && cfg.InPool(a.cursor) && cfg.allocator.Preserving?
    ensures var r := Allocate(cfg, a, now, src, draws); Chosen(cfg, a, r.0, now, src, draws, r.1)
  {
    FreeIsVacant(cfg, a, now, src.port, Some(src));
    AskedShrinks(cfg, a, now, src.port, Some(src));
    var a1 := if cfg.InPool(src.port) then Asked(cfg, a, now, src.port, Some(src)) else a;
    var r := Walk(cfg, a1, now, cfg.Span());
    WalkChooses(cfg, a1, now, r);
    if r.1.Some? {
      ShrinksVacant(cfg, a, a1, now, r.1.value, None);
    }
  }

  lemma AllocateChooses(cfg: Config, a: Nat, now: nat, src: Endpoint, draws: seq<Port>)
    requires cfg.Ok() && cfg.InPool(a.cursor)
    ensures var r := Allocate(cfg, a, now, src, draws); Chosen(cfg, a, r.0, now, src, draws, r.1)
  {
    var r := Allocate(cfg, a, now, src, draws);
    match cfg.allocator
    case Preserving => PreservingChooses(cfg, a, now, src, draws);
    case Sequential(_) => WalkChooses(cfg, a, now, r);
    case Random => RandomChooses(cfg, a, now, draws, r);
  }

  lemma RandomChooses(cfg: Config, a: Nat, now: nat, draws: seq<Port>, r: (Nat, Option<Port>))
    requires r == Draw(cfg, a, now, draws)
    ensures FirstFree(cfg, a, now, draws, r.1) && r.0.cursor == a.cursor
    ensures r.1.Some? ==> Vacant(cfg, a, now, r.1.value, None)
  {
    DrawsFirstFree(cfg, a, now, draws);
  }

  // ---- sending -----------------------------------------------------------------------

  /** A datagram of `src` leaves by its lowest lease, or else by the translation in use, or
      else by a fresh one, for which some port must be left. */
  ghost predicate Sends(cfg: Config, a: Nat, b: Nat, now: nat, src: Endpoint, dst: Endpoint, draws: seq<Port>,
                        r: Result<Pass>)
  {
    var slot := Slot(src, KeyOf(cfg.mapping, dst));
    if exists p :: Holds(a, now, src, p) then
      && b == a && r.Ok? && !r.value.created && r.value.pinned
      && Holds(a, now, src, r.value.external) && forall p | Holds(a, now, src, p) :: r.value.external <= p
    else if Used(cfg, a, now, slot) then
      var was := a.mappings[slot];
      && r == Ok(Pass(was.externalPort, false, false))
      && b == a.(mappings := a.mappings[slot := Mapping(was.internal, was.externalPort, now, was.allowed + {dst})])
    else if r.Err? then
      && r.reason == PortPoolExhausted && slot !in b.mappings && Shrinks(cfg, a, b, now)
      && Chosen(cfg, DropSlots(a, {slot}), b, now, src, draws, None)
    else
      && r.value.created && !r.value.pinned
      && slot in b.mappings && b.mappings[slot] == Mapping(src, r.value.external, now, {dst})
      && Shrinks(cfg, a, DropSlots(b, {slot}), now)
      && Chosen(cfg, DropSlots(a, {slot}), b, now, src, draws, Some(r.value.external))
  }

  lemma PinsAreHeld(a: Nat, now: nat, src: Endpoint)
    ensures forall p :: Holds(a, now, src, p) <==> Pins(a, now, src, p)
  {
  }

  lemma OutboundSends(cfg: Config, a: Nat, now: nat, src: Endpoint, dst: Endpoint, draws: seq<Port>)
    requires cfg.Ok() && cfg.InPool(a.cursor)
    ensures var r := Outbound(cfg, a, now, src, dst, draws); Sends(cfg, a, r.0, now, src, dst, draws, r.1)
  {
    var slot := Slot(src, KeyOf(cfg.mapping, dst));
    PinsAreHeld(a, now, src);
    if p :| Holds(a, now, src, p) {
      assert Pinned(a, now, src);
    } else if !LiveSlot(cfg, a, now, slot) {
      FreshSends(cfg, a, now, src, dst, draws);
    }
  }

  lemma FreshSends(cfg: Config, a: Nat, now: nat, src: Endpoint, dst: Endpoint, draws: seq<Port>)
    requires cfg.Ok() && cfg.InPool(a.cursor)
    requires !Pinned(a, now, src) && !LiveSlot(cfg, a, now, Slot(src, KeyOf(cfg.mapping, dst)))
    requires forall p :: !Holds(a, now, src, p)
    ensures var r := Outbound(cfg, a, now, src, dst, draws); Sends(cfg, a, r.0, now, src, dst, draws, r.1)
  {
    var slot := Slot(src, KeyOf(cfg.mapping, dst));
    AllocateChooses(cfg, DropSlots(a, {slot}), now, src, draws);
    var r := OpeningState(cfg, a, now, src, dst, draws);
    if r.1.Some? {
      assert DropSlots(Outbound(cfg, a, now, src, dst, draws).0, {slot}).mappings == r.0.mappings;
    }
  }

  /** What was shown outside leads back: a datagram that left by a lease is answered by
      anyone, and any other by the destination it was sent to. */
  lemma SendersAreReached(cfg: Config, a: Nat, now: nat, src: Endpoint, dst: Endpoint, draws: seq<Port>, from: Endpoint)
    requires Inv(cfg, a)
    ensures var r := Outbound(cfg, a, now, src, dst, draws);
            r.1.Ok? && (r.1.value.pinned || from == dst) ==>
              Verdict(cfg, r.0, now, from, r.1.value.external) == Ok(src)
  {
    OutboundSends(cfg, a, now, src, dst, draws);
    OutboundKeepsInv(cfg, a, now, src, dst, draws);
    var r := Outbound(cfg, a, now, src, dst, draws);
    var slot := Slot(src, KeyOf(cfg.mapping, dst));
    if r.1.Ok? && !r.1.value.pinned {
      assert slot in SlotsOn(r.0, r.1.value.external);
      assert Admits(cfg, r.0, now, dst, r.1.value.external, slot);
    }
  }

  // ---- receiving ---------------------------------------------------------------------

  /** The filtering rule lets `src` through to one that has contacted `allowed`. */
  ghost predicate LetsIn(filtering: Filtering, allowed: set<Endpoint>, src: Endpoint)
  {
    || filtering.AnySource?
    || exists e | e in allowed :: e.ip == src.ip && (filtering.AddressRestricted? || e.port == src.port)
  }

  /** The verdict on a datagram of `src` to `port`. */
  ghost predicate Judged(cfg: Config, a: Nat, now: nat, src: Endpoint, port: Port, r: Result<Endpoint>)
  {
    if Kept(a, now, port) then r == Ok(a.leases[port].internal)
    else
      match r
      case Ok(i) =>
        exists s :: UsedOn(cfg, a, now, s, port) && s.internal == i && LetsIn(cfg.filtering, a.mappings[s].allowed, src)
      case Err(reason) =>
        && (forall s :: UsedOn(cfg, a, now, s, port) ==> !LetsIn(cfg.filtering, a.mappings[s].allowed, src))
        && reason == if exists s :: UsedOn(cfg, a, now, s, port) then Filtered
                     else if exists s | s in a.mappings :: a.mappings[s].externalPort == port then MappingExpired
                     else NoMapping
  }

  lemma VerdictJudges(cfg: Config, a: Nat, now: nat, src: Endpoint, port: Port)
    ensures Judged(cfg, a, now, src, port, Verdict(cfg, a, now, src, port))
  {
    forall s
      ensures Admits(cfg, a, now, src, port, s) <==>
                UsedOn(cfg, a, now, s, port) && LetsIn(cfg.filtering, a.mappings[s].allowed, src)
    {
      if s in a.mappings {
        PassesLetsIn(cfg.filtering, a.mappings[s].allowed, src);
      }
    }
    assert forall s :: UsedOn(cfg, a, now, s, port) <==> s in SlotsOn(a, port) && LiveSlot(cfg, a, now, s);
    assert SlotsOn(a, port) == {} <==> !exists s | s in a.mappings :: a.mappings[s].externalPort == port by {
      if s :| s in a.mappings && a.mappings[s].externalPort == port {
        assert s in SlotsOn(a, port);
      }
    }
  }

  lemma PassesLetsIn(filtering: Filtering, allowed: set<Endpoint>, src: Endpoint)
    ensures Passes(filtering, allowed, src) <==> LetsIn(filtering, allowed, src)
  {
    assert forall e: Endpoint :: e == src <==> e.ip == src.ip && e.port == src.port;
  }

  // ---- gateway leases ----------------------------------------------------------------

  /** The port can be leased to `internal`: it is not leased, and nobody else uses it. */
  ghost predicate Leasable(cfg: Config, a: Nat, now: nat, internal: Endpoint, port: Port)
  {
    !Kept(a, now, port) && Vacant(cfg, a, now, port, Some(internal))
  }

  /** The port at which the search through the pool begins. */
  function Base(cfg: Config, requested: Port): (port: Port)
  {
    if cfg.lo <= requested <= cfg.hi then requested else cfg.lo
  }

  /** The search comes to `p` before `q`: both count upwards from the base, round the pool. */
  predicate Sooner(cfg: Config, requested: Port, p: Port, q: Port)
  {
    var base := Base(cfg, requested);
    if (p >= base) == (q >= base) then p < q else p >= base
  }

  /** An own lease is renewed; otherwise the requested port is leased, or the pool port that
      the search comes to first, and none exactly if there is none. */
  ghost predicate Grants(cfg: Config, a: Nat, now: nat, internal: Endpoint, requested: Port, r: Option<Port>)
  {
    if requested in a.leases && a.leases[requested].internal == internal then r == Some(requested)
    else if Leasable(cfg, a, now, internal, requested) then r == Some(requested)
    else
      match r
      case None => forall p: Port | cfg.lo <= p <= cfg.hi :: !Leasable(cfg, a, now, internal, p)
      case Some(port) =>
        && cfg.lo <= port <= cfg.hi && Leasable(cfg, a, now, internal, port)
        && forall p: Port ::
             cfg.lo <= p <= cfg.hi && Sooner(cfg, requested, p, port) ==> !Leasable(cfg, a, now, internal, p)
  }

  lemma CandidateIs(cfg: Config, requested: Port, k: nat)
    requires cfg.Ok() && 1 <= k <= cfg.Span()
    ensures var p := Base(cfg, requested) + k - 1;
            Candidate(cfg, requested, k) == if p <= cfg.hi then p else p - cfg.Span()
  {
    var p := Base(cfg, requested) + k - 1;
    if p <= cfg.hi {
      ModIs(p - cfg.lo, cfg.Span(), 0, p - cfg.lo);
    } else {
      ModIs(p - cfg.lo, cfg.Span(), 1, p - cfg.lo - cfg.Span());
    }
  }

  /** The place of a pool port in the search. */
  function PlaceOf(cfg: Config, requested: Port, p: Port): (k: int)
  {
    var base := Base(cfg, requested);
    if p >= base then p - base + 1 else p - base + 1 + (cfg.hi - cfg.lo + 1)
  }

  lemma PlaceFits(cfg: Config, requested: Port, p: Port)
    requires cfg.Ok() && cfg.InPool(p)
    ensures 1 <= PlaceOf(cfg, requested, p) <= cfg.Span()
    ensures Candidate(cfg, requested, PlaceOf(cfg, requested, p)) == p
  {
    CandidateIs(cfg, requested, PlaceOf(cfg, requested, p));
  }

  /** From candidate `k` on, the search stops at `j`, or fails. */
  ghost predicate Stops(cfg: Config, a: Nat, now: nat, internal: Endpoint, requested: Port, k: nat, j: nat,
                        r: Option<Port>)
    requires cfg.Ok()
  {
    && k <= j <= cfg.Span() + 1
    && (forall i | k <= i < j :: !Leasable(cfg, a, now, internal, Candidate(cfg, requested, i)))
    && if j == cfg.Span() + 1 then r == None
       else r == Some(Candidate(cfg, requested, j)) && Leasable(cfg, a, now, internal, Candidate(cfg, requested, j))
  }

  lemma ShrinksLeasable(cfg: Config, a: Nat, b: Nat, now: nat, internal: Endpoint, port: Port)
    requires Shrinks(cfg, a, b, now)
    ensures Leasable(cfg, a, now, internal, port) <==> Leasable(cfg, b, now, internal, port)
  {
    ShrinksVacant(cfg, a, b, now, port, Some(internal));
  }

  lemma {:induction false} LeaseFromStops(cfg: Config, a: Nat, now: nat, internal: Endpoint, requested: Port,
                                          expiresAt: nat, k: nat) returns (j: nat)
    requires cfg.Ok() && k <= cfg.Span() + 1
    ensures Stops(cfg, a, now, internal, requested, k, j,
                  LeaseFrom(cfg, a, now, internal, requested, expiresAt, k).1)
    decreases cfg.Span() + 1 - k
  {
    j := k;
    if k <= cfg.Span() {
      var port := Candidate(cfg, requested, k);
      FreeIsVacant(cfg, a, now, port, Some(internal));
      if !Leasable(cfg, a, now, internal, port) {
        var b := if LiveLease(a, now, port) then a else Prune(cfg, a, now, port);
        AskedShrinks(cfg, a, now, port, None);
        j := LeaseFromStops(cfg, b, now, internal, requested, expiresAt, k + 1);
        forall i | k < i <= cfg.Span()
          ensures Leasable(cfg, a, now, internal, Candidate(cfg, requested, i)) <==>
                  Leasable(cfg, b, now, internal, Candidate(cfg, requested, i))
        {
          ShrinksLeasable(cfg, a, b, now, internal, Candidate(cfg, requested, i));
        }
      }
    }
  }

  lemma InstallGrants(cfg: Config, a: Nat, now: nat, internal: Endpoint, requested: Port, lifetime: nat)
    requires cfg.Ok()
    ensures Grants(cfg, a, now, internal, requested, Install(cfg, a, now, internal, requested, lifetime).1)
  {
    if !(requested in a.leases && a.leases[requested].internal == internal) {
      var j := LeaseFromStops(cfg, a, now, internal, requested, now + lifetime, 0);
      var r := LeaseFrom(cfg, a, now, internal, requested, now + lifetime, 0).1;
      StopsGrants(cfg, a, now, internal, requested, j, r);
    }
  }

  lemma StopsGrants(cfg: Config, a: Nat, now: nat, internal: Endpoint, requested: Port, j: nat, r: Option<Port>)
    requires cfg.Ok() && Stops(cfg, a, now, internal, requested, 0, j, r)
    requires !(requested in a.leases && a.leases[requested].internal == internal)
    ensures Grants(cfg, a, now, internal, requested, r)
  {
    assert Candidate(cfg, requested, 0) == requested;
    if 1 <= j <= cfg.Span() {
      CandidateIs(cfg, requested, j);
    }
    forall p: Port | cfg.InPool(p) && PlaceOf(cfg, requested, p) < j
      ensures !Leasable(cfg, a, now, internal, p)
    {
      PlaceFits(cfg, requested, p);
    }
    forall p: Port | cfg.InPool(p)
      ensures 1 <= PlaceOf(cfg, requested, p) <= cfg.Span()
    {
      PlaceFits(cfg, requested, p);
    }
  }

  /** A granted lease runs its lifetime, on a port that serves nobody else; all other leases
      and translations are as they were, but for some that had run out. */
  ghost predicate Leases(cfg: Config, a: Nat, b: Nat, now: nat, internal: Endpoint, expiresAt: nat, r: Option<Port>)
  {
    match r
    case None => Shrinks(cfg, a, b, now)
    case Some(port) =>
      && port in b.leases && b.leases[port] == Lease(internal, expiresAt)
      && (forall s | s in b.mappings && b.mappings[s].externalPort == port :: s.internal == internal)
      && Shrinks(cfg, DropLease(a, port), DropLease(b, port), now)
  }

  lemma InstallLeases(cfg: Config, a: Nat, now: nat, internal: Endpoint, requested: Port, lifetime: nat)
    requires Inv(cfg, a)
    ensures var r := Install(cfg, a, now, internal, requested, lifetime);
            Leases(cfg, a, r.0, now, internal, now + lifetime, r.1)
  {
    if requested in a.leases && a.leases[requested].internal == internal {
      RenewalLeases(cfg, a, now, Lease(internal, now + lifetime), requested);
    } else {
      LeaseFromLeases(cfg, a, now, internal, requested, now + lifetime, 0);
      var r := LeaseFrom(cfg, a, now, internal, requested, now + lifetime, 0);
      LeasedLeases(cfg, a, now, internal, now + lifetime, r);
    }
  }

  lemma RenewalLeases(cfg: Config, a: Nat, now: nat, lease: Lease, port: Port)
    requires Owned(a) && port in a.leases && a.leases[port].internal == lease.internal
    ensures Leases(cfg, a, a.(leases := a.leases[port := lease]), now, lease.internal, lease.expiresAt, Some(port))
  {
    assert a.leases[port := lease] - {port} == a.leases - {port};
  }

  lemma LeasedLeases(cfg: Config, a: Nat, now: nat, internal: Endpoint, expiresAt: nat, r: (Nat, Option<Port>))
    requires Leased(cfg, a, now, internal, expiresAt, r)
    ensures Leases(cfg, a, r.0, now, internal, expiresAt, r.1)
  {
  }

  /** Whoever sends to a granted port reaches the lessee. */
  lemma LeaseAdmits(cfg: Config, a: Nat, now: nat, internal: Endpoint, requested: Port, lifetime: nat, from: Endpoint)
    requires Inv(cfg, a)
    ensures var r := Install(cfg, a, now, internal, requested, lifetime);
            r.1.Some? ==> Verdict(cfg, r.0, now, from, r.1.value) == Ok(internal)
  {
    InstallLeases(cfg, a, now, internal, requested, lifetime);
  }
}
