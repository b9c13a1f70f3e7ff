/** When the sequential port walk can be trusted to find a free port. */
module NatAllocator {
  import opened Options
  import opened NatModel
  import opened NatInvariants
  import opened Arith

  // ---- arithmetic of the walk ------------------------------------------------

  function Gcd(a: nat, b: nat): (g: nat)
    requires a > 0 || b > 0
    ensures g > 0
    decreases b
  {
    if b == 0 then a else Gcd(b, a % b)
  }

  /** The greatest common divisor is a whole combination of its arguments. */
  lemma {:induction false} Bezout(a: nat, b: nat) returns (u: int, v: int)
    requires a > 0 || b > 0
    ensures u * a + v * b == Gcd(a, b)
    decreases b
  {
    if b == 0 {
      u, v := 1, 0;
    } else {
      var x, y := Bezout(b, a % b);
      u, v := y, x - y * (a / b);
      calc {
        u * a + v * b;
        y * a + (x - y * (a / b)) * b;
        { assert (y * (a / b)) * b == y * ((a / b) * b); }
        x * b + y * (a - (a / b) * b);
        { assert a - (a / b) * b == a % b; }
        x * b + y * (a % b);
      }
    }
  }

  lemma {:induction false} GcdDivides(a: nat, b: nat) returns (x: nat, y: nat)
    requires a > 0 || b > 0
    ensures a == Gcd(a, b) * x && b == Gcd(a, b) * y
    decreases b
  {
    if b == 0 {
      x, y := 1, 0;
    } else {
      var p, q := GcdDivides(b, a % b);
      x, y := (a / b) * p + q, p;
      CombineMultiples(a / b, b, a % b, Gcd(a, b), p, q);
    }
  }

  lemma CombineMultiples(k: int, b: int, r: int, g: int, p: int, q: int)
    requires b == g * p && r == g * q
    ensures k * b + r == g * (k * p + q)
  {
    Reorder(k, g, p);
    Distribute(g, k * p, q);
  }

  /** The `k`-th candidate of the walk, as an offset in the pool. */
  function Offset(start: nat, stride: nat, span: nat, k: nat): (r: nat)
    requires span > 0
    ensures r < span
  {
    (start + k * stride) % span
  }

  lemma CoprimeReaches(start: nat, stride: nat, span: nat, target: nat) returns (k: nat)
    requires span > 0 && target < span && Gcd(stride, span) == 1
    ensures k < span && Offset(start, stride, span, k) == target
  {
    var u, v := Bezout(stride, span);
    var d := target - start;
    var q := (d * u) / span;
    k := (d * u) % span;
    SolveStep(d, u, v, stride, span, q, k);
    ModIs(start + k * stride, span, -(d * v + q * stride), target);
  }

  lemma SolveStep(d: int, u: int, v: int, s: int, n: int, q: int, k: int)
    requires u * s + v * n == 1 && k == d * u - n * q
    ensures k * s == d + n * -(d * v + q * s)
  {
    calc {
      k * s;
      { Distribute(s, d * u, -(n * q)); }
      (d * u) * s - (n * q) * s;
      { Reorder(d, u, s); Reorder(n, q, s); }
      d * (u * s) - n * (q * s);
      { Distribute(d, 1, -(v * n)); }
      d - d * (v * n) - n * (q * s);
      { Reorder(d, v, n); Reorder(n, d, v); }
      d - n * (d * v) - n * (q * s);
      { Distribute(n, d * v, q * s); }
      d - n * (d * v + q * s);
    }
  }

  /** With a common divisor the port after the starting one is never tried. */
  lemma SharedFactorMisses(start: nat, stride: nat, span: nat, k: nat)
    requires span > 0 && Gcd(stride, span) > 1
    ensures Offset(start, stride, span, k) != (start + 1) % span
  {
    var s, n := GcdDivides(stride, span);
    var x, y := start + k * stride, start + 1;
    NeverMeet(Gcd(stride, span), s, n, stride, span, k, start, x / span, y / span, x % span, y % span);
  }

  lemma NeverMeet(g: nat, s: int, n: int, stride: int, span: int, k: int, start: int, q: int, q': int, r: int, r': int)
    requires g > 1 && stride == g * s && span == g * n
    requires start + k * stride == span * q + r && start + 1 == span * q' + r'
    ensures r != r'
  {
    Distribute(span, q, -q');
    FactorDifference(g, s, n, k, q - q');
    NoUnit(g, k * s - n * (q - q'));
  }

  lemma FactorDifference(g: int, s: int, n: int, k: int, t: int)
    ensures k * (g * s) - (g * n) * t == g * (k * s - n * t)
  {
    Reorder(k, g, s);
    Reorder(g, n, t);
    Distribute(g, k * s, -(n * t));
  }

  lemma NoUnit(g: nat, x: int)
    requires g > 1
    ensures g * x != 1
  {
    if x >= 1 { assert g * x >= g; } else { assert g * x <= 0; }
  }

  // ---- the walk over the pool --------------------------------------------------

  function Visited(cfg: Config, start: Port, k: nat): (port: Port)
    requires cfg.Ok() && cfg.InPool(start)
    ensures cfg.InPool(port)
  {
    cfg.lo + Offset(start - cfg.lo, cfg.Stride(), cfg.Span(), k)
  }

  /** Reducing early does not change a remainder. */
  lemma ReducedFirst(x: nat, z: nat, n: nat)
    requires n > 0
    ensures (x % n + z) % n == (x + z) % n
  {
    var p, q := x / n, (x % n + z) / n;
    Distribute(n, p, q);
    ModIs(x + z, n, p + q, (x % n + z) % n);
  }

  lemma OffsetNext(x: nat, s: nat, n: nat, k: nat)
    requires n > 0
    ensures Offset((x + s) % n, s, n, k) == Offset(x, s, n, k + 1)
  {
    Distribute(s, k, 1);
    ReducedFirst(x + s, k * s, n);
  }

  lemma VisitedNext(cfg: Config, start: Port, k: nat)
    requires cfg.Ok() && cfg.InPool(start)
    ensures Visited(cfg, NextCursor(cfg, start), k) == Visited(cfg, start, k + 1)
    ensures Visited(cfg, start, 0) == start
  {
    OffsetNext(start - cfg.lo, cfg.Stride(), cfg.Span(), k);
    ModIs(start - cfg.lo, cfg.Span(), 0, start - cfg.lo);
  }

  /** A port no socket may newly take: a live lease or a live translation holds it. */
  ghost predicate PortHeld(cfg: Config, a: Nat, now: nat, port: Port)
  {
    || LiveLease(a, now, port)
    || exists slot :: slot in SlotsOn(a, port) && LiveSlot(cfg, a, now, slot)
  }

  lemma HeldOrFree(cfg: Config, a: Nat, now: nat, port: Port)
    ensures PortFree(cfg, a, now, port, None) <==> !PortHeld(cfg, a, now, port)
  {
  }

  /** Every one of the `n` candidates from `start` on is held. */
  ghost predicate AllHeld(cfg: Config, a: Nat, now: nat, start: Port, n: nat)
    requires cfg.Ok() && cfg.InPool(start)
  {
    forall k :: 0 <= k < n ==> PortHeld(cfg, a, now, Visited(cfg, start, k))
  }

  lemma ShrinksHeld(cfg: Config, a: Nat, b: Nat, now: nat, port: Port)
    requires Shrinks(cfg, a, b, now)
    ensures PortHeld(cfg, a, now, port) <==> PortHeld(cfg, b, now, port)
  {
    HeldOrFree(cfg, a, now, port);
    HeldOrFree(cfg, b, now, port);
    ShrinksSamePorts(cfg, a, b, now, port, None);
  }

  lemma AllHeldUnfold(cfg: Config, a: Nat, b: Nat, now: nat, start: Port, n: nat)
    requires cfg.Ok() && cfg.InPool(start) && n > 0 && Shrinks(cfg, a, b, now)
    ensures AllHeld(cfg, a, now, start, n) <==>
            PortHeld(cfg, a, now, start) && AllHeld(cfg, b, now, NextCursor(cfg, start), n - 1)
  {
    VisitedNext(cfg, start, 0);
    var next := NextCursor(cfg, start);
    if AllHeld(cfg, a, now, start, n) {
      assert PortHeld(cfg, a, now, Visited(cfg, start, 0));
      forall k | 0 <= k < n - 1
        ensures PortHeld(cfg, b, now, Visited(cfg, next, k))
      {
        VisitedNext(cfg, start, k);
        assert PortHeld(cfg, a, now, Visited(cfg, start, k + 1));
        ShrinksHeld(cfg, a, b, now, Visited(cfg, next, k));
      }
    }
    if PortHeld(cfg, a, now, start) && AllHeld(cfg, b, now, next, n - 1) {
      forall k | 0 <= k < n
        ensures PortHeld(cfg, a, now, Visited(cfg, start, k))
      {
        if k > 0 {
          VisitedNext(cfg, start, k - 1);
          assert PortHeld(cfg, b, now, Visited(cfg, next, k - 1));
          ShrinksHeld(cfg, a, b, now, Visited(cfg, start, k));
        }
      }
    }
  }

  /** The walk fails exactly if every candidate it tries is held. */
  lemma {:induction false} WalkFails(cfg: Config, a: Nat, now: nat, n: nat)
    requires cfg.Ok() && cfg.InPool(a.cursor)
    ensures Walk(cfg, a, now, n).1 == None <==> AllHeld(cfg, a, now, a.cursor, n)
    decreases n
  {
    if n > 0 {
      var start := a.cursor;
      var a1 := a.(cursor := NextCursor(cfg, start));
      var a2 := Asked(cfg, a1, now, start, None);
      AskedShrinks(cfg, a1, now, start, None);
      AllHeldUnfold(cfg, a, a2, now, start, n);
      HeldOrFree(cfg, a1, now, start);
      ShrinksHeld(cfg, a, a1, now, start);
      if !PortFree(cfg, a1, now, start, None) {
        WalkFails(cfg, a2, now, n - 1);
      }
    }
  }

  /** The search ends at candidate `k`, the first that is not held, or at the `n`-th in vain. */
  ghost predicate Finds(cfg: Config, a: Nat, now: nat, start: Port, n: nat, k: nat, r: Option<Port>)
    requires cfg.Ok() && cfg.InPool(start)
  {
    && k <= n && AllHeld(cfg, a, now, start, k)
    && match r
       case None => k == n
       case Some(port) => k < n && port == Visited(cfg, start, k) && !PortHeld(cfg, a, now, port)
  }

  lemma FindsLater(cfg: Config, a: Nat, b: Nat, now: nat, start: Port, n: nat, k: nat, r: Option<Port>)
    requires cfg.Ok() && cfg.InPool(start) && Shrinks(cfg, a, b, now) && PortHeld(cfg, a, now, start)
    requires Finds(cfg, b, now, NextCursor(cfg, start), n, k, r)
    ensures Finds(cfg, a, now, start, n + 1, k + 1, r)
  {
    AllHeldUnfold(cfg, a, b, now, start, k + 1);
    VisitedNext(cfg, start, k);
    if r.Some? {
      ShrinksHeld(cfg, a, b, now, r.value);
    }
  }

  /** The walk takes the first candidate that is not held: `start`, `start` and a stride on,
      and so forth round the pool. */
  lemma {:induction false} WalkFinds(cfg: Config, a: Nat, now: nat, n: nat) returns (k: nat)
    requires cfg.Ok() && cfg.InPool(a.cursor)
    ensures Finds(cfg, a, now, a.cursor, n, k, Walk(cfg, a, now, n).1)
    decreases n
  {
    k := 0;
    if n > 0 {
      var a1 := a.(cursor := NextCursor(cfg, a.cursor));
      var b := Asked(cfg, a1, now, a.cursor, None);
      AskedShrinks(cfg, a1, now, a.cursor, None);
      ShrinksHeld(cfg, a, a1, now, a.cursor);
      HeldOrFree(cfg, a1, now, a.cursor);
      VisitedNext(cfg, a.cursor, 0);
      if !PortFree(cfg, a1, now, a.cursor, None) {
        k := WalkFinds(cfg, b, now, n - 1);
        FindsLater(cfg, a, b, now, a.cursor, n - 1, k, Walk(cfg, b, now, n - 1).1);
        k := k + 1;
      }
    }
  }

  ghost predicate PoolHeld(cfg: Config, a: Nat, now: nat)
  {
    forall port: Port :: cfg.InPool(port) ==> PortHeld(cfg, a, now, port)
  }

  /** With a coprime stride the walk fails exactly if the whole pool is held. */
  lemma CoprimeWalk(cfg: Config, a: Nat, now: nat)
    requires cfg.Ok() && cfg.InPool(a.cursor) && Gcd(cfg.Stride(), cfg.Span()) == 1
    ensures Walk(cfg, a, now, cfg.Span()).1 == None <==> PoolHeld(cfg, a, now)
  {
    WalkFails(cfg, a, now, cfg.Span());
    forall port: Port | cfg.InPool(port)
      ensures exists k :: 0 <= k < cfg.Span() && Visited(cfg, a.cursor, k) == port
    {
      var k := CoprimeReaches(a.cursor - cfg.lo, cfg.Stride(), cfg.Span(), port - cfg.lo);
      assert Visited(cfg, a.cursor, k) == port;
    }
  }

  lemma StrideOne(n: nat)
    requires n > 0
    ensures Gcd(1, n) == 1
  {
    assert n % 1 == 0 by { ModIs(n, 1, n, 0); }
    if n > 1 {
      ModIs(1, n, 0, 1);
      assert Gcd(1, n) == Gcd(n, 1) == Gcd(1, 0);
    }
  }

  /** The preserving allocator always has its fallback walk by one: it fails exactly
      if the whole pool is held and the socket's own port cannot be shared. */
  lemma PreservingComplete(cfg: Config, a: Nat, now: nat, src: Endpoint, draws: seq<Port>)
    requires cfg.Ok() && cfg.InPool(a.cursor) && cfg.allocator.Preserving?
    ensures Allocate(cfg, a, now, src, draws).1 == None <==>
            PoolHeld(cfg, a, now) && !(cfg.InPool(src.port) && PortFree(cfg, a, now, src.port, Some(src)))
  {
    StrideOne(cfg.Span());
    var a1 := if cfg.InPool(src.port) then Asked(cfg, a, now, src.port, Some(src)) else a;
    AskedShrinks(cfg, a, now, src.port, Some(src));
    CoprimeWalk(cfg, a1, now);
    PoolHeldShrinks(cfg, a, a1, now);
  }

  lemma PoolHeldShrinks(cfg: Config, a: Nat, b: Nat, now: nat)
    requires Shrinks(cfg, a, b, now)
    ensures PoolHeld(cfg, a, now) <==> PoolHeld(cfg, b, now)
  {
    forall port: Port
      ensures PortHeld(cfg, a, now, port) <==> PortHeld(cfg, b, now, port)
    {
      ShrinksHeld(cfg, a, b, now, port);
    }
  }

  // ---- exhaustion in whole runs ------------------------------------------------

  /** If sending is refused for want of ports, the pool really was full. */
  ghost predicate Honest(cfg: Config, es: seq<Event>, e: Event)
    requires cfg.Ok() && e.Send?
  {
    var a := Run(cfg, es);
    Outbound(cfg, a, e.now, e.src, e.dst, e.draws).1 == Err(PortPoolExhausted) ==> PoolHeld(cfg, a, e.now)
  }

  lemma CoprimeIsHonest(cfg: Config, es: seq<Event>, e: Event)
    requires cfg.Ok() && e.Send? && cfg.allocator.Sequential? && Gcd(cfg.Stride(), cfg.Span()) == 1
    ensures Honest(cfg, es, e)
  {
    var a := Run(cfg, es);
    var slot := Slot(e.src, KeyOf(cfg.mapping, e.dst));
    if !Pinned(a, e.now, e.src) && !LiveSlot(cfg, a, e.now, slot) {
      var a0 := DropSlots(a, {slot});
      assert Shrinks(cfg, a, a0, e.now);
      CoprimeWalk(cfg, a0, e.now);
      PoolHeldShrinks(cfg, a, a0, e.now);
    }
  }

  /** Leases on the pool ports below `top`, all but the second one, to `owner`. */
  function Hoarded(cfg: Config, owner: Endpoint, top: int): (m: map<Port, Lease>)
  {
    map p: Port | cfg.InPool(p) && p < top && p != cfg.lo + 1 :: Lease(owner, 0)
  }

  lemma HoardOne(cfg: Config, a: Nat, owner: Endpoint, port: Port)
    requires cfg.Ok() && a.mappings == map[] && port !in a.leases
    ensures Install(cfg, a, 0, owner, port, 0).0 == a.(leases := a.leases[port := Lease(owner, 0)])
  {
  }

  /** Those leases come about by asking for the ports one by one. */
  lemma {:induction false} Hoard(cfg: Config, owner: Endpoint, top: int) returns (es: seq<Event>)
    requires cfg.Ok() && cfg.lo <= top <= cfg.hi + 1
    ensures Run(cfg, es) == Nat(map[], Hoarded(cfg, owner, top), cfg.lo)
    decreases top
  {
    if top == cfg.lo {
      es := [];
    } else {
      var port: Port := top - 1;
      es := Hoard(cfg, owner, port);
      if port != cfg.lo + 1 {
        var e := Grant(0, owner, port, 0);
        assert (es + [e])[..|es|] == es;
        HoardOne(cfg, Run(cfg, es), owner, port);
        es := es + [e];
      }
      assert Run(cfg, es).leases == Hoarded(cfg, owner, top);
    }
  }

  /** With a common divisor of stride and pool size a run exists after which a
      socket is refused although a port is free. */
  lemma SharedFactorWastes(cfg: Config) returns (es: seq<Event>, e: Event)
    requires cfg.Ok() && cfg.allocator.Sequential? && Gcd(cfg.Stride(), cfg.Span()) > 1
    ensures e.Send? && !Honest(cfg, es, e)
  {
    var owner, other := Endpoint(0, 0), Endpoint(1, 0);
    es := Hoard(cfg, owner, cfg.hi + 1);
    e := Send(0, other, other, []);
    var a := Run(cfg, es);
    GcdDividesSpan(cfg);
    assert !PortHeld(cfg, a, 0, cfg.lo + 1);
    forall k | 0 <= k < cfg.Span()
      ensures PortHeld(cfg, a, 0, Visited(cfg, cfg.lo, k))
    {
      SharedFactorMisses(0, cfg.Stride(), cfg.Span(), k);
      ModIs(1, cfg.Span(), 0, 1);
    }
    var slot := Slot(other, KeyOf(cfg.mapping, other));
    assert DropSlots(a, {slot}) == a;
    assert AllHeld(cfg, a, 0, a.cursor, cfg.Span());
    WalkFails(cfg, a, 0, cfg.Span());
  }

  lemma GcdDividesSpan(cfg: Config)
    requires cfg.Ok() && Gcd(cfg.Stride(), cfg.Span()) > 1
    ensures cfg.Span() > 1
  {
    var x, y := GcdDivides(cfg.Stride(), cfg.Span());
    var g := Gcd(cfg.Stride(), cfg.Span());
    Multiple(g, y);
    assert g * 0 == 0;
  }

  /** A sequential box refuses for want of ports only when the pool is full, in
      every run, exactly if its stride and its pool size have no common divisor. */
  lemma SequentialCompleteIffCoprime(cfg: Config)
    requires cfg.Ok() && cfg.allocator.Sequential?
    ensures Gcd(cfg.Stride(), cfg.Span()) == 1 <==> forall es, e: Event | e.Send? :: Honest(cfg, es, e)
  {
    if Gcd(cfg.Stride(), cfg.Span()) == 1 {
      forall es, e: Event | e.Send?
        ensures Honest(cfg, es, e)
      {
        CoprimeIsHonest(cfg, es, e);
      }
    } else {
      var es, e := SharedFactorWastes(cfg);
    }
  }
}
