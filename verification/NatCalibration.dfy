/** Inferring how a box allocates ports from the ports of a burst of sends. */
module NatCalibration {
  import opened Options
  import opened Arith
  import opened Collections
  import opened NatModel
  import opened NatInvariants
  import opened NatEffects
  import opened NatAllocator

  datatype Profile = PreservingProfile | SequentialProfile(stride: nat) | RandomProfile

  const MIN_CALIBRATION_SAMPLES: nat := 3

  /** Neighbours lie `stride` apart. */
  predicate Evenly(s: seq<nat>, stride: nat) { forall i | 0 < i < |s| :: s[i] == s[i - 1] + stride }

  function Calibrate(internalPort: Port, ports: seq<Port>): (profile: Option<Profile>)
  {
    if ports != [] && forall p | p in ports :: p == internalPort then Some(PreservingProfile)
    else FromSorted(SortedKeys(ports))
  }

  /** The verdict on the distinct ports, in order. */
  function FromSorted(sorted: seq<nat>): (profile: Option<Profile>)
    requires Ascending(sorted)
  {
    if |sorted| < MIN_CALIBRATION_SAMPLES then None
    else if Evenly(sorted, sorted[1] - sorted[0]) then Some(SequentialProfile(sorted[1] - sorted[0]))
    else Some(RandomProfile)
  }

  /** `q` is the next larger port that occurs. */
  ghost predicate Neighbours(ports: seq<nat>, p: nat, q: nat)
  {
    p in ports && q in ports && p < q && forall x | x in ports :: x <= p || q <= x
  }

  lemma InARow(ports: seq<nat>, sorted: seq<nat>, i: nat)
    requires Ascending(sorted) && (forall x :: x in sorted <==> x in ports) && 0 < i < |sorted|
    ensures sorted[i - 1] in ports && sorted[i] in ports && Neighbours(ports, sorted[i - 1], sorted[i])
  {
    assert sorted[i - 1] in sorted && sorted[i] in sorted;
    forall x | x in ports
      ensures x <= sorted[i - 1] || sorted[i] <= x
    {
      var j :| 0 <= j < |sorted| && sorted[j] == x;
    }
  }

  lemma PlaceOf(ports: seq<nat>, sorted: seq<nat>, p: nat, q: nat) returns (i: nat)
    requires Ascending(sorted) && (forall x :: x in sorted <==> x in ports) && Neighbours(ports, p, q)
    ensures 0 < i < |sorted| && sorted[i - 1] == p && sorted[i] == q
  {
    assert p in sorted && q in sorted;
    var j: nat :| j < |sorted| && sorted[j] == q;
    i :| 0 <= i < |sorted| && sorted[i] == p;
    i := i + 1;
    assert sorted[i] in sorted;
  }

  lemma EvenNeighbours(ports: seq<nat>, sorted: seq<nat>, stride: nat)
    requires Ascending(sorted) && forall x :: x in sorted <==> x in ports
    ensures Evenly(sorted, stride) <==> forall p: nat, q: nat | Neighbours(ports, p, q) :: q - p == stride
  {
    if Evenly(sorted, stride) {
      forall p: nat, q: nat | Neighbours(ports, p, q)
        ensures q - p == stride
      {
        var i := PlaceOf(ports, sorted, p, q);
      }
    } else {
      var i :| 0 < i < |sorted| && sorted[i] != sorted[i - 1] + stride;
      InARow(ports, sorted, i);
    }
  }

  lemma CountSorted(ports: seq<nat>)
    ensures |SortedKeys(ports)| == |Members(ports)|
  {
    DistinctCount(SortedKeys(ports));
    assert Members(SortedKeys(ports)) == Members(ports);
  }

  /** All ports seen are the socket's own. */
  predicate AllOwn(internalPort: Port, ports: seq<Port>) { ports != [] && forall p | p in ports :: p == internalPort }

  /** What each verdict says of the ports seen: all the socket's own; fewer than three; each a
      stride below the next; or none of these. */
  lemma CalibrateMeans(internalPort: Port, ports: seq<Port>, stride: nat)
    ensures var c, own, seen := Calibrate(internalPort, ports), AllOwn(internalPort, ports), |Members<nat>(ports)|;
            && (c == Some(PreservingProfile) <==> own)
            && (c == None <==> !own && seen < 3)
            && (c == Some(SequentialProfile(stride)) <==>
                  !own && seen >= 3 && forall p: nat, q: nat | Neighbours(ports, p, q) :: q - p == stride)
  {
    var sorted := SortedKeys(ports);
    CountSorted(ports);
    EvenNeighbours(ports, sorted, stride);
    if |sorted| >= 3 && Evenly(sorted, stride) {
      assert sorted[1] == sorted[0] + stride;
    }
  }

  // ---- a burst ---------------------------------------------------------------------

  /** A datagram of the burst. */
  datatype Shot = Shot(now: nat, dst: Endpoint)

  /** The box after the burst, and the ports of the new translations it opened. */
  ghost function Fire(cfg: Config, a: Nat, src: Endpoint, shots: seq<Shot>): (r: (Nat, seq<Port>))
    requires cfg.Ok() && cfg.InPool(a.cursor)
    decreases |shots|
  {
    if shots == [] then (a, [])
    else
      var (b, pass) := Outbound(cfg, a, shots[0].now, src, shots[0].dst, []);
      var (c, ports) := Fire(cfg, b, src, shots[1..]);
      (c, if pass.Ok? && pass.value.created then [pass.value.external] + ports else ports)
  }

  /** The ports the cursor passes on its way. */
  function Track(cfg: Config, start: Port, n: nat): (ports: seq<Port>)
    requires cfg.Ok() && cfg.InPool(start)
    ensures |ports| == n
    decreases n
  {
    if n == 0 then [] else [start] + Track(cfg, NextCursor(cfg, start), n - 1)
  }

  /** At `now` nothing holds the ports the next `n` sends of a sequential box will get,
      and they are all different. */
  ghost predicate WayClear(cfg: Config, a: Nat, now: nat, n: nat)
    requires cfg.Ok() && cfg.InPool(a.cursor)
  {
    Distinct(Track(cfg, a.cursor, n)) && forall p | p in Track(cfg, a.cursor, n) :: !PortHeld(cfg, a, now, p)
  }

  /** The sends are in order, go to different keys, and none of them is in use. */
  ghost predicate Fanned(cfg: Config, a: Nat, src: Endpoint, shots: seq<Shot>)
  {
    && (forall i, j | 0 <= i < j < |shots| :: shots[i].now <= shots[j].now)
    && (forall i, j | 0 <= i < j < |shots| :: KeyOf(cfg.mapping, shots[i].dst) != KeyOf(cfg.mapping, shots[j].dst))
    && (forall i | 0 <= i < |shots| :: !LiveSlot(cfg, a, shots[i].now, Slot(src, KeyOf(cfg.mapping, shots[i].dst))))
    && (forall i | 0 <= i < |shots| :: !Pinned(a, shots[i].now, src))
  }

  lemma HeldEarlier(cfg: Config, a: Nat, now: nat, later: nat, port: Port)
    requires now <= later && PortHeld(cfg, a, later, port)
    ensures PortHeld(cfg, a, now, port)
  {
    if !LiveLease(a, later, port) {
      var slot :| slot in SlotsOn(a, port) && LiveSlot(cfg, a, later, slot);
      assert LiveSlot(cfg, a, now, slot);
    }
  }

  /** The first send of a burst takes the port at the cursor and moves on by the stride. */
  lemma FirstShot(cfg: Config, a: Nat, src: Endpoint, shot: Shot)
    requires cfg.Ok() && cfg.InPool(a.cursor) && cfg.allocator.Sequential?
    requires !Pinned(a, shot.now, src) && !LiveSlot(cfg, a, shot.now, Slot(src, KeyOf(cfg.mapping, shot.dst)))
    requires !PortHeld(cfg, a, shot.now, a.cursor)
    ensures var r, slot := Outbound(cfg, a, shot.now, src, shot.dst, []), Slot(src, KeyOf(cfg.mapping, shot.dst));
            && r.1 == Ok(Pass(a.cursor, true, false)) && r.0.cursor == NextCursor(cfg, a.cursor)
            && (forall s | s in r.0.mappings && s != slot :: s in a.mappings && r.0.mappings[s] == a.mappings[s])
            && slot in r.0.mappings && r.0.mappings[slot].externalPort == a.cursor
            && (forall p | p in r.0.leases :: p in a.leases && r.0.leases[p] == a.leases[p])
  {
    var slot := Slot(src, KeyOf(cfg.mapping, shot.dst));
    var a0 := DropSlots(a, {slot});
    assert Shrinks(cfg, a, a0, shot.now);
    ShrinksHeld(cfg, a, a0, shot.now, a.cursor);
    var a1 := a0.(cursor := NextCursor(cfg, a.cursor));
    ShrinksHeld(cfg, a0, a1, shot.now, a.cursor);
    HeldOrFree(cfg, a1, shot.now, a.cursor);
    assert Walk(cfg, a0, shot.now, cfg.Span()) == (Asked(cfg, a1, shot.now, a.cursor, None), Some(a.cursor));
  }

  lemma StaysFanned(cfg: Config, a: Nat, b: Nat, src: Endpoint, shots: seq<Shot>)
    requires shots != [] && Fanned(cfg, a, src, shots)
    requires forall s | s in b.mappings && s != Slot(src, KeyOf(cfg.mapping, shots[0].dst)) ::
               s in a.mappings && b.mappings[s] == a.mappings[s]
    requires forall p | p in b.leases :: p in a.leases && b.leases[p] == a.leases[p]
    ensures Fanned(cfg, b, src, shots[1..])
  {
    var rest := shots[1..];
    forall i | 0 <= i < |rest|
      ensures !LiveSlot(cfg, b, rest[i].now, Slot(src, KeyOf(cfg.mapping, rest[i].dst)))
      ensures !Pinned(b, rest[i].now, src)
    {
      assert rest[i] == shots[i + 1];
      if Pinned(b, rest[i].now, src) {
        var p: Port :| Pins(b, rest[i].now, src, p);
        assert Pins(a, rest[i].now, src, p);
      }
    }
  }

  lemma StaysClear(cfg: Config, a: Nat, b: Nat, slot: Slot, now: nat, later: nat, n: nat)
    requires cfg.Ok() && cfg.InPool(a.cursor) && n > 0 && WayClear(cfg, a, now, n) && now <= later
    requires b.cursor == NextCursor(cfg, a.cursor)
    requires forall s | s in b.mappings && s != slot :: s in a.mappings && b.mappings[s] == a.mappings[s]
    requires slot in b.mappings && b.mappings[slot].externalPort == a.cursor
    requires forall p | p in b.leases :: p in a.leases && b.leases[p] == a.leases[p]
    ensures WayClear(cfg, b, later, n - 1)
  {
    var track, rest := Track(cfg, a.cursor, n), Track(cfg, b.cursor, n - 1);
    assert rest == track[1..];
    forall p | p in rest
      ensures !PortHeld(cfg, b, later, p)
    {
      var j: nat :| j < |rest| && rest[j] == p;
      assert p == track[j + 1] != track[0];
      if PortHeld(cfg, b, later, p) {
        if !LiveLease(b, later, p) {
          var s :| s in SlotsOn(b, p) && LiveSlot(cfg, b, later, s);
          assert s in SlotsOn(a, p) && LiveSlot(cfg, a, later, s);
        }
        HeldEarlier(cfg, a, now, later, p);
      }
    }
  }

  /** A burst over a clear way opens a new translation with every send, at the ports the
      cursor passes. */
  lemma {:induction false} BurstFollowsCursor(cfg: Config, a: Nat, src: Endpoint, shots: seq<Shot>)
    requires cfg.Ok() && cfg.InPool(a.cursor) && cfg.allocator.Sequential? && Fanned(cfg, a, src, shots)
    requires shots != [] ==> WayClear(cfg, a, shots[0].now, |shots|)
    ensures Fire(cfg, a, src, shots).1 == Track(cfg, a.cursor, |shots|)
    decreases |shots|
  {
    if shots != [] {
      assert a.cursor in Track(cfg, a.cursor, |shots|);
      FirstShot(cfg, a, src, shots[0]);
      var b := Outbound(cfg, a, shots[0].now, src, shots[0].dst, []).0;
      StaysFanned(cfg, a, b, src, shots);
      if |shots| > 1 {
        StaysClear(cfg, a, b, Slot(src, KeyOf(cfg.mapping, shots[0].dst)), shots[0].now, shots[1].now, |shots|);
      }
      BurstFollowsCursor(cfg, b, src, shots[1..]);
    }
  }

  // ---- a burst on a box that preserves ports -------------------------------------------

  /** `b` is `a` with a translation for `slot` on `port`; some other entries may be gone. */
  ghost predicate Opened(a: Nat, b: Nat, slot: Slot, port: Port)
  {
    && (forall s | s in b.mappings && s != slot :: s in a.mappings && b.mappings[s] == a.mappings[s])
    && slot in b.mappings && b.mappings[slot].externalPort == port
    && (forall p | p in b.leases :: p in a.leases && b.leases[p] == a.leases[p])
  }

  lemma OwnShot(cfg: Config, a: Nat, src: Endpoint, shot: Shot)
    requires cfg.Ok() && cfg.InPool(a.cursor) && cfg.allocator.Preserving? && cfg.InPool(src.port)
    requires !Pinned(a, shot.now, src) && !LiveSlot(cfg, a, shot.now, Slot(src, KeyOf(cfg.mapping, shot.dst)))
    requires Vacant(cfg, a, shot.now, src.port, Some(src))
    ensures var r := Outbound(cfg, a, shot.now, src, shot.dst, []);
            r.1 == Ok(Pass(src.port, true, false)) && Opened(a, r.0, Slot(src, KeyOf(cfg.mapping, shot.dst)), src.port)
  {
    var a0 := DropSlots(a, {Slot(src, KeyOf(cfg.mapping, shot.dst))});
    FreeIsVacant(cfg, a0, shot.now, src.port, Some(src));
    AskedShrinks(cfg, a0, shot.now, src.port, Some(src));
  }

  lemma StaysVacant(cfg: Config, a: Nat, b: Nat, slot: Slot, now: nat, later: nat, port: Port)
    requires Vacant(cfg, a, now, port, Some(slot.internal)) && now <= later && Opened(a, b, slot, port)
    ensures Vacant(cfg, b, later, port, Some(slot.internal))
  {
    forall s | s in b.mappings && UsedOn(cfg, b, later, s, port)
      ensures s.internal == slot.internal
    {
      if s != slot { assert UsedOn(cfg, a, now, s, port); }
    }
  }

  /** If nobody else holds the socket's own port, every send of a burst shows it. */
  lemma {:induction false} BurstKeepsPort(cfg: Config, a: Nat, src: Endpoint, shots: seq<Shot>)
    requires cfg.Ok() && cfg.InPool(a.cursor) && cfg.allocator.Preserving? && cfg.InPool(src.port)
    requires Fanned(cfg, a, src, shots) && (shots != [] ==> Vacant(cfg, a, shots[0].now, src.port, Some(src)))
    ensures var ports := Fire(cfg, a, src, shots).1;
            |ports| == |shots| && forall k | 0 <= k < |ports| :: ports[k] == src.port
    decreases |shots|
  {
    if shots != [] {
      OwnShot(cfg, a, src, shots[0]);
      var b := Outbound(cfg, a, shots[0].now, src, shots[0].dst, []).0;
      StaysFanned(cfg, a, b, src, shots);
      if |shots| > 1 {
        StaysVacant(cfg, a, b, Slot(src, KeyOf(cfg.mapping, shots[0].dst)), shots[0].now, shots[1].now, src.port);
      }
      BurstKeepsPort(cfg, b, src, shots[1..]);
    }
  }

  /** A burst on a box that preserves ports is read as that, of whatever length, as long as
      the socket's own port lies in the pool and nobody else holds it. */
  lemma PreservingRecovered(cfg: Config, a: Nat, src: Endpoint, shots: seq<Shot>)
    requires cfg.Ok() && cfg.InPool(a.cursor) && cfg.allocator.Preserving? && cfg.InPool(src.port)
    requires shots != [] && Fanned(cfg, a, src, shots) && Vacant(cfg, a, shots[0].now, src.port, Some(src))
    ensures Calibrate(src.port, Fire(cfg, a, src, shots).1) == Some(PreservingProfile)
  {
    BurstKeepsPort(cfg, a, src, shots);
    CalibrateMeans(src.port, Fire(cfg, a, src, shots).1, 0);
  }

  // ---- what is inferred --------------------------------------------------------------

  lemma NextUnwrapped(cfg: Config, start: Port, n: nat)
    requires cfg.Ok() && cfg.InPool(start) && n > 1 && start + (n - 1) * cfg.Stride() <= cfg.hi
    ensures NextCursor(cfg, start) == start + cfg.Stride()
    ensures NextCursor(cfg, start) + (n - 2) * cfg.Stride() <= cfg.hi
  {
    Distribute(cfg.Stride(), n - 2, 1);
    Multiple(cfg.Stride(), n - 1);
    ModIs(start - cfg.lo + cfg.Stride(), cfg.Span(), 0, start - cfg.lo + cfg.Stride());
  }

  lemma EvenMore(x: Port, rest: seq<Port>, stride: nat)
    requires stride > 0 && rest != [] && rest[0] == x + stride && Ascending(rest) && Evenly(rest, stride)
    ensures Ascending([x] + rest) && Evenly([x] + rest, stride)
  {
  }

  /** Up to the end of the pool the cursor passes ascending ports a stride apart. */
  lemma {:induction false} TrackUnwrapped(cfg: Config, start: Port, n: nat)
    requires cfg.Ok() && cfg.InPool(start) && (n > 0 ==> start + (n - 1) * cfg.Stride() <= cfg.hi)
    ensures Ascending(Track(cfg, start, n)) && Evenly(Track(cfg, start, n), cfg.Stride())
    decreases n
  {
    if n > 1 {
      NextUnwrapped(cfg, start, n);
      TrackUnwrapped(cfg, NextCursor(cfg, start), n - 1);
      EvenMore(start, Track(cfg, NextCursor(cfg, start), n - 1), cfg.Stride());
    }
  }

  // ---- bursts that come round ----------------------------------------------------------

  lemma {:induction false} EvenAt(s: seq<nat>, stride: nat, k: nat)
    requires Evenly(s, stride) && k < |s|
    ensures s[k] == s[0] + k * stride
    decreases k
  {
    if k > 0 {
      EvenAt(s, stride, k - 1);
      Distribute(stride, k - 1, 1);
    }
  }

  lemma {:induction false} Predecessor(cfg: Config, start: Port, n: nat, x: Port) returns (p: Port)
    requires cfg.Ok() && cfg.InPool(start) && x in Track(cfg, start, n) && x != start
    ensures p in Track(cfg, start, n) && cfg.InPool(p) && NextCursor(cfg, p) == x
    decreases n
  {
    var next := NextCursor(cfg, start);
    assert x in Track(cfg, next, n - 1);
    if x == next {
      p := start;
    } else {
      p := Predecessor(cfg, next, n - 1, x);
    }
  }

  lemma {:induction false} TrackInPool(cfg: Config, start: Port, n: nat)
    requires cfg.Ok() && cfg.InPool(start)
    ensures forall p | p in Track(cfg, start, n) :: cfg.InPool(p)
    decreases n
  {
    if n > 0 {
      TrackInPool(cfg, NextCursor(cfg, start), n - 1);
    }
  }

  /** A step that does not go up has come round the pool once. */
  lemma StepsRound(cfg: Config, p: Port)
    requires cfg.Ok() && cfg.InPool(p) && cfg.Stride() < cfg.Span() && NextCursor(cfg, p) <= p
    ensures NextCursor(cfg, p) + cfg.Span() == p + cfg.Stride()
  {
    var x, n := p - cfg.lo + cfg.Stride(), cfg.Span();
    if x < n {
      ModIs(x, n, 0, x);
    } else {
      ModIs(x, n, 1, x - n);
    }
  }

  lemma WholeRound(n: nat, k: nat, s: nat, span: nat)
    requires k < n && k * s + s == span && (n - 1) * s < span
    ensures n * s == span
  {
    Distribute(s, k, 1);
    if k + 1 < n {
      Multiply(s, k + 1, n - 1);
    }
  }

  lemma Multiply(s: nat, x: nat, y: nat)
    requires x <= y
    ensures x * s <= y * s
  {
    Distribute(s, x, y - x);
  }

  /** If the ports are evenly spaced by the stride, the burst did not wrap or went round
      the whole pool. */
  lemma EvenMeansRound(cfg: Config, start: Port, n: nat)
    requires cfg.Ok() && cfg.InPool(start) && n >= 3 && Distinct(Track(cfg, start, n))
    requires Evenly(SortedKeys(Track(cfg, start, n)), cfg.Stride())
    ensures start + (n - 1) * cfg.Stride() <= cfg.hi || n * cfg.Stride() == cfg.Span()
  {
    var track, s := Track(cfg, start, n), cfg.Stride();
    var sorted := SortedKeys(track);
    SortedCount(track);
    TrackInPool(cfg, start, n);
    EvenAt(sorted, s, n - 1);
    EvenAt(sorted, s, 2);
    var m := sorted[0];
    assert m in sorted && sorted[n - 1] in sorted && sorted[2] in sorted;
    if m != start {
      var p := Predecessor(cfg, start, n, m);
      assert p in sorted;
      var k: nat :| k < n && sorted[k] == p;
      EvenAt(sorted, s, k);
      StepsRound(cfg, p);
      WholeRound(n, k, s, cfg.Span());
    }
  }

  /** A step keeps the remainder of the offset modulo the stride, if the stride divides the pool. */
  lemma StepKeepsRest(x: nat, s: nat, n: nat)
    requires s > 0 && n > 0
    ensures ((x + s) % (n * s)) % s == x % s
  {
    Positive(n, s);
    var y, span := x + s, n * s;
    var q, r := y / span, y % span;
    Reorder(s, n, q);
    Distribute(s, n * q, r / s);
    ModIs(y, s, n * q + r / s, r % s);
    ModIs(y, s, x / s + 1, x % s);
    Distribute(s, x / s, 1);
  }

  lemma Positive(n: nat, s: nat)
    requires n > 0 && s > 0
    ensures n * s > 0
  {
    Multiple(n, s);
  }

  lemma {:induction false} TrackKeepsRest(cfg: Config, start: Port, n: nat, rounds: nat, p: Port)
    requires cfg.Ok() && cfg.InPool(start) && rounds > 0 && rounds * cfg.Stride() == cfg.Span()
    requires p in Track(cfg, start, n)
    ensures cfg.InPool(p) && (p - cfg.lo) % cfg.Stride() == (start - cfg.lo) % cfg.Stride()
    decreases n
  {
    if p != start {
      StepKeepsRest(start - cfg.lo, cfg.Stride(), rounds);
      TrackKeepsRest(cfg, NextCursor(cfg, start), n - 1, rounds, p);
    }
  }

  /** first, first + stride, ... : `n` of them. */
  function Progression(first: nat, stride: nat, n: nat): (r: seq<nat>)
    ensures |r| == n && forall k | 0 <= k < n :: r[k] == first + k * stride
  {
    seq(n, k requires 0 <= k < n => first + k * stride)
  }

  lemma ProgressionEven(first: nat, stride: nat, n: nat)
    requires stride > 0
    ensures Ascending(Progression(first, stride, n)) && Evenly(Progression(first, stride, n), stride)
  {
    var r := Progression(first, stride, n);
    forall i, j | 0 <= i < j < n
      ensures r[i] < r[j]
    {
      Multiply(stride, i + 1, j);
      Distribute(stride, i, 1);
    }
    forall i | 0 < i < n
      ensures r[i] == r[i - 1] + stride
    {
      Distribute(stride, i - 1, 1);
    }
  }

  lemma QuotientBelow(x: nat, s: nat, n: nat) returns (q: nat)
    requires s > 0 && x < n * s
    ensures q < n && x == x % s + q * s
  {
    q := x / s;
    if q >= n {
      Multiply(s, n, q);
    }
  }

  lemma ProgressionHas(first: nat, stride: nat, n: nat, k: nat)
    requires k < n
    ensures first + k * stride in Progression(first, stride, n)
  {
    assert Progression(first, stride, n)[k] == first + k * stride;
  }

  lemma OnProgression(cfg: Config, start: Port, n: nat, p: Port, first: nat)
    requires cfg.Ok() && cfg.InPool(start) && n > 0 && n * cfg.Stride() == cfg.Span() && p in Track(cfg, start, n)
    requires first == cfg.lo + (start - cfg.lo) % cfg.Stride()
    ensures p in Progression(first, cfg.Stride(), n)
  {
    TrackKeepsRest(cfg, start, n, n, p);
    var q := QuotientBelow(p - cfg.lo, cfg.Stride(), n);
    ProgressionHas(first, cfg.Stride(), n, q);
  }

  /** A burst that goes round the whole pool takes every port of its remainder. */
  lemma RoundIsEven(cfg: Config, start: Port, n: nat)
    requires cfg.Ok() && cfg.InPool(start) && n > 0 && n * cfg.Stride() == cfg.Span() && Distinct(Track(cfg, start, n))
    ensures Evenly(SortedKeys(Track(cfg, start, n)), cfg.Stride())
  {
    var track, first := Track(cfg, start, n), cfg.lo + (start - cfg.lo) % cfg.Stride();
    ProgressionEven(first, cfg.Stride(), n);
    forall p | p in track
      ensures p in Progression(first, cfg.Stride(), n)
    {
      OnProgression(cfg, start, n, p, first);
    }
    SortsTo(track, Progression(first, cfg.Stride(), n));
  }

  lemma CalibratedIsEven(cfg: Config, start: Port, n: nat, internalPort: Port)
    requires cfg.Ok() && cfg.InPool(start) && n >= 3 && Distinct(Track(cfg, start, n))
    ensures Calibrate(internalPort, Track(cfg, start, n)) == Some(SequentialProfile(cfg.Stride())) <==>
            Evenly(SortedKeys(Track(cfg, start, n)), cfg.Stride())
  {
    var track := Track(cfg, start, n);
    SortedCount(track);
    assert track[0] in track && track[1] in track && track[0] != track[1];
  }

  /** A burst of `n` sends from `start` does not wrap round the pool, or goes round it exactly once. */
  predicate EvenBurst(cfg: Config, start: Port, n: nat)
    requires cfg.Ok()
  {
    start + (n - 1) * cfg.Stride() <= cfg.hi || n * cfg.Stride() == cfg.Span()
  }

  lemma TrackCalibratedIff(cfg: Config, start: Port, n: nat, internalPort: Port, ports: seq<Port>)
    requires cfg.Ok() && cfg.InPool(start) && n >= 3 && ports == Track(cfg, start, n) && Distinct(ports)
    ensures Calibrate(internalPort, ports) == Some(SequentialProfile(cfg.Stride())) <==>
            EvenBurst(cfg, start, n)
  {
    CalibratedIsEven(cfg, start, n, internalPort);
    if Evenly(SortedKeys(Track(cfg, start, n)), cfg.Stride()) {
      EvenMeansRound(cfg, start, n);
    }
    if n * cfg.Stride() == cfg.Span() {
      RoundIsEven(cfg, start, n);
    } else if start + (n - 1) * cfg.Stride() <= cfg.hi {
      TrackUnwrapped(cfg, start, n);
      SortedIsItself(Track(cfg, start, n));
    }
  }

  /** The ports of a burst of at least three sends on a sequential box, with no held ports in
      its way, are calibrated to the box's own stride if and only if the burst does not wrap
      round the pool, or goes round it exactly once. */
  lemma BurstCalibratedIff(cfg: Config, a: Nat, src: Endpoint, shots: seq<Shot>, ports: seq<Port>)
    requires cfg.Ok() && cfg.InPool(a.cursor) && cfg.allocator.Sequential? && Fanned(cfg, a, src, shots)
    requires |shots| >= 3 && WayClear(cfg, a, shots[0].now, |shots|) && ports == Fire(cfg, a, src, shots).1
    ensures Calibrate(src.port, ports) == Some(SequentialProfile(cfg.Stride())) <==>
            EvenBurst(cfg, a.cursor, |shots|)
  {
    BurstFollowsCursor(cfg, a, src, shots);
    TrackCalibratedIff(cfg, a.cursor, |shots|, src.port, ports);
  }

  // ---- bursts that are misread -----------------------------------------------------------

  /** What three different ports are read as. */
  lemma ThreePorts(internalPort: Port, ports: seq<Port>, t: seq<Port>)
    requires Distinct(ports) && Ascending(t) && |ports| == |t| == 3 && forall p | p in ports :: p in t
    ensures Calibrate(internalPort, ports) ==
            Some(if t[1] - t[0] == t[2] - t[1] then SequentialProfile(t[1] - t[0]) else RandomProfile)
  {
    SortsTo(ports, t);
    assert ports[0] in ports && ports[1] in ports && ports[0] != ports[1];
  }

  /** Wherever the pool lies, three sends that start at its last port are read as random if
      the box walks by one and the pool has more than three ports. */
  lemma WrappedRandom(cfg: Config, a: Nat, src: Endpoint, shots: seq<Shot>)
    requires cfg.Ok() && a.cursor == cfg.hi && cfg.allocator.Sequential? && cfg.Stride() == 1 && cfg.Span() > 3
    requires Fanned(cfg, a, src, shots) && |shots| == 3 && WayClear(cfg, a, shots[0].now, 3)
    ensures Calibrate(src.port, Fire(cfg, a, src, shots).1) == Some(RandomProfile)
  {
    BurstFollowsCursor(cfg, a, src, shots);
    LastThenFirst(cfg, |shots|);
    ThreePorts(src.port, Fire(cfg, a, src, shots).1, [cfg.lo, cfg.lo + 1, cfg.hi]);
  }

  lemma LastThenFirst(cfg: Config, n: nat)
    requires cfg.Ok() && cfg.Stride() == 1 && cfg.Span() > 3 && n == 3
    ensures Track(cfg, cfg.hi, n) == [cfg.hi, cfg.lo, cfg.lo + 1]
  {
    ModIs(cfg.Span(), cfg.Span(), 1, 0);
    ModIs(1, cfg.Span(), 0, 1);
    assert Track(cfg, cfg.lo + 1, n - 2) == [cfg.lo + 1];
    assert Track(cfg, cfg.lo, n - 1) == [cfg.lo] + Track(cfg, cfg.lo + 1, n - 2);
    assert Track(cfg, cfg.hi, n) == [cfg.hi] + Track(cfg, cfg.lo, n - 1);
  }

  /** A box with a pool of nine and a stride of six. */
  function Wrapping(): (cfg: Config)
    ensures cfg.Ok()
  {
    Config(DstAddrPort, Sequential(6), PortRestricted, 1000, 0, 8)
  }

  lemma WrappedTrack(start: Port, n: nat)
    requires start == 0 && n == 3
    ensures Wrapping().InPool(start) && Track(Wrapping(), start, n) == [0, 6, 3]
  {
    var cfg := Wrapping();
    assert NextCursor(cfg, 0) == 6 && NextCursor(cfg, 6) == 3;
    assert Track(cfg, 3, n - 2) == [3];
    assert Track(cfg, 6, n - 1) == [6] + Track(cfg, 3, n - 2);
    assert Track(cfg, start, n) == [0] + Track(cfg, 6, n - 1);
  }

  /** Nothing is held on a fresh box. */
  lemma FreshBurst(cfg: Config, src: Endpoint, shots: seq<Shot>, ports: seq<Port>)
    requires cfg.Ok() && cfg.allocator.Sequential? && Fanned(cfg, Fresh(cfg), src, shots) && shots != []
    requires ports == Track(cfg, cfg.lo, |shots|) && Distinct(ports)
    ensures Fire(cfg, Fresh(cfg), src, shots).1 == ports
  {
    forall p
      ensures !PortHeld(cfg, Fresh(cfg), shots[0].now, p)
    {
      assert SlotsOn(Fresh(cfg), p) == {};
    }
    BurstFollowsCursor(cfg, Fresh(cfg), src, shots);
  }

  /** Any three sends to different keys through that box, when it is fresh, wrap round the
      pool and are calibrated to a stride of three. */
  lemma WrappedMisread(src: Endpoint, shots: seq<Shot>, a: Nat)
    requires |shots| == 3 && a == Fresh(Wrapping()) && Fanned(Wrapping(), a, src, shots)
    ensures Calibrate(src.port, Fire(Wrapping(), a, src, shots).1) == Some(SequentialProfile(3))
  {
    WrappedTrack(a.cursor, |shots|);
    FreshBurst(Wrapping(), src, shots, [0, 6, 3]);
    ThreePorts(src.port, [0, 6, 3], [0, 3, 6]);
  }
}
