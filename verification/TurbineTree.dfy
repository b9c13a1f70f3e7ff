/** The retransmission tree: index formulas over one node list. */
module TurbineTree {
  import opened Arith

  // ---- the index formulas ------------------------------------------------------

  /** Every `step`-th index from `start` below `limit`, at most `count` of them. */
  function Strided(start: nat, step: nat, count: nat, limit: nat): (r: seq<nat>)
    requires step > 0
    decreases count
  {
    if count == 0 || start >= limit then [] else [start] + Strided(start + step, step, count - 1, limit)
  }

  function Start(i: nat, f: nat): (s: nat)
    requires f > 0
    ensures s >= 1
  {
    var offset: nat := (if i == 0 then 0 else i - 1) % f;
    var anchor: nat := i - offset;
    anchor * f + offset + 1
  }

  function StepOf(i: nat, f: nat): (s: nat) { if i == 0 then 1 else f }

  /** The `k`-th index the node at index `i` would retransmit to. */
  function Target(i: nat, f: nat, k: nat): (c: nat)
    requires f > 0
    ensures c >= 1
  {
    var d: nat := k * StepOf(i, f);
    Start(i, f) + d
  }

  /** The indexes to which the node at index `i` of `n` retransmits. */
  function RetransmitIndices(i: nat, f: nat, n: nat): (r: seq<nat>)
    requires f > 0
  {
    Strided(Start(i, f), StepOf(i, f), f, n)
  }

  lemma {:induction false} StridedHas(start: nat, step: nat, count: nat, limit: nat, k: nat)
    requires step > 0 && k < count && start + k * step < limit
    ensures start + k * step in Strided(start, step, count, limit)
    decreases count
  {
    if k > 0 {
      Distribute(step, k - 1, 1);
      StridedHas(start + step, step, count - 1, limit, k - 1);
    }
  }

  lemma {:induction false} StridedFrom(start: nat, step: nat, count: nat, limit: nat, c: nat) returns (k: nat)
    requires step > 0 && c in Strided(start, step, count, limit)
    ensures k < count && c == start + k * step < limit
    decreases count
  {
    if c == start {
      k := 0;
    } else {
      k := StridedFrom(start + step, step, count - 1, limit, c);
      Distribute(step, k, 1);
      k := k + 1;
    }
  }

  lemma {:induction false} StridedOnce(start: nat, step: nat, count: nat, limit: nat, c: nat)
    requires step > 0
    ensures multiset(Strided(start, step, count, limit))[c] <= 1
    ensures c in Strided(start, step, count, limit) ==> start <= c
    decreases count
  {
    if count > 0 && start < limit {
      StridedOnce(start + step, step, count - 1, limit, c);
    }
  }

  // ---- the tree ----------------------------------------------------------------

  /** The only node from which index `c` can be reached. */
  function Parent(c: nat, f: nat): (p: nat)
    requires f > 0 && c > 0
  {
    if c <= f then 0
    else
      var r, m := (c - 1) % f, (c - 1) / f;
      if m == 0 then 0 else 1 + r + f * ((m - 1) / f)
  }

  lemma Divided(x: nat, f: nat) returns (q: nat, r: nat)
    requires f > 0
    ensures q == x / f && r == x % f && x == f * q + r && r < f
    ensures x >= f ==> q >= 1
  {
    q, r := x / f, x % f;
    var z: int := q;
    Multiple(f, -z);
  }

  /** A parent in terms of quotients and remainders. */
  lemma ParentIs(c: nat, f: nat, m: nat, r: nat, q: nat, k: nat)
    requires r < f && k < f && c - 1 == f * m + r && m - 1 == f * q + k
    ensures c > f && Parent(c, f) == 1 + r + f * q
  {
    Multiple(f, m);
    ModIs(c - 1, f, m, r);
    DivIs(c - 1, f, m, r);
    DivIs(m - 1, f, q, k);
  }

  lemma Decompose(c: nat, f: nat) returns (m: nat, r: nat, q: nat, k: nat)
    requires 0 < f < c
    ensures r < f && k < f && c - 1 == f * m + r && m - 1 == f * q + k
    ensures Parent(c, f) == 1 + r + f * q
  {
    m, r := Divided(c - 1, f);
    q, k := Divided(m - 1, f);
    ParentIs(c, f, m, r, q, k);
  }

  lemma StartIs(f: nat, q: nat, r: nat)
    requires r < f
    ensures Start(1 + r + f * q, f) == f * (1 + f * q) + r + 1
  {
    ModIs(f * q + r, f, q, r);
  }

  lemma ParentSmaller(c: nat, f: nat)
    requires f > 0 && c > 0
    ensures Parent(c, f) < c
  {
    if c > f {
      var m, r, q, k := Decompose(c, f);
      Multiple(q, f);
      var z: int := q;
      Distribute(f, m, -z);
      Multiple(f, m - q);
    }
  }

  lemma RootStart(f: nat)
    requires f > 0
    ensures Start(0, f) == 1
  {
    ModIs(0, f, 0, 0);
  }

  lemma TargetIs(f: nat, q: nat, r: nat, k: nat)
    requires r < f
    ensures Target(1 + r + f * q, f, k) == f * (1 + f * q + k) + r + 1
  {
    StartIs(f, q, r);
    Distribute(f, 1 + f * q, k);
    assert StepOf(1 + r + f * q, f) == f;
  }

  lemma RootTarget(f: nat, k: nat)
    requires f > 0
    ensures Target(0, f, k) == k + 1
  {
    RootStart(f);
  }

  lemma ChildHasParent(i: nat, f: nat, k: nat)
    requires f > 0 && k < f
    ensures Parent(Target(i, f, k), f) == i
  {
    if i == 0 {
      RootTarget(f, k);
    } else {
      var q, r := Divided(i - 1, f);
      TargetIs(f, q, r, k);
      ParentIs(f * (1 + f * q + k) + r + 1, f, 1 + f * q + k, r, q, k);
    }
  }

  lemma ParentHasChild(f: nat, c: nat) returns (k: nat)
    requires f > 0 && c > 0
    ensures k < f && c == Target(Parent(c, f), f, k)
  {
    if c <= f {
      RootTarget(f, c - 1);
      k := c - 1;
    } else {
      var m, r, q, k' := Decompose(c, f);
      TargetIs(f, q, r, k');
      k := k';
    }
  }

  /** The children of a node are the indexes whose parent it is. */
  lemma ChildIff(i: nat, f: nat, n: nat, c: nat)
    requires f > 0
    ensures c in RetransmitIndices(i, f, n) <==> 1 <= c < n && Parent(c, f) == i
  {
    if c in RetransmitIndices(i, f, n) {
      var k := StridedFrom(Start(i, f), StepOf(i, f), f, n, c);
      ChildHasParent(i, f, k);
    }
    if 1 <= c < n && Parent(c, f) == i {
      var k := ParentHasChild(f, c);
      StridedHas(Start(i, f), StepOf(i, f), f, n, k);
    }
  }

  /** The root's children are 1 to f. */
  lemma RootChildren(f: nat, n: nat, c: nat)
    requires f > 0
    ensures c in RetransmitIndices(0, f, n) <==> 1 <= c <= f && c < n
  {
    ChildIff(0, f, n, c);
    if c > f {
      var m, r, q, k := Decompose(c, f);
    }
  }

  /** The node at place `r` of its fan, behind `q` whole fans. */
  function InFan(f: nat, q: nat, r: nat): (i: nat) { 1 + r + f * q }

  lemma SamePlaceInFan(f: nat, q: nat, r: nat, q': nat, r': nat)
    requires r < f && r' < f && InFan(f, q, r) == InFan(f, q', r')
    ensures q == q' && r == r'
  {
    ModIs(f * q + r, f, q, r);
    ModIs(f * q + r, f, q', r');
    DivIs(f * q + r, f, q, r);
    DivIs(f * q + r, f, q', r');
  }

  /** Its children lie at the same place of `f` fans in a row, from fan `1 + f * q` on. */
  lemma FanChildren(f: nat, q: nat, r: nat, n: nat, c: nat)
    requires r < f
    ensures c in RetransmitIndices(InFan(f, q, r), f, n) <==>
            c < n && exists t: nat :: 1 + f * q <= t < 1 + f * q + f && c == InFan(f, t, r)
  {
    ChildIff(InFan(f, q, r), f, n, c);
    if 1 <= c < n && Parent(c, f) == InFan(f, q, r) {
      var m, r', q', k := Decompose(c, f);
      SamePlaceInFan(f, q, r, q', r');
      assert c == InFan(f, m, r);
    }
    if t: nat :| 1 + f * q <= t < 1 + f * q + f && c == InFan(f, t, r) && c < n {
      ParentIs(c, f, t, r, q, t - 1 - f * q);
    }
  }

  lemma OnceIff(i: nat, f: nat, n: nat, c: nat)
    requires f > 0
    ensures multiset(RetransmitIndices(i, f, n))[c] == if 1 <= c < n && Parent(c, f) == i then 1 else 0
  {
    ChildIff(i, f, n, c);
    StridedOnce(Start(i, f), StepOf(i, f), f, n, c);
  }

  /** Everything the nodes with index below `k` send. */
  ghost function Sent(f: nat, n: nat, k: nat): (all: multiset<nat>)
    requires f > 0
    decreases k
  {
    if k == 0 then multiset{} else Sent(f, n, k - 1) + multiset(RetransmitIndices(k - 1, f, n))
  }

  lemma {:induction false} SentFrom(f: nat, n: nat, k: nat, c: nat, p: int)
    requires f > 0
    requires forall i: nat :: multiset(RetransmitIndices(i, f, n))[c] == if i == p then 1 else 0
    ensures Sent(f, n, k)[c] == if 0 <= p < k then 1 else 0
    decreases k
  {
    if k > 0 {
      SentFrom(f, n, k - 1, c, p);
      assert Sent(f, n, k)[c] == Sent(f, n, k - 1)[c] + multiset(RetransmitIndices(k - 1, f, n))[c];
    }
  }

  /** If all nodes retransmit, every node but the root is sent to exactly once. */
  lemma ExactlyOnce(f: nat, n: nat, c: nat)
    requires f > 0
    ensures Sent(f, n, n)[c] == if 1 <= c < n then 1 else 0
  {
    forall i: nat
      ensures multiset(RetransmitIndices(i, f, n))[c] == if 1 <= c < n && Parent(c, f) == i then 1 else 0
    {
      OnceIff(i, f, n, c);
    }
    if 1 <= c < n {
      ParentSmaller(c, f);
      SentFrom(f, n, n, c, Parent(c, f));
    } else {
      SentFrom(f, n, n, c, -1);
    }
  }

  // ---- layers --------------------------------------------------------------------

  function Depth(c: nat, f: nat): (d: nat)
    requires f > 0
    decreases c
  {
    if c == 0 then 0
    else
      ParentSmaller(c, f);
      1 + Depth(Parent(c, f), f)
  }

  /** The last index of layer `d`: f + f^2 + ... + f^d. */
  function LayerEnd(f: nat, d: nat): (e: nat)
    decreases d
  {
    if d == 0 then 0 else f + f * LayerEnd(f, d - 1)
  }

  lemma FloorBound(f: nat, t: int, q: int, r: nat)
    requires r < f
    ensures f * t <= f * q + r <==> t <= q
  {
    Distribute(f, q, -t);
    Multiple(f, q - t);
  }

  /** The number of complete fans before layer `d + 1`. */
  function Fans(f: nat, d: nat): (t: nat)
  {
    if d == 0 then 0 else 1 + LayerEnd(f, d - 1)
  }

  lemma LayerFactor(f: nat, d: nat)
    ensures LayerEnd(f, d) == f * Fans(f, d)
  {
    if d > 0 {
      Distribute(f, 1, LayerEnd(f, d - 1));
    }
  }

  /** Index `1 + r + f * q` lies beyond layer `d` exactly if its fan does. */
  lemma BeyondLayer(f: nat, d: nat, q: nat, r: nat)
    requires r < f
    ensures LayerEnd(f, d) < 1 + r + f * q <==> Fans(f, d) <= q
  {
    LayerFactor(f, d);
    FloorBound(f, Fans(f, d), q, r);
  }

  /** The parent of a node lies one layer up. */
  lemma ParentBeyond(c: nat, f: nat, d: nat)
    requires 0 < f < c
    ensures LayerEnd(f, d + 1) < c <==> LayerEnd(f, d) < Parent(c, f)
  {
    var m, r, q, k := Decompose(c, f);
    BeyondLayer(f, d + 1, m, r);
    BeyondLayer(f, d, q, r);
    BeyondLayer(f, d, q, k);
  }

  predicate InLayer(c: nat, f: nat, d: nat)
  {
    if d == 0 then c == 0 else LayerEnd(f, d - 1) < c <= LayerEnd(f, d)
  }

  lemma LayersGrow(f: nat, d: nat)
    requires f > 0 && d > 0
    ensures LayerEnd(f, d) >= f
    ensures LayerEnd(f, 1) == f
  {
    Multiple(LayerEnd(f, d - 1), f);
  }

  /** A node is `d` hops from the root exactly if its index lies in the `d`-th layer. */
  lemma {:induction false} DepthIsLayer(c: nat, f: nat, d: nat)
    requires f > 0
    ensures Depth(c, f) == d <==> InLayer(c, f, d)
    decreases c
  {
    if c > 0 && d > 0 {
      ParentSmaller(c, f);
      DepthIsLayer(Parent(c, f), f, d - 1);
      LayersGrow(f, d);
      if c > f {
        ParentBeyond(c, f, d - 1);
        if d > 1 {
          ParentBeyond(c, f, d - 2);
        } else {
          var m, r, q, k := Decompose(c, f);
        }
      } else if d > 1 {
        LayersGrow(f, d - 1);
      }
    }
  }

  function Pow(f: nat, d: nat): (p: nat)
  {
    if d == 0 then 1 else f * Pow(f, d - 1)
  }

  /** Depth is logarithmic: a node `d + 1` hops away has index above f + ... + f^d, so at least f^d. */
  lemma {:induction false} LayerEndBound(f: nat, d: nat)
    requires f > 0
    ensures Pow(f, d) <= LayerEnd(f, d) + 1
    decreases d
  {
    if d > 0 {
      LayerEndBound(f, d - 1);
      Distribute(f, LayerEnd(f, d - 1), 1);
      Monotone(f, Pow(f, d - 1), LayerEnd(f, d - 1) + 1);
    }
  }

  lemma Monotone(f: nat, x: nat, y: nat)
    requires x <= y
    ensures f * x <= f * y
  {
  }

  lemma DepthBound(c: nat, f: nat)
    requires f > 0 && c > 0
    ensures Pow(f, Depth(c, f) - 1) <= c
  {
    DepthIsLayer(c, f, Depth(c, f));
    LayerEndBound(f, Depth(c, f) - 1);
  }

  /** The nodes reached after `d` rounds of retransmission from the root. */
  ghost function Reached(f: nat, n: nat, d: nat): (s: set<nat>)
    requires f > 0
    decreases d
  {
    if d == 0 then if n > 0 then {0} else {}
    else Reached(f, n, d - 1) + set c, i | i in Reached(f, n, d - 1) && c in RetransmitIndices(i, f, n) :: c
  }

  /** After `d` rounds exactly the first `d` layers have been reached. */
  lemma {:induction false} ReachedIsLayers(f: nat, n: nat, d: nat)
    requires f > 0
    ensures forall c: nat :: c in Reached(f, n, d) <==> c < n && Depth(c, f) <= d
    decreases d
  {
    if d > 0 {
      ReachedIsLayers(f, n, d - 1);
      forall c: nat
        ensures c in Reached(f, n, d) <==> c < n && Depth(c, f) <= d
      {
        if c > 0 {
          ParentSmaller(c, f);
          ChildIff(Parent(c, f), f, n, c);
        }
        forall i: nat | c in RetransmitIndices(i, f, n)
          ensures c > 0 && c < n && Parent(c, f) == i
        {
          ChildIff(i, f, n, c);
        }
      }
    }
  }
}
