/** The shuffled node list, which every node computes on its own, and the peers a
    node retransmits to. */
module TurbineShuffle {
  import opened Collections
  import opened TurbineTree

  // ---- the shuffled list -----------------------------------------------------------

  /** The shuffle orders identities by a hash, ties by the identity itself. */
  predicate Before(hash: nat -> nat, a: nat, b: nat)
  {
    hash(a) < hash(b) || (hash(a) == hash(b) && a < b)
  }

  predicate Shuffled(hash: nat -> nat, s: seq<nat>)
  {
    forall i, j :: 0 <= i < j < |s| ==> Before(hash, s[i], s[j])
  }

  /** Insert before the first element whose hash is not smaller (a stable sort). */
  function InsertByHash(hash: nat -> nat, x: nat, s: seq<nat>): (r: seq<nat>)
    ensures forall y :: y in r <==> y == x || y in s
    decreases |s|
  {
    if s == [] || hash(x) <= hash(s[0]) then [x] + s else [s[0]] + InsertByHash(hash, x, s[1..])
  }

  function SortedByHash(hash: nat -> nat, s: seq<nat>): (r: seq<nat>)
    ensures forall y :: y in r <==> y in s
  {
    if s == [] then [] else InsertByHash(hash, s[0], SortedByHash(hash, s[1..]))
  }

  lemma {:induction false} InsertShuffles(hash: nat -> nat, x: nat, s: seq<nat>)
    requires Shuffled(hash, s) && forall k | 0 <= k < |s| :: x < s[k]
    ensures Shuffled(hash, InsertByHash(hash, x, s))
    decreases |s|
  {
    if s == [] || hash(x) <= hash(s[0]) {
      Prepend(hash, x, s);
    } else {
      InsertShuffles(hash, x, s[1..]);
      var rest := InsertByHash(hash, x, s[1..]);
      forall k | 0 <= k < |rest|
        ensures Before(hash, s[0], rest[k])
      {
        assert rest[k] in rest;
      }
      Shift(hash, s[0], rest);
    }
  }

  lemma Shift(hash: nat -> nat, x: nat, s: seq<nat>)
    requires Shuffled(hash, s) && forall k | 0 <= k < |s| :: Before(hash, x, s[k])
    ensures Shuffled(hash, [x] + s)
  {
  }

  lemma Prepend(hash: nat -> nat, x: nat, s: seq<nat>)
    requires Shuffled(hash, s) && forall k | 0 <= k < |s| :: x < s[k]
    requires s != [] ==> hash(x) <= hash(s[0])
    ensures Shuffled(hash, [x] + s)
  {
  }

  /** Sorting ascending identities by hash, stably, leaves them in shuffle order. */
  lemma {:induction false} SortShuffles(hash: nat -> nat, s: seq<nat>)
    requires Ascending(s)
    ensures Shuffled(hash, SortedByHash(hash, s))
    decreases |s|
  {
    if s != [] {
      SortShuffles(hash, s[1..]);
      var rest := SortedByHash(hash, s[1..]);
      forall k | 0 <= k < |rest|
        ensures s[0] < rest[k]
      {
        assert rest[k] in rest;
      }
      InsertShuffles(hash, s[0], SortedByHash(hash, s[1..]));
    }
  }

  lemma HeadIsLeast(hash: nat -> nat, s: seq<nat>, x: nat)
    requires Shuffled(hash, s) && x in s
    ensures x == s[0] || Before(hash, s[0], x)
    ensures x in s[1..] <==> x != s[0]
  {
  }

  /** There is only one shuffled list of a given membership. */
  lemma {:induction false} OneShuffle(hash: nat -> nat, s: seq<nat>, t: seq<nat>)
    requires Shuffled(hash, s) && Shuffled(hash, t)
    requires forall x :: x in s <==> x in t
    ensures s == t
    decreases |s|
  {
    if s != [] && t != [] {
      assert s[0] in s && t[0] in t;
      HeadIsLeast(hash, s, t[0]);
      HeadIsLeast(hash, t, s[0]);
      SameRest(hash, s, t);
      OneShuffle(hash, s[1..], t[1..]);
      assert s == [s[0]] + s[1..] && t == [t[0]] + t[1..];
    } else {
      HeadIsMember(s);
      HeadIsMember(t);
    }
  }

  lemma SameRest(hash: nat -> nat, s: seq<nat>, t: seq<nat>)
    requires Shuffled(hash, s) && Shuffled(hash, t) && s != [] && t != [] && s[0] == t[0]
    requires forall x :: x in s <==> x in t
    ensures Shuffled(hash, s[1..]) && Shuffled(hash, t[1..])
    ensures forall x :: x in s[1..] <==> x in t[1..]
  {
    forall x | x in s
      ensures x in s[1..] <==> x in t[1..]
    {
      HeadIsLeast(hash, s, x);
      HeadIsLeast(hash, t, x);
    }
    assert forall x :: x in s[1..] ==> x in s;
    assert forall x :: x in t[1..] ==> x in t;
  }

  /** The list as one node builds it from itself and the peers it knows. */
  function Tree(local: nat, peers: seq<nat>, hash: nat -> nat): (nodes: seq<nat>)
    ensures forall x :: x in nodes <==> x == local || x in peers
  {
    SortedByHash(hash, SortedKeys([local] + peers))
  }

  lemma TreeShuffled(local: nat, peers: seq<nat>, hash: nat -> nat)
    ensures Shuffled(hash, Tree(local, peers, hash))
  {
    SortShuffles(hash, SortedKeys([local] + peers));
  }

  method IndexedTree(local: nat, peers: seq<nat>, hash: nat -> nat) returns (index: nat, nodes: seq<nat>)
    ensures nodes == Tree(local, peers, hash)
    ensures index < |nodes| && nodes[index] == local
    // each node once, by hash and then by identity
    ensures Shuffled(hash, nodes) && forall x :: x in nodes <==> x == local || x in peers
  {
    TreeShuffled(local, peers, hash);
    nodes := [local];
    for k := 0 to |peers|
      invariant forall x :: x in nodes <==> x == local || x in peers[..k]
    {
      if peers[k] != local {
        nodes := nodes + [peers[k]];
      }
    }
    assert peers[..|peers|] == peers;
    SameMembers(nodes, [local] + peers);
    nodes := SortedByHash(hash, SortedKeys(nodes));
    assert local in nodes;
    index := 0;
    while nodes[index] != local
      invariant index < |nodes| && local !in nodes[..index]
      decreases |nodes| - index
    {
      assert nodes == nodes[..index] + [nodes[index]] + nodes[index + 1..];
      index := index + 1;
    }
  }

  /** In the list `nodes`, index `c` holds `x` and its parent holds `local`. */
  predicate IsFed(nodes: seq<nat>, f: nat, local: nat, x: nat, i: nat, c: nat)
    requires f > 0
  {
    i < |nodes| && 1 <= c < |nodes| && nodes[i] == local && nodes[c] == x && Parent(c, f) == i
  }

  /** In the list `nodes`, `local` is the parent of `x`. */
  ghost predicate Fed(nodes: seq<nat>, f: nat, local: nat, x: nat)
    requires f > 0
  {
    exists i: nat, c: nat :: IsFed(nodes, f, local, x, i, c)
  }

  /** In its own list `local` is the parent of `x`. */
  ghost predicate Feeds(local: nat, peers: seq<nat>, fanout: nat, hash: nat -> nat, x: nat)
  {
    Fed(Tree(local, peers, hash), Fanout(fanout), local, x)
  }

  function Fanout(fanout: nat): (f: nat)
    ensures f > 0
  {
    if fanout == 0 then 1 else fanout
  }

  lemma SamePlace(hash: nat -> nat, s: seq<nat>, i: nat, j: nat)
    requires Shuffled(hash, s) && i < |s| && j < |s|
    ensures s[i] == s[j] <==> i == j
  {
  }

  /** The nodes fed from position `i` are those at its retransmit indexes. */
  lemma FedByIndex(local: nat, peers: seq<nat>, fanout: nat, hash: nat -> nat, i: nat, x: nat)
    requires i < |Tree(local, peers, hash)| && Tree(local, peers, hash)[i] == local
    ensures Feeds(local, peers, fanout, hash, x) <==>
              exists c: nat :: c in RetransmitIndices(i, Fanout(fanout), |Tree(local, peers, hash)|) &&
                               c < |Tree(local, peers, hash)| && Tree(local, peers, hash)[c] == x
  {
    var nodes, f := Tree(local, peers, hash), Fanout(fanout);
    TreeShuffled(local, peers, hash);
    if c: nat :| c in RetransmitIndices(i, f, |nodes|) && c < |nodes| && nodes[c] == x {
      ChildIff(i, f, |nodes|, c);
      assert IsFed(nodes, f, local, x, i, c);
    }
    if Feeds(local, peers, fanout, hash, x) {
      var j: nat, c: nat :| IsFed(nodes, f, local, x, j, c);
      SamePlace(hash, nodes, i, j);
      ChildIff(i, f, |nodes|, c);
    }
  }

  lemma {:induction false} StridedAscends(start: nat, step: nat, count: nat, limit: nat)
    requires step > 0
    ensures var r := Strided(start, step, count, limit);
            Ascending(r) && forall k | 0 <= k < |r| :: start <= r[k] < limit
    decreases count
  {
    if count > 0 && start < limit {
      StridedAscends(start + step, step, count - 1, limit);
    }
  }

  /** The nodes at the given indexes, leaving out indexes beyond the list. */
  method Pick(nodes: seq<nat>, indices: seq<nat>) returns (out: seq<nat>)
    ensures forall x :: x in out <==> exists c: nat :: c in indices && c < |nodes| && nodes[c] == x
    ensures (forall k | 0 <= k < |indices| :: indices[k] < |nodes|) ==>
              |out| == |indices| && forall k | 0 <= k < |out| :: out[k] == nodes[indices[k]]
  {
    out := [];
    for k := 0 to |indices|
      invariant forall x :: x in out <==> exists c: nat :: c in indices[..k] && c < |nodes| && nodes[c] == x
      invariant (forall j | 0 <= j < |indices| :: indices[j] < |nodes|) ==>
                  |out| == k && forall j | 0 <= j < k :: out[j] == nodes[indices[j]]
    {
      assert indices[..k + 1] == indices[..k] + [indices[k]];
      if indices[k] < |nodes| {
        out := out + [nodes[indices[k]]];
      }
    }
    assert indices[..|indices|] == indices;
  }

  /** A node that heads the list feeds the next `f` nodes of it. */
  lemma HeadFeeds(nodes: seq<nat>, f: nat, local: nat, c: nat)
    requires nodes != [] && nodes[0] == local && 1 <= c <= f && c < |nodes|
    ensures Fed(nodes, f, local, nodes[c])
  {
    assert IsFed(nodes, f, local, nodes[c], 0, c);
  }

  lemma {:induction false} StridedCount(start: nat, step: nat, count: nat, limit: nat)
    requires step > 0
    ensures |Strided(start, step, count, limit)| <= count
    decreases count
  {
    if count > 0 && start < limit {
      StridedCount(start + step, step, count - 1, limit);
    }
  }

  lemma PickShuffled(hash: nat -> nat, nodes: seq<nat>, indices: seq<nat>, out: seq<nat>)
    requires Shuffled(hash, nodes) && Ascending(indices) && |out| == |indices|
    requires forall k | 0 <= k < |out| :: indices[k] < |nodes| && out[k] == nodes[indices[k]]
    ensures Shuffled(hash, out)
  {
  }

  /** The peers to which a node hands on a shred it received. */
  method RetransmitPeers(local: nat, peers: seq<nat>, fanout: nat, hash: nat -> nat) returns (out: seq<nat>)
    ensures forall x :: x in out <==> Feeds(local, peers, fanout, hash, x)
    ensures Distinct(out) && Shuffled(hash, out)
    // by the configured fanout: as many at most, namely those whose parent this node is
    ensures var nodes, f := Tree(local, peers, hash), if fanout == 0 then 1 else fanout;
            && |out| <= f && (forall x :: x in out <==> Fed(nodes, f, local, x))
            // at the head of the list those are the next ones in it
            && (nodes[0] == local ==> forall c | 1 <= c <= f && c < |nodes| :: nodes[c] in out)
  {
    var nodes, f := Tree(local, peers, hash), if fanout == 0 then 1 else fanout;
    assert local in nodes;
    forall c: nat | 1 <= c <= f && c < |nodes| && nodes[0] == local
      ensures Fed(nodes, f, local, nodes[c])
    {
      HeadFeeds(nodes, f, local, c);
    }
    out := FedPeers(local, peers, fanout, hash);
  }

  method FedPeers(local: nat, peers: seq<nat>, fanout: nat, hash: nat -> nat) returns (out: seq<nat>)
    ensures forall x :: x in out <==> Feeds(local, peers, fanout, hash, x)
    ensures Distinct(out) && Shuffled(hash, out) && |out| <= Fanout(fanout)
  {
    var index, nodes := IndexedTree(local, peers, hash);
    var indices := RetransmitIndices(index, Fanout(fanout), |nodes|);
    out := Pick(nodes, indices);
    forall x
      ensures x in out <==> Feeds(local, peers, fanout, hash, x)
    {
      FedByIndex(local, peers, fanout, hash, index, x);
    }
    StridedAscends(Start(index, Fanout(fanout)), StepOf(index, Fanout(fanout)), Fanout(fanout), |nodes|);
    StridedCount(Start(index, Fanout(fanout)), StepOf(index, Fanout(fanout)), Fanout(fanout), |nodes|);
    PickDistinct(hash, nodes, indices, out);
    PickShuffled(hash, nodes, indices, out);
  }

  lemma PickDistinct(hash: nat -> nat, nodes: seq<nat>, indices: seq<nat>, out: seq<nat>)
    requires Shuffled(hash, nodes) && Ascending(indices) && |out| == |indices|
    requires forall k | 0 <= k < |out| :: indices[k] < |nodes| && out[k] == nodes[indices[k]]
    ensures Distinct(out)
  {
  }

  /** `peers` is what `local` knows of a membership it belongs to. */
  ghost predicate Knows(members: set<nat>, local: nat, peers: seq<nat>)
  {
    local in members && forall x :: x in members <==> x == local || x in peers
  }

  /** Nodes that know the same members build the same list, in whatever order and
      however often they know their peers. */
  lemma SameTree(members: set<nat>, u: nat, peers: seq<nat>, v: nat, peers': seq<nat>, hash: nat -> nat)
    requires Knows(members, u, peers) && Knows(members, v, peers')
    ensures Tree(u, peers, hash) == Tree(v, peers', hash)
  {
    TreeShuffled(u, peers, hash);
    TreeShuffled(v, peers', hash);
    OneShuffle(hash, Tree(u, peers, hash), Tree(v, peers', hash));
  }

  /** In the one list of a membership the feeder of the node at `c` is its parent. */
  lemma FedByParent(members: set<nat>, u: nat, peers: seq<nat>, nodes: seq<nat>, fanout: nat, hash: nat -> nat, c: nat)
    requires Knows(members, u, peers) && nodes == Tree(u, peers, hash) && c < |nodes|
    ensures Feeds(u, peers, fanout, hash, nodes[c]) <==>
              c > 0 && Parent(c, Fanout(fanout)) < |nodes| && nodes[Parent(c, Fanout(fanout))] == u
  {
    var f := Fanout(fanout);
    TreeShuffled(u, peers, hash);
    if Feeds(u, peers, fanout, hash, nodes[c]) {
      var i: nat, c': nat :| IsFed(nodes, f, u, nodes[c], i, c');
      SamePlace(hash, nodes, c, c');
    }
    if c > 0 && Parent(c, f) < |nodes| && nodes[Parent(c, f)] == u {
      assert IsFed(nodes, f, u, nodes[c], Parent(c, f), c);
    }
  }

  /** Among nodes that know the same members, every member but the first of the
      shuffled list is fed by exactly one member, and that first one by none. */
  lemma FedExactlyOnce(members: set<nat>, view: nat -> seq<nat>, fanout: nat, hash: nat -> nat, v: nat)
    requires v in members && forall u | u in members :: Knows(members, u, view(u))
    ensures v == Tree(v, view(v), hash)[0] ==> forall u | u in members :: !Feeds(u, view(u), fanout, hash, v)
    ensures v != Tree(v, view(v), hash)[0] ==>
              exists p | p in members :: forall u | u in members :: Feeds(u, view(u), fanout, hash, v) <==> u == p
  {
    var nodes := Tree(v, view(v), hash);
    TreeShuffled(v, view(v), hash);
    assert v in nodes;
    var c: nat :| c < |nodes| && nodes[c] == v;
    SamePlace(hash, nodes, c, 0);
    forall u | u in members
      ensures Feeds(u, view(u), fanout, hash, v) <==>
                c > 0 && Parent(c, Fanout(fanout)) < |nodes| && nodes[Parent(c, Fanout(fanout))] == u
    {
      SameTree(members, u, view(u), v, view(v), hash);
      FedByParent(members, u, view(u), nodes, fanout, hash, c);
    }
    if c > 0 {
      ParentSmaller(c, Fanout(fanout));
      var p := nodes[Parent(c, Fanout(fanout))];
      assert p in nodes;
      assert p in members;
    }
  }

  /** A shred that starts at `local` goes to the first layer if `local` heads the
      list, and to the head of the list otherwise. */
  method OriginPeers(local: nat, peers: seq<nat>, fanout: nat, hash: nat -> nat) returns (out: seq<nat>)
    ensures var nodes := Tree(local, peers, hash);
            if nodes[0] == local then forall x :: x in out <==> Feeds(local, peers, fanout, hash, x)
            else out == [nodes[0]]
    ensures Distinct(out)
    // the first layer is as wide as the configured fanout
    ensures var nodes, f := Tree(local, peers, hash), if fanout == 0 then 1 else fanout;
            && |out| <= f
            && (nodes[0] == local ==> forall c | 1 <= c <= f && c < |nodes| :: nodes[c] in out)
            // with any peer at all the shred leaves
            && (|nodes| > 1 ==> out != [])
  {
    var index, nodes := IndexedTree(local, peers, hash);
    SamePlace(hash, nodes, index, 0);
    if index == 0 {
      out := RetransmitPeers(local, peers, fanout, hash);
      assert |nodes| > 1 ==> nodes[1] in out;
    } else {
      out := [nodes[0]];
    }
  }
}
