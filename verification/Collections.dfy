/** Sums, sequences seen as sets, and sorting without repeats. */
module Collections {

  /** Nothing stands twice in the sequence. */
  predicate Distinct<T(==)>(s: seq<T>)
  {
    forall i, j :: 0 <= i < j < |s| ==> s[i] != s[j]
  }

  function Members<T>(s: seq<T>): (r: set<T>) { set x | x in s }

  /** f(0) + ... + f(n - 1). */
  ghost function Sum(n: nat, f: nat -> nat): (s: nat)
    decreases n
  {
    if n == 0 then 0 else Sum(n - 1, f) + f(n - 1)
  }

  lemma {:induction false} SumOrder(n: nat, f: nat -> nat, h: nat -> nat, i: nat)
    requires forall j: nat | j < n :: f(j) <= h(j)
    ensures Sum(n, f) <= Sum(n, h)
    ensures i < n ==> Sum(n, f) + (h(i) - f(i)) <= Sum(n, h)
    decreases n
  {
    if n > 0 {
      SumOrder(n - 1, f, h, i);
    }
  }

  lemma {:induction false} SumZero(n: nat, g: nat -> nat)
    ensures Sum(n, g) == 0 <==> forall k: nat :: k < n ==> g(k) == 0
    decreases n
  {
    if n > 0 {
      SumZero(n - 1, g);
    }
  }

  lemma {:induction false} SumLess(n: nat, g: nat -> nat, h: nat -> nat, j: nat, d: nat)
    requires forall k: nat :: k < n ==> h(k) + (if k == j then d else 0) == g(k)
    ensures Sum(n, h) + (if j < n then d else 0) == Sum(n, g)
    decreases n
  {
    if n > 0 {
      SumLess(n - 1, g, h, j, d);
    }
  }

  predicate Ascending(s: seq<nat>) { forall i, j :: 0 <= i < j < |s| ==> s[i] < s[j] }

  function Cons(x: nat, s: seq<nat>): (r: seq<nat>)
    requires Ascending(s) && forall y :: y in s ==> x < y
    ensures Ascending(r) && forall y :: y in r <==> y == x || y in s
  {
    assert forall k | 0 <= k < |s| :: s[k] in s;
    [x] + s
  }

  /** Insert into an ascending list without repeating (sort, then dedup). */
  function InsertKey(x: nat, s: seq<nat>): (r: seq<nat>)
    requires Ascending(s)
    ensures Ascending(r) && forall y :: y in r <==> y == x || y in s
    decreases |s|
  {
    if s == [] || x < s[0] then Cons(x, s)
    else if x == s[0] then s
    else
      assert s == [s[0]] + s[1..];
      Cons(s[0], InsertKey(x, s[1..]))
  }

  function SortedKeys(s: seq<nat>): (r: seq<nat>)
    ensures Ascending(r) && forall y :: y in r <==> y in s
  {
    if s == [] then [] else InsertKey(s[0], SortedKeys(s[1..]))
  }

  lemma {:induction false} SortedIsItself(s: seq<nat>)
    requires Ascending(s)
    ensures SortedKeys(s) == s
    decreases |s|
  {
    if s != [] {
      SortedIsItself(s[1..]);
    }
  }

  lemma AscendingHead(s: seq<nat>, t: seq<nat>)
    requires Ascending(s) && Ascending(t) && s != [] && t != [] && forall x :: x in s <==> x in t
    ensures s[0] == t[0] && forall x :: x in s[1..] <==> x in t[1..]
  {
    assert s[0] in t && t[0] in s;
    forall x
      ensures x in s[1..] <==> x in s && x != s[0]
      ensures x in t[1..] <==> x in t && x != t[0]
    {
      assert s == [s[0]] + s[1..] && t == [t[0]] + t[1..];
    }
  }

  /** There is only one ascending sequence of given members. */
  lemma {:induction false} OneAscending(s: seq<nat>, t: seq<nat>)
    requires Ascending(s) && Ascending(t) && forall x :: x in s <==> x in t
    ensures s == t
    decreases |s|
  {
    if s != [] && t != [] {
      AscendingHead(s, t);
      OneAscending(s[1..], t[1..]);
      assert s == [s[0]] + s[1..] && t == [t[0]] + t[1..];
    } else {
      HeadIsMember(s);
      HeadIsMember(t);
    }
  }

  lemma HeadIsMember(s: seq<nat>)
    ensures s == [] || s[0] in s
  {
  }

  lemma SameMembers(s: seq<nat>, t: seq<nat>)
    requires forall x :: x in s <==> x in t
    ensures SortedKeys(s) == SortedKeys(t)
  {
    OneAscending(SortedKeys(s), SortedKeys(t));
  }

  lemma {:induction false} DistinctCount(s: seq<nat>)
    requires Distinct(s)
    ensures |Members(s)| == |s|
    decreases |s|
  {
    if s != [] {
      DistinctCount(s[1..]);
      assert s == [s[0]] + s[1..];
      assert Members(s) == {s[0]} + Members(s[1..]);
    }
  }

  /** Sorting a sequence without repeats neither adds nor drops anything. */
  lemma SortedCount(s: seq<nat>)
    requires Distinct(s)
    ensures |SortedKeys(s)| == |s|
  {
    DistinctCount(s);
    DistinctCount(SortedKeys(s));
    assert Members(s) == Members(SortedKeys(s));
  }

  /** Two sequences without repeats, equally long, one within the other. */
  lemma SameLengthSameMembers(s: seq<nat>, t: seq<nat>)
    requires Distinct(s) && Distinct(t) && |s| == |t| && forall x | x in s :: x in t
    ensures forall x :: x in s <==> x in t
  {
    DistinctCount(s);
    DistinctCount(t);
    var rest := Members(t) - Members(s);
    assert Members(t) == Members(s) + rest;
    assert |rest| == 0;
    assert forall x :: x in t ==> x in Members(t);
  }

  /** What a sequence without repeats sorts to. */
  lemma SortsTo(s: seq<nat>, t: seq<nat>)
    requires Distinct(s) && Ascending(t) && |s| == |t| && forall x | x in s :: x in t
    ensures SortedKeys(s) == t
  {
    SameLengthSameMembers(s, t);
    SameMembers(s, t);
    SortedIsItself(t);
  }
}
