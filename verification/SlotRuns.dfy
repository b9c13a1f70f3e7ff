/** Reassembly over whole arrival histories of one well-formed block. */
module SlotRuns {
  import opened Options
  import opened Collections
  import opened SlotMeta

  // ---- well-formed blocks, and what a history says about them ----------------------

  predicate OfBlock(sets: nat, fec: nat) { fec % 32 == 0 && fec < sets * 32 }

  /** A shred of a block of `sets` erasure sets. */
  predicate WellFormed(sets: nat, s: Shred)
  {
    && OfBlock(sets, s.fec)
    && (s.data ==> s.fec <= s.index < s.fec + SET_SIZE)
    && (s.data && s.last ==> s.fec == (sets - 1) * SET_SIZE)
  }

  predicate Block(sets: nat, ss: seq<Shred>)
  {
    sets > 0 && forall i :: 0 <= i < |ss| ==> WellFormed(sets, ss[i])
  }

  /** The indexes of the data shreds of a set that have arrived. */
  function Datas(ss: seq<Shred>, fec: nat): (r: set<nat>)
  {
    if ss == [] then {}
    else
      var s := ss[|ss| - 1];
      Datas(ss[..|ss| - 1], fec) + if s.data && s.fec == fec then {s.index} else {}
  }

  /** The same for the coding shreds. */
  function Codes(ss: seq<Shred>, fec: nat): (r: set<nat>)
  {
    if ss == [] then {}
    else
      var s := ss[|ss| - 1];
      Codes(ss[..|ss| - 1], fec) + if !s.data && s.fec == fec then {s.index} else {}
  }

  lemma {:induction false} ArrivedIs(ss: seq<Shred>, fec: nat, x: nat)
    ensures x in Datas(ss, fec) <==> exists i :: 0 <= i < |ss| && ss[i].data && ss[i].fec == fec && ss[i].index == x
    ensures x in Codes(ss, fec) <==> exists i :: 0 <= i < |ss| && !ss[i].data && ss[i].fec == fec && ss[i].index == x
    decreases |ss|
  {
    if ss != [] {
      ArrivedIs(ss[..|ss| - 1], fec, x);
    }
  }

  /** Thirty-two distinct shreds of the set have arrived. */
  predicate Full(ss: seq<Shred>, fec: nat) { |Codes(ss, fec)| + |Datas(ss, fec)| >= 32 }

  ghost predicate HasLast(ss: seq<Shred>) { exists i :: 0 <= i < |ss| && ss[i].data && ss[i].last }

  /** All that is needed has arrived. */
  ghost predicate Done(sets: nat, ss: seq<Shred>)
  {
    HasLast(ss) && forall f :: OfBlock(sets, f) ==> Full(ss, f)
  }

  ghost function Run(ss: seq<Shred>): (m: Meta)
  {
    if ss == [] then EMPTY else Store(Run(ss[..|ss| - 1]), ss[|ss| - 1]).0
  }

  /** The effect of the last arrival of a non-empty history. */
  ghost function LastEffect(ss: seq<Shred>): (e: Effect)
    requires ss != []
  {
    Store(Run(ss[..|ss| - 1]), ss[|ss| - 1]).1
  }

  function BatchOf(e: Effect): (b: seq<Shred>)
  {
    match e
    case Complete(batch, _) => batch
    case BatchComplete(batch) => batch
    case Incomplete => []
    case Ignored => []
  }

  /** Everything handed to the store so far. */
  ghost function Emitted(ss: seq<Shred>): (all: multiset<Shred>)
  {
    if ss == [] then multiset{} else Emitted(ss[..|ss| - 1]) + multiset(BatchOf(LastEffect(ss)))
  }

  lemma HistoryMore(ss: seq<Shred>, s: Shred, f: nat)
    ensures Datas(ss + [s], f) == Datas(ss, f) + if s.data && s.fec == f then {s.index} else {}
    ensures Codes(ss + [s], f) == Codes(ss, f) + if !s.data && s.fec == f then {s.index} else {}
    ensures HasLast(ss + [s]) <==> HasLast(ss) || (s.data && s.last)
    ensures Full(ss, f) ==> Full(ss + [s], f)
  {
    var all := ss + [s];
    assert all[..|ss|] == ss;
    assert all[|ss|] == s;
    Larger(Datas(ss, f), Datas(all, f));
    Larger(Codes(ss, f), Codes(all, f));
  }

  lemma Larger<T>(a: set<T>, b: set<T>)
    requires a <= b
    ensures |a| <= |b|
    ensures |a| == |b| ==> a == b
  {
    assert b == a + (b - a);
  }

  // ---- the tables follow the history -----------------------------------------------

  predicate SameShred(s: Shred, t: Shred) { s.data == t.data && s.index == t.index }

  /** Queued shreds of one set are distinct and have all arrived. */
  ghost predicate Proper(ss: seq<Shred>, fec: nat, queue: seq<Shred>)
  {
    && (forall i :: 0 <= i < |queue| ==> queue[i] in ss && queue[i].fec == fec)
    && (forall i, j :: 0 <= i < j < |queue| ==> !SameShred(queue[i], queue[j]))
  }

  /** One set's share of the tables: frozen once complete, and exact until then. */
  ghost predicate SetTracks(sets: nat, ss: seq<Shred>, m: Meta, f: nat)
  {
    && (f in m.completed <==> OfBlock(sets, f) && Full(ss, f))
    && (f !in m.completed ==> Of(m.dataMap, f) == Datas(ss, f) && Of(m.codeMap, f) == Codes(ss, f))
    && (f !in m.completed ==> |Queue(m.batches, f)| == Count(m, f))
    && (f in m.completed ==> f in m.batches && |m.batches[f]| == SET_SIZE)
    && (f in m.batches ==> OfBlock(sets, f))
    && Proper(ss, f, Queue(m.batches, f))
  }

  ghost predicate Tracks(sets: nat, ss: seq<Shred>, m: Meta)
  {
    && m.required == (if HasLast(ss) then Some(sets) else None)
    && forall f: nat :: SetTracks(sets, ss, m, f)
  }

  function Sets(sets: nat): (r: set<nat>)
    ensures forall f :: f in r <==> OfBlock(sets, f)
    ensures |r| == sets
  {
    if sets == 0 then {}
    else
      var rest := Sets(sets - 1);
      assert forall f :: OfBlock(sets, f) <==> OfBlock(sets - 1, f) || f == (sets - 1) * SET_SIZE by {
        forall f: nat { BlockMore(sets, f); }
      }
      rest + {(sets - 1) * SET_SIZE}
  }

  /** The box thinks the slot is complete exactly if all that is needed has arrived. */
  lemma CompleteIffDone(sets: nat, ss: seq<Shred>, m: Meta)
    requires Tracks(sets, ss, m)
    ensures IsComplete(m) <==> Done(sets, ss)
  {
    forall f | f in m.completed
      ensures f in Sets(sets)
    {
      assert SetTracks(sets, ss, m, f);
    }
    Larger(m.completed, Sets(sets));
    if IsComplete(m) {
      forall f | OfBlock(sets, f)
        ensures Full(ss, f)
      {
        assert f in Sets(sets);
        assert SetTracks(sets, ss, m, f);
      }
    }
    if Done(sets, ss) {
      forall f | f in Sets(sets)
        ensures f in m.completed
      {
        assert SetTracks(sets, ss, m, f);
      }
      assert m.completed == Sets(sets);
    }
  }

  /** The tables after a shred, before a finished slot is handed over. */
  ghost function Absorb(m: Meta, s: Shred): (r: Meta)
  {
    var m1 := Learn(m, s);
    if s.fec in m1.completed || Seen(m1, s) then m1 else CloseIfFull(Insert(m1, s), s.fec)
  }

  lemma LearnTracks(sets: nat, ss: seq<Shred>, m: Meta, s: Shred)
    requires sets > 0 && Tracks(sets, ss, m) && WellFormed(sets, s)
    ensures Absorb(m, s).required == if HasLast(ss + [s]) then Some(sets) else None
  {
    HistoryMore(ss, s, s.fec);
  }

  lemma ProperMore(ss: seq<Shred>, s: Shred, f: nat, queue: seq<Shred>)
    requires Proper(ss, f, queue)
    ensures Proper(ss + [s], f, queue)
  {
  }

  lemma AbsorbElsewhere(m: Meta, s: Shred, f: nat)
    requires f != s.fec
    ensures var r := Absorb(m, s);
            && (f in r.completed <==> f in m.completed)
            && Of(r.dataMap, f) == Of(m.dataMap, f) && Of(r.codeMap, f) == Of(m.codeMap, f)
            && (f in r.batches <==> f in m.batches) && Queue(r.batches, f) == Queue(m.batches, f)
  {
  }

  lemma OtherSetTracks(sets: nat, ss: seq<Shred>, m: Meta, s: Shred, f: nat)
    requires SetTracks(sets, ss, m, f) && f != s.fec
    ensures SetTracks(sets, ss + [s], Absorb(m, s), f)
  {
    AbsorbElsewhere(m, s, f);
    HistoryMore(ss, s, f);
    assert Datas(ss + [s], f) == Datas(ss, f) && Codes(ss + [s], f) == Codes(ss, f);
    ProperMore(ss, s, f, Queue(m.batches, f));
  }

  lemma OldShredTracks(sets: nat, ss: seq<Shred>, m: Meta, s: Shred)
    requires SetTracks(sets, ss, m, s.fec)
    requires s.fec in m.completed || Seen(m, s)
    ensures SetTracks(sets, ss + [s], Absorb(m, s), s.fec)
  {
    ProperMore(ss, s, s.fec, Queue(m.batches, s.fec));
    if s.fec !in m.completed {
      SeenAddsNothing(sets, ss, m, s);
    } else {
      HistoryMore(ss, s, s.fec);
    }
  }

  lemma SeenAddsNothing(sets: nat, ss: seq<Shred>, m: Meta, s: Shred)
    requires SetTracks(sets, ss, m, s.fec) && s.fec !in m.completed && Seen(m, s)
    ensures Datas(ss + [s], s.fec) == Datas(ss, s.fec) && Codes(ss + [s], s.fec) == Codes(ss, s.fec)
  {
    HistoryMore(ss, s, s.fec);
  }

  lemma QueuedIsSeen(ss: seq<Shred>, f: nat, queue: seq<Shred>, s: Shred)
    requires Proper(ss, f, queue) && s.fec == f
    requires s.index !in (if s.data then Datas(ss, f) else Codes(ss, f))
    ensures Proper(ss + [s], f, queue + [s])
  {
    forall i | 0 <= i < |queue|
      ensures !SameShred(queue[i], s)
    {
      ArrivedIs(ss, f, s.index);
    }
  }

  lemma NewShredTracks(sets: nat, ss: seq<Shred>, m: Meta, s: Shred)
    requires SetTracks(sets, ss, m, s.fec) && WellFormed(sets, s)
    requires s.fec !in m.completed && !Seen(m, s)
    ensures SetTracks(sets, ss + [s], Absorb(m, s), s.fec)
  {
    var m2 := Insert(Learn(m, s), s);
    var r := Absorb(m, s);
    NewShredCounts(sets, ss, m, s);
    QueuedIsSeen(ss, s.fec, Queue(m.batches, s.fec), s);
    InsertCounts(m, s);
    assert Queue(r.batches, s.fec) == Queue(m.batches, s.fec) + [s];
    assert s.fec in r.completed <==> Count(m2, s.fec) >= SET_SIZE;
  }

  lemma NewShredCounts(sets: nat, ss: seq<Shred>, m: Meta, s: Shred)
    requires SetTracks(sets, ss, m, s.fec) && OfBlock(sets, s.fec)
    requires s.fec !in m.completed && !Seen(m, s)
    ensures var m2 := Insert(Learn(m, s), s);
            && Of(m2.dataMap, s.fec) == Datas(ss + [s], s.fec)
            && Of(m2.codeMap, s.fec) == Codes(ss + [s], s.fec)
            && Count(m, s.fec) < SET_SIZE
  {
  }

  lemma InsertCounts(m: Meta, s: Shred)
    requires !Seen(m, s)
    ensures Count(Insert(Learn(m, s), s), s.fec) == Count(m, s.fec) + 1
  {
  }

  lemma AbsorbTracks(sets: nat, ss: seq<Shred>, m: Meta, s: Shred)
    requires sets > 0 && Tracks(sets, ss, m) && WellFormed(sets, s)
    ensures Tracks(sets, ss + [s], Absorb(m, s))
  {
    LearnTracks(sets, ss, m, s);
    forall f: nat
      ensures SetTracks(sets, ss + [s], Absorb(m, s), f)
    {
      assert SetTracks(sets, ss, m, f);
      if f != s.fec {
        OtherSetTracks(sets, ss, m, s, f);
      } else if s.fec in m.completed || Seen(m, s) {
        OldShredTracks(sets, ss, m, s);
      } else {
        NewShredTracks(sets, ss, m, s);
      }
    }
  }

  /** The queues of the completed sets. */
  function Closed(m: Meta): (b: map<nat, seq<Shred>>)
  {
    map f | f in m.batches && f in m.completed :: m.batches[f]
  }

  lemma ClosedSame(m: Meta, r: Meta, fec: nat)
    requires fec !in m.completed && fec !in r.completed
    requires forall f | f != fec ::
               && (f in r.completed <==> f in m.completed) && (f in r.batches <==> f in m.batches)
               && Queue(r.batches, f) == Queue(m.batches, f)
    ensures Closed(r) == Closed(m)
  {
  }

  lemma ClosedOneMore(m: Meta, r: Meta, fec: nat)
    requires fec !in m.completed && fec in r.completed && fec in r.batches
    requires forall f | f != fec ::
               && (f in r.completed <==> f in m.completed) && (f in r.batches <==> f in m.batches)
               && Queue(r.batches, f) == Queue(m.batches, f)
    ensures fec in Closed(r) && Closed(r)[fec] == Queue(r.batches, fec) && Closed(r) - {fec} == Closed(m)
  {
  }

  lemma StoredBatch(m: Meta, s: Shred)
    requires !IsComplete(m)
    ensures var r := Absorb(m, s);
            BatchOf(Store(m, s).1) ==
            if s.fec in m.completed || Seen(m, s) || s.fec !in r.completed then [] else Queue(r.batches, s.fec)
  {
  }

  /** What an arrival hands to the store is what it adds to the completed sets. */
  lemma BatchConserves(m: Meta, s: Shred)
    requires !IsComplete(m)
    ensures Drain(Closed(Absorb(m, s))) == Drain(Closed(m)) + multiset(BatchOf(Store(m, s).1))
  {
    var r := Absorb(m, s);
    StoredBatch(m, s);
    if s.fec in m.completed || Seen(m, s) {
      assert Closed(r) == Closed(m);
    } else {
      AbsorbOthers(m, s);
      if s.fec in r.completed {
        ClosedOneMore(m, r, s.fec);
        DrainAny(Closed(r), s.fec);
      } else {
        ClosedSame(m, r, s.fec);
      }
    }
  }

  lemma AbsorbOthers(m: Meta, s: Shred)
    requires s.fec !in m.completed && !Seen(m, s)
    ensures var r := Absorb(m, s);
            && s.fec in r.batches
            && forall f | f != s.fec ::
                 && (f in r.completed <==> f in m.completed) && (f in r.batches <==> f in m.batches)
                 && Queue(r.batches, f) == Queue(m.batches, f)
  {
  }

  ghost predicate Agrees(sets: nat, ss: seq<Shred>)
  {
    Tracks(sets, ss, Run(ss)) && Emitted(ss) == Drain(Closed(Run(ss)))
  }

  /** What happens on an arrival while something is still missing. */
  lemma Arrival(sets: nat, ss: seq<Shred>, s: Shred)
    requires Block(sets, ss) && WellFormed(sets, s) && !Done(sets, ss) && Agrees(sets, ss)
    ensures var m, ss' := Absorb(Run(ss), s), ss + [s];
            && Tracks(sets, ss', m)
            && Emitted(ss') == Drain(Closed(m))
            && (IsComplete(m) <==> Done(sets, ss'))
            && (Done(sets, ss') ==>
                  && LastEffect(ss').Complete? && LastEffect(ss').streamed == Drain(m.batches)
                  && Run(ss') == m.(batches := map[]))
            && (!Done(sets, ss') ==> !LastEffect(ss').Complete? && Run(ss') == m)
  {
    var ss' := ss + [s];
    assert ss'[..|ss|] == ss;
    CompleteIffDone(sets, ss, Run(ss));
    AbsorbTracks(sets, ss, Run(ss), s);
    BatchConserves(Run(ss), s);
    CompleteIffDone(sets, ss', Absorb(Run(ss), s));
    assert SetTracks(sets, ss', Absorb(Run(ss), s), s.fec);
  }

  lemma {:induction false} BeforeDone(sets: nat, ss: seq<Shred>)
    requires Block(sets, ss) && !Done(sets, ss)
    ensures Agrees(sets, ss)
    decreases |ss|
  {
    if ss == [] {
      assert Closed(EMPTY) == map[];
      assert Datas([], 0) == {};
      forall f: nat
        ensures SetTracks(sets, ss, EMPTY, f)
      {
        assert Datas(ss, f) == {} && Codes(ss, f) == {};
      }
    } else {
      var init, s := ss[..|ss| - 1], ss[|ss| - 1];
      assert init + [s] == ss;
      DoneStays(sets, init, s);
      BeforeDone(sets, init);
      Arrival(sets, init, s);
    }
  }

  lemma DoneStays(sets: nat, ss: seq<Shred>, s: Shred)
    ensures Done(sets, ss) ==> Done(sets, ss + [s])
  {
    HistoryMore(ss, s, 0);
    forall f | OfBlock(sets, f) && Full(ss, f)
      ensures Full(ss + [s], f)
    {
      HistoryMore(ss, s, f);
    }
  }

  /** The slot has been handed over. */
  predicate Over(m: Meta) { IsComplete(m) && m.batches == map[] }

  lemma {:induction false} AfterDone(sets: nat, ss: seq<Shred>)
    requires Block(sets, ss) && Done(sets, ss)
    ensures Over(Run(ss))
    decreases |ss|
  {
    var init, s := ss[..|ss| - 1], ss[|ss| - 1];
    SplitLast(ss);
    LastOfBlock(sets, ss);
    if Done(sets, init) {
      AfterDone(sets, init);
      StaysOver(init, s);
    } else {
      Completing(sets, init, s);
    }
  }

  lemma SplitLast(ss: seq<Shred>)
    requires ss != []
    ensures ss[..|ss| - 1] + [ss[|ss| - 1]] == ss
  {
  }

  lemma LastOfBlock(sets: nat, ss: seq<Shred>)
    requires Block(sets, ss) && ss != []
    ensures Block(sets, ss[..|ss| - 1]) && WellFormed(sets, ss[|ss| - 1])
  {
  }

  lemma StaysOver(ss: seq<Shred>, s: Shred)
    requires Over(Run(ss))
    ensures Over(Run(ss + [s])) && LastEffect(ss + [s]) == Ignored
  {
    assert (ss + [s])[..|ss|] == ss;
  }

  lemma Completing(sets: nat, ss: seq<Shred>, s: Shred)
    requires Block(sets, ss) && WellFormed(sets, s) && !Done(sets, ss) && Done(sets, ss + [s])
    ensures Over(Run(ss + [s]))
  {
    BeforeDone(sets, ss);
    Arrival(sets, ss, s);
    var m := Absorb(Run(ss), s);
    assert Run(ss + [s]) == m.(batches := map[]);
  }

  /** The slot is handed over exactly once: on the arrival with which the last-shred
      marker is known and every set has its thirty-two distinct shreds. */
  lemma ExactlyOnce(sets: nat, ss: seq<Shred>)
    requires Block(sets, ss) && ss != []
    ensures LastEffect(ss).Complete? <==> Done(sets, ss) && !Done(sets, ss[..|ss| - 1])
  {
    var init, s := ss[..|ss| - 1], ss[|ss| - 1];
    assert init + [s] == ss;
    if Done(sets, init) {
      AfterDone(sets, init);
      StaysOver(init, s);
      DoneStays(sets, init, s);
    } else {
      BeforeDone(sets, init);
      Arrival(sets, init, s);
    }
  }

  // ---- what is handed over -----------------------------------------------------------

  function Union(parts: seq<seq<Shred>>): (all: multiset<Shred>)
  {
    if parts == [] then multiset{} else Union(parts[..|parts| - 1]) + multiset(parts[|parts| - 1])
  }

  function Queues(batches: map<nat, seq<Shred>>, n: nat): (parts: seq<seq<Shred>>)
    ensures |parts| == n && forall k :: 0 <= k < n ==> parts[k] == Queue(batches, k * SET_SIZE)
    decreases n
  {
    if n == 0 then [] else Queues(batches, n - 1) + [Queue(batches, (n - 1) * SET_SIZE)]
  }

  lemma {:induction false} QueuesElsewhere(batches: map<nat, seq<Shred>>, f: nat, n: nat)
    requires n * SET_SIZE <= f
    ensures Queues(batches - {f}, n) == Queues(batches, n)
    decreases n
  {
  }

  lemma BlockMore(n: nat, f: nat)
    requires n > 0
    ensures OfBlock(n, f) <==> OfBlock(n - 1, f) || f == (n - 1) * SET_SIZE
  {
  }

  lemma LastOut(batches: map<nat, seq<Shred>>, n: nat)
    requires n > 0 && forall f :: f in batches <==> OfBlock(n, f)
    ensures var rest := batches - {(n - 1) * SET_SIZE}; forall f :: f in rest <==> OfBlock(n - 1, f)
  {
  }

  /** The first `n` sets' queues together are the whole drain, if there are no others. */
  lemma {:induction false} DrainBySets(batches: map<nat, seq<Shred>>, n: nat)
    requires forall f :: f in batches <==> OfBlock(n, f)
    ensures Drain(batches) == Union(Queues(batches, n))
    decreases n
  {
    if n == 0 {
      assert batches.Keys == {};
      assert batches == map[];
    } else {
      var f := (n - 1) * SET_SIZE;
      assert OfBlock(n, f);
      DrainAny(batches, f);
      LastOut(batches, n);
      DrainBySets(batches - {f}, n - 1);
      QueuesElsewhere(batches, f, n - 1);
      var parts := Queues(batches, n);
      assert parts[..n - 1] == Queues(batches, n - 1);
    }
  }

  /** `parts[k]` holds thirty-two distinct shreds of the `k`-th set, all of them received. */
  ghost predicate Assembled(sets: nat, ss: seq<Shred>, parts: seq<seq<Shred>>)
  {
    && |parts| == sets
    && forall k :: 0 <= k < sets ==> |parts[k]| == SET_SIZE && Proper(ss, k * SET_SIZE, parts[k])
  }

  /** The slot handed over consists of exactly thirty-two distinct received shreds of
      every set, and nothing else; it is as a whole what went to the store in batches. */
  lemma Conservation(sets: nat, ss: seq<Shred>) returns (parts: seq<seq<Shred>>)
    requires Block(sets, ss) && ss != [] && LastEffect(ss).Complete?
    ensures Assembled(sets, ss, parts)
    ensures LastEffect(ss).streamed == Union(parts) == Emitted(ss)
  {
    var m := Completion(sets, ss);
    AllClosed(sets, ss, m);
    DrainBySets(m.batches, sets);
    parts := Queues(m.batches, sets);
    QueuesAssembled(sets, ss, m);
  }

  /** The books just before everything is drained. */
  lemma Completion(sets: nat, ss: seq<Shred>) returns (m: Meta)
    requires Block(sets, ss) && ss != [] && LastEffect(ss).Complete?
    ensures Tracks(sets, ss, m) && Done(sets, ss)
    ensures LastEffect(ss).streamed == Drain(m.batches) && Emitted(ss) == Drain(Closed(m))
  {
    SplitLast(ss);
    LastOfBlock(sets, ss);
    ExactlyOnce(sets, ss);
    m := CompletionAt(sets, ss[..|ss| - 1], ss[|ss| - 1]);
  }

  lemma CompletionAt(sets: nat, ss: seq<Shred>, s: Shred) returns (m: Meta)
    requires Block(sets, ss) && WellFormed(sets, s) && !Done(sets, ss) && Done(sets, ss + [s])
    ensures Tracks(sets, ss + [s], m) && LastEffect(ss + [s]).Complete?
    ensures LastEffect(ss + [s]).streamed == Drain(m.batches) && Emitted(ss + [s]) == Drain(Closed(m))
  {
    BeforeDone(sets, ss);
    Arrival(sets, ss, s);
    m := Absorb(Run(ss), s);
  }

  lemma QueuesAssembled(sets: nat, ss: seq<Shred>, m: Meta)
    requires Tracks(sets, ss, m) && Done(sets, ss)
    ensures Assembled(sets, ss, Queues(m.batches, sets))
  {
    forall k | 0 <= k < sets
      ensures |Queue(m.batches, k * SET_SIZE)| == SET_SIZE && Proper(ss, k * SET_SIZE, Queue(m.batches, k * SET_SIZE))
    {
      assert OfBlock(sets, k * SET_SIZE);
      assert SetTracks(sets, ss, m, k * SET_SIZE);
    }
  }

  lemma AllClosed(sets: nat, ss: seq<Shred>, m: Meta)
    requires Tracks(sets, ss, m) && Done(sets, ss)
    ensures Closed(m) == m.batches
    ensures forall f :: f in m.batches <==> OfBlock(sets, f)
    ensures forall f :: OfBlock(sets, f) ==> f in m.completed
  {
    forall f: nat
      ensures f in m.batches <==> OfBlock(sets, f)
      ensures OfBlock(sets, f) ==> f in m.completed
    {
      assert SetTracks(sets, ss, m, f);
    }
  }

  // ---- repair ------------------------------------------------------------------------

  lemma {:induction false} MissingHas(m: Meta, n: nat, x: nat, k: nat)
    requires k < n && Missing(m, x, k * SET_SIZE)
    ensures x in MissingSet(m, n)
    decreases n
  {
    if k != n - 1 {
      MissingHas(m, n - 1, x, k);
    }
  }

  lemma {:induction false} MissingFrom(m: Meta, n: nat, x: nat) returns (k: nat)
    requires x in MissingSet(m, n)
    ensures k < n && Missing(m, x, k * SET_SIZE)
    decreases n
  {
    if x in MissingSet(m, n - 1) {
      k := MissingFrom(m, n - 1, x);
    } else {
      k := n - 1;
    }
  }

  lemma {:induction false} AbsentOnce(have: set<nat>, lo: nat, hi: nat)
    requires lo <= hi
    ensures forall i, j :: 0 <= i < j < |Absent(have, lo, hi)| ==> Absent(have, lo, hi)[i] != Absent(have, lo, hi)[j]
    decreases hi
  {
    if lo < hi {
      AbsentOnce(have, lo, hi - 1);
    }
  }

  lemma {:induction false} WantedOnce(m: Meta, n: nat)
    ensures forall i, j :: 0 <= i < j < |Wanted(m, n)| ==> Wanted(m, n)[i] != Wanted(m, n)[j]
    decreases n
  {
    if n > 0 {
      WantedOnce(m, n - 1);
      var fec := (n - 1) * SET_SIZE;
      AbsentOnce(Of(m.dataMap, fec), fec, fec + SET_SIZE);
      var head := Wanted(m, n - 1);
      var known := MissingSet(m, n - 1);
      forall x | x in known
        ensures x < fec
      {
        var k := MissingFrom(m, n - 1, x);
      }
      var tail := if fec in m.completed then [] else Absent(Of(m.dataMap, fec), fec, fec + SET_SIZE);
      forall i, j | 0 <= i < j < |head + tail|
        ensures (head + tail)[i] != (head + tail)[j]
      {
        if i < |head| <= j {
          assert (head + tail)[i] in head && (head + tail)[j] in tail;
        }
      }
    }
  }

  /** Data shred `x` of a set that still needs shreds has not arrived. */
  ghost predicate Lacking(sets: nat, ss: seq<Shred>, x: nat, f: nat)
  {
    OfBlock(sets, f) && !Full(ss, f) && f <= x < f + SET_SIZE && x !in Datas(ss, f)
  }

  lemma MissingIsLacking(sets: nat, ss: seq<Shred>, m: Meta, x: nat)
    requires forall f: nat :: SetTracks(sets, ss, m, f)
    ensures x in MissingSet(m, sets) <==> exists f: nat :: Lacking(sets, ss, x, f)
  {
    if x in MissingSet(m, sets) {
      var k := MissingFrom(m, sets, x);
      assert OfBlock(sets, k * SET_SIZE);
      LackingIsMissing(sets, ss, m, x, k * SET_SIZE);
    }
    if f: nat :| Lacking(sets, ss, x, f) {
      LackingIsMissing(sets, ss, m, x, f);
      BlockIndex(sets, f);
      MissingHas(m, sets, x, f / SET_SIZE);
    }
  }

  lemma LackingIsMissing(sets: nat, ss: seq<Shred>, m: Meta, x: nat, f: nat)
    requires SetTracks(sets, ss, m, f)
    ensures Lacking(sets, ss, x, f) <==> OfBlock(sets, f) && Missing(m, x, f)
  {
  }

  lemma RepairListHas(sets: nat, ss: seq<Shred>, x: nat)
    requires Block(sets, ss) && HasLast(ss) && !Done(sets, ss)
    ensures x in MissingSet(Run(ss), sets) <==> exists f: nat :: Lacking(sets, ss, x, f)
  {
    BeforeDone(sets, ss);
    MissingIsLacking(sets, ss, Run(ss), x);
  }

  /** Once the last shred is known and until the slot is handed over, the repair list
      names exactly the data shreds that have not arrived in the sets that still need
      shreds, each once. */
  lemma RepairListExact(sets: nat, ss: seq<Shred>)
    requires Block(sets, ss) && HasLast(ss) && !Done(sets, ss)
    ensures Run(ss).required == Some(sets)
    ensures forall x :: x in Wanted(Run(ss), sets) <==> exists f: nat :: Lacking(sets, ss, x, f)
    ensures Distinct(Wanted(Run(ss), sets))
  {
    BeforeDone(sets, ss);
    WantedOnce(Run(ss), sets);
    forall x: nat { RepairListHas(sets, ss, x); }
  }

  /** The mask that finds the missing shreds of a set is never indexed out of range. */
  lemma {:induction false} MaskInRange(sets: nat, ss: seq<Shred>, f: nat, i: nat)
    requires Block(sets, ss) && i in Of(Run(ss).dataMap, f)
    ensures f <= i < f + SET_SIZE
    decreases |ss|
  {
    if ss != [] {
      var init, s := ss[..|ss| - 1], ss[|ss| - 1];
      StoredData(Run(init), s);
      if i in Of(Run(init).dataMap, f) {
        MaskInRange(sets, init, f, i);
      }
    }
  }

  lemma StoredData(m: Meta, s: Shred)
    ensures Store(m, s).0.dataMap == m.dataMap || (s.data && Store(m, s).0.dataMap == Put(m.dataMap, s.fec, s.index))
  {
  }

  lemma {:induction false} HistoryPlus(ss: seq<Shred>, ts: seq<Shred>, f: nat)
    ensures Datas(ss + ts, f) == Datas(ss, f) + Datas(ts, f)
    ensures Full(ss, f) ==> Full(ss + ts, f)
    ensures HasLast(ss) ==> HasLast(ss + ts)
    decreases |ts|
  {
    if ts == [] {
      assert ss + ts == ss;
      assert Datas(ts, f) == {};
    } else {
      var init, t := ts[..|ts| - 1], ts[|ts| - 1];
      HistoryPlus(ss, init, f);
      assert ss + ts == (ss + init) + [t] && ts == init + [t];
      HistoryMore(ss + init, t, f);
      HistoryMore(init, t, f);
    }
  }

  function Range(lo: nat, hi: nat): (r: set<nat>)
    requires lo <= hi
    ensures |r| == hi - lo && forall x :: x in r <==> lo <= x < hi
    decreases hi
  {
    if lo == hi then {} else Range(lo, hi - 1) + {hi - 1}
  }

  ghost predicate Brings(ts: seq<Shred>, x: nat) { exists i :: 0 <= i < |ts| && ts[i].data && ts[i].index == x }

  /** Whatever arrives in whatever order, once every shred on the repair list is among
      it the slot is complete. */
  lemma RepairCloses(sets: nat, ss: seq<Shred>, ts: seq<Shred>)
    requires Block(sets, ss) && HasLast(ss) && !Done(sets, ss) && Block(sets, ts)
    requires forall x :: x in Wanted(Run(ss), sets) ==> Brings(ts, x)
    ensures Done(sets, ss + ts) && IsComplete(Run(ss + ts))
  {
    HistoryPlus(ss, ts, 0);
    forall f | OfBlock(sets, f)
      ensures Full(ss + ts, f)
    {
      HistoryPlus(ss, ts, f);
      if !Full(ss, f) {
        RepairFills(sets, ss, ts, f);
      }
    }
    AfterDone(sets, ss + ts);
  }

  lemma RepairFills(sets: nat, ss: seq<Shred>, ts: seq<Shred>, f: nat)
    requires Block(sets, ss) && HasLast(ss) && !Done(sets, ss) && Block(sets, ts)
    requires forall x :: x in Wanted(Run(ss), sets) ==> Brings(ts, x)
    requires OfBlock(sets, f) && !Full(ss, f)
    ensures Full(ss + ts, f)
  {
    HistoryPlus(ss, ts, f);
    forall x | x in Range(f, f + SET_SIZE)
      ensures x in Datas(ss, f) + Datas(ts, f)
    {
      RepairBrings(sets, ss, ts, f, x);
    }
    Larger(Range(f, f + SET_SIZE), Datas(ss + ts, f));
  }

  lemma RepairBrings(sets: nat, ss: seq<Shred>, ts: seq<Shred>, f: nat, x: nat)
    requires Block(sets, ss) && HasLast(ss) && !Done(sets, ss) && Block(sets, ts)
    requires forall x :: x in Wanted(Run(ss), sets) ==> Brings(ts, x)
    requires OfBlock(sets, f) && !Full(ss, f) && f <= x < f + SET_SIZE
    ensures x in Datas(ss, f) || x in Datas(ts, f)
  {
    if x !in Datas(ss, f) {
      RepairListHas(sets, ss, x);
      assert Lacking(sets, ss, x, f);
      var i :| 0 <= i < |ts| && ts[i].data && ts[i].index == x;
      assert WellFormed(sets, ts[i]);
      SameSet(f, ts[i].fec, x);
      ArrivedIs(ts, f, x);
    }
  }

  function Lack(ss: seq<Shred>, f: nat): (n: nat)
  {
    var have := |Codes(ss, f)| + |Datas(ss, f)|;
    if have < SET_SIZE then SET_SIZE - have else 0
  }

  function Lacks(ss: seq<Shred>): (g: nat -> nat) { (k: nat) => Lack(ss, k * SET_SIZE) }

  /** How many more distinct shreds the block's sets need. */
  ghost function Shortfall(sets: nat, ss: seq<Shred>): (d: nat)
  {
    Sum(sets, Lacks(ss))
  }

  lemma NothingShortIsFull(sets: nat, ss: seq<Shred>, f: nat)
    requires Shortfall(sets, ss) == 0 && OfBlock(sets, f)
    ensures Full(ss, f)
  {
    SumZero(sets, Lacks(ss));
    BlockIndex(sets, f);
    assert Lacks(ss)(f / SET_SIZE) == Lack(ss, f);
    LackZero(ss, f);
  }

  lemma FullLacksNothing(sets: nat, ss: seq<Shred>, k: nat)
    requires k < sets && forall f :: OfBlock(sets, f) ==> Full(ss, f)
    ensures Lacks(ss)(k) == 0
  {
    var f := k * SET_SIZE;
    assert OfBlock(sets, f);
    LackZero(ss, f);
  }

  lemma FullIsNothingShort(sets: nat, ss: seq<Shred>)
    requires forall f :: OfBlock(sets, f) ==> Full(ss, f)
    ensures Shortfall(sets, ss) == 0
  {
    forall k: nat | k < sets { FullLacksNothing(sets, ss, k); }
    SumZero(sets, Lacks(ss));
  }

  /** The slot is complete once the last shred is known and nothing is short. */
  lemma DoneIffNothingShort(sets: nat, ss: seq<Shred>)
    ensures Done(sets, ss) <==> HasLast(ss) && Shortfall(sets, ss) == 0
  {
    if Shortfall(sets, ss) == 0 {
      forall f | OfBlock(sets, f)
        ensures Full(ss, f)
      {
        NothingShortIsFull(sets, ss, f);
      }
    }
    if Done(sets, ss) {
      FullIsNothingShort(sets, ss);
    }
  }

  lemma LackZero(ss: seq<Shred>, f: nat)
    ensures Lack(ss, f) == 0 <==> Full(ss, f)
  {
  }

  lemma BlockIndex(sets: nat, f: nat)
    requires OfBlock(sets, f)
    ensures (f / SET_SIZE) * SET_SIZE == f && f / SET_SIZE < sets
  {
  }

  predicate News(ss: seq<Shred>, s: Shred)
  {
    !Full(ss, s.fec) && s.index !in (if s.data then Datas(ss, s.fec) else Codes(ss, s.fec))
  }

  /** An arrival shortens the wait by one exactly if it is news for a set in need. */
  lemma ShortfallStep(sets: nat, ss: seq<Shred>, s: Shred)
    requires OfBlock(sets, s.fec)
    ensures Shortfall(sets, ss + [s]) == Shortfall(sets, ss) - if News(ss, s) then 1 else 0
  {
    var g, h := Lacks(ss), Lacks(ss + [s]);
    var j := s.fec / SET_SIZE;
    forall k: nat | k < sets
      ensures h(k) + (if k == j && News(ss, s) then 1 else 0) == g(k)
    {
      LackStep(ss, s, k * SET_SIZE);
      assert k == j <==> k * SET_SIZE == s.fec;
    }
    SumLess(sets, g, h, j, if News(ss, s) then 1 else 0);
  }

  lemma LackStep(ss: seq<Shred>, s: Shred, f: nat)
    ensures Lack(ss + [s], f) == Lack(ss, f) - if s.fec == f && News(ss, s) then 1 else 0
  {
    HistoryMore(ss, s, f);
    if s.fec == f && s.data {
      assert Codes(ss + [s], f) == Codes(ss, f);
    } else if s.fec == f {
      assert Datas(ss + [s], f) == Datas(ss, f);
    } else {
      assert Datas(ss + [s], f) == Datas(ss, f) && Codes(ss + [s], f) == Codes(ss, f);
    }
  }

  lemma SameSet(f: nat, g: nat, x: nat)
    requires f % SET_SIZE == 0 && g % SET_SIZE == 0 && f <= x < f + SET_SIZE && g <= x < g + SET_SIZE
    ensures f == g
  {
  }

  // ---- what each arrival is answered -------------------------------------------------

  /** While the slot stays open: nothing for a shred of a closed set or one seen before, the
      set's batch if it is now full, and else the news that more is needed. */
  lemma StoreKind(m: Meta, s: Shred)
    requires !IsComplete(m) && !IsComplete(Absorb(m, s))
    ensures Store(m, s).1 ==
            if s.fec in m.completed || Seen(m, s) then Ignored
            else if s.fec in Absorb(m, s).completed then BatchComplete(Queue(Absorb(m, s).batches, s.fec))
            else Incomplete
  {
  }

  /** What an arrival is answered, told from the history: the slot or a batch is handed over
      when it has become complete, a shred is ignored if it is not news or comes too late, and
      any other is one more of a set that still needs some. */
  lemma EffectKinds(sets: nat, ss: seq<Shred>, s: Shred)
    requires Block(sets, ss) && WellFormed(sets, s)
    ensures var e, done := LastEffect(ss + [s]), Done(sets, ss + [s]);
            && (e.Complete? <==> done && !Done(sets, ss))
            && (e.BatchComplete? <==> !done && Full(ss + [s], s.fec) && !Full(ss, s.fec))
            && (e.Incomplete? <==> !done && News(ss, s) && !Full(ss + [s], s.fec))
            && (e.Ignored? <==> Done(sets, ss) || (!done && !News(ss, s)))
            // the batch handed over is the set's thirty-two shreds, each once
            && (e.BatchComplete? ==> |e.batch| == 32 && Proper(ss + [s], s.fec, e.batch))
  {
    var ss' := ss + [s];
    assert ss'[..|ss|] == ss;
    HistoryMore(ss, s, s.fec);
    DoneStays(sets, ss, s);
    if Done(sets, ss) {
      AfterDone(sets, ss);
      StaysOver(ss, s);
    } else {
      BeforeDone(sets, ss);
      Arrival(sets, ss, s);
      if !Done(sets, ss') {
        OpenKinds(sets, ss, s);
      }
    }
  }

  lemma OpenKinds(sets: nat, ss: seq<Shred>, s: Shred)
    requires Tracks(sets, ss, Run(ss)) && WellFormed(sets, s) && !IsComplete(Run(ss)) && sets > 0
    requires !IsComplete(Absorb(Run(ss), s))
    ensures var e := Store(Run(ss), s).1;
            && (e.BatchComplete? <==> Full(ss + [s], s.fec) && !Full(ss, s.fec))
            && (e.Incomplete? <==> News(ss, s) && !Full(ss + [s], s.fec))
            && (e.Ignored? <==> !News(ss, s)) && !e.Complete?
            && (e.BatchComplete? ==> |e.batch| == 32 && Proper(ss + [s], s.fec, e.batch))
  {
    StoreKind(Run(ss), s);
    assert SetTracks(sets, ss, Run(ss), s.fec);
    AbsorbTracks(sets, ss, Run(ss), s);
    assert SetTracks(sets, ss + [s], Absorb(Run(ss), s), s.fec);
    HistoryMore(ss, s, s.fec);
    if !News(ss, s) && !Full(ss, s.fec) {
      SeenAddsNothing(sets, ss, Run(ss), s);
    }
  }

  /** The shreds of a set in the order in which they were news. */
  function Arrivals(ss: seq<Shred>, f: nat): (r: seq<Shred>)
  {
    if ss == [] then []
    else
      var init, s := ss[..|ss| - 1], ss[|ss| - 1];
      Arrivals(init, f) + if s.fec == f && News(init, s) then [s] else []
  }

  lemma AbsorbQueue(sets: nat, ss: seq<Shred>, m: Meta, s: Shred, f: nat)
    requires WellFormed(sets, s) && SetTracks(sets, ss, m, s.fec)
    ensures Queue(Absorb(m, s).batches, f) ==
            Queue(m.batches, f) + if s.fec == f && News(ss, s) then [s] else []
  {
    assert Queue(m.batches, f) + [] == Queue(m.batches, f);
    assert s.fec in m.completed || Seen(m, s) <==> !News(ss, s);
  }

  /** Until the slot is complete, the shreds kept for a set are those that were news, in order. */
  lemma {:induction false} QueueIsArrivals(sets: nat, ss: seq<Shred>, f: nat)
    requires Block(sets, ss) && !Done(sets, ss)
    ensures Queue(Run(ss).batches, f) == Arrivals(ss, f)
    decreases |ss|
  {
    if ss != [] {
      var init, s := ss[..|ss| - 1], ss[|ss| - 1];
      SplitLast(ss);
      LastOfBlock(sets, ss);
      DoneStays(sets, init, s);
      QueueIsArrivals(sets, init, f);
      BeforeDone(sets, init);
      Arrival(sets, init, s);
      assert SetTracks(sets, init, Run(init), s.fec);
      AbsorbQueue(sets, init, Run(init), s, f);
    }
  }

  /** The batch handed over is what has arrived of the set, in order, on the arrival that makes
      it full, and nothing otherwise. */
  lemma BatchInOrder(sets: nat, ss: seq<Shred>, s: Shred)
    requires Block(sets, ss) && WellFormed(sets, s) && !Done(sets, ss)
    ensures BatchOf(LastEffect(ss + [s])) ==
            if Full(ss + [s], s.fec) && !Full(ss, s.fec) then Arrivals(ss + [s], s.fec) else []
  {
    var m := Run(ss);
    assert (ss + [s])[..|ss|] == ss;
    BeforeDone(sets, ss);
    CompleteIffDone(sets, ss, m);
    QueueIsArrivals(sets, ss, s.fec);
    StoredBatch(m, s);
    assert SetTracks(sets, ss, m, s.fec);
    AbsorbQueue(sets, ss, m, s, s.fec);
    AbsorbTracks(sets, ss, m, s);
    assert SetTracks(sets, ss + [s], Absorb(m, s), s.fec);
    HistoryMore(ss, s, s.fec);
    if Full(ss + [s], s.fec) && !Full(ss, s.fec) && Seen(m, s) {
      SeenAddsNothing(sets, ss, m, s);
    }
  }

  /** No tracked index is larger than `maxIndex`, which is one of them, or zero if there are none. */
  ghost predicate MaxOk(m: Meta)
  {
    && (forall f, i | i in Of(m.dataMap, f) + Of(m.codeMap, f) :: i <= m.maxIndex)
    && (m.maxIndex == 0 || exists f :: m.maxIndex in Of(m.dataMap, f) + Of(m.codeMap, f))
  }

  lemma InsertMax(m: Meta, s: Shred)
    requires MaxOk(m)
    ensures MaxOk(Insert(m, s))
  {
    var r := Insert(m, s);
    forall f, i | i in Of(r.dataMap, f) + Of(r.codeMap, f)
      ensures i <= r.maxIndex
    {
      assert i in Of(m.dataMap, f) + Of(m.codeMap, f) || i == s.index;
    }
    if s.index > m.maxIndex {
      assert r.maxIndex in Of(r.dataMap, s.fec) + Of(r.codeMap, s.fec);
    } else if m.maxIndex != 0 {
      var f :| m.maxIndex in Of(m.dataMap, f) + Of(m.codeMap, f);
      assert r.maxIndex in Of(r.dataMap, f) + Of(r.codeMap, f);
    }
  }

  predicate SameTables(m: Meta, r: Meta)
  {
    r.dataMap == m.dataMap && r.codeMap == m.codeMap && r.maxIndex == m.maxIndex
  }

  predicate Keeps(m: Meta, s: Shred) { IsComplete(m) || s.fec in m.completed || Seen(m, s) }

  lemma KeptTables(m: Meta, s: Shred)
    requires Keeps(m, s)
    ensures SameTables(m, Store(m, s).0)
  {
  }

  lemma NewTables(m: Meta, s: Shred)
    requires !Keeps(m, s)
    ensures SameTables(Insert(m, s), Store(m, s).0)
  {
    var m2 := Insert(Learn(m, s), s);
    assert Store(m, s) == Settle(m2, s.fec);
    assert SameTables(Insert(m, s), m2);
  }

  lemma SameMax(m: Meta, r: Meta)
    requires MaxOk(m) && SameTables(m, r)
    ensures MaxOk(r)
  {
  }

  /** In every history the highest index on record is the highest tracked one. */
  lemma {:induction false} MaxIsTracked(ss: seq<Shred>)
    ensures MaxOk(Run(ss))
    decreases |ss|
  {
    if ss == [] {
      assert forall f :: Of(EMPTY.dataMap, f) == Of(EMPTY.codeMap, f) == {};
    } else {
      var m, s := Run(ss[..|ss| - 1]), ss[|ss| - 1];
      MaxIsTracked(ss[..|ss| - 1]);
      MaxStep(m, s);
    }
  }

  lemma MaxStep(m: Meta, s: Shred)
    requires MaxOk(m)
    ensures MaxOk(Store(m, s).0)
  {
    if Keeps(m, s) {
      KeptTables(m, s);
      SameMax(m, Store(m, s).0);
    } else {
      NewTables(m, s);
      InsertMax(m, s);
      SameMax(Insert(m, s), Store(m, s).0);
    }
  }
}
