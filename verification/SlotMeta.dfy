/** Reassembling one slot from shreds arriving in any order. */
module SlotMeta {
  import opened Options

  const SET_SIZE := 32

  /** `fec` is the index of the shred's erasure set, which numbers the set's first
      data shred; `payload` stands for the packet's bytes. */
  datatype Shred = Shred(fec: nat, index: nat, data: bool, last: bool, payload: nat)

  datatype Meta = Meta(
    dataMap: map<nat, set<nat>>,
    codeMap: map<nat, set<nat>>,
    completed: set<nat>,
    required: Option<nat>,
    maxIndex: nat,
    batches: map<nat, seq<Shred>>)

  const EMPTY := Meta(map[], map[], {}, None, 0, map[])

  /** What storing a shred leads to; a hash map is drained in no particular order. */
  datatype Effect =
    | Complete(batch: seq<Shred>, streamed: multiset<Shred>)
    | BatchComplete(batch: seq<Shred>)
    | Incomplete
    | Ignored

  predicate IsComplete(m: Meta) { m.required == Some(|m.completed|) }

  function Of(sets: map<nat, set<nat>>, fec: nat): (s: set<nat>) { if fec in sets then sets[fec] else {} }

  function Queue(batches: map<nat, seq<Shred>>, fec: nat): (q: seq<Shred>)
  {
    if fec in batches then batches[fec] else []
  }

  function Count(m: Meta, fec: nat): (n: nat) { |Of(m.codeMap, fec)| + |Of(m.dataMap, fec)| }

  ghost function Drain(batches: map<nat, seq<Shred>>): (all: multiset<Shred>)
    decreases |batches|
  {
    if batches == map[] then multiset{}
    else
      var f :| f in batches;
      multiset(batches[f]) + Drain(batches - {f})
  }

  /** The order of draining does not matter. */
  lemma {:induction false} DrainAny(batches: map<nat, seq<Shred>>, f: nat)
    requires f in batches
    ensures Drain(batches) == multiset(batches[f]) + Drain(batches - {f})
    decreases |batches|
  {
    var g :| g in batches && Drain(batches) == multiset(batches[g]) + Drain(batches - {g});
    if g != f {
      DrainAny(batches - {g}, f);
      DrainAny(batches - {f}, g);
      assert batches - {g} - {f} == batches - {f} - {g};
    }
  }

  /** Learn the number of sets from the shred flagged as the slot's last. */
  function Learn(m: Meta, s: Shred): (r: Meta)
  {
    if s.data && s.last then m.(required := Some((s.fec + SET_SIZE) / SET_SIZE)) else m
  }

  predicate Seen(m: Meta, s: Shred)
  {
    s.index in Of(if s.data then m.dataMap else m.codeMap, s.fec)
  }

  function Put(sets: map<nat, set<nat>>, fec: nat, index: nat): (r: map<nat, set<nat>>)
    ensures forall f :: Of(r, f) == if f == fec then Of(sets, fec) + {index} else Of(sets, f)
  {
    sets[fec := Of(sets, fec) + {index}]
  }

  function Append(batches: map<nat, seq<Shred>>, s: Shred): (r: map<nat, seq<Shred>>)
    ensures forall f :: Queue(r, f) == if f == s.fec then Queue(batches, f) + [s] else Queue(batches, f)
    ensures forall f :: f in r <==> f == s.fec || f in batches
  {
    batches[s.fec := Queue(batches, s.fec) + [s]]
  }

  function Insert(m: Meta, s: Shred): (r: Meta)
  {
    m.(dataMap := if s.data then Put(m.dataMap, s.fec, s.index) else m.dataMap,
       codeMap := if s.data then m.codeMap else Put(m.codeMap, s.fec, s.index),
       maxIndex := if s.index > m.maxIndex then s.index else m.maxIndex,
       batches := Append(m.batches, s))
  }

  ghost function Finish(m: Meta, batch: seq<Shred>): (r: (Meta, Effect))
  {
    (m.(batches := map[]), Complete(batch, Drain(m.batches)))
  }

  function CloseIfFull(m: Meta, fec: nat): (r: Meta)
    ensures forall f :: f in r.completed <==> f in m.completed || (f == fec && Count(m, fec) >= SET_SIZE)
    ensures r == m.(completed := r.completed)
  {
    if Count(m, fec) >= SET_SIZE then m.(completed := m.completed + {fec}) else m
  }

  /** Close the shred's set, and the slot, if that is now due. */
  ghost function Settle(m: Meta, fec: nat): (r: (Meta, Effect))
    ensures r.0.dataMap == m.dataMap && r.0.codeMap == m.codeMap && r.0.maxIndex == m.maxIndex
  {
    var m1 := CloseIfFull(m, fec);
    var batch := if Count(m, fec) >= SET_SIZE then Queue(m.batches, fec) else [];
    if IsComplete(m1) then Finish(m1, batch)
    else if Count(m, fec) >= SET_SIZE then (m1, BatchComplete(batch))
    else (m1, Incomplete)
  }

  ghost function Store(m: Meta, s: Shred): (r: (Meta, Effect))
  {
    if IsComplete(m) then (m, Ignored)
    else
      var m1 := Learn(m, s);
      if s.fec in m1.completed then
        if IsComplete(m1) then Finish(m1, []) else (m1, Ignored)
      else if Seen(m1, s) then (m1, Ignored)
      else Settle(Insert(m1, s), s.fec)
  }

  /** The indexes from `lo` up to `hi` that are not in `have`. */
  function Absent(have: set<nat>, lo: nat, hi: nat): (r: seq<nat>)
    requires lo <= hi
    ensures forall x :: x in r <==> lo <= x < hi && x !in have
    decreases hi
  {
    if lo == hi then []
    else
      var rest := Absent(have, lo, hi - 1);
      if hi - 1 in have then rest else rest + [hi - 1]
  }

  /** Index `x` of set `f` is still to be asked for. */
  predicate Missing(m: Meta, x: nat, f: nat)
  {
    f !in m.completed && f <= x < f + SET_SIZE && x !in Of(m.dataMap, f)
  }

  function MissingSet(m: Meta, sets: nat): (r: set<nat>)
    decreases sets
  {
    if sets == 0 then {}
    else
      var fec := (sets - 1) * SET_SIZE;
      MissingSet(m, sets - 1) + set x | fec <= x < fec + SET_SIZE && Missing(m, x, fec)
  }

  /** The data shreds still wanted from the first `sets` sets, in order. */
  function Wanted(m: Meta, sets: nat): (r: seq<nat>)
    ensures forall x :: x in r <==> x in MissingSet(m, sets)
    decreases sets
  {
    if sets == 0 then []
    else
      var fec := (sets - 1) * SET_SIZE;
      Wanted(m, sets - 1) + if fec in m.completed then [] else Absent(Of(m.dataMap, fec), fec, fec + SET_SIZE)
  }

  datatype StoreResult =
    | ResComplete(storeBatch: seq<Shred>, streamed: seq<Shred>)
    | ResBatch(storeBatch: seq<Shred>)
    | ResIncomplete
    | ResIgnored
  {
    function Meaning(): (e: Effect)
    {
      match this
      case ResComplete(batch, streamed) => Complete(batch, multiset(streamed))
      case ResBatch(batch) => BatchComplete(batch)
      case ResIncomplete => Incomplete
      case ResIgnored => Ignored
    }
  }

  class SlotMetadata {
    var fecDataMap: map<nat, set<nat>>
    var fecCodingMap: map<nat, set<nat>>
    var completedBatches: set<nat>
    var requiredBatches: Option<nat>
    var maxInclusiveShred: nat
    var batchShreds: map<nat, seq<Shred>>

    ghost function View(): (r: Meta)
      reads this
    {
      Meta(fecDataMap, fecCodingMap, completedBatches, requiredBatches, maxInclusiveShred, batchShreds)
    }

    constructor ()
      ensures View() == EMPTY
    {
      fecDataMap, fecCodingMap, batchShreds := map[], map[], map[];
      completedBatches, requiredBatches, maxInclusiveShred := {}, None, 0;
    }

    method DrainAllShreds() returns (all: seq<Shred>)
      modifies this`batchShreds
      ensures multiset(all) == Drain(old(batchShreds)) && batchShreds == map[]
    {
      all := [];
      while batchShreds != map[]
        invariant multiset(all) + Drain(batchShreds) == Drain(old(batchShreds))
        decreases |batchShreds|
      {
        var f :| f in batchShreds;
        DrainAny(batchShreds, f);
        all := all + batchShreds[f];
        batchShreds := batchShreds - {f};
      }
    }

    method MakeComplete(storeBatch: seq<Shred>) returns (r: StoreResult)
      modifies this`batchShreds
      ensures (View(), r.Meaning()) == Finish(old(View()), storeBatch)
    {
      var all := DrainAllShreds();
      r := ResComplete(storeBatch, all);
    }

    /** Enter a shred in the tracking maps unless its index is there already. */
    method Track(s: Shred) returns (isNew: bool)
      modifies this`fecDataMap, this`fecCodingMap, this`maxInclusiveShred, this`batchShreds
      ensures isNew <==> !Seen(old(View()), s)
      ensures View() == if isNew then Insert(old(View()), s) else old(View())
    {
      if s.index in Of(if s.data then fecDataMap else fecCodingMap, s.fec) {
        return false;
      }
      if s.data {
        fecDataMap := Put(fecDataMap, s.fec, s.index);
      } else {
        fecCodingMap := Put(fecCodingMap, s.fec, s.index);
      }
      if s.index > maxInclusiveShred {
        maxInclusiveShred := s.index;
      }
      batchShreds := Append(batchShreds, s);
      return true;
    }

    method StoreShred(s: Shred) returns (r: StoreResult)
      modifies this
      ensures (View(), r.Meaning()) == Store(old(View()), s)
    {
      if requiredBatches == Some(|completedBatches|) {
        return ResIgnored;
      }
      if s.data && s.last {
        requiredBatches := Some((s.fec + SET_SIZE) / SET_SIZE);
      }
      assert View() == Learn(old(View()), s);
      if s.fec in completedBatches {
        if requiredBatches == Some(|completedBatches|) {
          r := MakeComplete([]);
          return;
        }
        return ResIgnored;
      }
      var isNew := Track(s);
      if !isNew {
        return ResIgnored;
      }
      r := SettleSet(s.fec);
    }

    method SettleSet(fec: nat) returns (r: StoreResult)
      modifies this`completedBatches, this`batchShreds
      ensures (View(), r.Meaning()) == Settle(old(View()), fec)
    {
      var storeBatch: seq<Shred> := [];
      var full := |Of(fecCodingMap, fec)| + |Of(fecDataMap, fec)| >= SET_SIZE;
      if full {
        completedBatches := completedBatches + {fec};
        storeBatch := Queue(batchShreds, fec);
      }
      if requiredBatches == Some(|completedBatches|) {
        r := MakeComplete(storeBatch);
      } else {
        r := if full then ResBatch(storeBatch) else ResIncomplete;
      }
    }

    /** The indexes of one set that are missing, found with a mask. */
    method MissingIn(batch: nat) returns (missing: seq<nat>)
      requires forall i :: i in Of(fecDataMap, batch) ==> batch <= i < batch + SET_SIZE
      ensures missing == if batch in completedBatches then []
                         else Absent(Of(fecDataMap, batch), batch, batch + SET_SIZE)
    {
      if batch in completedBatches {
        return [];
      }
      var mask := new bool[SET_SIZE](_ => true);
      var left := Of(fecDataMap, batch);
      while left != {}
        invariant left <= Of(fecDataMap, batch)
        invariant forall k :: 0 <= k < SET_SIZE ==>
                    mask[k] == (batch + k !in Of(fecDataMap, batch) || batch + k in left)
      {
        var i :| i in left;
        mask[i - batch] := false;
        left := left - {i};
      }
      missing := [];
      for k := 0 to SET_SIZE
        invariant missing == Absent(Of(fecDataMap, batch), batch, batch + k)
      {
        if mask[k] {
          missing := missing + [batch + k];
        }
      }
    }

    method CalculateMissingBounded() returns (missing: Option<seq<nat>>)
      requires forall f: nat, i: nat :: i in Of(fecDataMap, f) ==> f <= i < f + SET_SIZE
      ensures missing == if requiredBatches.None? then None else Some(Wanted(View(), requiredBatches.value))
    {
      if requiredBatches.None? {
        return None;
      }
      var list: seq<nat> := [];
      for k := 0 to requiredBatches.value
        invariant list == Wanted(View(), k)
      {
        var part := MissingIn(k * SET_SIZE);
        list := list + part;
      }
      return Some(list);
    }
  }
}
