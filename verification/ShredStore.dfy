/** The shred store: an ordered map from byte keys to shreds. */
module ShredStore {
  import opened Options
  import opened ByteOrder
  import opened Slots

  type Index = n: nat | n < 0x1_0000_0000

  const RETENTION_SLOTS: nat := 72000
  const LAST_INDEX: Index := 0xFFFF_FFFF

  datatype Place = Place(slot: Slot, index: Index)
  {
    predicate Before(p: Place) { slot < p.slot || (slot == p.slot && index < p.index) }
  }

  lemma Widths()
    ensures Pow256(8) == 0x1_0000_0000_0000_0000 && Pow256(4) == 0x1_0000_0000 && Pow256(2) == 0x1_0000
  {
  }

  function SlotBytes(slot: Slot): (s: seq<Byte>)
    ensures |s| == 8
  {
    Widths();
    BigEndian(slot, 8)
  }

  function MakeKey(p: Place): (key: seq<Byte>)
    ensures |key| == 12
  {
    Widths();
    SlotBytes(p.slot) + BigEndian(p.index, 4)
  }

  function SlotFromKey(key: seq<Byte>): (r: Option<nat>)
  {
    if |key| < 8 then None else Some(Value(key[..8]))
  }

  lemma SlotBytesOrder(s: Slot, t: Slot)
    ensures Less(SlotBytes(s), SlotBytes(t)) <==> s < t
    ensures SlotBytes(s) == SlotBytes(t) <==> s == t
  {
    Widths();
    BigEndianOrder(s, t, 8);
  }

  /** The order of keys is the order of places: by slot, then by index. */
  lemma KeyOrder(p: Place, q: Place)
    ensures Less(MakeKey(p), MakeKey(q)) <==> p.Before(q)
    ensures MakeKey(p) == MakeKey(q) <==> p == q
  {
    Widths();
    SlotBytesOrder(p.slot, q.slot);
    BigEndianOrder(p.index, q.index, 4);
    LessOfParts(SlotBytes(p.slot), SlotBytes(q.slot), BigEndian(p.index, 4), BigEndian(q.index, 4));
    assert MakeKey(p)[..8] == SlotBytes(p.slot) && MakeKey(p)[8..] == BigEndian(p.index, 4);
    assert MakeKey(q)[..8] == SlotBytes(q.slot) && MakeKey(q)[8..] == BigEndian(q.index, 4);
  }

  /** A key tells its slot. */
  lemma KeyTellsSlot(p: Place)
    ensures SlotFromKey(MakeKey(p)) == Some(p.slot)
  {
    Widths();
    assert MakeKey(p)[..8] == SlotBytes(p.slot);
    BigEndianRoundTrip(p.slot, 8);
  }

  // ---- the ordered map -----------------------------------------------------------------

  predicate Within(k: seq<Byte>, start: seq<Byte>, end: seq<Byte>) { !Less(k, start) && !Less(end, k) }

  predicate Greatest(k: seq<Byte>, keys: set<seq<Byte>>)
  {
    k in keys && forall j | j in keys :: !Less(k, j)
  }

  /** The last key of a range, as an ordered map finds it. */
  method LastOf(keys: set<seq<Byte>>) returns (k: seq<Byte>)
    requires keys != {}
    ensures Greatest(k, keys)
  {
    k :| k in keys;
    LessIrreflexive(k);
    var rest := keys - {k};
    while rest != {}
      invariant rest <= keys && k in keys
      invariant forall j | j in keys :: j in rest || !Less(k, j)
      decreases |rest|
    {
      var t: seq<Byte> :| t in rest;
      if Less(k, t) {
        forall j | j in keys && j !in rest
          ensures !Less(t, j)
        {
          if Less(t, j) {
            LessTransitive(k, t, j);
          }
        }
        LessIrreflexive(t);
        k := t;
      }
      rest := rest - {t};
    }
  }

  predicate OrderedAt(key: Place -> seq<Byte>, p: Place, q: Place)
  {
    (Less(key(p), key(q)) <==> p.Before(q)) && (key(p) == key(q) ==> p == q)
  }

  predicate TellsSlot(key: Place -> seq<Byte>, p: Place) { SlotFromKey(key(p)) == Some(p.slot) }

  /** What the store needs of its keys: they are ordered as the places are, and tell the slot. */
  ghost predicate Faithful(key: Place -> seq<Byte>)
  {
    (forall p, q :: OrderedAt(key, p, q)) && (forall p :: TellsSlot(key, p))
  }

  lemma MakeKeyFaithfulAt(p: Place, q: Place)
    ensures OrderedAt(MakeKey, p, q) && TellsSlot(MakeKey, p)
  {
    KeyOrder(p, q);
    KeyTellsSlot(p);
  }

  lemma KeysFaithful()
    ensures Faithful(MakeKey)
  {
    forall p: Place, q: Place
      ensures OrderedAt(MakeKey, p, q)
    {
      MakeKeyFaithfulAt(p, q);
    }
    forall p: Place
      ensures TellsSlot(MakeKey, p)
    {
      MakeKeyFaithfulAt(p, p);
    }
  }

  /** `cells` holds exactly what `plain` holds, under byte keys; `at` reads the keys back. */
  ghost predicate Mirrors(key: Place -> seq<Byte>, cells: map<seq<Byte>, nat>, plain: map<Place, nat>,
                          at: map<seq<Byte>, Place>)
  {
    && cells.Keys == at.Keys
    && (forall k | k in at :: at[k] in plain && key(at[k]) == k && cells[k] == plain[at[k]])
    && (forall p | p in plain :: key(p) in at)
  }

  /** `p` is the highest place of its slot in the store. */
  ghost predicate Highest(plain: map<Place, nat>, p: Place)
  {
    p in plain && forall q | q in plain && q.slot == p.slot :: q.index <= p.index
  }

  /** The compaction filter keeps what is not known to be too old. */
  function Recent(cells: map<seq<Byte>, nat>, cutoff: nat): (r: map<seq<Byte>, nat>)
  {
    map k | k in cells && (SlotFromKey(k).None? || SlotFromKey(k).value >= cutoff) :: cells[k]
  }

  lemma InsertMirrors(key: Place -> seq<Byte>, cells: map<seq<Byte>, nat>, plain: map<Place, nat>,
                      at: map<seq<Byte>, Place>, p: Place, shred: nat)
    requires Faithful(key) && Mirrors(key, cells, plain, at)
    ensures Mirrors(key, cells[key(p) := shred], plain[p := shred], at[key(p) := p])
  {
  }

  lemma RangeIsSlot(key: Place -> seq<Byte>, slot: Slot, from: Index, p: Place)
    requires Faithful(key)
    ensures Within(key(p), key(Place(slot, from)), key(Place(slot, LAST_INDEX))) <==> p.slot == slot && p.index >= from
  {
    assert OrderedAt(key, p, Place(slot, from));
    assert OrderedAt(key, Place(slot, LAST_INDEX), p);
  }

  /** The keys in a slot's range. */
  function Range(cells: map<seq<Byte>, nat>, start: seq<Byte>, end: seq<Byte>): (r: set<seq<Byte>>)
  {
    set k | k in cells && Within(k, start, end)
  }

  lemma LastInRange(key: Place -> seq<Byte>, cells: map<seq<Byte>, nat>, plain: map<Place, nat>,
                    at: map<seq<Byte>, Place>, slot: Slot, from: Index, k: seq<Byte>)
    requires Faithful(key) && Mirrors(key, cells, plain, at)
    requires Greatest(k, Range(cells, key(Place(slot, from)), key(Place(slot, LAST_INDEX))))
    ensures k in at && at[k].slot == slot && at[k].index >= from && Highest(plain, at[k])
  {
    var p := at[k];
    RangeIsSlot(key, slot, from, p);
    forall q | q in plain && q.slot == slot
      ensures q.index <= p.index
    {
      RangeIsSlot(key, slot, from, q);
      assert key(q) in at;
      assert OrderedAt(key, p, q);
    }
  }

  lemma NoneInRange(key: Place -> seq<Byte>, cells: map<seq<Byte>, nat>, plain: map<Place, nat>,
                    at: map<seq<Byte>, Place>, slot: Slot, from: Index)
    requires Faithful(key) && Mirrors(key, cells, plain, at)
    requires Range(cells, key(Place(slot, from)), key(Place(slot, LAST_INDEX))) == {}
    ensures forall p | p in plain && p.slot == slot :: p.index < from
  {
    forall p | p in plain && p.slot == slot
      ensures p.index < from
    {
      RangeIsSlot(key, slot, from, p);
      assert key(p) in at;
      assert key(p) !in Range(cells, key(Place(slot, from)), key(Place(slot, LAST_INDEX)));
    }
  }

  lemma LastIsNewest(key: Place -> seq<Byte>, cells: map<seq<Byte>, nat>, plain: map<Place, nat>,
                     at: map<seq<Byte>, Place>, last: seq<Byte>)
    requires Faithful(key) && Mirrors(key, cells, plain, at) && Greatest(last, cells.Keys)
    ensures last in at && at[last] in plain && SlotFromKey(last) == Some(at[last].slot)
    ensures forall p | p in plain :: p.slot <= at[last].slot
  {
    var n := at[last];
    assert TellsSlot(key, n);
    forall p | p in plain
      ensures p.slot <= n.slot
    {
      assert key(p) in at;
      assert OrderedAt(key, n, p);
    }
  }

  lemma RecentMirrors(key: Place -> seq<Byte>, cells: map<seq<Byte>, nat>, plain: map<Place, nat>,
                      at: map<seq<Byte>, Place>, cutoff: nat)
    requires Faithful(key) && Mirrors(key, cells, plain, at)
    ensures Mirrors(key, Recent(cells, cutoff), map p | p in plain && p.slot >= cutoff :: plain[p],
                    map k | k in at && at[k].slot >= cutoff :: at[k])
  {
    forall k | k in at
      ensures SlotFromKey(k) == Some(at[k].slot)
    {
      assert TellsSlot(key, at[k]);
    }
    forall p | p in plain
      ensures key(p) in at && at[key(p)] == p
    {
      assert OrderedAt(key, at[key(p)], p);
    }
  }

  /** A key starts with the bytes of its slot and of no other. */
  lemma PrefixIsSlot(k: seq<Byte>, slot: Slot)
    requires |k| >= 8
    ensures k[..8] == SlotBytes(slot) <==> SlotFromKey(k) == Some(slot)
  {
    Widths();
    BigEndianRoundTrip(slot, 8);
    LessIsLess(k[..8], SlotBytes(slot));
  }

  /** The keys of a slot, among them those already listed as `places`, ascending. */
  ghost predicate Listing(slot: Slot, plain: map<Place, nat>, at: map<seq<Byte>, Place>, rest: set<seq<Byte>>,
                          places: seq<Place>)
  {
    && (forall k | k in rest :: k in at && at[k].slot == slot)
    && (forall i | 0 <= i < |places| :: places[i] in plain && places[i].slot == slot)
    && (forall i, j | 0 <= i < j < |places| :: places[i].index < places[j].index)
    && (forall k, i | k in rest && 0 <= i < |places| :: at[k].index < places[i].index)
    && (forall k | k in at && at[k].slot == slot :: k in rest || at[k] in places)
  }

  /** `found` are the shreds of the slot, whose places are `places`, by ascending index. */
  ghost predicate Lists(plain: map<Place, nat>, slot: Slot, places: seq<Place>, found: seq<nat>)
  {
    && |found| == |places|
    && (forall p :: p in places <==> p in plain && p.slot == slot)
    && (forall i, j | 0 <= i < j < |places| :: places[i].index < places[j].index)
    && (forall i | 0 <= i < |places| :: found[i] == plain[places[i]])
  }

  lemma ListLast(key: Place -> seq<Byte>, cells: map<seq<Byte>, nat>, slot: Slot, plain: map<Place, nat>,
                 at: map<seq<Byte>, Place>, rest: set<seq<Byte>>, places: seq<Place>, k: seq<Byte>)
    requires Faithful(key) && Mirrors(key, cells, plain, at)
    requires Listing(slot, plain, at, rest, places) && Greatest(k, rest)
    ensures Listing(slot, plain, at, rest - {k}, [at[k]] + places)
  {
    forall j | j in rest && j != k
      ensures at[j].index < at[k].index
    {
      assert OrderedAt(key, at[k], at[j]);
      assert OrderedAt(key, at[j], at[k]);
    }
    var more := [at[k]] + places;
    assert forall p :: p in more <==> p == at[k] || p in places;
  }

  class Store {
    const key: Place -> seq<Byte>
    var cells: map<seq<Byte>, nat>
    ghost var plain: map<Place, nat>
    ghost var at: map<seq<Byte>, Place>

    ghost predicate Valid()
      reads this
    {
      Faithful(key) && Mirrors(key, cells, plain, at)
    }

    constructor ()
      ensures Valid() && plain == map[] && key == MakeKey
    {
      KeysFaithful();
      key := MakeKey;
      cells, plain, at := map[], map[], map[];
    }

    method Insert(p: Place, shred: nat)
      requires Valid()
      modifies this
      ensures Valid() && plain == old(plain)[p := shred]
    {
      var k := key(p);
      InsertMirrors(key, cells, plain, at, p, shred);
      cells := cells[k := shred];
      plain := plain[p := shred];
      at := at[k := p];
    }

    /** Store the data shreds of a batch. */
    method StoreBatch(slot: Slot, shreds: seq<(bool, Index, nat)>)
      requires Valid()
      modifies this
      ensures Valid() && plain == Stored(old(plain), slot, shreds)
      // the data shreds of the batch under their slot and index, later ones over earlier ones
      ensures StoredOver(old(plain), plain, slot, shreds)
    {
      StoredMeans(plain, slot, shreds);
      assert shreds[..0] == [];
      for i := 0 to |shreds|
        invariant Valid() && plain == Stored(old(plain), slot, shreds[..i])
      {
        assert shreds[..i + 1][..i] == shreds[..i];
        var (data, index, payload) := shreds[i];
        if data {
          Insert(Place(slot, index), payload);
        }
      }
      assert shreds[..|shreds|] == shreds;
    }

    method Get(slot: Slot, index: nat) returns (found: Option<nat>)
      requires Valid()
      ensures found == if index <= LAST_INDEX && Place(slot, index) in plain then Some(plain[Place(slot, index)])
                       else None
    {
      if index > LAST_INDEX {
        return None;
      }
      var k := key(Place(slot, index));
      if k in cells {
        assert OrderedAt(key, at[k], Place(slot, index));
        return Some(cells[k]);
      }
      return None;
    }

    /** The shred with the highest index of the slot, if that is at least `from`. */
    method GetHighestFrom(slot: Slot, from: nat) returns (found: Option<nat>, ghost place: Place)
      requires Valid()
      ensures found.None? ==> forall p | p in plain :: p.slot == slot ==> p.index < from
      ensures found.Some? ==>
                place.slot == slot && place.index >= from && Highest(plain, place) && found.value == plain[place]
    {
      place := Place(slot, 0);
      if from > LAST_INDEX {
        return None, place;
      }
      var start, end := key(Place(slot, from)), key(Place(slot, LAST_INDEX));
      var range := Range(cells, start, end);
      if range == {} {
        NoneInRange(key, cells, plain, at, slot, from);
        return None, place;
      }
      var k := LastOf(range);
      LastInRange(key, cells, plain, at, slot, from, k);
      place := at[k];
      return Some(cells[k]), place;
    }

    /** All shreds of a slot, by index. */
    method GetSlotShreds(slot: Slot) returns (found: seq<nat>)
      requires Valid()
      ensures exists places :: Lists(plain, slot, places, found)
    {
      var prefix := SlotBytes(slot);
      var rest := set k | k in cells && |k| >= 8 && k[..8] == prefix;
      forall k | k in at
        ensures k in rest <==> at[k].slot == slot
      {
        assert TellsSlot(key, at[k]);
        PrefixIsSlot(k, slot);
      }
      ghost var places: seq<Place> := [];
      found := [];
      while rest != {}
        invariant Listing(slot, plain, at, rest, places) && |found| == |places|
        invariant forall i | 0 <= i < |places| :: found[i] == plain[places[i]]
        decreases |rest|
      {
        var k := LastOf(rest);
        ListLast(key, cells, slot, plain, at, rest, places, k);
        found := [cells[k]] + found;
        places := [at[k]] + places;
        rest := rest - {k};
      }
      forall p | p in plain && p.slot == slot
        ensures p in places
      {
        assert OrderedAt(key, at[key(p)], p);
      }
      assert Lists(plain, slot, places, found);
    }

    /** Drop what is too old, judged by the slot of the last key. */
    method Cleanup() returns (cutoff: nat, ghost newest: Place)
      requires Valid()
      modifies this
      ensures Valid()
      ensures plain == map p | p in old(plain) && p.slot >= cutoff :: old(plain)[p]
      ensures old(plain) == map[] ==> cutoff == 0
      ensures old(plain) != map[] ==>
                && newest in plain && (forall q | q in old(plain) :: q.slot <= newest.slot)
                && cutoff == if newest.slot < 72000 then 0 else newest.slot - 72000
    {
      if cells.Keys == {} {
        return 0, Place(0, 0);
      }
      var last := LastOf(cells.Keys);
      LastIsNewest(key, cells, plain, at, last);
      newest := at[last];
      var latest := SlotFromKey(last).value;
      cutoff := if latest < RETENTION_SLOTS then 0 else latest - RETENTION_SLOTS;
      RecentMirrors(key, cells, plain, at, cutoff);
      cells := Recent(cells, cutoff);
      plain := map p | p in plain && p.slot >= cutoff :: plain[p];
      at := map k | k in at && at[k].slot >= cutoff :: at[k];
    }
  }

  /** The plain map after a batch: its data shreds, a later one over an earlier. */
  function Stored(plain: map<Place, nat>, slot: Slot, shreds: seq<(bool, Index, nat)>): (r: map<Place, nat>)
    decreases |shreds|
  {
    if shreds == [] then plain
    else
      var before, (data, index, payload) := Stored(plain, slot, shreds[..|shreds| - 1]), shreds[|shreds| - 1];
      if data then before[Place(slot, index) := payload] else before
  }

  /** `i` is the last data shred of the batch with that index. */
  predicate LastAt(shreds: seq<(bool, Index, nat)>, index: Index, i: nat)
  {
    && i < |shreds| && shreds[i].0 && shreds[i].1 == index
    && forall j | i < j < |shreds| :: !(shreds[j].0 && shreds[j].1 == index)
  }

  predicate HasIndex(shreds: seq<(bool, Index, nat)>, index: Index)
  {
    exists i :: 0 <= i < |shreds| && shreds[i].0 && shreds[i].1 == index
  }

  /** Exactly the batch's data shreds have been entered, everything else is as it was. */
  ghost predicate StoredOver(was: map<Place, nat>, plain: map<Place, nat>, slot: Slot, shreds: seq<(bool, Index, nat)>)
  {
    && (forall p :: p in plain <==> p in was || (p.slot == slot && HasIndex(shreds, p.index)))
    && (forall p | p in was && !(p.slot == slot && HasIndex(shreds, p.index)) :: plain[p] == was[p])
    && (forall index: Index, i: nat | LastAt(shreds, index, i) ::
          Place(slot, index) in plain && plain[Place(slot, index)] == shreds[i].2)
  }

  lemma {:induction false} StoredMeans(plain: map<Place, nat>, slot: Slot, shreds: seq<(bool, Index, nat)>)
    ensures StoredOver(plain, Stored(plain, slot, shreds), slot, shreds)
    decreases |shreds|
  {
    if shreds != [] {
      var n := |shreds| - 1;
      var init, last := shreds[..n], shreds[n];
      StoredMeans(plain, slot, init);
      forall index: Index
        ensures HasIndex(shreds, index) <==> HasIndex(init, index) || (last.0 && last.1 == index)
      {
        if i :| 0 <= i < |init| && init[i].0 && init[i].1 == index {
          assert shreds[i] == init[i];
        }
        if last.0 && last.1 == index {
          assert shreds[n].0;
        }
      }
      forall index: Index, i: nat | LastAt(shreds, index, i) && i < n
        ensures LastAt(init, index, i) && !(last.0 && last.1 == index)
      {
      }
    }
  }
}
