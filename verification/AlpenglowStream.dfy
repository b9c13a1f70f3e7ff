/** The reorder buffer between finalized blocks and the ordered stream of confirmations. */
module AlpenglowStream {
  import opened Options
  import opened Slots

  const MAX_REORDERED_SLOTS: nat := 32

  /** A block: its slot and its computed id. */
  datatype Key = Key(slot: Slot, hash: nat)

  /** A confirmation; `raw` stands for the block's shreds. */
  datatype Update = Update(key: Key, raw: nat)

  datatype Buffer = Buffer(
    candidates: map<Key, nat>, finalized: set<Key>, pending: map<Slot, Update>, next: Option<Slot>)

  /** One block from the channel: `id` is absent if its shreds cannot be recovered or
      have no block id, `certified` are the certificates in it that verify, `dropped` and
      `forgotten` are what the bounded tables evict, and `order` is the order in which the
      finalizations are then visited. */
  datatype Arrival = Arrival(
    slot: Slot, id: Option<nat>, raw: nat, certified: seq<Key>,
    dropped: set<Key>, forgotten: set<Key>, order: seq<Key>)

  function Empty(): (next: Buffer) { Buffer(map[], {}, map[], None) }

  // ---- promotion -------------------------------------------------------------------

  predicate Past(b: Buffer, k: Key) { b.next.Some? && k.slot < b.next.value }

  function PromoteOne(b: Buffer, k: Key): (next: Buffer)
  {
    if Past(b, k) then b.(finalized := b.finalized - {k}, candidates := b.candidates - {k})
    else if k in b.candidates then
      b.(candidates := b.candidates - {k}, finalized := b.finalized - {k},
         pending := b.pending[k.slot := Update(k, b.candidates[k])])
    else b
  }

  function Promote(b: Buffer, order: seq<Key>): (next: Buffer)
    decreases |order|
  {
    if order == [] then b else PromoteOne(Promote(b, order[..|order| - 1]), order[|order| - 1])
  }

  // ---- arrivals --------------------------------------------------------------------

  /** The tables once the arrival has been entered. */
  function Entered(b: Buffer, a: Arrival): (next: Buffer)
    requires a.id.Some?
  {
    var k := Key(a.slot, a.id.value);
    b.(candidates := b.candidates[k := a.raw] - (a.dropped - {k}),
       finalized := b.finalized + (set c | c in a.certified) - a.forgotten)
  }

  /** The block is a candidate and its certificates count, but for what the tables evict. */
  ghost predicate Enters(b: Buffer, e: Buffer, a: Arrival)
    requires a.id.Some?
  {
    var k := Key(a.slot, a.id.value);
    && e.pending == b.pending && e.next == b.next
    && k in e.candidates && e.candidates[k] == a.raw
    && (forall c | c != k :: c in e.candidates <==> c in b.candidates && c !in a.dropped)
    && (forall c | c != k && c in e.candidates :: e.candidates[c] == b.candidates[c])
    && (forall c :: c in e.finalized <==> (c in b.finalized || c in a.certified) && c !in a.forgotten)
  }

  ghost predicate Visits(b: Buffer, a: Arrival)
  {
    a.id.Some? ==> forall k :: k in a.order <==> k in Entered(b, a).finalized
  }

  function Received(b: Buffer, a: Arrival): (next: Buffer)
  {
    if a.id.None? then b else Promote(Entered(b, a), a.order)
  }

  /** What visiting finalized blocks in some order leaves in the tables: a visited one is no
      candidate any more, and is finalized still only if it was neither past nor a candidate. */
  ghost predicate Visited(b: Buffer, t: Buffer, order: seq<Key>)
  {
    && t.next == b.next
    && (forall k :: k in t.finalized <==> k in b.finalized && !(k in order && (Past(b, k) || k in b.candidates)))
    && (forall k :: k in t.candidates <==> k in b.candidates && k !in order)
    && (forall k | k in t.candidates :: t.candidates[k] == b.candidates[k])
  }

  /** Each visited candidate that is not past waits in its slot, which nothing else enters. */
  ghost predicate Promoted(b: Buffer, t: Buffer, order: seq<Key>)
  {
    && (forall s | s in t.pending ::
          Matched(b, t.pending[s], s, order) || (s in b.pending && t.pending[s] == b.pending[s]))
    && (forall s | s in b.pending :: s in t.pending)
    && (forall k | k in order && k in b.candidates && !Past(b, k) :: k.slot in t.pending)
  }

  /** The block was a candidate and is visited. */
  predicate Matched(b: Buffer, u: Update, s: Slot, order: seq<Key>)
  {
    && u.key in order && u.key in b.candidates && !Past(b, u.key)
    && u == Update(u.key, b.candidates[u.key]) && u.key.slot == s
  }

  lemma VisitOne(b: Buffer, m: Buffer, order: seq<Key>, k: Key)
    requires Visited(b, m, order)
    ensures Visited(b, PromoteOne(m, k), order + [k])
  {
    assert forall x :: x in order + [k] <==> x in order || x == k;
  }

  lemma PromoteNext(b: Buffer, m: Buffer, order: seq<Key>, k: Key)
    requires Visited(b, m, order) && Promoted(b, m, order)
    ensures Promoted(b, PromoteOne(m, k), order + [k])
  {
    assert forall x :: x in order + [k] <==> x in order || x == k;
  }

  lemma {:induction false} PromoteMeans(b: Buffer, order: seq<Key>)
    ensures Visited(b, Promote(b, order), order) && Promoted(b, Promote(b, order), order)
    decreases |order|
  {
    if order != [] {
      var init, last := order[..|order| - 1], order[|order| - 1];
      PromoteMeans(b, init);
      VisitOne(b, Promote(b, init), init, last);
      PromoteNext(b, Promote(b, init), init, last);
      assert init + [last] == order;
    }
  }

  // ---- emission --------------------------------------------------------------------

  lemma FindLeast(slots: set<Slot>) returns (l: Slot)
    requires slots != {}
    ensures l in slots && forall t | t in slots :: l <= t
    decreases |slots|
  {
    l :| l in slots;
    var rest := slots - {l};
    assert forall t | t in slots :: t == l || t in rest;
    if rest != {} {
      var m := FindLeast(rest);
      l := if l < m then l else m;
    }
  }

  lemma HasLeast(slots: set<Slot>)
    requires slots != {}
    ensures exists s | s in slots :: forall t | t in slots :: s <= t
  {
    var l := FindLeast(slots);
  }

  ghost function Least(slots: set<Slot>): (s: Slot)
    requires slots != {}
    ensures s in slots && forall t | t in slots :: s <= t
  {
    HasLeast(slots);
    var s :| s in slots && forall t | t in slots :: s <= t;
    s
  }

  /** The slot that is emitted next, if one is. */
  ghost function Ready(b: Buffer): (r: Option<Slot>)
  {
    if b.pending == map[] then None
    else if b.next.None? then Some(Least(b.pending.Keys))
    else if b.next.value in b.pending then b.next
    else if |b.pending| > MAX_REORDERED_SLOTS then Some(Least(b.pending.Keys))
    else None
  }

  function Emitted(b: Buffer, s: Slot): (next: Buffer)
  {
    b.(pending := b.pending - {s}, next := Some(Successor(s)))
  }

  class Stream {
    var candidates: map<Key, nat>
    var finalized: set<Key>
    var pending: map<Slot, Update>
    var next: Option<Slot>

    ghost function Now(): (next: Buffer)
      reads this
    {
      Buffer(candidates, finalized, pending, next)
    }

    constructor ()
      ensures Now() == Empty()
    {
      candidates, finalized, pending, next := map[], {}, map[], None;
    }

    method FirstPending() returns (s: Slot)
      requires pending != map[]
      ensures s == Least(pending.Keys)
    {
      var rest := pending.Keys;
      s :| s in rest;
      rest := rest - {s};
      while rest != {}
        invariant rest <= pending.Keys && s in pending
        invariant forall t | t in pending :: t in rest || s <= t
        decreases |rest|
      {
        var t: Slot :| t in rest;
        if t < s {
          s := t;
        }
        rest := rest - {t};
      }
    }

    method PopReady() returns (update: Option<Update>)
      modifies this
      ensures Ready(old(Now())).None? ==> update.None? && Now() == old(Now())
      ensures Ready(old(Now())).Some? ==>
                var s := Ready(old(Now())).value;
                update == Some(old(pending)[s]) && Now() == Emitted(old(Now()), s)
      // nothing is ready before the first block, nor while at most 32 wait for the slot that is due
      ensures update.None? <==>
                if old(next).None? then old(pending) == map[]
                else old(next).value !in old(pending) && |old(pending)| <= 32
      // the slot that is due goes first, or else the least one; the slot after it is due next
      ensures update.Some? ==>
                exists s | s in old(pending) ::
                  && update == Some(old(pending)[s])
                  && (if old(next).Some? && old(next).value in old(pending) then old(next) == Some(s)
                      else forall t | t in old(pending) :: s <= t)
                  && pending == old(pending) - {s} && next == Some(if s < MAX_SLOT then s + 1 else s)
    {
      if next.None? {
        if pending == map[] {
          return None;
        }
        var first := FirstPending();
        next := Some(first);
      }
      var slot;
      if next.value in pending {
        slot := next.value;
      } else if |pending| > MAX_REORDERED_SLOTS {
        slot := FirstPending();
      } else {
        return None;
      }
      update := Some(pending[slot]);
      pending := pending - {slot};
      next := Some(Successor(slot));
    }

    method PromoteFinalized(order: seq<Key>)
      modifies this
      ensures Now() == Promote(old(Now()), order)
      ensures Visited(old(Now()), Now(), order) && Promoted(old(Now()), Now(), order)
    {
      PromoteMeans(Now(), order);
      assert order[..0] == [];
      for i := 0 to |order|
        invariant Now() == Promote(old(Now()), order[..i])
      {
        var key := order[i];
        assert order[..i + 1][..i] == order[..i];
        if next.Some? && key.slot < next.value {
          finalized := finalized - {key};
          candidates := candidates - {key};
        } else if key in candidates {
          var raw := candidates[key];
          candidates := candidates - {key};
          finalized := finalized - {key};
          pending := pending[key.slot := Update(key, raw)];
        }
      }
      assert order[..|order|] == order;
    }

    method Receive(a: Arrival)
      modifies this
      ensures Now() == Received(old(Now()), a)
      // a block without an id is passed over; any other is entered, and then what is finalized
      // is promoted
      ensures a.id.None? ==> Now() == old(Now())
      ensures a.id.Some? ==>
                var e := Entered(old(Now()), a);
                Enters(old(Now()), e, a) && Visited(e, Now(), a.order) && Promoted(e, Now(), a.order)
    {
      if a.id.None? {
        return;
      }
      var key := Key(a.slot, a.id.value);
      candidates := candidates[key := a.raw] - (a.dropped - {key});
      ghost var entered, before := candidates, finalized;
      for i := 0 to |a.certified|
        invariant finalized == before + set c | c in a.certified[..i]
        invariant Now() == old(Now()).(candidates := entered, finalized := finalized)
      {
        assert a.certified[..i + 1] == a.certified[..i] + [a.certified[i]];
        finalized := finalized + {a.certified[i]};
      }
      assert a.certified[..|a.certified|] == a.certified;
      finalized := finalized - a.forgotten;
      assert finalized == Entered(old(Now()), a).finalized;
      PromoteFinalized(a.order);
    }

    /** Run until a confirmation is ready or the channel is exhausted; `used` arrivals
        have then been taken from it. */
    method Next(channel: seq<Arrival>) returns (update: Option<Update>, used: nat)
      modifies this
      ensures used <= |channel|
      ensures update == NextUpdate(old(Now()), channel)
      ensures Now() == NextBuffer(old(Now()), channel)
      ensures update.None? ==> used == |channel| && Ready(Now()).None?
    {
      used := 0;
      while true
        invariant used <= |channel|
        invariant NextUpdate(Now(), channel[used..]) == NextUpdate(old(Now()), channel)
        invariant NextBuffer(Now(), channel[used..]) == NextBuffer(old(Now()), channel)
        decreases |channel| - used
      {
        update := PopReady();
        if update.Some? || used == |channel| {
          return;
        }
        Receive(channel[used]);
        assert channel[used..][1..] == channel[used + 1..];
        used := used + 1;
      }
    }
  }

  /** The confirmation that the next call returns, given what is in the channel. */
  ghost function NextUpdate(b: Buffer, channel: seq<Arrival>): (r: Option<Update>)
    decreases |channel|
  {
    if Ready(b).Some? then Some(b.pending[Ready(b).value])
    else if channel == [] then None
    else NextUpdate(Received(b, channel[0]), channel[1..])
  }

  ghost function NextBuffer(b: Buffer, channel: seq<Arrival>): (next: Buffer)
    decreases |channel|
  {
    if Ready(b).Some? then Emitted(b, Ready(b).value)
    else if channel == [] then b
    else NextBuffer(Received(b, channel[0]), channel[1..])
  }
}
