/** Whole runs of the confirmation stream: order, origin and completeness of what it emits. */
module AlpenglowRuns {
  import opened Options
  import opened Slots
  import opened AlpenglowStream

  /** One confirmation, with the slot that was due and how many blocks were held. */
  datatype Emission = Emission(update: Update, due: Option<Slot>, held: nat)

  /** The stream with its history: all it has emitted, all blocks it has received and all
      certificates it has verified. */
  datatype Log = Log(buffer: Buffer, emitted: seq<Emission>, seen: set<Update>, certified: set<Key>)

  function Opening(): (next: Log) { Log(Empty(), [], {}, {}) }

  ghost function Popped(l: Log): (next: Log)
    requires Ready(l.buffer).Some?
  {
    var b, s := l.buffer, Ready(l.buffer).value;
    l.(buffer := Emitted(b, s), emitted := l.emitted + [Emission(b.pending[s], b.next, |b.pending|)])
  }

  function Taken(l: Log, a: Arrival): (next: Log)
  {
    if a.id.None? then l
    else l.(buffer := Received(l.buffer, a), seen := l.seen + {Update(Key(a.slot, a.id.value), a.raw)},
            certified := l.certified + set c | c in a.certified)
  }

  lemma PopShrinks(b: Buffer)
    requires Ready(b).Some?
    ensures |Emitted(b, Ready(b).value).pending| < |b.pending|
  {
  }

  /** Everything the stream does with a channel: emit while something is ready, and take
      the next arrival when nothing is. */
  ghost function Played(l: Log, channel: seq<Arrival>): (next: Log)
    decreases |channel|, |l.buffer.pending|
  {
    if Ready(l.buffer).Some? then
      PopShrinks(l.buffer);
      Played(Popped(l), channel)
    else if channel == [] then l
    else Played(Taken(l, channel[0]), channel[1..])
  }

  lemma {:induction false} EmittedExtends(l: Log, channel: seq<Arrival>)
    ensures l.emitted <= Played(l, channel).emitted
    decreases |channel|, |l.buffer.pending|
  {
    if Ready(l.buffer).Some? {
      PopShrinks(l.buffer);
      EmittedExtends(Popped(l), channel);
    } else if channel != [] {
      EmittedExtends(Taken(l, channel[0]), channel[1..]);
    }
  }

  /** A run starts with what the next call returns, and ends where that call gives up. */
  lemma {:induction false} NextIsPlayed(l: Log, channel: seq<Arrival>)
    ensures var u, p := NextUpdate(l.buffer, channel), Played(l, channel);
            if u.Some? then |l.emitted| < |p.emitted| && p.emitted[|l.emitted|].update == u.value
            else p.emitted == l.emitted && p.buffer == NextBuffer(l.buffer, channel)
    decreases |channel|
  {
    if Ready(l.buffer).Some? {
      PopShrinks(l.buffer);
      EmittedExtends(Popped(l), channel);
    } else if channel != [] {
      NextIsPlayed(Taken(l, channel[0]), channel[1..]);
    }
  }

  /** Every arrival's finalizations are visited in some order. */
  ghost predicate Orderly(l: Log, channel: seq<Arrival>)
    decreases |channel|, |l.buffer.pending|
  {
    if Ready(l.buffer).Some? then
      PopShrinks(l.buffer);
      Orderly(Popped(l), channel)
    else if channel == [] then true
    else Visits(l.buffer, channel[0]) && Orderly(Taken(l, channel[0]), channel[1..])
  }

  // ---- order ---------------------------------------------------------------------------

  /** Nothing held is before the slot that is due. */
  ghost predicate Ahead(b: Buffer)
  {
    && (forall s | s in b.pending :: b.pending[s].key.slot == s)
    && (b.next.Some? ==> forall s | s in b.pending :: b.next.value <= s)
  }

  /** `b` may follow `a`: it is later, unless slots have run out, and next, unless too
      many blocks were held. */
  predicate Follows(a: Emission, b: Emission)
  {
    && (a.update.key.slot < b.update.key.slot || a.update.key.slot == b.update.key.slot == MAX_SLOT)
    && (b.update.key.slot == Successor(a.update.key.slot) || b.held > MAX_REORDERED_SLOTS)
  }

  ghost predicate InOrder(l: Log)
  {
    && Ahead(l.buffer)
    && (l.emitted == [] <==> l.buffer.next.None?)
    && (l.emitted != [] ==> l.buffer.next == Some(Successor(l.emitted[|l.emitted| - 1].update.key.slot)))
    && forall i | 0 < i < |l.emitted| :: Follows(l.emitted[i - 1], l.emitted[i])
  }

  lemma {:induction false} PromoteAhead(b: Buffer, order: seq<Key>)
    requires Ahead(b)
    ensures Ahead(Promote(b, order)) && Promote(b, order).next == b.next
    decreases |order|
  {
    if order != [] {
      PromoteAhead(b, order[..|order| - 1]);
    }
  }

  lemma TakeInOrder(l: Log, a: Arrival)
    requires InOrder(l)
    ensures InOrder(Taken(l, a))
  {
    if a.id.Some? {
      PromoteAhead(Entered(l.buffer, a), a.order);
    }
  }

  lemma PopInOrder(l: Log)
    requires InOrder(l) && Ready(l.buffer).Some?
    ensures InOrder(Popped(l))
  {
  }

  lemma {:induction false} PlayedInOrder(l: Log, channel: seq<Arrival>)
    requires InOrder(l)
    ensures InOrder(Played(l, channel)) && Ready(Played(l, channel).buffer).None?
    decreases |channel|, |l.buffer.pending|
  {
    if Ready(l.buffer).Some? {
      PopShrinks(l.buffer);
      PopInOrder(l);
      PlayedInOrder(Popped(l), channel);
    } else if channel != [] {
      TakeInOrder(l, channel[0]);
      PlayedInOrder(Taken(l, channel[0]), channel[1..]);
    }
  }

  lemma {:induction false} FollowsFar(e: seq<Emission>, i: nat, j: nat)
    requires i < j < |e| && forall k | 0 < k < |e| :: Follows(e[k - 1], e[k])
    ensures e[i].update.key.slot < e[j].update.key.slot || e[i].update.key.slot == e[j].update.key.slot == MAX_SLOT
    decreases j
  {
    assert Follows(e[j - 1], e[j]);
    if i < j - 1 {
      FollowsFar(e, i, j - 1);
    }
  }

  /** In every run emitted slots increase strictly below the largest slot; a slot is
      skipped only while more than 32 blocks are held; and when the stream waits for
      input it holds at most 32, and not the one that is due (none at all before the first). */
  lemma EmitsInOrder(channel: seq<Arrival>)
    ensures var l := Played(Opening(), channel);
            && (forall i, j | 0 <= i < j < |l.emitted| ::
                  l.emitted[i].update.key.slot < l.emitted[j].update.key.slot ||
                  l.emitted[i].update.key.slot == l.emitted[j].update.key.slot == MAX_SLOT)
            && (forall i | 0 < i < |l.emitted| ::
                  l.emitted[i].update.key.slot == l.emitted[i - 1].update.key.slot + 1 ||
                  l.emitted[i].held > 32 || l.emitted[i - 1].update.key.slot == MAX_SLOT)
            && |l.buffer.pending| <= 32
            && if l.buffer.next.None? then l.buffer.pending == map[] else l.buffer.next.value !in l.buffer.pending
  {
    var l := Played(Opening(), channel);
    PlayedInOrder(Opening(), channel);
    forall i, j | 0 <= i < j < |l.emitted|
      ensures l.emitted[i].update.key.slot < l.emitted[j].update.key.slot ||
              l.emitted[i].update.key.slot == l.emitted[j].update.key.slot == MAX_SLOT
    {
      FollowsFar(l.emitted, i, j);
    }
    forall i | 0 < i < |l.emitted|
      ensures Follows(l.emitted[i - 1], l.emitted[i])
    {
    }
  }

  // ---- origin ----------------------------------------------------------------------------

  /** Every block in the tables or emitted was received, and is certified where it is
      said to be. */
  ghost predicate Sourced(l: Log)
  {
    && (forall k | k in l.buffer.candidates :: Update(k, l.buffer.candidates[k]) in l.seen)
    && l.buffer.finalized <= l.certified
    && (forall s | s in l.buffer.pending :: Genuine(l, l.buffer.pending[s]))
    && (forall i | 0 <= i < |l.emitted| :: Genuine(l, l.emitted[i].update))
  }

  predicate Genuine(l: Log, u: Update) { u in l.seen && u.key in l.certified }

  lemma {:induction false} PromoteSourced(l: Log, order: seq<Key>)
    requires Sourced(l) && forall k | k in order :: k in l.certified
    ensures Sourced(l.(buffer := Promote(l.buffer, order)))
    decreases |order|
  {
    if order != [] {
      PromoteSourced(l, order[..|order| - 1]);
      var p := l.(buffer := Promote(l.buffer, order[..|order| - 1]));
      var k := order[|order| - 1];
      assert k in order;
      OneSourced(p, k);
    }
  }

  lemma OneSourced(l: Log, k: Key)
    requires Sourced(l) && k in l.certified
    ensures Sourced(l.(buffer := PromoteOne(l.buffer, k)))
  {
  }

  lemma TakeSourced(l: Log, a: Arrival)
    requires Sourced(l) && Visits(l.buffer, a)
    ensures Sourced(Taken(l, a))
  {
    if a.id.Some? {
      var t := Taken(l, a).(buffer := Entered(l.buffer, a));
      assert Sourced(t);
      PromoteSourced(t, a.order);
    }
  }

  lemma PopSourced(l: Log)
    requires Sourced(l) && Ready(l.buffer).Some?
    ensures Sourced(Popped(l))
  {
  }

  lemma {:induction false} PlayedSourced(l: Log, channel: seq<Arrival>)
    requires Sourced(l) && Orderly(l, channel)
    ensures Sourced(Played(l, channel))
    decreases |channel|, |l.buffer.pending|
  {
    if Ready(l.buffer).Some? {
      PopShrinks(l.buffer);
      PopSourced(l);
      PlayedSourced(Popped(l), channel);
    } else if channel != [] {
      TakeSourced(l, channel[0]);
      PlayedSourced(Taken(l, channel[0]), channel[1..]);
    }
  }

  /** Every emitted block was received with that block id, and was certified. */
  lemma EmitsGenuine(channel: seq<Arrival>, i: nat)
    requires Orderly(Opening(), channel) && i < |Played(Opening(), channel).emitted|
    ensures Genuine(Played(Opening(), channel), Played(Opening(), channel).emitted[i].update)
  {
    PlayedSourced(Opening(), channel);
  }

  // ---- completeness ------------------------------------------------------------------------

  /** `k` waits to be emitted, or the stream has moved past its slot. */
  predicate Settled(b: Buffer, k: Key)
  {
    Past(b, k) || (k.slot in b.pending && b.pending[k.slot].key == k)
  }

  /** Until it is settled, a received block stays a candidate and a certificate stays known. */
  ghost predicate Remembers(l: Log)
  {
    && (forall u | u in l.seen :: u.key in l.buffer.candidates || Settled(l.buffer, u.key))
    && (forall k | k in l.certified :: k in l.buffer.finalized || Settled(l.buffer, k))
  }

  ghost predicate Unmatched(b: Buffer) { forall k | k in b.finalized :: k !in b.candidates }

  /** At most one block of each slot is certified. */
  ghost predicate Agreed(certified: set<Key>)
  {
    forall j, k | j in certified && k in certified && j.slot == k.slot :: j == k
  }

  lemma OneRemembers(l: Log, k: Key)
    requires Remembers(l) && Sourced(l) && Agreed(l.certified) && k in l.certified && Ahead(l.buffer)
    ensures Remembers(l.(buffer := PromoteOne(l.buffer, k)))
  {
  }

  lemma {:induction false} PromoteRemembers(l: Log, order: seq<Key>)
    requires Remembers(l) && Sourced(l) && Agreed(l.certified) && Ahead(l.buffer)
    requires forall k | k in order :: k in l.certified
    ensures Remembers(l.(buffer := Promote(l.buffer, order)))
    decreases |order|
  {
    if order != [] {
      var before := order[..|order| - 1];
      PromoteRemembers(l, before);
      PromoteSourced(l, before);
      PromoteAhead(l.buffer, before);
      assert order[|order| - 1] in order;
      OneRemembers(l.(buffer := Promote(l.buffer, before)), order[|order| - 1]);
    }
  }

  lemma {:induction false} PromoteMatches(b: Buffer, order: seq<Key>)
    ensures var t := Promote(b, order);
            && t.finalized <= b.finalized && t.candidates.Keys <= b.candidates.Keys
            && forall k | k in order && k in t.finalized :: k !in t.candidates
    decreases |order|
  {
    if order != [] {
      PromoteMatches(b, order[..|order| - 1]);
      assert order == order[..|order| - 1] + [order[|order| - 1]];
    }
  }

  /** The arrival evicts nothing. */
  predicate Calm(a: Arrival) { a.dropped == {} && a.forgotten == {} }

  ghost predicate Complete(l: Log)
  {
    InOrder(l) && Sourced(l) && Remembers(l) && Unmatched(l.buffer)
  }

  lemma EnterRemembers(l: Log, a: Arrival)
    requires Remembers(l) && Calm(a) && a.id.Some?
    ensures Remembers(Taken(l, a).(buffer := Entered(l.buffer, a)))
  {
  }

  lemma TakeComplete(l: Log, a: Arrival)
    requires Complete(l) && Visits(l.buffer, a) && Calm(a) && Agreed(Taken(l, a).certified)
    ensures Complete(Taken(l, a))
  {
    TakeInOrder(l, a);
    TakeSourced(l, a);
    if a.id.Some? {
      var e := Entered(l.buffer, a);
      var t := Taken(l, a).(buffer := e);
      EnterRemembers(l, a);
      assert Sourced(t);
      PromoteRemembers(t, a.order);
      PromoteMatches(e, a.order);
    }
  }

  lemma PopComplete(l: Log)
    requires Complete(l) && Ready(l.buffer).Some? && Ready(l.buffer).value < MAX_SLOT
    ensures Complete(Popped(l))
  {
    PopInOrder(l);
    PopSourced(l);
    var b, t := l.buffer, Popped(l).buffer;
    forall k: Key | Settled(b, k)
      ensures Settled(t, k)
    {
    }
  }

  /** The whole run is free of evictions, of rival certificates and of the last slot. */
  ghost predicate Undisturbed(l: Log, channel: seq<Arrival>)
    decreases |channel|, |l.buffer.pending|
  {
    if Ready(l.buffer).Some? then
      PopShrinks(l.buffer);
      Ready(l.buffer).value < MAX_SLOT && Undisturbed(Popped(l), channel)
    else if channel == [] then true
    else
      Visits(l.buffer, channel[0]) && Calm(channel[0]) && Agreed(Taken(l, channel[0]).certified) &&
      Undisturbed(Taken(l, channel[0]), channel[1..])
  }

  lemma {:induction false} PlayedComplete(l: Log, channel: seq<Arrival>)
    requires Complete(l) && Undisturbed(l, channel)
    ensures Complete(Played(l, channel))
    decreases |channel|, |l.buffer.pending|
  {
    if Ready(l.buffer).Some? {
      PopShrinks(l.buffer);
      PopComplete(l);
      PlayedComplete(Popped(l), channel);
    } else if channel != [] {
      TakeComplete(l, channel[0]);
      PlayedComplete(Taken(l, channel[0]), channel[1..]);
    }
  }

  /** In an undisturbed run every block that is both received and certified waits to be
      emitted, unless the stream has moved past its slot. */
  lemma NothingStuck(channel: seq<Arrival>, u: Update)
    requires Undisturbed(Opening(), channel)
    requires Genuine(Played(Opening(), channel), u)
    ensures Settled(Played(Opening(), channel).buffer, u.key)
  {
    PlayedComplete(Opening(), channel);
  }

  // ---- the last slot -------------------------------------------------------------------------

  lemma {:induction false} PromoteHolds(b: Buffer, order: seq<Key>, k: Key)
    requires k in b.candidates && !Past(b, k)
    ensures var t := Promote(b, order); t.next == b.next && (k in t.candidates || k.slot in t.pending)
    decreases |order|
  {
    if order != [] {
      PromoteHolds(b, order[..|order| - 1], k);
    }
  }

  /** A candidate that is visited and not past becomes pending, or shares its slot with one. */
  lemma {:induction false} PromotePends(b: Buffer, order: seq<Key>, k: Key)
    requires k in b.candidates && !Past(b, k) && k in order
    ensures k.slot in Promote(b, order).pending
    decreases |order|
  {
    var before, j := order[..|order| - 1], order[|order| - 1];
    assert order == before + [j];
    if k in before {
      PromotePends(b, before, k);
    } else {
      PromoteHolds(b, before, k);
    }
  }

  /** After a slot has been emitted, and whatever else is remembered, a block of it that is
      received and certified once more is emitted next exactly if the slot is the last one,
      whose successor is itself. */
  lemma RepeatsIff(l: Log, a: Arrival, k: Key)
    requires InOrder(l) && l.emitted != [] && Ready(l.buffer).None?
    requires a.id.Some? && Visits(l.buffer, a)
    requires k.slot == l.emitted[|l.emitted| - 1].update.key.slot
    requires k in Entered(l.buffer, a).finalized && k in Entered(l.buffer, a).candidates
    ensures Ready(Taken(l, a).buffer) == Some(k.slot) <==> k.slot == MAX_SLOT
  {
    var e := Entered(l.buffer, a);
    PromoteAhead(e, a.order);
    if k.slot == MAX_SLOT {
      PromotePends(e, a.order, k);
    }
  }

  /** A block that carries its own certificate. */
  function Certified(s: Slot, hash: nat): (r: Arrival)
  {
    Arrival(s, Some(hash), hash, [Key(s, hash)], {}, {}, [Key(s, hash)])
  }

  lemma TakesCertified(b: Buffer, s: Slot, hash: nat)
    requires b.finalized == {} && b.candidates == map[]
    ensures var k := Key(s, hash);
            Received(b, Certified(s, hash)) ==
              Buffer(map[], {}, if Past(b, k) then b.pending else b.pending[s := Update(k, hash)], b.next)
    ensures Visits(b, Certified(s, hash))
  {
    var a := Certified(s, hash);
    var e := Entered(b, a);
    assert e.finalized == {Key(s, hash)} && e.candidates == map[Key(s, hash) := hash];
    assert a.order[..0] == [];
    assert Promote(e, a.order) == PromoteOne(e, Key(s, hash));
  }

  /** Nothing is remembered, and `s` may be emitted. */
  predicate Awaits(l: Log, s: Slot)
  {
    l.buffer == Buffer(map[], {}, map[], l.buffer.next) && (l.buffer.next.Some? ==> l.buffer.next.value == s)
  }

  /** A certified block that is awaited is emitted at once. */
  lemma EmitsCertified(l: Log, s: Slot, hash: nat, channel: seq<Arrival>) returns (m: Log)
    requires Awaits(l, s) && channel != [] && channel[0] == Certified(s, hash)
    ensures Played(l, channel) == Played(m, channel[1..]) && Ready(m.buffer).None?
    ensures m.buffer == Buffer(map[], {}, map[], Some(Successor(s)))
    ensures |m.emitted| == |l.emitted| + 1 && m.emitted[..|l.emitted|] == l.emitted
    ensures m.emitted[|l.emitted|].update.key == Key(s, hash)
  {
    TakesCertified(l.buffer, s, hash);
    var t := Taken(l, channel[0]);
    assert t.buffer.pending.Keys == {s} && Ready(t.buffer) == Some(s);
    m := Popped(t);
    PopShrinks(t.buffer);
  }

  lemma NothingMore(l: Log, channel: seq<Arrival>)
    requires Ready(l.buffer).None? && channel == []
    ensures Played(l, channel) == l
  {
  }

  /** The witness: a run of two arrivals that emits the last slot twice. */
  lemma LastSlotTwice(h: nat, h': nat) returns (channel: seq<Arrival>, l: Log)
    ensures |channel| == 2 && channel[0] == Certified(MAX_SLOT, h) && channel[1] == Certified(MAX_SLOT, h')
    ensures l == Played(Opening(), channel) && |l.emitted| == 2
    ensures l.emitted[0].update.key == Key(MAX_SLOT, h) && l.emitted[1].update.key == Key(MAX_SLOT, h')
  {
    channel := [Certified(MAX_SLOT, h), Certified(MAX_SLOT, h')];
    var o := Opening();
    var m := EmitsCertified(o, MAX_SLOT, h, channel);
    l := EmitsCertified(m, MAX_SLOT, h', channel[1..]);
    NothingMore(l, channel[1..][1..]);
    assert l.emitted[0] == l.emitted[..1][0];
  }
}
