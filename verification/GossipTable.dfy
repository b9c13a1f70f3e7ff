/** One overlay node's advert table and its flooding behaviour. */
module GossipTable {
  import opened Options

  /** A peer advert; `body` stands for the reachability and repair fields. */
  datatype Advert = Advert(origin: nat, number: nat, ttlMs: nat, body: nat)

  datatype Entry = Entry(advert: Advert, observedAt: nat)

  datatype Outcome = Accepted | Refreshed | Stale

  type Table = map<nat, Entry>

  /** A frame on its way; `from` is the authenticated sender, if there is one, and
      `genuine` says whether the signature verifies. */
  datatype Message = Message(from: Option<nat>, to: nat, advert: Advert, genuine: bool)

  predicate Expired(ttl: nat, entry: Entry, now: nat)
  {
    var limit := if ttl <= entry.advert.ttlMs then ttl else entry.advert.ttlMs;
    (if now >= entry.observedAt then now - entry.observedAt else 0) > limit
  }

  /** The supersession rule. */
  function Judge(ttl: nat, table: Table, advert: Advert, now: nat): (r: Outcome)
  {
    if advert.origin in table && !Expired(ttl, table[advert.origin], now) then
      var held := table[advert.origin].advert.number;
      if advert.number < held then Stale else if advert.number == held then Refreshed else Accepted
    else Accepted
  }

  function Upserted(ttl: nat, table: Table, advert: Advert, now: nat): (t: Table)
  {
    if Judge(ttl, table, advert, now) == Stale then table else table[advert.origin := Entry(advert, now)]
  }

  /** One copy for every connected peer that is not skipped, in order. */
  function Broadcast(me: nat, peers: seq<nat>, skip: set<nat>, advert: Advert): (out: seq<Message>)
    ensures |out| <= |peers|
    ensures forall m :: m in out <==>
              m.from == Some(me) && m.advert == advert && m.genuine && m.to in peers && m.to != me && m.to !in skip
  {
    if peers == [] then []
    else
      var rest := Broadcast(me, peers[..|peers| - 1], skip, advert);
      var last := peers[|peers| - 1];
      if last == me || last in skip then rest else rest + [Message(Some(me), last, advert, true)]
  }

  /** Every connected peer gets as many copies as it has connections listed, if it is
      neither the node itself nor skipped, and else none. */
  lemma {:induction false} BroadcastOnce(me: nat, peers: seq<nat>, skip: set<nat>, advert: Advert, p: nat)
    ensures multiset(Broadcast(me, peers, skip, advert))[Message(Some(me), p, advert, true)] ==
              if p == me || p in skip then 0 else multiset(peers)[p]
    decreases |peers|
  {
    if peers != [] {
      BroadcastOnce(me, peers[..|peers| - 1], skip, advert, p);
      assert peers == peers[..|peers| - 1] + [peers[|peers| - 1]];
    }
  }

  function Skipped(origin: nat, sender: Option<nat>): (s: set<nat>)
  {
    {origin} + if sender.Some? then {sender.value} else {}
  }

  /** What receiving a frame does to the table. */
  function Received(me: nat, ttl: nat, table: Table, advert: Advert, genuine: bool, now: nat): (t: Table)
  {
    if advert.origin == me || !genuine then table else Upserted(ttl, table, advert, now)
  }

  /** What receiving a frame sends on: only an accepted advert travels further. */
  function Relayed(me: nat, ttl: nat, table: Table, peers: seq<nat>, from: Option<nat>, advert: Advert, genuine: bool,
                   now: nat)
    : (out: seq<Message>)
    ensures |out| <= |peers|
  {
    if advert.origin != me && genuine && Judge(ttl, table, advert, now) == Accepted
    then Broadcast(me, peers, Skipped(advert.origin, from), advert) else []
  }

  class Node {
    const me: nat
    const ttl: nat
    var table: Table
    var advertSeq: nat
    var outbox: seq<Message>

    constructor (me: nat, ttl: nat)
      ensures this.me == me && this.ttl == ttl && table == map[] && advertSeq == 0 && outbox == []
    {
      this.me, this.ttl := me, ttl;
      table, advertSeq, outbox := map[], 0, [];
    }

    /** The number held for an origin, as long as its entry lives. */
    function Live(origin: nat, now: nat): (number: Option<nat>)
      reads this`table
      ensures number.Some? ==> origin in table && number.value == table[origin].advert.number
      ensures number.Some? <==>
                origin in table && now <= table[origin].observedAt + ttl &&
                now <= table[origin].observedAt + table[origin].advert.ttlMs
    {
      if origin in table && !Expired(ttl, table[origin], now) then Some(table[origin].advert.number) else None
    }

    method Upsert(advert: Advert, now: nat) returns (outcome: Outcome)
      modifies this`table
      ensures table == Upserted(ttl, old(table), advert, now) && outcome == Judge(ttl, old(table), advert, now)
      // other origins are untouched
      ensures table - {advert.origin} == old(table) - {advert.origin}
      // what is held is never older than what was offered or what was live
      ensures advert.origin in table
      ensures outcome.Stale? <==> table[advert.origin].advert.number > advert.number
      ensures table[advert.origin].advert.number >= advert.number
      ensures var was := old(Live(advert.origin, now));
              was.Some? ==> table[advert.origin].advert.number >= was.value
      // only news is accepted
      ensures var was := old(Live(advert.origin, now));
              outcome.Accepted? <==> was.None? || was.value < advert.number
      ensures !outcome.Stale? ==>
                table[advert.origin] == Entry(advert, now) && Live(advert.origin, now) == Some(advert.number)
    {
      outcome := Accepted;
      if advert.origin in table && !Expired(ttl, table[advert.origin], now) {
        var held := table[advert.origin].advert.number;
        if advert.number < held {
          return Stale;
        } else if advert.number == held {
          outcome := Refreshed;
        }
      }
      table := table[advert.origin := Entry(advert, now)];
    }

    method Queue(peers: seq<nat>, skip: set<nat>, advert: Advert)
      modifies this`outbox
      ensures outbox == old(outbox) + Broadcast(me, peers, skip, advert)
    {
      for k := 0 to |peers|
        invariant outbox == old(outbox) + Broadcast(me, peers[..k], skip, advert)
      {
        assert peers[..k + 1][..k] == peers[..k];
        if peers[k] != me && peers[k] !in skip {
          outbox := outbox + [Message(Some(me), peers[k], advert, true)];
        }
      }
      assert peers[..|peers|] == peers;
    }

    /** The frame is genuine news of somebody else: it supersedes what is held, if that still lives. */
    predicate News(advert: Advert, genuine: bool, now: nat)
      reads this`table
    {
      && advert.origin != me && genuine
      && (Live(advert.origin, now).Some? ==> Live(advert.origin, now).value < advert.number)
    }

    /** An advert frame arrives. */
    method HandleAdvert(peers: seq<nat>, from: Option<nat>, advert: Advert, genuine: bool, now: nat)
      modifies this`table, this`outbox
      ensures table == Received(me, ttl, old(table), advert, genuine, now)
      ensures outbox == old(outbox) + Relayed(me, ttl, old(table), peers, from, advert, genuine, now)
      // forged frames, its own adverts and older ones than it holds change nothing; any other is held
      ensures var was := old(Live(advert.origin, now));
              table == if advert.origin == me || !genuine || (was.Some? && advert.number < was.value) then old(table)
                       else old(table)[advert.origin := Entry(advert, now)]
      // only news is sent on
      ensures !old(News(advert, genuine, now)) ==> outbox == old(outbox)
      // what is sent goes neither to the origin nor back to the sender
      ensures old(outbox) <= outbox
      ensures forall m | m in outbox[|old(outbox)|..] ::
                m.from == Some(me) && m.advert == advert && m.genuine && m.to != advert.origin && from != Some(m.to)
      // and every other connection gets its one copy of the news
      ensures old(News(advert, genuine, now)) ==>
                forall p | p != me && p != advert.origin && from != Some(p) ::
                  multiset(outbox[|old(outbox)|..])[Message(Some(me), p, advert, true)] == multiset(peers)[p]
    {
      forall p {
        BroadcastOnce(me, peers, Skipped(advert.origin, from), advert, p);
      }
      if advert.origin == me || !genuine {
        return;
      }
      var outcome := Upsert(advert, now);
      if outcome == Accepted {
        Queue(peers, Skipped(advert.origin, from), advert);
      }
    }

    /** Sign and flood this cycle's own advert. */
    method Advertise(peers: seq<nat>, ttlMs: nat, body: nat)
      modifies this`advertSeq, this`outbox
      ensures advertSeq == old(advertSeq) + 1
      ensures outbox == old(outbox) + Broadcast(me, peers, {}, Advert(me, advertSeq, ttlMs, body))
      // every connection gets its one copy of the new advert, and nothing else is sent
      ensures old(outbox) <= outbox
      ensures forall p | p != me ::
                multiset(outbox[|old(outbox)|..])[Message(Some(me), p, Advert(me, advertSeq, ttlMs, body), true)] ==
                multiset(peers)[p]
      ensures forall m | m in outbox[|old(outbox)|..] ::
                m.from == Some(me) && m.advert == Advert(me, advertSeq, ttlMs, body) && m.genuine && m.to in peers
    {
      advertSeq := advertSeq + 1;
      var advert := Advert(me, advertSeq, ttlMs, body);
      forall p {
        BroadcastOnce(me, peers, {}, advert, p);
      }
      Queue(peers, {}, advert);
    }
  }
}
