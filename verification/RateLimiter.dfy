/** The per-peer limiter of repair requests, and how many requests it can let through
    within any one second. */
module RateLimiter {

  /** One second, in milliseconds. */
  const RATE_LIMIT_WINDOW: nat := 1000

  type Peer = nat

  datatype Window = Window(start: nat, count: nat)

  function Opened(peers: map<Peer, Window>, peer: Peer, now: nat): (r: Window)
  {
    var w := if peer in peers then peers[peer] else Window(now, 0);
    if now >= w.start + RATE_LIMIT_WINDOW then Window(now, 0) else w
  }

  predicate Admits(peers: map<Peer, Window>, limit: nat, peer: Peer, now: nat)
  {
    Opened(peers, peer, now).count < limit
  }

  function Checked(peers: map<Peer, Window>, limit: nat, peer: Peer, now: nat): (r: Window)
  {
    var w := Opened(peers, peer, now);
    if w.count < limit then w.(count := w.count + 1) else w
  }

  class Limiter {
    var peers: map<Peer, Window>
    const limit: nat

    constructor (limit: nat)
      ensures this.limit == limit && peers == map[]
    {
      this.limit := limit;
      peers := map[];
    }

    /** `evicted` are the peers the bounded table drops to make room. */
    method CheckAndIncrement(peer: Peer, now: nat, evicted: set<Peer>) returns (admitted: bool)
      modifies this
      ensures admitted == Admits(old(peers), limit, peer, now)
      ensures peers == After(old(peers), limit, Request(peer, now, evicted))
      // a window lasts a second and admits up to the limit; what is admitted is counted, and
      // what is refused is not
      ensures var was := if peer in old(peers) && now < old(peers)[peer].start + 1000 then old(peers)[peer]
                         else Window(now, 0);
              && (admitted <==> was.count < limit)
              && peer in peers && peers[peer] == Window(was.start, was.count + if admitted then 1 else 0)
      // no other peer's window is touched, unless it makes room
      ensures forall p | p != peer ::
                && (p in peers <==> p in old(peers) && p !in evicted)
                && (p in peers ==> peers[p] == old(peers)[p])
    {
      var window := if peer in peers then peers[peer] else Window(now, 0);
      if now >= window.start && now - window.start >= RATE_LIMIT_WINDOW {
        window := Window(now, 0);
      }
      if window.count >= limit {
        peers := peers[peer := window] - (evicted - {peer});
        return false;
      }
      window := window.(count := window.count + 1);
      peers := peers[peer := window] - (evicted - {peer});
      return true;
    }
  }

  // ---- runs ----------------------------------------------------------------------

  datatype Request = Request(peer: Peer, now: nat, evicted: set<Peer>)

  function After(peers: map<Peer, Window>, limit: nat, r: Request): (next: map<Peer, Window>)
  {
    peers[r.peer := Checked(peers, limit, r.peer, r.now)] - (r.evicted - {r.peer})
  }

  /** The table after a run of requests, starting empty. */
  function Table(limit: nat, run: seq<Request>): (r: map<Peer, Window>)
    decreases |run|
  {
    if run == [] then map[] else After(Table(limit, run[..|run| - 1]), limit, run[|run| - 1])
  }

  predicate Ordered(run: seq<Request>)
  {
    forall i, j :: 0 <= i < j < |run| ==> run[i].now <= run[j].now
  }

  predicate Kept(run: seq<Request>, peer: Peer)
  {
    forall i :: 0 <= i < |run| ==> run[i].peer == peer || peer !in run[i].evicted
  }

  predicate Counted(peers: map<Peer, Window>, limit: nat, r: Request, peer: Peer, from: nat)
  {
    r.peer == peer && from <= r.now < from + RATE_LIMIT_WINDOW && Admits(peers, limit, r.peer, r.now)
  }

  /** How many requests of `peer` were admitted in the second that starts at `from`. */
  function Admitted(limit: nat, run: seq<Request>, peer: Peer, from: nat): (n: nat)
    decreases |run|
  {
    if run == [] then 0
    else
      Admitted(limit, run[..|run| - 1], peer, from) +
      if Counted(Table(limit, run[..|run| - 1]), limit, run[|run| - 1], peer, from) then 1 else 0
  }

  // ---- the bound -------------------------------------------------------------------

  /** What a peer's window knows about its requests admitted in the second from `from`. */
  ghost predicate Bounded(limit: nat, w: Window, from: nat, admitted: nat)
  {
    && w.count <= limit && (limit > 0 ==> w.count > 0)
    && (w.start + RATE_LIMIT_WINDOW <= from ==> admitted == 0)
    && (w.start < from ==> admitted == 0 || admitted + 1 <= w.count)
    && (from <= w.start < from + RATE_LIMIT_WINDOW ==> admitted == 0 || admitted + 1 <= limit + w.count)
    && (w.start == from ==> admitted == w.count)
    && (admitted == 0 || admitted + 1 <= 2 * limit)
  }

  lemma CheckKeepsBounded(peers: map<Peer, Window>, limit: nat, r: Request, from: nat, admitted: nat)
    requires r.peer in peers ==> peers[r.peer].start <= r.now && Bounded(limit, peers[r.peer], from, admitted)
    requires r.peer !in peers ==> admitted == 0
    ensures Checked(peers, limit, r.peer, r.now).start <= r.now
    ensures Bounded(limit, Checked(peers, limit, r.peer, r.now), from,
              admitted + if Counted(peers, limit, r, r.peer, from) then 1 else 0)
  {
  }

  /** In every run a peer's window stays truthful, as long as the peer is not evicted. */
  lemma {:induction false} TableBounded(limit: nat, run: seq<Request>, peer: Peer, from: nat)
    requires Ordered(run) && Kept(run, peer)
    ensures peer in Table(limit, run) ==>
              && Bounded(limit, Table(limit, run)[peer], from, Admitted(limit, run, peer, from))
              && Table(limit, run)[peer].start <= run[|run| - 1].now
    ensures run == [] ==> peer !in Table(limit, run)
    ensures peer !in Table(limit, run) ==> Admitted(limit, run, peer, from) == 0
    decreases |run|
  {
    if run != [] {
      var before, r := run[..|run| - 1], run[|run| - 1];
      TableBounded(limit, before, peer, from);
      if r.peer == peer {
        CheckKeepsBounded(Table(limit, before), limit, r, from, Admitted(limit, before, peer, from));
      }
    }
  }

  /** In any one second at most twice the limit less one are admitted. */
  lemma SecondBound(limit: nat, run: seq<Request>, peer: Peer, from: nat)
    requires Ordered(run) && Kept(run, peer)
    ensures Admitted(limit, run, peer, from) <= if limit == 0 then 0 else 2 * limit - 1
  {
    TableBounded(limit, run, peer, from);
  }

  /** The window itself admits exactly what it has counted, which is within the limit. */
  lemma WindowBound(limit: nat, run: seq<Request>, peer: Peer)
    requires Ordered(run) && Kept(run, peer) && peer in Table(limit, run)
    ensures var w := Table(limit, run)[peer];
            Admitted(limit, run, peer, w.start) == w.count <= limit
  {
    TableBounded(limit, run, peer, Table(limit, run)[peer].start);
  }

  // ---- the bound is reached ----------------------------------------------------------

  /** `run` followed by `k` requests of peer 0 at time `t`. */
  function Burst(run: seq<Request>, t: nat, k: nat): (r: seq<Request>)
    ensures |r| == |run| + k && r[..|run|] == run
    ensures forall i | |run| <= i < |r| :: r[i] == Request(0, t, {})
    decreases k
  {
    if k == 0 then run else Burst(run, t, k - 1) + [Request(0, t, {})]
  }

  /** After `run` peer 0 has window `w`, and `n` of its requests since `from` were admitted. */
  predicate Stands(limit: nat, run: seq<Request>, from: nat, w: Window, n: nat)
  {
    0 in Table(limit, run) && Table(limit, run)[0] == w && Admitted(limit, run, 0, from) == n
  }

  /** What `k` requests at `t` add to the second from `from`. */
  function Hits(t: nat, from: nat, k: nat): (n: nat) { if from <= t < from + RATE_LIMIT_WINDOW then k else 0 }

  lemma OneMore(limit: nat, run: seq<Request>, from: nat, w: Window, n: nat, t: nat)
    requires Stands(limit, run, from, w, n) && limit > 0
    requires t < w.start + RATE_LIMIT_WINDOW ==> w.count < limit
    ensures Stands(limit, run + [Request(0, t, {})], from,
              if t < w.start + RATE_LIMIT_WINDOW then Window(w.start, w.count + 1) else Window(t, 1),
              n + Hits(t, from, 1))
  {
    assert (run + [Request(0, t, {})])[..|run|] == run;
  }

  /** A further request of a window that is open and not used up. */
  lemma OneMoreOpen(limit: nat, run: seq<Request>, from: nat, w: Window, n: nat, t: nat)
    requires Stands(limit, run, from, w, n) && t < w.start + RATE_LIMIT_WINDOW && w.count < limit
    ensures Stands(limit, run + [Request(0, t, {})], from, Window(w.start, w.count + 1), n + Hits(t, from, 1))
  {
    OneMore(limit, run, from, w, n, t);
  }

  lemma HitsMore(t: nat, from: nat, n: nat, k: nat)
    requires k > 0
    ensures n + Hits(t, from, k - 1) + Hits(t, from, 1) == n + Hits(t, from, k)
  {
  }

  lemma {:induction false} BurstAdmits(limit: nat, run: seq<Request>, from: nat, w: Window, n: nat, t: nat, k: nat)
    requires Stands(limit, run, from, w, n)
    requires t < w.start + RATE_LIMIT_WINDOW && w.count + k <= limit
    ensures Stands(limit, Burst(run, t, k), from, Window(w.start, w.count + k), n + Hits(t, from, k))
    decreases k
  {
    if k > 0 {
      var before := Burst(run, t, k - 1);
      BurstAdmits(limit, run, from, w, n, t, k - 1);
      OneMoreOpen(limit, before, from, Window(w.start, w.count + k - 1), n + Hits(t, from, k - 1), t);
      HitsMore(t, from, n, k);
    }
  }

  /** One request at `t` to open a window, the rest of that window just before it ends,
      and a whole window as soon as the next one can open. */
  function Straddle(limit: nat, t: nat): (run: seq<Request>)
    requires limit > 0
  {
    Burst(Burst([Request(0, t, {})], t + RATE_LIMIT_WINDOW - 1, limit - 1) + [Request(0, t + RATE_LIMIT_WINDOW, {})],
          t + RATE_LIMIT_WINDOW, limit - 1)
  }

  lemma StraddleOrdered(limit: nat, t: nat)
    requires limit > 0
    ensures Ordered(Straddle(limit, t)) && Kept(Straddle(limit, t), 0)
  {
  }

  lemma OpensWindow(limit: nat, t: nat, from: nat)
    requires limit > 0 && t < from
    ensures Stands(limit, [Request(0, t, {})], from, Window(t, 1), 0)
  {
  }

  lemma StraddleAdmits(limit: nat, t: nat)
    requires limit > 0
    ensures Admitted(limit, Straddle(limit, t), 0, t + RATE_LIMIT_WINDOW - 1) == 2 * limit - 1
  {
    var from: nat := t + RATE_LIMIT_WINDOW - 1;
    var first := [Request(0, t, {})];
    OpensWindow(limit, t, from);
    BurstAdmits(limit, first, from, Window(t, 1), 0, from, limit - 1);
    var filled := Burst(first, from, limit - 1);
    OneMore(limit, filled, from, Window(t, limit), limit - 1, from + 1);
    BurstAdmits(limit, filled + [Request(0, from + 1, {})], from,
                Window(from + 1, 1), limit, from + 1, limit - 1);
  }

  /** The limit holds for every second, and not only for each window, exactly for limits
      of at most one. */
  lemma SlidingExactly(limit: nat)
    ensures (forall run, peer, from | Ordered(run) && Kept(run, peer) :: Admitted(limit, run, peer, from) <= limit)
            <==> limit <= 1
  {
    if limit <= 1 {
      forall run, peer, from | Ordered(run) && Kept(run, peer)
        ensures Admitted(limit, run, peer, from) <= limit
      {
        SecondBound(limit, run, peer, from);
      }
    } else {
      var t := limit;
      StraddleOrdered(limit, t);
      StraddleAdmits(limit, t);
      assert Admitted(limit, Straddle(limit, t), 0, t + RATE_LIMIT_WINDOW - 1) > limit;
    }
  }
}
