/** Adverts flooding a network of nodes: what every step keeps, what holds when
    nothing is left in flight, and why that moment comes. */
module GossipFlood {
  import opened Options
  import opened Collections
  import opened GossipTable

  /** `g[u]` lists the peers node `u` is connected to. */
  type Graph = seq<seq<nat>>

  predicate Closed(g: Graph) { forall u, v :: 0 <= u < |g| && v in g[u] ==> v < |g| }

  /** `issued[o]` is all that origin `o` has signed, oldest first. */
  datatype Net = Net(issued: seq<seq<Advert>>, tables: seq<Table>, flight: multiset<Message>)

  function Start(g: Graph): (net: Net)
  {
    Net(seq(|g|, _ => []), seq(|g|, _ => map[]), multiset{})
  }

  /** A message may also be injected by a stranger: garbage, or a replayed advert. */
  datatype Step = Advertise(o: nat, ttlMs: nat, body: nat) | Deliver(m: Message, now: nat) | Inject(m: Message)

  predicate Issued(net: Net, a: Advert)
  {
    a.origin < |net.issued| && 1 <= a.number <= |net.issued[a.origin]| && net.issued[a.origin][a.number - 1] == a
  }

  predicate Shaped(g: Graph, net: Net) { |net.issued| == |net.tables| == |g| }

  predicate Possible(g: Graph, net: Net, st: Step)
    requires Shaped(g, net)
  {
    match st
    case Advertise(o, _, _) => o < |g|
    case Deliver(m, now) => m in net.flight && m.to < |g|
    case Inject(m) => m.from == None && m.to < |g| && (m.genuine ==> Issued(net, m.advert))
  }

  /** Delivery is reliable and tables do not expire: what is held for the origin of a
      delivered advert is still within its time to live. */
  predicate Enabled(g: Graph, ttl: nat, net: Net, st: Step)
    requires Shaped(g, net)
  {
    && Possible(g, net, st)
    && (st.Deliver? && st.m.advert.origin in net.tables[st.m.to] ==>
          !Expired(ttl, net.tables[st.m.to][st.m.advert.origin], st.now))
  }

  function After(g: Graph, ttl: nat, net: Net, st: Step): (next: Net)
    requires Shaped(g, net) && Possible(g, net, st)
    ensures Shaped(g, next)
  {
    match st
    case Advertise(o, ttlMs, body) =>
      var a := Advert(o, |net.issued[o]| + 1, ttlMs, body);
      net.(issued := net.issued[o := net.issued[o] + [a]], flight := net.flight + multiset(Broadcast(o, g[o], {}, a)))
    case Deliver(m, now) =>
      var table := net.tables[m.to];
      net.(tables := net.tables[m.to := Received(m.to, ttl, table, m.advert, m.genuine, now)],
           flight := net.flight - multiset{m}
                     + multiset(Relayed(m.to, ttl, table, g[m.to], m.from, m.advert, m.genuine, now)))
    case Inject(m) => net.(flight := net.flight + multiset{m})
  }

  /** The number of the newest advert of `o` that `u` knows; an origin knows its own. */
  function Known(net: Net, u: nat, o: nat): (s: nat)
    requires u < |net.tables| == |net.issued|
  {
    if u == o then |net.issued[o]|
    else if o in net.tables[u] then net.tables[u][o].advert.number else 0
  }

  // ---- the invariant -------------------------------------------------------------

  ghost predicate Numbered(net: Net)
  {
    forall o, k :: 0 <= o < |net.issued| && 0 <= k < |net.issued[o]| ==>
      net.issued[o][k].origin == o && net.issued[o][k].number == k + 1
  }

  /** Tables hold only what their origins issued. */
  ghost predicate Authentic(net: Net)
  {
    forall u, o :: 0 <= u < |net.tables| && o in net.tables[u] ==>
      o != u && net.tables[u][o].advert.origin == o && Issued(net, net.tables[u][o].advert)
  }

  /** An identified sender knows at least what it sent. */
  ghost predicate GoodMessage(g: Graph, net: Net, m: Message)
    requires Shaped(g, net)
  {
    && m.to < |g|
    && (m.genuine ==> Issued(net, m.advert))
    && (m.from.Some? ==>
          m.genuine && m.from.value < |g| && m.advert.number <= Known(net, m.from.value, m.advert.origin))
  }

  predicate Carries(net: Net, m: Message, u: nat, v: nat, o: nat, s: nat)
  {
    m in net.flight && m.from == Some(u) && m.to == v && m.genuine && m.advert.origin == o && m.advert.number >= s
  }

  /** What `u` knows of `o`, its peer `v` knows as well or has coming from `u`. */
  ghost predicate EdgeOk(g: Graph, net: Net, u: nat, v: nat, o: nat)
    requires Shaped(g, net) && u < |g| && v < |g| && o < |g|
  {
    v == o || Known(net, v, o) >= Known(net, u, o) || exists m :: Carries(net, m, u, v, o, Known(net, u, o))
  }

  ghost predicate EdgesOk(g: Graph, net: Net)
    requires Shaped(g, net) && Closed(g)
  {
    forall u, v, o :: 0 <= u < |g| && v in g[u] && 0 <= o < |g| ==> EdgeOk(g, net, u, v, o)
  }

  ghost predicate Sound(g: Graph, net: Net)
  {
    && Shaped(g, net) && Closed(g) && Numbered(net) && Authentic(net)
    && forall m | m in net.flight :: GoodMessage(g, net, m)
  }

  ghost predicate Inv(g: Graph, net: Net)
  {
    Sound(g, net) && EdgesOk(g, net)
  }

  lemma StartInv(g: Graph)
    requires Closed(g)
    ensures Inv(g, Start(g))
  {
  }

  // ---- steps keep it -------------------------------------------------------------

  /** Nothing known is forgotten, and nothing issued is withdrawn. */
  lemma KnownGrows(g: Graph, ttl: nat, net: Net, st: Step, u: nat, o: nat)
    requires Sound(g, net) && Enabled(g, ttl, net, st) && u < |g| && o < |g|
    ensures Known(After(g, ttl, net, st), u, o) >= Known(net, u, o)
  {
  }

  lemma IssuedStays(g: Graph, ttl: nat, net: Net, st: Step, a: Advert)
    requires Shaped(g, net) && Possible(g, net, st) && Issued(net, a)
    ensures Issued(After(g, ttl, net, st), a)
  {
  }

  lemma NumberedStays(g: Graph, ttl: nat, net: Net, st: Step)
    requires Shaped(g, net) && Possible(g, net, st) && Numbered(net)
    ensures Numbered(After(g, ttl, net, st))
  {
  }

  lemma AuthenticStays(g: Graph, ttl: nat, net: Net, st: Step)
    requires Shaped(g, net) && Possible(g, net, st) && Authentic(net)
    requires st.Deliver? && st.m.genuine ==> Issued(net, st.m.advert)
    ensures Authentic(After(g, ttl, net, st))
  {
    var next := After(g, ttl, net, st);
    forall u, o | 0 <= u < |g| && o in next.tables[u]
      ensures o != u && next.tables[u][o].advert.origin == o && Issued(next, next.tables[u][o].advert)
    {
      if o in net.tables[u] && next.tables[u][o].advert == net.tables[u][o].advert {
        IssuedStays(g, ttl, net, st, net.tables[u][o].advert);
      } else {
        IssuedStays(g, ttl, net, st, st.m.advert);
      }
    }
  }

  /** A delivered advert is known where it was delivered, unless it came home or was forged. */
  lemma DeliveredIsKnown(g: Graph, ttl: nat, net: Net, m: Message, now: nat)
    requires Sound(g, net) && Enabled(g, ttl, net, Deliver(m, now)) && m.genuine
    ensures m.advert.number <= Known(After(g, ttl, net, Deliver(m, now)), m.to, m.advert.origin)
  {
  }

  lemma MessageStays(g: Graph, ttl: nat, net: Net, st: Step, m: Message)
    requires Sound(g, net) && Enabled(g, ttl, net, st) && GoodMessage(g, net, m)
    ensures GoodMessage(g, After(g, ttl, net, st), m)
  {
    if m.genuine {
      IssuedStays(g, ttl, net, st, m.advert);
      if m.from.Some? {
        KnownGrows(g, ttl, net, st, m.from.value, m.advert.origin);
      }
    }
  }

  lemma MessagesStay(g: Graph, ttl: nat, net: Net, st: Step)
    requires Sound(g, net) && Enabled(g, ttl, net, st)
    ensures forall m | m in After(g, ttl, net, st).flight :: GoodMessage(g, After(g, ttl, net, st), m)
  {
    var next := After(g, ttl, net, st);
    forall m | m in next.flight
      ensures GoodMessage(g, next, m)
    {
      if m in net.flight {
        MessageStays(g, ttl, net, st, m);
      } else if st.Deliver? {
        assert GoodMessage(g, net, st.m);
        IssuedStays(g, ttl, net, st, st.m.advert);
        DeliveredIsKnown(g, ttl, net, st.m, st.now);
      } else if st.Inject? && m.genuine {
        IssuedStays(g, ttl, net, st, m.advert);
      }
    }
  }

  lemma SoundStays(g: Graph, ttl: nat, net: Net, st: Step)
    requires Sound(g, net) && Enabled(g, ttl, net, st)
    ensures Sound(g, After(g, ttl, net, st))
  {
    AuthenticStays(g, ttl, net, st);
    MessagesStay(g, ttl, net, st);
  }

  lemma AdvertiseKeepsEdge(g: Graph, ttl: nat, net: Net, st: Step, u: nat, v: nat, o: nat)
    requires Inv(g, net) && Enabled(g, ttl, net, st) && st.Advertise?
    requires u < |g| && v in g[u] && o < |g|
    ensures EdgeOk(g, After(g, ttl, net, st), u, v, o)
  {
    var next := After(g, ttl, net, st);
    assert EdgeOk(g, net, u, v, o);
    if v == o {
    } else if u == o == st.o {
      var a := Advert(o, |net.issued[o]| + 1, st.ttlMs, st.body);
      var m := Message(Some(u), v, a, true);
      assert m in Broadcast(o, g[o], {}, a);
      assert Carries(next, m, u, v, o, Known(next, u, o));
    } else if Known(net, v, o) < Known(net, u, o) {
      var m :| Carries(net, m, u, v, o, Known(net, u, o));
      assert Carries(next, m, u, v, o, Known(next, u, o));
    }
  }

  lemma InjectKeepsEdge(g: Graph, ttl: nat, net: Net, st: Step, u: nat, v: nat, o: nat)
    requires Inv(g, net) && Enabled(g, ttl, net, st) && st.Inject?
    requires u < |g| && v in g[u] && o < |g|
    ensures EdgeOk(g, After(g, ttl, net, st), u, v, o)
  {
    var next := After(g, ttl, net, st);
    assert EdgeOk(g, net, u, v, o);
    if v != o && Known(net, v, o) < Known(net, u, o) {
      var m :| Carries(net, m, u, v, o, Known(net, u, o));
      assert Carries(next, m, u, v, o, Known(next, u, o));
    }
  }

  /** What has become known at `u` is the advert just delivered there. */
  lemma NewsWasDelivered(g: Graph, ttl: nat, net: Net, d: Message, now: nat, u: nat, o: nat)
    requires Sound(g, net) && Enabled(g, ttl, net, Deliver(d, now)) && u < |g| && o < |g|
    requires Known(After(g, ttl, net, Deliver(d, now)), u, o) > Known(net, u, o)
    ensures d.to == u != o && d.advert.origin == o && d.genuine
    ensures Judge(ttl, net.tables[u], d.advert, now) == Accepted
    ensures Known(After(g, ttl, net, Deliver(d, now)), u, o) == d.advert.number
  {
  }

  /** An accepted advert is relayed to every peer that is neither its origin nor its sender. */
  lemma NewsIsSent(g: Graph, ttl: nat, net: Net, d: Message, now: nat, v: nat)
    requires Shaped(g, net) && Enabled(g, ttl, net, Deliver(d, now)) && v in g[d.to]
    requires d.advert.origin != d.to && d.genuine && Judge(ttl, net.tables[d.to], d.advert, now) == Accepted
    requires v != d.to && v != d.advert.origin && d.from != Some(v)
    ensures Message(Some(d.to), v, d.advert, true) in After(g, ttl, net, Deliver(d, now)).flight
  {
    var m := Message(Some(d.to), v, d.advert, true);
    assert m in Broadcast(d.to, g[d.to], Skipped(d.advert.origin, d.from), d.advert);
  }

  /** News at `u` is on its way to `v`, unless `v` is the origin or the sender, who knows it. */
  lemma NewsIsRelayed(g: Graph, ttl: nat, net: Net, d: Message, now: nat, u: nat, v: nat, o: nat)
    requires Sound(g, net) && Enabled(g, ttl, net, Deliver(d, now)) && u < |g| && v in g[u] && o < |g|
    requires GoodMessage(g, net, d)
    requires Known(After(g, ttl, net, Deliver(d, now)), u, o) > Known(net, u, o)
    ensures EdgeOk(g, After(g, ttl, net, Deliver(d, now)), u, v, o)
  {
    NewsWasDelivered(g, ttl, net, d, now, u, o);
    if d.from == Some(v) {
      KnownGrows(g, ttl, net, Deliver(d, now), v, o);
    } else if v != o && v != u {
      NewsIsSent(g, ttl, net, d, now, v);
      var m := Message(Some(u), v, d.advert, true);
      assert Carries(After(g, ttl, net, Deliver(d, now)), m, u, v, o, d.advert.number);
    }
  }

  /** The receiver of a delivered advert owes it to its peers; everyone else's debts are unchanged. */
  lemma DeliverKeepsEdge(g: Graph, ttl: nat, net: Net, d: Message, now: nat, u: nat, v: nat, o: nat)
    requires Sound(g, net) && Enabled(g, ttl, net, Deliver(d, now)) && u < |g| && v in g[u] && o < |g|
    requires EdgeOk(g, net, u, v, o)
    ensures EdgeOk(g, After(g, ttl, net, Deliver(d, now)), u, v, o)
  {
    var next := After(g, ttl, net, Deliver(d, now));
    KnownGrows(g, ttl, net, Deliver(d, now), u, o);
    KnownGrows(g, ttl, net, Deliver(d, now), v, o);
    if Known(next, u, o) > Known(net, u, o) {
      NewsIsRelayed(g, ttl, net, d, now, u, v, o);
    } else if v != o && Known(next, v, o) < Known(next, u, o) {
      var m :| Carries(net, m, u, v, o, Known(net, u, o));
      if m == d {
        DeliveredIsKnown(g, ttl, net, d, now);
      }
      assert Carries(next, m, u, v, o, Known(next, u, o));
    }
  }

  lemma StepKeepsInv(g: Graph, ttl: nat, net: Net, st: Step)
    requires Inv(g, net) && Enabled(g, ttl, net, st)
    ensures Inv(g, After(g, ttl, net, st))
  {
    SoundStays(g, ttl, net, st);
    forall u, v, o | 0 <= u < |g| && v in g[u] && 0 <= o < |g|
      ensures EdgeOk(g, After(g, ttl, net, st), u, v, o)
    {
      assert EdgeOk(g, net, u, v, o);
      match st
      case Advertise(_, _, _) => AdvertiseKeepsEdge(g, ttl, net, st, u, v, o);
      case Deliver(m, now) => DeliverKeepsEdge(g, ttl, net, m, now, u, v, o);
      case Inject(_) => InjectKeepsEdge(g, ttl, net, st, u, v, o);
    }
  }

  // ---- whole executions ------------------------------------------------------------

  ghost predicate Execution(g: Graph, ttl: nat, nets: seq<Net>, steps: seq<Step>)
  {
    && Closed(g)
    && |nets| == |steps| + 1
    && (forall k :: 0 <= k < |nets| ==> Shaped(g, nets[k]))
    && nets[0] == Start(g)
    && forall k :: 0 <= k < |steps| ==>
         Enabled(g, ttl, nets[k], steps[k]) && nets[k + 1] == After(g, ttl, nets[k], steps[k])
  }

  lemma {:induction false} ExecutionInv(g: Graph, ttl: nat, nets: seq<Net>, steps: seq<Step>, k: nat)
    requires Execution(g, ttl, nets, steps) && k < |nets|
    ensures Inv(g, nets[k])
    decreases k
  {
    if k == 0 {
      StartInv(g);
    } else {
      ExecutionInv(g, ttl, nets, steps, k - 1);
      StepKeepsInv(g, ttl, nets[k - 1], steps[k - 1]);
    }
  }

  /** A chain of connections. */
  ghost predicate Path(g: Graph, p: seq<nat>)
  {
    |p| > 0 && (forall i :: 0 <= i < |p| ==> p[i] < |g|) && forall i :: 0 <= i < |p| - 1 ==> p[i + 1] in g[p[i]]
  }

  lemma {:induction false} PathSpreads(g: Graph, net: Net, p: seq<nat>, o: nat)
    requires Inv(g, net) && net.flight == multiset{} && Path(g, p) && p[0] == o
    ensures Known(net, p[|p| - 1], o) >= |net.issued[o]|
    decreases |p|
  {
    if |p| > 1 {
      var q := p[..|p| - 1];
      PathSpreads(g, net, q, o);
      assert p[|p| - 2 + 1] in g[p[|p| - 2]];
      assert EdgeOk(g, net, p[|p| - 2], p[|p| - 1], o);
    }
  }

  /** When no message is left, every node an origin's connections lead to holds the
      very advert that origin issued last, however deliveries, replays and forgeries
      were interleaved. */
  lemma Convergence(g: Graph, ttl: nat, nets: seq<Net>, steps: seq<Step>, p: seq<nat>)
    requires Execution(g, ttl, nets, steps) && nets[|steps|].flight == multiset{}
    requires Path(g, p) && p[0] != p[|p| - 1]
    ensures var net, o, v := nets[|steps|], p[0], p[|p| - 1];
            if net.issued[o] == [] then o !in net.tables[v]
            else o in net.tables[v] && net.tables[v][o].advert == net.issued[o][|net.issued[o]| - 1]
  {
    var net, o, v := nets[|steps|], p[0], p[|p| - 1];
    ExecutionInv(g, ttl, nets, steps, |steps|);
    PathSpreads(g, net, p, o);
    if o in net.tables[v] {
      assert Issued(net, net.tables[v][o].advert);
    }
  }

  // ---- authenticity under expiry, loss and eviction ----------------------------------

  /** A network that also loses messages, evicts entries and lets them expire. */
  datatype Rough = Usual(st: Step) | Lose(m: Message) | Evict(u: nat, o: nat)

  predicate Happens(g: Graph, net: Net, r: Rough)
    requires Shaped(g, net)
  {
    match r
    case Usual(st) => Possible(g, net, st)
    case Lose(_) => true
    case Evict(u, _) => u < |g|
  }

  function Roughly(g: Graph, ttl: nat, net: Net, r: Rough): (next: Net)
    requires Shaped(g, net) && Happens(g, net, r)
    ensures Shaped(g, next)
  {
    match r
    case Usual(st) => After(g, ttl, net, st)
    case Lose(m) => net.(flight := net.flight - multiset{m})
    case Evict(u, o) => net.(tables := net.tables[u := net.tables[u] - {o}])
  }

  /** Tables and genuine messages hold only what was issued. */
  ghost predicate OnlyIssued(g: Graph, net: Net)
  {
    && Shaped(g, net) && Numbered(net) && Authentic(net)
    && forall m | m in net.flight && m.genuine :: Issued(net, m.advert)
  }

  lemma FlightIssued(g: Graph, ttl: nat, net: Net, st: Step)
    requires OnlyIssued(g, net) && Possible(g, net, st)
    ensures forall m | m in After(g, ttl, net, st).flight && m.genuine :: Issued(After(g, ttl, net, st), m.advert)
  {
    var next := After(g, ttl, net, st);
    forall m | m in next.flight && m.genuine
      ensures Issued(next, m.advert)
    {
      if m in net.flight {
        IssuedStays(g, ttl, net, st, m.advert);
      } else if st.Deliver? {
        assert m.advert == st.m.advert;
        IssuedStays(g, ttl, net, st, m.advert);
      }
    }
  }

  lemma RoughKeepsIssued(g: Graph, ttl: nat, net: Net, r: Rough)
    requires OnlyIssued(g, net) && Happens(g, net, r)
    ensures OnlyIssued(g, Roughly(g, ttl, net, r))
  {
    if r.Usual? {
      NumberedStays(g, ttl, net, r.st);
      AuthenticStays(g, ttl, net, r.st);
      FlightIssued(g, ttl, net, r.st);
    }
  }

  ghost predicate RoughExecution(g: Graph, ttl: nat, nets: seq<Net>, steps: seq<Rough>)
  {
    && |nets| == |steps| + 1
    && (forall k :: 0 <= k < |nets| ==> Shaped(g, nets[k]))
    && nets[0] == Start(g)
    && forall k :: 0 <= k < |steps| ==>
         Happens(g, nets[k], steps[k]) && nets[k + 1] == Roughly(g, ttl, nets[k], steps[k])
  }

  lemma {:induction false} RoughIssued(g: Graph, ttl: nat, nets: seq<Net>, steps: seq<Rough>, k: nat)
    requires RoughExecution(g, ttl, nets, steps) && k < |nets|
    ensures OnlyIssued(g, nets[k])
    decreases k
  {
    if k > 0 {
      RoughIssued(g, ttl, nets, steps, k - 1);
      RoughKeepsIssued(g, ttl, nets[k - 1], steps[k - 1]);
    }
  }

  /** At every moment of every execution, whatever is lost, evicted or expires, a table
      entry is an advert its origin issued. */
  lemma OnlyIssuedIsHeld(g: Graph, ttl: nat, nets: seq<Net>, steps: seq<Rough>, k: nat, u: nat, o: nat)
    requires RoughExecution(g, ttl, nets, steps) && k < |nets| && u < |g| && o in nets[k].tables[u]
    ensures Issued(nets[k], nets[k].tables[u][o].advert) && nets[k].tables[u][o].advert.origin == o != u
  {
    RoughIssued(g, ttl, nets, steps, k);
  }

  // ---- termination -------------------------------------------------------------------

  /** How many adverts of `o` node `u` has yet to learn of. */
  ghost function Gap(net: Net, u: nat, o: nat): (d: nat)
  {
    if u < |net.tables| == |net.issued| && o < |net.issued| && Known(net, u, o) <= |net.issued[o]|
    then |net.issued[o]| - Known(net, u, o) else 0
  }

  ghost function RowGap(net: Net, u: nat): (d: nat) { Sum(|net.issued|, o => Gap(net, u, o)) }

  ghost function TotalGap(net: Net): (d: nat) { Sum(|net.tables|, u => RowGap(net, u)) }

  lemma DeliverGap(g: Graph, ttl: nat, net: Net, m: Message, now: nat, u: nat, o: nat)
    requires Sound(g, net) && Enabled(g, ttl, net, Deliver(m, now)) && u < |g| && o < |g|
    ensures Gap(After(g, ttl, net, Deliver(m, now)), u, o) <= Gap(net, u, o)
  {
  }

  predicate Learns(ttl: nat, net: Net, m: Message, now: nat)
    requires m.to < |net.tables|
  {
    m.advert.origin != m.to && m.genuine && Judge(ttl, net.tables[m.to], m.advert, now) == Accepted
  }

  lemma LearnGap(g: Graph, ttl: nat, net: Net, m: Message, now: nat)
    requires Sound(g, net) && Enabled(g, ttl, net, Deliver(m, now)) && Learns(ttl, net, m, now)
    ensures m.advert.origin < |g|
    ensures Gap(After(g, ttl, net, Deliver(m, now)), m.to, m.advert.origin) < Gap(net, m.to, m.advert.origin)
  {
  }

  lemma DeliverRows(g: Graph, ttl: nat, net: Net, m: Message, now: nat, u: nat)
    requires Sound(g, net) && Enabled(g, ttl, net, Deliver(m, now)) && u < |g|
    ensures RowGap(After(g, ttl, net, Deliver(m, now)), u) <= RowGap(net, u)
    ensures Learns(ttl, net, m, now) && u == m.to ==> RowGap(After(g, ttl, net, Deliver(m, now)), u) < RowGap(net, u)
  {
    var next := After(g, ttl, net, Deliver(m, now));
    forall o: nat | o < |g|
      ensures Gap(next, u, o) <= Gap(net, u, o)
    {
      DeliverGap(g, ttl, net, m, now, u, o);
    }
    SumOrder(|g|, o => Gap(next, u, o), o => Gap(net, u, o), m.advert.origin);
    if Learns(ttl, net, m, now) && u == m.to {
      LearnGap(g, ttl, net, m, now);
    }
  }

  lemma DeliverTotal(g: Graph, ttl: nat, net: Net, m: Message, now: nat)
    requires Sound(g, net) && Enabled(g, ttl, net, Deliver(m, now))
    ensures TotalGap(After(g, ttl, net, Deliver(m, now))) <= TotalGap(net)
    ensures Learns(ttl, net, m, now) ==> TotalGap(After(g, ttl, net, Deliver(m, now))) < TotalGap(net)
  {
    var next := After(g, ttl, net, Deliver(m, now));
    forall u: nat | u < |g|
      ensures RowGap(next, u) <= RowGap(net, u)
    {
      DeliverRows(g, ttl, net, m, now, u);
    }
    SumOrder(|g|, u => RowGap(next, u), u => RowGap(net, u), m.to);
    DeliverRows(g, ttl, net, m, now, m.to);
  }

  predicate Degree(g: Graph, d: nat) { forall u :: 0 <= u < |g| ==> |g[u]| <= d }

  /** Messages in flight, plus the most that what is still to learn can add. */
  ghost function Work(net: Net, d: nat): (w: nat) { |net.flight| + d * TotalGap(net) }

  /** Every delivery uses up work: an advert that is not news dies, and one that is
      news is relayed at most once per connection. */
  lemma DeliveryUsesWork(g: Graph, ttl: nat, net: Net, m: Message, now: nat, d: nat)
    requires Sound(g, net) && Enabled(g, ttl, net, Deliver(m, now)) && Degree(g, d)
    ensures Work(After(g, ttl, net, Deliver(m, now)), d) < Work(net, d)
  {
    var next := After(g, ttl, net, Deliver(m, now));
    DeliverTotal(g, ttl, net, m, now);
    var out := Relayed(m.to, ttl, net.tables[m.to], g[m.to], m.from, m.advert, m.genuine, now);
    assert |next.flight| == |net.flight| - 1 + |out|;
    if Learns(ttl, net, m, now) {
      Scale(d, TotalGap(next) + 1, TotalGap(net));
    } else {
      Scale(d, TotalGap(next), TotalGap(net));
    }
  }

  lemma Scale(d: nat, x: nat, y: nat)
    requires x <= y
    ensures d * x <= d * y && (x > 0 ==> d * (x - 1) + d <= d * y)
  {
  }

  lemma DeliveryStep(g: Graph, ttl: nat, nets: seq<Net>, steps: seq<Step>, k: nat, d: nat)
    requires Execution(g, ttl, nets, steps) && k < |steps| && Degree(g, d) && steps[k].Deliver?
    ensures Work(nets[k + 1], d) < Work(nets[k], d)
  {
    ExecutionInv(g, ttl, nets, steps, k);
    DeliveryUsesWork(g, ttl, nets[k], steps[k].m, steps[k].now, d);
  }

  /** However long an execution goes on without new adverts or injections, it makes
      no more deliveries than there was work when that stretch began. */
  lemma {:induction false} Termination(g: Graph, ttl: nat, nets: seq<Net>, steps: seq<Step>, i: nat, j: nat, d: nat)
    requires Execution(g, ttl, nets, steps) && i <= j <= |steps| && Degree(g, d)
    requires forall k :: i <= k < j ==> steps[k].Deliver?
    ensures (j - i) + Work(nets[j], d) <= Work(nets[i], d)
    decreases j
  {
    if i < j {
      Termination(g, ttl, nets, steps, i, j - 1, d);
      DeliveryStep(g, ttl, nets, steps, j - 1, d);
    }
  }
}
