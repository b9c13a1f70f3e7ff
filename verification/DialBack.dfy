/** The helper's side of dial-back confirmation: a requester asks to be probed from a
    fresh socket, and is told whether the probe reached it. */
module DialBack {
  import opened Options

  const MAX_HELPER_PROBES: nat := 64
  const MIN_UNPRIVILEGED_PORT: nat := 1024
  const DIALBACK_TIMEOUT: nat := 3000

  type Peer = nat
  type Probe = nat
  type Socket = nat

  datatype Ask = Ask(requester: Peer, nonce: nat)

  datatype Helper = Helper(ask: Ask, socket: Socket, deadline: nat)

  /** An address that a probe dials. */
  datatype Dial = Dial(probe: Probe, ip: nat, port: nat)

  /** The probes in flight and the sockets open for them, with every verdict ever sent and
      every address ever dialled. */
  datatype State = State(probes: map<Probe, Helper>, sockets: set<Socket>, verdicts: map<Ask, seq<bool>>,
                         dials: seq<Dial>)

  /** A request as it arrives: the identity of the connection it came over, if that is
      authenticated, what it asks, the limiter's verdict, and what the environment gives. */
  datatype Request = Request(
    identity: Option<Peer>, nonce: nat, fromIp: nat, fromPort: nat, probePort: Option<nat>, admitted: bool,
    socket: Option<Socket>, probe: Option<Probe>, now: nat)
  {
    function TargetPort(): (n: nat) { if probePort.Some? then probePort.value else fromPort }
  }

  function Sent(verdicts: map<Ask, seq<bool>>, a: Ask): (r: seq<bool>) { if a in verdicts then verdicts[a] else [] }

  function Tell(s: State, a: Ask, ok: bool): (next: State)
  {
    s.(verdicts := s.verdicts[a := Sent(s.verdicts, a) + [ok]])
  }

  function Asked(s: State, q: Request): (next: State)
  {
    if q.identity.None? then s
    else
      var a := Ask(q.identity.value, q.nonce);
      if !q.admitted || |s.probes| >= MAX_HELPER_PROBES || q.TargetPort() < MIN_UNPRIVILEGED_PORT ||
         q.socket.None? || q.probe.None?
      then Tell(s, a, false)
      else s.(probes := s.probes[q.probe.value := Helper(a, q.socket.value, q.now + DIALBACK_TIMEOUT)],
              sockets := s.sockets + {q.socket.value},
              dials := s.dials + [Dial(q.probe.value, q.fromIp, q.TargetPort())])
  }

  /** The probe is over: tell the requester and close the socket. */
  function Resolved(s: State, probe: Probe, ok: bool): (next: State)
  {
    if probe !in s.probes then s
    else
      var h := s.probes[probe];
      Tell(s.(probes := s.probes - {probe}, sockets := s.sockets - {h.socket}), h.ask, ok)
  }

  /** The candidate answered with an identity, or not at all. */
  function Concluded(s: State, probe: Probe, identity: Option<Peer>): (next: State)
  {
    Resolved(s, probe, probe in s.probes && identity == Some(s.probes[probe].ask.requester))
  }

  /** Probes that time out, one after another. */
  function TimedOut(s: State, ids: seq<Probe>): (next: State)
    decreases |ids|
  {
    if ids == [] then s else Resolved(TimedOut(s, ids[..|ids| - 1]), ids[|ids| - 1], false)
  }

  // ---- the books -----------------------------------------------------------------------

  /** `asked` are all authenticated requests of a run, with repetitions. */
  datatype Ledger = Ledger(state: State, asked: multiset<Ask>)

  function InFlight(probes: map<Probe, Helper>, a: Ask): (r: set<Probe>) { set p | p in probes && probes[p].ask == a }

  /** Every authenticated request has been told one verdict or has one probe in flight. */
  ghost predicate Balanced(l: Ledger)
  {
    forall a :: l.asked[a] == |Sent(l.state.verdicts, a)| + |InFlight(l.state.probes, a)|
  }

  /** The open sockets are those of the probes in flight, one each, at most 64. */
  ghost predicate Tidy(s: State)
  {
    && s.sockets == (set p | p in s.probes :: s.probes[p].socket)
    && (forall p, q | p in s.probes && q in s.probes && s.probes[p].socket == s.probes[q].socket :: p == q)
    && |s.probes| <= MAX_HELPER_PROBES
  }

  ghost predicate Inv(l: Ledger) { Balanced(l) && Tidy(l.state) }

  /** The environment hands out sockets and probe ids that are not in use. */
  predicate NewIds(s: State, q: Request)
  {
    (q.socket.Some? ==> q.socket.value !in s.sockets) && (q.probe.Some? ==> q.probe.value !in s.probes)
  }

  lemma TellBalances(l: Ledger, a: Ask, ok: bool)
    requires Balanced(l)
    ensures Balanced(Ledger(Tell(l.state, a, ok), l.asked + multiset{a}))
  {
  }

  lemma FlightGrows(probes: map<Probe, Helper>, p: Probe, h: Helper, a: Ask)
    requires p !in probes
    ensures |InFlight(probes[p := h], a)| == |InFlight(probes, a)| + if a == h.ask then 1 else 0
  {
    if a == h.ask {
      assert InFlight(probes[p := h], a) == InFlight(probes, a) + {p};
    } else {
      assert InFlight(probes[p := h], a) == InFlight(probes, a);
    }
  }

  lemma StartBalances(l: Ledger, p: Probe, h: Helper, dials: seq<Dial>)
    requires Balanced(l) && p !in l.state.probes
    ensures Balanced(Ledger(l.state.(probes := l.state.probes[p := h], sockets := l.state.sockets + {h.socket},
                                     dials := dials), l.asked + multiset{h.ask}))
  {
    forall a
      ensures (l.asked + multiset{h.ask})[a] == |Sent(l.state.verdicts, a)| + |InFlight(l.state.probes[p := h], a)|
    {
      FlightGrows(l.state.probes, p, h, a);
    }
  }

  lemma StartTidy(s: State, p: Probe, h: Helper, dials: seq<Dial>)
    requires Tidy(s) && p !in s.probes && h.socket !in s.sockets && |s.probes| < MAX_HELPER_PROBES
    ensures Tidy(s.(probes := s.probes[p := h], sockets := s.sockets + {h.socket}, dials := dials))
  {
    assert s.probes[p := h].Keys == s.probes.Keys + {p};
  }

  lemma AskKeeps(l: Ledger, q: Request)
    requires Inv(l) && NewIds(l.state, q)
    ensures Inv(Took(l, q))
  {
    if q.identity.Some? {
      var a := Ask(q.identity.value, q.nonce);
      TellBalances(l, a, false);
      if q.socket.Some? && q.probe.Some? && |l.state.probes| < MAX_HELPER_PROBES {
        var h := Helper(a, q.socket.value, q.now + DIALBACK_TIMEOUT);
        var dials := l.state.dials + [Dial(q.probe.value, q.fromIp, q.TargetPort())];
        StartBalances(l, q.probe.value, h, dials);
        StartTidy(l.state, q.probe.value, h, dials);
      }
    }
  }

  function Took(l: Ledger, q: Request): (next: Ledger)
  {
    Ledger(Asked(l.state, q),
           if q.identity.Some? then l.asked + multiset{Ask(q.identity.value, q.nonce)} else l.asked)
  }

  lemma FlightShrinks(probes: map<Probe, Helper>, p: Probe, a: Ask)
    requires p in probes
    ensures |InFlight(probes - {p}, a)| == |InFlight(probes, a)| - if a == probes[p].ask then 1 else 0
  {
    if a == probes[p].ask {
      assert InFlight(probes, a) == InFlight(probes - {p}, a) + {p};
    } else {
      assert InFlight(probes, a) == InFlight(probes - {p}, a);
    }
  }

  lemma ResolveBalances(l: Ledger, p: Probe, ok: bool)
    requires Balanced(l)
    ensures Balanced(l.(state := Resolved(l.state, p, ok)))
  {
    if p in l.state.probes {
      var t := Resolved(l.state, p, ok);
      forall a
        ensures l.asked[a] == |Sent(t.verdicts, a)| + |InFlight(t.probes, a)|
      {
        FlightShrinks(l.state.probes, p, a);
      }
    }
  }

  lemma ResolveTidy(s: State, p: Probe, ok: bool)
    requires Tidy(s)
    ensures Tidy(Resolved(s, p, ok))
  {
    if p in s.probes {
      assert s.probes.Keys == (s.probes - {p}).Keys + {p};
    }
  }

  lemma {:induction false} TimeoutKeeps(l: Ledger, ids: seq<Probe>)
    requires Inv(l)
    ensures Inv(l.(state := TimedOut(l.state, ids)))
    decreases |ids|
  {
    if ids != [] {
      var before := TimedOut(l.state, ids[..|ids| - 1]);
      TimeoutKeeps(l, ids[..|ids| - 1]);
      ResolveBalances(l.(state := before), ids[|ids| - 1], false);
      ResolveTidy(before, ids[|ids| - 1], false);
    }
  }

  // ---- runs ----------------------------------------------------------------------------

  datatype Event = Asks(q: Request) | Answers(probe: Probe, identity: Option<Peer>) | Expires(ids: seq<Probe>)

  function Next(l: Ledger, e: Event): (next: Ledger)
  {
    match e
    case Asks(q) => Took(l, q)
    case Answers(p, identity) => l.(state := Concluded(l.state, p, identity))
    case Expires(ids) => l.(state := TimedOut(l.state, ids))
  }

  function Run(l: Ledger, events: seq<Event>): (next: Ledger)
    decreases |events|
  {
    if events == [] then l else Run(Next(l, events[0]), events[1..])
  }

  predicate Proper(l: Ledger, events: seq<Event>)
    decreases |events|
  {
    events == [] || ((events[0].Asks? ==> NewIds(l.state, events[0].q)) && Proper(Next(l, events[0]), events[1..]))
  }

  lemma {:induction false} RunKeepsInv(l: Ledger, events: seq<Event>)
    requires Inv(l) && Proper(l, events)
    ensures Inv(Run(l, events))
    decreases |events|
  {
    if events != [] {
      match events[0] {
        case Asks(q) => AskKeeps(l, q);
        case Answers(p, identity) =>
          var ok := p in l.state.probes && identity == Some(l.state.probes[p].ask.requester);
          ResolveBalances(l, p, ok);
          ResolveTidy(l.state, p, ok);
        case Expires(ids) => TimeoutKeeps(l, ids);
      }
      RunKeepsInv(Next(l, events[0]), events[1..]);
    }
  }

  function Fresh(): (next: Ledger) { Ledger(State(map[], {}, map[], []), multiset{}) }

  lemma FreshInv()
    ensures Inv(Fresh())
  {
    forall a
      ensures InFlight(Fresh().state.probes, a) == {}
    {
    }
  }

  lemma SocketCount(s: State)
    requires Tidy(s)
    ensures |s.sockets| == |s.probes|
  {
    CountImage(s.probes.Keys, s.probes, s.sockets);
  }

  lemma {:induction false} CountImage(ids: set<Probe>, probes: map<Probe, Helper>, sockets: set<Socket>)
    requires ids <= probes.Keys && sockets == (set p | p in ids :: probes[p].socket)
    requires forall p, q | p in ids && q in ids && probes[p].socket == probes[q].socket :: p == q
    ensures |sockets| == |ids|
    decreases |ids|
  {
    if ids != {} {
      var p :| p in ids;
      CountImage(ids - {p}, probes, sockets - {probes[p].socket});
    }
  }

  /** In every run each authenticated request has exactly one verdict or one probe in
      flight, and the open sockets are those of the probes, never more than 64. */
  lemma ExactlyOneVerdict(events: seq<Event>)
    requires Proper(Fresh(), events)
    ensures var l := Run(Fresh(), events);
            && (forall a :: l.asked[a] == |Sent(l.state.verdicts, a)| + |InFlight(l.state.probes, a)|)
            && l.state.sockets == (set p | p in l.state.probes :: l.state.probes[p].socket)
            && |l.state.sockets| == |l.state.probes| <= MAX_HELPER_PROBES
  {
    FreshInv();
    RunKeepsInv(Fresh(), events);
    SocketCount(Run(Fresh(), events).state);
  }

  /** The request permits this dial: its sender is authenticated and within the limit, and the
      dial goes to the sender's own address, at the port asked for or else the sender's own,
      which is not a privileged one. */
  predicate Permits(e: Event, d: Dial)
  {
    && e.Asks? && e.q.identity.Some? && e.q.admitted && d.ip == e.q.fromIp && d.port >= 1024
    && d.port == if e.q.probePort.Some? then e.q.probePort.value else e.q.fromPort
  }

  lemma DialsOfOne(l: Ledger, e: Event)
    ensures var was, next := l.state.dials, Next(l, e).state.dials;
            && (next == was || (|next| == |was| + 1 && next[..|was|] == was && Permits(e, next[|was|])
                                && |Next(l, e).asked| == |l.asked| + 1))
            && |Next(l, e).asked| >= |l.asked|
  {
    if e.Expires? {
      TimeoutDialsNone(l.state, e.ids);
    }
  }

  lemma {:induction false} TimeoutDialsNone(s: State, ids: seq<Probe>)
    ensures TimedOut(s, ids).dials == s.dials
    decreases |ids|
  {
    if ids != [] {
      TimeoutDialsNone(s, ids[..|ids| - 1]);
    }
  }

  /** In every run each address that was dialled is the source of some request that permitted
      it, so nobody is dialled at the bidding of another; and there is at most one dial for
      each authenticated request. */
  lemma {:induction false} NoReflection(l: Ledger, events: seq<Event>)
    ensures forall d | d in Run(l, events).state.dials ::
              d in l.state.dials || exists k :: 0 <= k < |events| && Permits(events[k], d)
    ensures |Run(l, events).state.dials| - |l.state.dials| <= |Run(l, events).asked| - |l.asked|
    decreases |events|
  {
    if events != [] {
      var next, rest := Next(l, events[0]), events[1..];
      DialsOfOne(l, events[0]);
      NoReflection(next, rest);
      forall d | d in Run(l, events).state.dials && d !in l.state.dials
        ensures exists k :: 0 <= k < |events| && Permits(events[k], d)
      {
        if d in next.state.dials {
          assert Permits(events[0], d);
        } else {
          var k :| 0 <= k < |rest| && Permits(rest[k], d);
          assert Permits(events[k + 1], d);
        }
      }
    }
  }

  /** All that was told since is no. */
  predicate OnlyNo(was: seq<bool>, told: seq<bool>) { was <= told && forall i | |was| <= i < |told| :: !told[i] }

  lemma {:induction false} TimeoutTellsNo(s: State, ids: seq<Probe>)
    ensures forall a :: OnlyNo(Sent(s.verdicts, a), Sent(TimedOut(s, ids).verdicts, a))
    decreases |ids|
  {
    if ids != [] {
      TimeoutTellsNo(s, ids[..|ids| - 1]);
    }
  }

  /** An authenticated request is told no, exactly if it is over the limit, 64 probes are in
      flight, the port is privileged, or a socket or a probe cannot be had; or else a probe to
      the address it came from is in flight, on its own socket, and due in three seconds. */
  predicate Serves(s: State, t: State, q: Request, told: bool)
    requires q.identity.Some?
  {
    var a, port := Ask(q.identity.value, q.nonce), if q.probePort.Some? then q.probePort.value else q.fromPort;
    && told == !(q.admitted && |s.probes| < 64 && port >= 1024 && q.socket.Some? && q.probe.Some?)
    && if told then t == s.(verdicts := s.verdicts[a := Sent(s.verdicts, a) + [false]])
       else t == s.(probes := s.probes[q.probe.value := Helper(a, q.socket.value, q.now + 3000)],
                    sockets := s.sockets + {q.socket.value},
                    dials := s.dials + [Dial(q.probe.value, q.fromIp, port)])
  }

  // ---- the helper ------------------------------------------------------------------------

  class HelperTable {
    var probes: map<Probe, Helper>
    var sockets: set<Socket>
    ghost var verdicts: map<Ask, seq<bool>>
    ghost var dials: seq<Dial>
    ghost var asked: multiset<Ask>

    ghost function Now(): (next: State)
      reads this
    {
      State(probes, sockets, verdicts, dials)
    }

    /** Every request is answered once or in flight, and the open sockets are the probes'. */
    ghost predicate Valid()
      reads this
    {
      Inv(Ledger(Now(), asked))
    }

    constructor ()
      ensures Valid() && Now() == Fresh().state && asked == multiset{}
    {
      FreshInv();
      probes, sockets, verdicts, dials := map[], {}, map[], [];
      asked := multiset{};
    }

    method SendResult(ask: Ask, ok: bool) returns (sent: (Ask, bool))
      modifies this`verdicts
      ensures Now() == Tell(old(Now()), ask, ok) && sent == (ask, ok)
    {
      verdicts := verdicts[ask := Sent(verdicts, ask) + [ok]];
      sent := (ask, ok);
    }

    /** Bind a socket and start a probe from it, if the request is to be served at all: at the
        port asked for, or else the sender's own, of the sender's address. */
    method TryProbe(q: Request, ask: Ask) returns (started: bool)
      requires q.socket.Some? ==> q.socket.value !in sockets
      modifies this`probes, this`sockets, this`dials
      ensures var port := if q.probePort.Some? then q.probePort.value else q.fromPort;
              && (started <==>
                  q.admitted && old(|probes|) < 64 && port >= 1024 && q.socket.Some? && q.probe.Some?)
              && if started then
                   && probes == old(probes)[q.probe.value := Helper(ask, q.socket.value, q.now + 3000)]
                   && sockets == old(sockets) + {q.socket.value}
                   && dials == old(dials) + [Dial(q.probe.value, q.fromIp, port)]
                 else probes == old(probes) && sockets == old(sockets) && dials == old(dials)
    {
      if !q.admitted || |probes| >= MAX_HELPER_PROBES {
        return false;
      }
      var port := q.TargetPort();
      if port < MIN_UNPRIVILEGED_PORT || q.socket.None? {
        return false;
      }
      sockets := sockets + {q.socket.value};
      if q.probe.None? {
        sockets := sockets - {q.socket.value};
        return false;
      }
      dials := dials + [Dial(q.probe.value, q.fromIp, port)];
      probes := probes[q.probe.value := Helper(ask, q.socket.value, q.now + DIALBACK_TIMEOUT)];
      return true;
    }

    /** An unauthenticated request is ignored; any other is told no at once, with probes and
        sockets as they were, or has one more probe on its own socket. */
    method HandleRequest(q: Request) returns (result: Option<(Ask, bool)>)
      requires Valid() && NewIds(Now(), q)
      modifies this
      ensures Valid() && Ledger(Now(), asked) == Took(Ledger(old(Now()), old(asked)), q)
      ensures q.identity.None? ==> result.None? && Now() == old(Now()) && asked == old(asked)
      ensures q.identity.Some? ==> Serves(old(Now()), Now(), q, result.Some?)
      ensures result.Some? ==> result.value == (Ask(q.identity.value, q.nonce), false)
    {
      AskKeeps(Ledger(Now(), asked), q);
      if q.identity.None? {
        return None;
      }
      asked := asked + multiset{Ask(q.identity.value, q.nonce)};
      result := Serve(q);
    }

    method Serve(q: Request) returns (result: Option<(Ask, bool)>)
      requires q.identity.Some? && (q.socket.Some? ==> q.socket.value !in sockets)
      modifies this`probes, this`sockets, this`verdicts, this`dials
      ensures Now() == Asked(old(Now()), q)
      ensures Serves(old(Now()), Now(), q, result.Some?)
      ensures result.Some? ==> result.value == (Ask(q.identity.value, q.nonce), false)
    {
      var ask := Ask(q.identity.value, q.nonce);
      var started := TryProbe(q, ask);
      if started {
        return None;
      }
      var sent := SendResult(ask, false);
      return Some(sent);
    }

    method Resolve(probe: Probe, ok: bool)
      requires Valid() && probe in probes
      modifies this`probes, this`sockets, this`verdicts
      ensures Valid() && Now() == Resolved(old(Now()), probe, ok)
    {
      ResolveBalances(Ledger(Now(), asked), probe, ok);
      ResolveTidy(Now(), probe, ok);
      var h := probes[probe];
      probes := probes - {probe};
      var sent := SendResult(h.ask, ok);
      sockets := sockets - {h.socket};
    }

    /** A probe in flight ends with one verdict, which is yes exactly if the candidate showed
        the requester's own identity; an unknown probe changes nothing. */
    method HandleProbe(probe: Probe, identity: Option<Peer>)
      requires Valid()
      modifies this`probes, this`sockets, this`verdicts
      ensures Valid() && Now() == Concluded(old(Now()), probe, identity)
      ensures probe !in probes
      ensures old(probe in probes) ==>
                var h := old(probes[probe]);
                h.socket !in sockets && Sent(verdicts, h.ask) ==
                  old(Sent(verdicts, h.ask)) + [identity == Some(h.ask.requester)]
      ensures probes == old(probes) - {probe}
      ensures old(probe in probes) ==>
                forall a | a != old(probes[probe]).ask :: Sent(verdicts, a) == old(Sent(verdicts, a))
      ensures old(probe !in probes) ==> Now() == old(Now())
    {
      if probe in probes {
        Resolve(probe, identity == Some(probes[probe].ask.requester));
      }
    }

    /** `ids` is the order in which the probes that are due were visited. */
    method ExpireProbes(now: nat) returns (ids: seq<Probe>)
      requires Valid()
      modifies this`probes, this`sockets, this`verdicts
      ensures Valid() && Now() == TimedOut(old(Now()), ids)
      ensures forall p :: p in ids <==> p in old(probes) && now >= old(probes)[p].deadline
      ensures forall p :: p in probes <==> p in old(probes) && now < old(probes)[p].deadline
      ensures forall p | p in probes :: probes[p] == old(probes)[p]
      // and everybody told is told no
      ensures forall a :: OnlyNo(old(Sent(verdicts, a)), Sent(verdicts, a))
    {
      ids := DropDue(now);
      TimeoutTellsNo(old(Now()), ids);
    }

    method DropDue(now: nat) returns (ids: seq<Probe>)
      requires Valid()
      modifies this`probes, this`sockets, this`verdicts
      ensures Valid() && Now() == TimedOut(old(Now()), ids)
      ensures forall p :: p in ids <==> p in old(probes) && now >= old(probes)[p].deadline
      ensures forall p :: p in probes <==> p in old(probes) && now < old(probes)[p].deadline
      ensures forall p | p in probes :: probes[p] == old(probes)[p]
    {
      ids := [];
      var rest := set p | p in probes && now >= probes[p].deadline;
      while rest != {}
        invariant Valid() && rest <= probes.Keys
        invariant forall p | p in probes :: p in old(probes) && probes[p] == old(probes)[p]
        invariant forall p | p in probes :: p in rest <==> now >= probes[p].deadline
        invariant forall p :: p in ids <==> p in old(probes) && p !in probes
        invariant forall p | p in ids :: now >= old(probes)[p].deadline
        invariant Now() == TimedOut(old(Now()), ids)
        decreases |rest|
      {
        var p: Probe :| p in rest;
        Resolve(p, false);
        ghost var before := ids;
        ids := ids + [p];
        assert ids[..|ids| - 1] == before;
        rest := rest - {p};
      }
    }
  }
}
