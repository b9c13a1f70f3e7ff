/** Whole runs of the NAT: who is let in, and for how long, told from the log of
    datagrams that left rather than from the box's own tables. */
module NatRuns {
  import opened Options
  import opened NatModel
  import opened NatInvariants

  lemma RunStep(cfg: Config, es: seq<Event>, n: nat)
    requires cfg.Ok() && n < |es|
    ensures Run(cfg, es[..n + 1]) == Step(cfg, Run(cfg, es[..n]), es[n])
  {
    assert es[..n + 1][..n] == es[..n];
  }

  ghost predicate By(es: seq<Event>, now: nat) { Ordered(es) && forall e | e in es :: e.now <= now }

  // ---- a reply gets through ------------------------------------------------

  ghost predicate Remembers(a: Nat, slot: Slot, port: Port, since: nat, dst: Endpoint)
  {
    && slot in a.mappings
    && a.mappings[slot].externalPort == port
    && a.mappings[slot].lastRefresh >= since
    && dst in a.mappings[slot].allowed
  }

  /** No operation takes away a translation that is still within its timeout. */
  lemma StepRemembers(cfg: Config, a: Nat, e: Event, slot: Slot, port: Port, since: nat, dst: Endpoint)
    requires cfg.Ok() && cfg.InPool(a.cursor)
    requires Remembers(a, slot, port, since, dst) && since <= e.now <= since + cfg.idle
    ensures Remembers(Step(cfg, a, e), slot, port, since, dst)
  {
    match e
    case Send(now, src, to, draws) =>
      var used := Slot(src, KeyOf(cfg.mapping, to));
      if !Pinned(a, now, src) && !LiveSlot(cfg, a, now, used) {
        var r := OpeningState(cfg, a, now, src, to, draws);
      }
    case Receive(now, src, to) => AskedShrinks(cfg, a, now, to.port, None);
    case Grant(now, internal, requested, lifetime) =>
      LeaseFromLeases(cfg, a, now, internal, requested, now + lifetime, 0);
    case Revoke(_, _, _) =>
  }

  lemma {:induction false} RunRemembers(cfg: Config, es: seq<Event>, n: nat, now: nat, slot: Slot, port: Port,
                                        since: nat, dst: Endpoint)
    requires cfg.Ok() && n <= |es| && By(es, now) && now <= since + cfg.idle
    requires Remembers(Run(cfg, es[..n]), slot, port, since, dst)
    requires forall j :: n <= j < |es| ==> since <= es[j].now
    ensures Remembers(Run(cfg, es), slot, port, since, dst)
    decreases |es| - n
  {
    if n == |es| {
      assert es[..n] == es;
    } else {
      RunStep(cfg, es, n);
      StepRemembers(cfg, Run(cfg, es[..n]), es[n], slot, port, since, dst);
      RunRemembers(cfg, es, n + 1, now, slot, port, since, dst);
    }
  }

  ghost predicate LeftBy(cfg: Config, es: seq<Event>, k: nat, port: Port)
    requires cfg.Ok() && k < |es|
  {
    var e := es[k];
    e.Send? &&
    var r := Outbound(cfg, Run(cfg, es[..k]), e.now, e.src, e.dst, e.draws).1;
    r.Ok? && !r.value.pinned && r.value.external == port
  }

  lemma SendRemembers(cfg: Config, es: seq<Event>, k: nat, port: Port)
    requires cfg.Ok() && k < |es| && LeftBy(cfg, es, k, port)
    ensures Remembers(Run(cfg, es[..k + 1]), Slot(es[k].src, KeyOf(cfg.mapping, es[k].dst)), port, es[k].now, es[k].dst)
  {
    RunStep(cfg, es, k);
  }

  /** A datagram that left by a translation can be answered for one idle timeout,
      whatever is sent, received, leased or revoked meanwhile: the answer goes to
      the socket that sent it, under every mapping, allocation and filtering rule. */
  lemma ReplyGuarantee(cfg: Config, es: seq<Event>, k: nat, port: Port, now: nat)
    requires cfg.Ok() && By(es, now) && k < |es|
    requires LeftBy(cfg, es, k, port)
    requires now <= es[k].now + cfg.idle
    ensures Verdict(cfg, Run(cfg, es), now, es[k].dst, port) == Ok(es[k].src)
  {
    var slot := Slot(es[k].src, KeyOf(cfg.mapping, es[k].dst));
    SendRemembers(cfg, es, k, port);
    RunRemembers(cfg, es, k + 1, now, slot, port, es[k].now, es[k].dst);
    RunKeepsInv(cfg, es);
    Answered(cfg, Run(cfg, es), slot, port, es[k].now, es[k].dst, now);
  }

  lemma Answered(cfg: Config, a: Nat, slot: Slot, port: Port, since: nat, dst: Endpoint, now: nat)
    requires Owned(a) && Remembers(a, slot, port, since, dst) && now <= since + cfg.idle
    ensures Verdict(cfg, a, now, dst, port) == Ok(slot.internal)
  {
    assert slot in SlotsOn(a, port);
    assert Admits(cfg, a, now, dst, port, slot);
  }

  // ---- the log of departures -----------------------------------------------

  /** A datagram that left by a translation. */
  datatype Sent = Sent(now: nat, src: Endpoint, dst: Endpoint, port: Port)

  function SlotOf(cfg: Config, s: Sent): (slot: Slot) { Slot(s.src, KeyOf(cfg.mapping, s.dst)) }

  ghost function Departure(cfg: Config, a: Nat, e: Event): (d: seq<Sent>)
    requires cfg.Ok() && cfg.InPool(a.cursor)
    ensures |d| <= 1
  {
    if e.Send? then
      var r := Outbound(cfg, a, e.now, e.src, e.dst, e.draws).1;
      if r.Ok? && !r.value.pinned then [Sent(e.now, e.src, e.dst, r.value.external)] else []
    else []
  }

  ghost function Log(cfg: Config, es: seq<Event>): (log: seq<Sent>)
    requires cfg.Ok()
    decreases |es|
  {
    if es == [] then []
    else Log(cfg, es[..|es| - 1]) + Departure(cfg, Run(cfg, es[..|es| - 1]), es[|es| - 1])
  }

  /** The current uninterrupted stretch of use of one slot, read off the log. */
  datatype Burst = Quiet | Burst(port: Port, last: nat, allowed: set<Endpoint>)

  ghost function BurstOf(cfg: Config, log: seq<Sent>, slot: Slot): (b: Burst)
    decreases |log|
  {
    if log == [] then Quiet
    else
      var s := log[|log| - 1];
      var b := BurstOf(cfg, log[..|log| - 1], slot);
      if SlotOf(cfg, s) != slot then b
      else if b.Burst? && s.now <= b.last + cfg.idle then Burst(b.port, s.now, b.allowed + {s.dst})
      else Burst(s.port, s.now, {s.dst})
  }

  /** The tables hold exactly the bursts that have not run out, and perhaps some that have. */
  ghost predicate Tracks(cfg: Config, a: Nat, log: seq<Sent>, now: nat)
  {
    && (forall slot | slot in a.mappings ::
          BurstOf(cfg, log, slot) == Burst(a.mappings[slot].externalPort, a.mappings[slot].lastRefresh,
            a.mappings[slot].allowed))
    && (forall slot {:trigger BurstOf(cfg, log, slot)} ::
          BurstOf(cfg, log, slot).Burst? && now <= BurstOf(cfg, log, slot).last + cfg.idle ==> slot in a.mappings)
  }

  lemma ShrinksTracks(cfg: Config, a: Nat, b: Nat, log: seq<Sent>, was: nat, now: nat)
    requires Tracks(cfg, a, log, was) && was <= now && Shrinks(cfg, a, b, now)
    ensures Tracks(cfg, b, log, now)
  {
  }

  lemma Appended(cfg: Config, log: seq<Sent>, s: Sent, slot: Slot)
    ensures var b := BurstOf(cfg, log, slot);
            BurstOf(cfg, log + [s], slot) ==
            if SlotOf(cfg, s) != slot then b
            else if b.Burst? && s.now <= b.last + cfg.idle then Burst(b.port, s.now, b.allowed + {s.dst})
            else Burst(s.port, s.now, {s.dst})
  {
  }

  lemma SendTracks(cfg: Config, a: Nat, log: seq<Sent>, was: nat, now: nat, src: Endpoint, dst: Endpoint,
                   draws: seq<Port>)
    requires cfg.Ok() && cfg.InPool(a.cursor) && Tracks(cfg, a, log, was) && was <= now
    ensures var e := Send(now, src, dst, draws);
            Tracks(cfg, Step(cfg, a, e), log + Departure(cfg, a, e), now)
  {
    var slot := Slot(src, KeyOf(cfg.mapping, dst));
    var e := Send(now, src, dst, draws);
    if Pinned(a, now, src) {
      assert log + [] == log;
    } else if LiveSlot(cfg, a, now, slot) {
      var s := Sent(now, src, dst, a.mappings[slot].externalPort);
      forall t { Appended(cfg, log, s, t); }
    } else {
      var r := OpeningState(cfg, a, now, src, dst, draws);
      ShrinksTracks(cfg, a, r.0, log, was, now);
      if r.1.Some? {
        var s := Sent(now, src, dst, r.1.value);
        forall t { Appended(cfg, log, s, t); }
      } else {
        assert log + [] == log;
      }
    }
  }

  lemma StepTracks(cfg: Config, a: Nat, log: seq<Sent>, was: nat, e: Event)
    requires cfg.Ok() && cfg.InPool(a.cursor) && Tracks(cfg, a, log, was) && was <= e.now
    ensures Tracks(cfg, Step(cfg, a, e), log + Departure(cfg, a, e), e.now)
  {
    if !e.Send? {
      assert log + [] == log;
    }
    match e
    case Send(now, src, dst, draws) => SendTracks(cfg, a, log, was, now, src, dst, draws);
    case Receive(now, src, dst) =>
      AskedShrinks(cfg, a, now, dst.port, None);
      ShrinksTracks(cfg, a, Prune(cfg, a, now, dst.port), log, was, now);
    case Grant(now, internal, requested, lifetime) =>
      if !(requested in a.leases && a.leases[requested].internal == internal) {
        LeaseFromLeases(cfg, a, now, internal, requested, now + lifetime, 0);
        var r := LeaseFrom(cfg, a, now, internal, requested, now + lifetime, 0);
        ShrinksTracks(cfg, a, if r.1.Some? then DropLease(r.0, r.1.value) else r.0, log, was, now);
      }
    case Revoke(_, _, _) =>
  }

  /** Departures of one burst all use the port it opened with. */
  ghost predicate Steady(cfg: Config, log: seq<Sent>)
  {
    forall k :: 0 <= k < |log| ==>
      var b := BurstOf(cfg, log[..k], SlotOf(cfg, log[k]));
      b.Burst? && log[k].now <= b.last + cfg.idle ==> log[k].port == b.port
  }

  ghost predicate InOrder(log: seq<Sent>, now: nat)
  {
    && (forall i, j :: 0 <= i < j < |log| ==> log[i].now <= log[j].now)
    && (forall i :: 0 <= i < |log| ==> log[i].now <= now)
  }

  lemma StepSteady(cfg: Config, a: Nat, log: seq<Sent>, was: nat, e: Event)
    requires cfg.Ok() && cfg.InPool(a.cursor) && Tracks(cfg, a, log, was) && was <= e.now && Steady(cfg, log)
    ensures Steady(cfg, log + Departure(cfg, a, e))
  {
    var log' := log + Departure(cfg, a, e);
    forall k | 0 <= k < |log'|
      ensures var b := BurstOf(cfg, log'[..k], SlotOf(cfg, log'[k]));
              b.Burst? && log'[k].now <= b.last + cfg.idle ==> log'[k].port == b.port
    {
      assert log'[..k] == log[..k];
      if k == |log| {
        assert log[..k] == log;
      }
    }
  }

  lemma {:induction false} RunTracks(cfg: Config, es: seq<Event>, now: nat)
    requires cfg.Ok() && By(es, now)
    ensures Tracks(cfg, Run(cfg, es), Log(cfg, es), now)
    ensures Steady(cfg, Log(cfg, es)) && InOrder(Log(cfg, es), now)
    decreases |es|
  {
    if es != [] {
      var init, e := es[..|es| - 1], es[|es| - 1];
      RunTracks(cfg, init, e.now);
      var a := Run(cfg, init);
      StepTracks(cfg, a, Log(cfg, init), e.now, e);
      StepSteady(cfg, a, Log(cfg, init), e.now, e);
      ShrinksTracks(cfg, Run(cfg, es), Run(cfg, es), Log(cfg, es), e.now, now);
    }
  }

  // ---- what a burst is, without recursion ------------------------------------

  /** Some departure of the same slot, from `k` on, lies less than the timeout before `n`. */
  ghost predicate Held(cfg: Config, log: seq<Sent>, k: nat, n: nat)
    requires k < |log|
  {
    exists j :: k <= j < |log| && SlotOf(cfg, log[j]) == SlotOf(cfg, log[k]) && log[j].now < n <= log[j].now + cfg.idle
  }

  /** From departure `k` until `now` the slot was never silent longer than the timeout. */
  ghost predicate KeptOpen(cfg: Config, log: seq<Sent>, k: nat, now: nat)
  {
    k < |log| && forall n :: log[k].now < n <= now ==> Held(cfg, log, k, n)
  }

  lemma {:induction false} LastOfBurst(cfg: Config, log: seq<Sent>, slot: Slot, now: nat) returns (j: nat)
    requires InOrder(log, now) && BurstOf(cfg, log, slot).Burst?
    ensures j < |log| && SlotOf(cfg, log[j]) == slot && log[j].now == BurstOf(cfg, log, slot).last
    ensures forall i :: j < i < |log| ==> SlotOf(cfg, log[i]) != slot
    ensures forall i :: 0 <= i < |log| && SlotOf(cfg, log[i]) == slot ==> log[i].now <= BurstOf(cfg, log, slot).last
    decreases |log|
  {
    if SlotOf(cfg, log[|log| - 1]) == slot {
      j := |log| - 1;
    } else {
      j := LastOfBurst(cfg, log[..|log| - 1], slot, now);
    }
  }

  lemma {:induction false} SentOnce(cfg: Config, log: seq<Sent>, k: nat)
    requires k < |log|
    ensures BurstOf(cfg, log, SlotOf(cfg, log[k])).Burst?
    decreases |log|
  {
    if k < |log| - 1 {
      SentOnce(cfg, log[..|log| - 1], k);
    }
  }

  /** A longer log keeps what a shorter one held. */
  lemma HeldGrows(cfg: Config, log: seq<Sent>, k: nat, n: nat)
    requires 0 < |log| && k < |log| - 1 && Held(cfg, log[..|log| - 1], k, n)
    ensures Held(cfg, log, k, n)
  {
  }

  lemma HeldShrinks(cfg: Config, log: seq<Sent>, k: nat, n: nat)
    requires 0 < |log| && k < |log| - 1 && Held(cfg, log, k, n)
    requires SlotOf(cfg, log[|log| - 1]) == SlotOf(cfg, log[k]) ==> n <= log[|log| - 1].now
    ensures Held(cfg, log[..|log| - 1], k, n)
  {
  }

  /** Departure `k` belongs to the current burst of its slot exactly if the slot
      was kept open from it to the burst's last departure. */
  ghost predicate InBurst(cfg: Config, log: seq<Sent>, k: nat)
  {
    k < |log| &&
    var b := BurstOf(cfg, log, SlotOf(cfg, log[k]));
    b.Burst? && KeptOpen(cfg, log, k, b.last)
  }

  lemma InBurstOther(cfg: Config, log: seq<Sent>, k: nat)
    requires 0 < |log| && k < |log| - 1 && SlotOf(cfg, log[|log| - 1]) != SlotOf(cfg, log[k])
    requires BurstOf(cfg, log, SlotOf(cfg, log[k])).Burst?
    ensures InBurst(cfg, log, k) <==> InBurst(cfg, log[..|log| - 1], k)
  {
    var init := log[..|log| - 1];
    var last := BurstOf(cfg, log, SlotOf(cfg, log[k])).last;
    assert init[k] == log[k];
    forall n | log[k].now < n <= last
      ensures Held(cfg, log, k, n) <==> Held(cfg, init, k, n)
    {
      if Held(cfg, log, k, n) { HeldShrinks(cfg, log, k, n); }
      if Held(cfg, init, k, n) { HeldGrows(cfg, log, k, n); }
    }
  }

  lemma InBurstContinued(cfg: Config, log: seq<Sent>, k: nat, now: nat)
    requires InOrder(log, now) && 0 < |log| && k < |log| - 1 && SlotOf(cfg, log[|log| - 1]) == SlotOf(cfg, log[k])
    requires var b := BurstOf(cfg, log[..|log| - 1], SlotOf(cfg, log[k]));
             b.Burst? && log[|log| - 1].now <= b.last + cfg.idle
    ensures InBurst(cfg, log, k) <==> InBurst(cfg, log[..|log| - 1], k)
  {
    var init := log[..|log| - 1];
    var last := BurstOf(cfg, init, SlotOf(cfg, log[k])).last;
    var j := LastOfBurst(cfg, init, SlotOf(cfg, log[k]), now);
    assert init[k] == log[k] && init[j] == log[j];
    if InBurst(cfg, log, k) {
      forall n | log[k].now < n <= last
        ensures Held(cfg, init, k, n)
      {
        assert Held(cfg, log, k, n);
        HeldShrinks(cfg, log, k, n);
      }
    }
    if InBurst(cfg, init, k) {
      forall n | log[k].now < n <= log[|log| - 1].now
        ensures Held(cfg, log, k, n)
      {
        if n <= last {
          assert Held(cfg, init, k, n);
          HeldGrows(cfg, log, k, n);
        } else {
          assert log[j].now < n <= log[j].now + cfg.idle;
        }
      }
    }
  }

  lemma InBurstBroken(cfg: Config, log: seq<Sent>, k: nat, now: nat)
    requires InOrder(log, now) && 0 < |log| && k < |log| - 1 && SlotOf(cfg, log[|log| - 1]) == SlotOf(cfg, log[k])
    requires var b := BurstOf(cfg, log[..|log| - 1], SlotOf(cfg, log[k]));
             b.Burst? && log[|log| - 1].now > b.last + cfg.idle
    ensures !InBurst(cfg, log, k)
  {
    var init := log[..|log| - 1];
    var n := log[|log| - 1].now;
    var j := LastOfBurst(cfg, init, SlotOf(cfg, log[k]), now);
    assert init[k] == log[k];
    assert !Held(cfg, init, k, n);
    if Held(cfg, log, k, n) {
      HeldShrinks(cfg, log, k, n);
    }
  }

  ghost predicate Contributes(cfg: Config, log: seq<Sent>, slot: Slot, dst: Endpoint, k: nat)
  {
    InBurst(cfg, log, k) && SlotOf(cfg, log[k]) == slot && log[k].dst == dst
  }

  /** The destinations of the current burst are those of the departures in it. */
  lemma {:induction false} BurstMembers(cfg: Config, log: seq<Sent>, slot: Slot, dst: Endpoint, now: nat)
    requires InOrder(log, now) && BurstOf(cfg, log, slot).Burst?
    ensures dst in BurstOf(cfg, log, slot).allowed <==> exists k: nat :: Contributes(cfg, log, slot, dst, k)
    decreases |log|
  {
    var init, s := log[..|log| - 1], log[|log| - 1];
    var b := BurstOf(cfg, init, slot);
    if SlotOf(cfg, s) != slot {
      BurstMembers(cfg, init, slot, dst, now);
      forall k: nat | k < |log| && SlotOf(cfg, log[k]) == slot
        ensures Contributes(cfg, log, slot, dst, k) <==> Contributes(cfg, init, slot, dst, k)
      {
        InBurstOther(cfg, log, k);
      }
    } else {
      if s.dst == dst {
        assert Contributes(cfg, log, slot, dst, |log| - 1);
      }
      if b.Burst? && s.now <= b.last + cfg.idle {
        BurstMembers(cfg, init, slot, dst, now);
        forall k: nat | k < |init| && SlotOf(cfg, log[k]) == slot
          ensures Contributes(cfg, log, slot, dst, k) <==> Contributes(cfg, init, slot, dst, k)
        {
          InBurstContinued(cfg, log, k, now);
        }
      } else {
        forall k: nat | k < |init| && SlotOf(cfg, log[k]) == slot
          ensures !InBurst(cfg, log, k)
        {
          assert init[k] == log[k];
          SentOnce(cfg, init, k);
          InBurstBroken(cfg, log, k, now);
        }
      }
    }
  }

  /** All departures of a burst left by the burst's port. */
  lemma {:induction false} BurstPort(cfg: Config, log: seq<Sent>, k: nat, now: nat)
    requires InOrder(log, now) && Steady(cfg, log) && InBurst(cfg, log, k)
    ensures BurstOf(cfg, log, SlotOf(cfg, log[k])).Burst?
    ensures log[k].port == BurstOf(cfg, log, SlotOf(cfg, log[k])).port
    decreases |log|
  {
    var init, s := log[..|log| - 1], log[|log| - 1];
    assert Steady(cfg, init) by {
      forall i | 0 <= i < |init| ensures init[..i] == log[..i] {}
    }
    if k == |log| - 1 {
      assert log[..k] == init;
    } else {
      assert init[k] == log[k];
      SentOnce(cfg, init, k);
      SentOnce(cfg, log, k);
      var b := BurstOf(cfg, init, SlotOf(cfg, log[k]));
      if SlotOf(cfg, s) != SlotOf(cfg, log[k]) {
        InBurstOther(cfg, log, k);
      } else if s.now <= b.last + cfg.idle {
        InBurstContinued(cfg, log, k, now);
      } else {
        InBurstBroken(cfg, log, k, now);
      }
      BurstPort(cfg, init, k, now);
    }
  }

  /** Staying open until `now` means the burst is current and has not run out. */
  lemma KeptOpenIsLive(cfg: Config, log: seq<Sent>, k: nat, now: nat)
    requires InOrder(log, now) && k < |log|
    ensures BurstOf(cfg, log, SlotOf(cfg, log[k])).Burst?
    ensures KeptOpen(cfg, log, k, now) <==>
            InBurst(cfg, log, k) && now <= BurstOf(cfg, log, SlotOf(cfg, log[k])).last + cfg.idle
  {
    SentOnce(cfg, log, k);
    var last := BurstOf(cfg, log, SlotOf(cfg, log[k])).last;
    var j := LastOfBurst(cfg, log, SlotOf(cfg, log[k]), now);
    if now > last + cfg.idle {
      assert !Held(cfg, log, k, now);
    }
    if InBurst(cfg, log, k) && now <= last + cfg.idle {
      forall n | log[k].now < n <= now
        ensures Held(cfg, log, k, n)
      {
        if n > last {
          assert log[j].now < n <= log[j].now + cfg.idle;
        }
      }
    }
  }

  // ---- admission ---------------------------------------------------------------

  predicate Matches(filtering: Filtering, contacted: Endpoint, src: Endpoint)
  {
    match filtering
    case AnySource => true
    case AddressRestricted => contacted.ip == src.ip
    case PortRestricted => contacted == src
  }

  /** Departure `k` of the log opens `port` to `src` until `now`. */
  ghost predicate Opens(cfg: Config, log: seq<Sent>, k: nat, src: Endpoint, port: Port, now: nat)
  {
    KeptOpen(cfg, log, k, now) && log[k].port == port && Matches(cfg.filtering, log[k].dst, src)
  }

  lemma AdmittedWasOpened(cfg: Config, es: seq<Event>, now: nat, src: Endpoint, port: Port, slot: Slot) returns (k: nat)
    requires cfg.Ok() && By(es, now) && Admits(cfg, Run(cfg, es), now, src, port, slot)
    ensures Opens(cfg, Log(cfg, es), k, src, port, now) && Log(cfg, es)[k].src == slot.internal
  {
    RunTracks(cfg, es, now);
    var a, log := Run(cfg, es), Log(cfg, es);
    var m := a.mappings[slot];
    var j := LastOfBurst(cfg, log, slot, now);
    BurstMembers(cfg, log, slot, log[j].dst, now);
    assert InBurst(cfg, log, j);
    assert Contributes(cfg, log, slot, log[j].dst, j);
    var e :| e in m.allowed && Matches(cfg.filtering, e, src);
    BurstMembers(cfg, log, slot, e, now);
    k :| Contributes(cfg, log, slot, e, k);
    KeptOpenIsLive(cfg, log, k, now);
    BurstPort(cfg, log, k, now);
  }

  lemma OpenedIsAdmitted(cfg: Config, es: seq<Event>, now: nat, src: Endpoint, port: Port, k: nat)
    requires cfg.Ok() && By(es, now) && Opens(cfg, Log(cfg, es), k, src, port, now)
    ensures Admits(cfg, Run(cfg, es), now, src, port, SlotOf(cfg, Log(cfg, es)[k]))
  {
    RunTracks(cfg, es, now);
    var a, log := Run(cfg, es), Log(cfg, es);
    var slot := SlotOf(cfg, log[k]);
    KeptOpenIsLive(cfg, log, k, now);
    BurstPort(cfg, log, k, now);
    assert Contributes(cfg, log, slot, log[k].dst, k);
    BurstMembers(cfg, log, slot, log[k].dst, now);
    assert slot in a.mappings;
  }

  /** On a port without a live lease, a datagram from `src` reaches internal socket
      `i` exactly if `i` once sent through that port to a destination the filtering
      rule matches with `src`, and the slot of that datagram was never silent for
      longer than the idle timeout since. Arrivals play no part in it. */
  lemma AdmissionExact(cfg: Config, es: seq<Event>, now: nat, src: Endpoint, port: Port, i: Endpoint)
    requires cfg.Ok() && By(es, now)
    requires !LiveLease(Run(cfg, es), now, port)
    ensures Verdict(cfg, Run(cfg, es), now, src, port) == Ok(i) <==>
            exists k: nat :: Opens(cfg, Log(cfg, es), k, src, port, now) && Log(cfg, es)[k].src == i
  {
    var a := Run(cfg, es);
    RunKeepsInv(cfg, es);
    if Verdict(cfg, a, now, src, port) == Ok(i) {
      var slot :| Admits(cfg, a, now, src, port, slot) && slot.internal == i;
      var k := AdmittedWasOpened(cfg, es, now, src, port, slot);
    }
    if k: nat :| Opens(cfg, Log(cfg, es), k, src, port, now) && Log(cfg, es)[k].src == i {
      OpenedIsAdmitted(cfg, es, now, src, port, k);
      assert SlotOf(cfg, Log(cfg, es)[k]) in SlotsOn(a, port);
    }
  }

  // ---- what an observer sees -----------------------------------------------------

  /** One slot shows one external port for at least a timeout. */
  lemma StablePort(cfg: Config, es: seq<Event>, i: nat, p: Port, j: nat, q: Port)
    requires cfg.Ok() && Ordered(es) && i < j < |es|
    requires LeftBy(cfg, es, i, p) && LeftBy(cfg, es, j, q)
    requires es[j].now <= es[i].now + cfg.idle
    requires es[i].src == es[j].src && KeyOf(cfg.mapping, es[i].dst) == KeyOf(cfg.mapping, es[j].dst)
    ensures p == q
  {
    TwoDepartures(cfg, es, i, p, j, q);
  }

  /** Without port preservation two slots in use at once show different ports. */
  lemma DistinctPorts(cfg: Config, es: seq<Event>, i: nat, p: Port, j: nat, q: Port)
    requires cfg.Ok() && Ordered(es) && i < j < |es| && !cfg.allocator.Preserving?
    requires LeftBy(cfg, es, i, p) && LeftBy(cfg, es, j, q)
    requires es[j].now <= es[i].now + cfg.idle
    requires Slot(es[i].src, KeyOf(cfg.mapping, es[i].dst)) != Slot(es[j].src, KeyOf(cfg.mapping, es[j].dst))
    ensures p != q
  {
    TwoDepartures(cfg, es, i, p, j, q);
    RunKeepsInv(cfg, es[..j + 1]);
  }

  lemma TwoDepartures(cfg: Config, es: seq<Event>, i: nat, p: Port, j: nat, q: Port)
    requires cfg.Ok() && Ordered(es) && i < j < |es|
    requires LeftBy(cfg, es, i, p) && LeftBy(cfg, es, j, q)
    requires es[j].now <= es[i].now + cfg.idle
    ensures var a := Run(cfg, es[..j + 1]);
            && Remembers(a, Slot(es[i].src, KeyOf(cfg.mapping, es[i].dst)), p, es[i].now, es[i].dst)
            && Remembers(a, Slot(es[j].src, KeyOf(cfg.mapping, es[j].dst)), q, es[j].now, es[j].dst)
  {
    SendRemembers(cfg, es, i, p);
    SendRemembers(cfg, es, j, q);
    StillRemembers(cfg, es, i, j, Slot(es[i].src, KeyOf(cfg.mapping, es[i].dst)), p, es[i].dst);
  }

  lemma StillRemembers(cfg: Config, es: seq<Event>, i: nat, j: nat, slot: Slot, p: Port, dst: Endpoint)
    requires cfg.Ok() && Ordered(es) && i < j < |es| && es[j].now <= es[i].now + cfg.idle
    requires Remembers(Run(cfg, es[..i + 1]), slot, p, es[i].now, dst)
    ensures Remembers(Run(cfg, es[..j + 1]), slot, p, es[i].now, dst)
  {
    var cut := es[..j + 1];
    assert cut[..i + 1] == es[..i + 1];
    RunRemembers(cfg, cut, i + 1, es[j].now, slot, p, es[i].now, dst);
  }
}
