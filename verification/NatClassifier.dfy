/** Inferring the NAT's mapping rule from what observers report, and why the
    inference is right for the box of `NatModel`. */
module NatClassifier {
  import opened Options
  import opened NatModel
  import opened NatRuns

  /** The peer at `observer` saw us at `mapping`. */
  datatype Observation = Observation(observer: Endpoint, mapping: Endpoint)

  datatype NatClass = Public | EndpointIndependentClass | PortDependent | Symmetric

  // ---- what each class means ---------------------------------------------------

  ghost predicate ManyIps(obs: seq<Observation>)
  {
    exists i, j :: 0 <= i < |obs| && 0 <= j < |obs| && obs[i].observer.ip != obs[j].observer.ip
  }

  ghost predicate Differ(obs: seq<Observation>)
  {
    exists i, j :: 0 <= i < |obs| && 0 <= j < |obs| && obs[i].mapping != obs[j].mapping
  }

  /** Two observers on one port disagree. */
  ghost predicate Clash(obs: seq<Observation>)
  {
    exists i, j :: 0 <= i < |obs| && 0 <= j < |obs| && obs[i].observer.port == obs[j].observer.port &&
      obs[i].mapping != obs[j].mapping
  }

  ghost function ClassOf(local: Endpoint, obs: seq<Observation>): (c: Option<NatClass>)
  {
    if !ManyIps(obs) then None
    else if Clash(obs) then Some(Symmetric)
    else if Differ(obs) then Some(PortDependent)
    else if obs[0].mapping == local then Some(Public)
    else Some(EndpointIndependentClass)
  }

  // ---- the procedure -------------------------------------------------------------

  lemma TwoElements<T>(s: set<T>)
    ensures |s| > 1 <==> exists x, y :: x in s && y in s && x != y
  {
    if x, y :| x in s && y in s && x != y {
      assert {x, y} <= s;
      assert |s - {x, y}| == |s| - |{x, y}|;
    } else if s != {} {
      var x :| x in s;
      assert s == {x};
    }
  }

  function Ips(obs: seq<Observation>): (s: set<nat>)
  {
    set i | 0 <= i < |obs| :: obs[i].observer.ip
  }

  function Mappings(obs: seq<Observation>): (s: set<Endpoint>)
  {
    set i | 0 <= i < |obs| :: obs[i].mapping
  }

  function Reported(obs: seq<Observation>, port: Port): (s: set<Endpoint>)
  {
    set i | 0 <= i < |obs| && obs[i].observer.port == port :: obs[i].mapping
  }

  ghost predicate Grouped(obs: seq<Observation>, groups: map<Port, set<Endpoint>>)
  {
    && (forall i :: 0 <= i < |obs| ==> obs[i].observer.port in groups)
    && (forall p | p in groups :: Reported(obs, p) == groups[p] != {})
  }

  function Flatten(groups: map<Port, set<Endpoint>>): (s: set<Endpoint>)
  {
    set p, m | p in groups && m in groups[p] :: m
  }

  lemma FlattenGroups(obs: seq<Observation>, groups: map<Port, set<Endpoint>>)
    requires Grouped(obs, groups)
    ensures Flatten(groups) == Mappings(obs)
  {
    forall i | 0 <= i < |obs|
      ensures obs[i].mapping in Flatten(groups)
    {
      assert obs[i].mapping in Reported(obs, obs[i].observer.port);
    }
  }

  /** Group the mappings by the observer's port. */
  method Group(obs: seq<Observation>) returns (groups: map<Port, set<Endpoint>>)
    ensures Grouped(obs, groups)
  {
    groups := map[];
    for k := 0 to |obs|
      invariant Grouped(obs[..k], groups)
    {
      var p := obs[k].observer.port;
      assert obs[..k + 1] == obs[..k] + [obs[k]];
      forall q: Port
        ensures Reported(obs[..k + 1], q) == Reported(obs[..k], q) + if q == p then {obs[k].mapping} else {}
      {
        ReportedMore(obs[..k], obs[k], q);
      }
      assert p !in groups ==> Reported(obs[..k], p) == {};
      groups := groups[p := (if p in groups then groups[p] else {}) + {obs[k].mapping}];
    }
    assert obs[..|obs|] == obs;
  }

  lemma ReportedMore(obs: seq<Observation>, o: Observation, port: Port)
    ensures Reported(obs + [o], port) == Reported(obs, port) + if o.observer.port == port then {o.mapping} else {}
  {
    var all := obs + [o];
    forall m | m in Reported(obs, port)
      ensures m in Reported(all, port)
    {
      var i :| 0 <= i < |obs| && obs[i].observer.port == port && obs[i].mapping == m;
      assert all[i] == obs[i];
    }
    assert all[|obs|] == o;
  }

  lemma ClashInGroup(obs: seq<Observation>, groups: map<Port, set<Endpoint>>)
    requires Grouped(obs, groups)
    ensures Clash(obs) <==> exists p | p in groups :: |groups[p]| > 1
  {
    if i, j :|
         && 0 <= i < |obs| && 0 <= j < |obs|
         && obs[i].observer.port == obs[j].observer.port && obs[i].mapping != obs[j].mapping {
      var group := Reported(obs, obs[i].observer.port);
      TwoElements(group);
      assert obs[i].mapping in group && obs[j].mapping in group;
    }
    if p :| p in groups && |groups[p]| > 1 {
      TwoElements(Reported(obs, p));
    }
  }

  lemma DistinctCounts(obs: seq<Observation>)
    ensures ManyIps(obs) <==> |Ips(obs)| > 1
    ensures Differ(obs) <==> |Mappings(obs)| > 1
  {
    TwoElements(Ips(obs));
    TwoElements(Mappings(obs));
    if i, j :| 0 <= i < |obs| && 0 <= j < |obs| && obs[i].observer.ip != obs[j].observer.ip {
      assert obs[i].observer.ip in Ips(obs) && obs[j].observer.ip in Ips(obs);
    }
    if i, j :| 0 <= i < |obs| && 0 <= j < |obs| && obs[i].mapping != obs[j].mapping {
      assert obs[i].mapping in Mappings(obs) && obs[j].mapping in Mappings(obs);
    }
  }

  method Classify(local: Endpoint, obs: seq<Observation>) returns (c: Option<NatClass>)
    ensures c == ClassOf(local, obs)
    // nothing is concluded from a single observer address
    ensures c.None? <==> forall i, j | 0 <= i < |obs| && 0 <= j < |obs| :: obs[i].observer.ip == obs[j].observer.ip
    // one mapping for all observers, or one for all that share a port, or neither
    ensures c == Some(Public) ==> forall i | 0 <= i < |obs| :: obs[i].mapping == local
    ensures c == Some(EndpointIndependentClass) ==>
              forall i | 0 <= i < |obs| :: obs[i].mapping == obs[0].mapping != local
    ensures c == Some(PortDependent) ==>
              && (exists i | 0 <= i < |obs| :: obs[i].mapping != obs[0].mapping)
              && forall i, j | 0 <= i < |obs| && 0 <= j < |obs| && obs[i].observer.port == obs[j].observer.port ::
                   obs[i].mapping == obs[j].mapping
    ensures c == Some(Symmetric) ==>
              exists i, j | 0 <= i < |obs| && 0 <= j < |obs| && obs[i].observer.port == obs[j].observer.port ::
                obs[i].mapping != obs[j].mapping
  {
    DistinctCounts(obs);
    if |Ips(obs)| < 2 {
      return None;
    }
    var groups := Group(obs);
    ClashInGroup(obs, groups);
    if exists p | p in groups :: |groups[p]| > 1 {
      return Some(Symmetric);
    }
    FlattenGroups(obs, groups);
    var distinct := Flatten(groups);
    if |distinct| > 1 {
      return Some(PortDependent);
    }
    assert obs[0].mapping in distinct;
    var mapping :| mapping in distinct;
    return Some(if mapping == local then Public else EndpointIndependentClass);
  }

  // ---- observing a box -----------------------------------------------------------

  /** Observation `n` reports departure `picks[n]` of socket `me`, and all those
      departures fall within one idle timeout. The socket holds no lease when it
      sends, since each datagram leaves by a translation. */
  ghost predicate Witnessed(cfg: Config, es: seq<Event>, me: Endpoint, ext: nat, picks: seq<nat>, obs: seq<Observation>)
    requires cfg.Ok()
  {
    && Ordered(es)
    && |picks| == |obs|
    && (forall n :: 0 <= n < |picks| ==>
          picks[n] < |es| && LeftBy(cfg, es, picks[n], obs[n].mapping.port)
          && es[picks[n]].src == me && es[picks[n]].dst == obs[n].observer && obs[n].mapping.ip == ext)
    && (forall m, n :: 0 <= m < |picks| && 0 <= n < |picks| ==> es[picks[n]].now <= es[picks[m]].now + cfg.idle)
  }

  ghost predicate SameKey(cfg: Config, o: Observation, o': Observation)
  {
    KeyOf(cfg.mapping, o.observer) == KeyOf(cfg.mapping, o'.observer)
  }

  lemma SameKeySameMapping(cfg: Config, es: seq<Event>, me: Endpoint, ext: nat, picks: seq<nat>,
                           obs: seq<Observation>, m: nat, n: nat)
    requires cfg.Ok() && Witnessed(cfg, es, me, ext, picks, obs) && m < |obs| && n < |obs|
    requires SameKey(cfg, obs[m], obs[n])
    ensures obs[m].mapping == obs[n].mapping
  {
    var i, j := picks[m], picks[n];
    if i < j {
      StablePort(cfg, es, i, obs[m].mapping.port, j, obs[n].mapping.port);
    } else if j < i {
      StablePort(cfg, es, j, obs[n].mapping.port, i, obs[m].mapping.port);
    }
  }

  lemma OtherKeyOtherMapping(cfg: Config, es: seq<Event>, me: Endpoint, ext: nat, picks: seq<nat>,
                             obs: seq<Observation>, m: nat, n: nat)
    requires cfg.Ok() && Witnessed(cfg, es, me, ext, picks, obs) && m < |obs| && n < |obs|
    requires !cfg.allocator.Preserving? && !SameKey(cfg, obs[m], obs[n])
    ensures obs[m].mapping != obs[n].mapping
  {
    var i, j := picks[m], picks[n];
    if i < j {
      DistinctPorts(cfg, es, i, obs[m].mapping.port, j, obs[n].mapping.port);
    } else {
      DistinctPorts(cfg, es, j, obs[n].mapping.port, i, obs[m].mapping.port);
    }
  }

  /** An endpoint-independent box is never mistaken for a worse one. */
  lemma EndpointIndependentRecovered(cfg: Config, es: seq<Event>, me: Endpoint, ext: nat, picks: seq<nat>,
                                     obs: seq<Observation>, local: Endpoint)
    requires cfg.Ok() && Witnessed(cfg, es, me, ext, picks, obs) && ManyIps(obs)
    requires cfg.mapping.EndpointIndependent?
    ensures ClassOf(local, obs) == Some(if obs[0].mapping == local then Public else EndpointIndependentClass)
  {
    forall m: nat, n: nat | m < |obs| && n < |obs|
      ensures obs[m].mapping == obs[n].mapping
    {
      SameKeySameMapping(cfg, es, me, ext, picks, obs, m, n);
    }
  }

  /** A box that looks at the destination port only is never called symmetric. */
  lemma DstPortNeverSymmetric(cfg: Config, es: seq<Event>, me: Endpoint, ext: nat, picks: seq<nat>,
                              obs: seq<Observation>, local: Endpoint)
    requires cfg.Ok() && Witnessed(cfg, es, me, ext, picks, obs)
    requires cfg.mapping.DstPort?
    ensures ClassOf(local, obs) != Some(Symmetric)
  {
    forall m: nat, n: nat | m < |obs| && n < |obs| && obs[m].observer.port == obs[n].observer.port
      ensures obs[m].mapping == obs[n].mapping
    {
      SameKeySameMapping(cfg, es, me, ext, picks, obs, m, n);
    }
  }

  ghost predicate ManyPorts(obs: seq<Observation>)
  {
    exists m, n :: 0 <= m < |obs| && 0 <= n < |obs| && obs[m].observer.port != obs[n].observer.port
  }

  /** Such a box is recognised exactly if the observers listen on several ports;
      observers that all share one port take it for endpoint-independent. */
  lemma DstPortRecovered(cfg: Config, es: seq<Event>, me: Endpoint, ext: nat, picks: seq<nat>, obs: seq<Observation>,
                         local: Endpoint)
    requires cfg.Ok() && Witnessed(cfg, es, me, ext, picks, obs) && ManyIps(obs)
    requires cfg.mapping.DstPort? && !cfg.allocator.Preserving?
    ensures ClassOf(local, obs) == Some(PortDependent) <==> ManyPorts(obs)
  {
    DstPortNeverSymmetric(cfg, es, me, ext, picks, obs, local);
    if m, n :| 0 <= m < |obs| && 0 <= n < |obs| && obs[m].observer.port != obs[n].observer.port {
      OtherKeyOtherMapping(cfg, es, me, ext, picks, obs, m, n);
    } else {
      forall m: nat, n: nat | m < |obs| && n < |obs|
        ensures obs[m].mapping == obs[n].mapping
      {
        SameKeySameMapping(cfg, es, me, ext, picks, obs, m, n);
      }
    }
  }

  predicate PortShared(e: Endpoint, f: Endpoint) { e.port == f.port && e.ip != f.ip }

  /** Two observers on one port and different addresses. */
  ghost predicate SharedPort(obs: seq<Observation>)
  {
    exists m, n :: 0 <= m < |obs| && 0 <= n < |obs| && PortShared(obs[m].observer, obs[n].observer)
  }

  /** A box that looks at the destination address, and does not preserve ports, is
      called symmetric exactly if two observers share a port at different addresses. */
  lemma SymmetricRecovered(cfg: Config, es: seq<Event>, me: Endpoint, ext: nat, picks: seq<nat>,
                           obs: seq<Observation>, local: Endpoint)
    requires cfg.Ok() && Witnessed(cfg, es, me, ext, picks, obs)
    requires (cfg.mapping.DstAddr? || cfg.mapping.DstAddrPort?) && !cfg.allocator.Preserving?
    ensures ClassOf(local, obs) == Some(Symmetric) <==> SharedPort(obs)
  {
    if SharedPort(obs) {
      SharedPortClashes(cfg, es, me, ext, picks, obs);
    } else {
      forall m: nat, n: nat | m < |obs| && n < |obs| && obs[m].observer.port == obs[n].observer.port
        ensures obs[m].mapping == obs[n].mapping
      {
        assert !PortShared(obs[m].observer, obs[n].observer);
        SameKeySameMapping(cfg, es, me, ext, picks, obs, m, n);
      }
    }
  }

  lemma SharedPortClashes(cfg: Config, es: seq<Event>, me: Endpoint, ext: nat, picks: seq<nat>, obs: seq<Observation>)
    requires cfg.Ok() && Witnessed(cfg, es, me, ext, picks, obs) && SharedPort(obs)
    requires (cfg.mapping.DstAddr? || cfg.mapping.DstAddrPort?) && !cfg.allocator.Preserving?
    ensures ManyIps(obs) && Clash(obs)
  {
    var m, n :| 0 <= m < |obs| && 0 <= n < |obs| && PortShared(obs[m].observer, obs[n].observer);
    OtherKeyOtherMapping(cfg, es, me, ext, picks, obs, m, n);
  }
}
