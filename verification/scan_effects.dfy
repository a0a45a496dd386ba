/**
 What a scan leaves in the store, in the fields of what was observed: which keys, under which
 names and nodes.
 */
module ScanEffects {
  import opened Options
  import opened Schema
  import opened StoreSpec
  import opened Replay
  import opened Models
  import opened ScanSpec
  import opened Scans
  import opened Rescans
  import opened ScanRuns

  // ---- Python's dictionaries -------------------------------------------------------------

  /** The k-th pair is the last one with its name. */
  predicate IsLast(pairs: seq<(string, int)>, i: int) {
    0 <= i < |pairs| && forall j :: i < j < |pairs| ==> pairs[j].0 != pairs[i].0
  }

  function Keys(d: Dict): seq<string> {
    seq(|d|, i requires 0 <= i < |d| => d[i].0)
  }

  /** The names in order of first appearance. */
  function Firsts(names: seq<string>): seq<string> {
    if names == [] then []
    else
      var earlier, last := Firsts(names[..|names| - 1]), names[|names| - 1];
      if last in earlier then earlier else earlier + [last]
  }

  predicate DistinctNames(d: Dict) {
    forall i, j :: 0 <= i < j < |d| ==> d[i].0 != d[j].0
  }

  lemma {:induction false} PutKeys(d: Dict, k: string, v: int)
    ensures Keys(Put(d, k, v)) == if k in Keys(d) then Keys(d) else Keys(d) + [k]
  {
    if d == [] {
      assert Keys(d) == [];
    } else if d[0].0 == k {
      assert Keys(d)[0] == k;
    } else {
      PutKeys(d[1..], k, v);
      assert Keys(d) == [d[0].0] + Keys(d[1..]);
      assert Keys(Put(d, k, v)) == [d[0].0] + Keys(Put(d[1..], k, v));
    }
  }

  lemma {:induction false} PutHolds(d: Dict, k: string, v: int, e: (string, int))
    requires DistinctNames(d)
    ensures e in Put(d, k, v) <==> (if e.0 == k then e.1 == v else e in d)
  {
    if d != [] {
      assert d == [d[0]] + d[1..];
      if d[0].0 == k {
        assert forall x :: x in d[1..] ==> x.0 != k;
      } else {
        assert DistinctNames(d[1..]);
        PutHolds(d[1..], k, v, e);
      }
    }
  }

  lemma {:induction false} FirstsDistinct(names: seq<string>)
    ensures forall i, j :: 0 <= i < j < |Firsts(names)| ==> Firsts(names)[i] != Firsts(names)[j]
  {
    if names != [] {
      FirstsDistinct(names[..|names| - 1]);
    }
  }

  lemma KeysDistinct(d: Dict, names: seq<string>)
    requires Keys(d) == Firsts(names)
    ensures DistinctNames(d)
  {
    FirstsDistinct(names);
    assert forall i :: 0 <= i < |d| ==> Keys(d)[i] == d[i].0;
  }

  /** Keys come in order of first appearance. */
  lemma {:induction false} DictKeys(pairs: seq<(string, int)>)
    ensures Keys(DictOf(pairs)) == Firsts(Keys(pairs)) && DistinctNames(DictOf(pairs))
  {
    if pairs != [] {
      var init, last := pairs[..|pairs| - 1], pairs[|pairs| - 1];
      assert Keys(pairs)[..|pairs| - 1] == Keys(init) && Keys(pairs)[|pairs| - 1] == last.0;
      hide Put, DistinctNames;
      DictKeys(init);
      PutKeys(DictOf(init), last.0, last.1);
      hide Keys;
    }
    KeysDistinct(DictOf(pairs), Keys(pairs));
  }

  ghost predicate PairedLast(pairs: seq<(string, int)>, e: (string, int)) {
    exists i :: IsLast(pairs, i) && pairs[i] == e
  }

  lemma PairedLastGrows(init: seq<(string, int)>, last: (string, int), e: (string, int))
    ensures PairedLast(init + [last], e) <==> if e.0 == last.0 then e == last else PairedLast(init, e)
  {
    var pairs, n := init + [last], |init|;
    assert forall j :: 0 <= j < n ==> pairs[j] == init[j];
    assert IsLast(pairs, n) && pairs[n] == last;
    if i :| IsLast(pairs, i) && pairs[i] == e {
      if i < n {
        assert IsLast(init, i) && init[i] == e;
      }
    }
    if e.0 != last.0 {
      if i :| IsLast(init, i) && init[i] == e {
        assert IsLast(pairs, i) && pairs[i] == e;
      }
    }
  }

  /** A name maps to the last value paired with it. */
  lemma {:induction false} DictHolds(pairs: seq<(string, int)>, e: (string, int))
    ensures e in DictOf(pairs) <==> PairedLast(pairs, e)
  {
    if pairs != [] {
      hide PairedLast, DistinctNames, Put, Keys;
      var init, last := pairs[..|pairs| - 1], pairs[|pairs| - 1];
      assert init + [last] == pairs;
      DictHolds(init, e);
      DictKeys(init);
      PutHolds(DictOf(init), last.0, last.1, e);
      PairedLastGrows(init, last, e);
    }
  }

  lemma DictStartsAtFirst(pairs: seq<(string, int)>)
    requires pairs != []
    ensures DictOf(pairs) != [] && DictOf(pairs)[0].0 == pairs[0].0
  {
    DictKeys(pairs);
    FirstsStart(Keys(pairs));
    assert Keys(DictOf(pairs))[0] == DictOf(pairs)[0].0;
  }

  lemma {:induction false} FirstsStart(names: seq<string>)
    requires names != []
    ensures Firsts(names) != [] && Firsts(names)[0] == names[0]
  {
    if |names| > 1 {
      FirstsStart(names[..|names| - 1]);
    } else {
      assert Firsts(names[..0]) == [];
    }
  }

  // ---- The first node and the service names ----------------------------------------------

  /** The node that takes what names no node: the first one observed. */
  lemma FirstNodeIs(db: Database, obs: Observation)
    requires Sound(db)
    ensures obs.nodes == [] ==> FirstNode(db, obs) == None
    ensures obs.nodes != [] ==>
      exists r :: r in AfterNodes(db, obs).rows && r.table == Nodes && FirstNode(db, obs) == Some(r.id)
        && AfterNodes(db, obs).rows[r].key == NodeKey(obs.nodes[0].hostname)
  {
    var after := AfterNodes(db, obs);
    NodeScanIsBatch(db, obs);
    var pairs := NodePairs(after, obs.nodes);
    if obs.nodes != [] {
      hide Sound, Batch, Extends, Run, AfterNodes;
      DictStartsAtFirst(pairs);
      var e := DictOf(pairs)[0];
      DictHolds(pairs, e);
      var i :| IsLast(pairs, i) && pairs[i] == e;
      NodeIs(db, obs, i);
    }
  }

  lemma NodeIs(db: Database, obs: Observation, i: nat)
    requires Sound(db) && Batch(db, NodeOps(obs.nodes)) && Sound(AfterNodes(db, obs)) && i < |obs.nodes|
    ensures var r := Ref(Nodes, IdOf(AfterNodes(db, obs), NodeOp(obs.nodes[i]).key));
      r in AfterNodes(db, obs).rows && AfterNodes(db, obs).rows[r].key == NodeKey(obs.nodes[i].hostname)
  {
    hide Sound, Run, Batch;
    NodeLives(db, obs.nodes, i);
    BatchIsStored(db, NodeOps(obs.nodes), i);
    assert NodeOps(obs.nodes)[i] == NodeOp(obs.nodes[i]);
    IdIsLive(AfterNodes(db, obs), NodeOp(obs.nodes[i]).key);
  }

  /** The row holds the observed service, placed on the first node if it names none. */
  ghost predicate HoldsService(db: Database, r: Ref, s: Service, first: Option<int>) {
    && r in db.rows && r.table == Services && db.rows[r].key.ServiceKey?
    && db.rows[r].key.name == s.name && db.rows[r].key.kind == s.kind
    && db.rows[r].key.node == (if s.nodeId.Some? then s.nodeId else first)
    && (if db.rows[r].key.namespace.Some? then db.rows[r].key.namespace.value else "")
       == (if s.namespace.Some? then s.namespace.value else "")
  }

  lemma ServiceIs(db: Database, obs: Observation, i: nat)
    requires Sound(db) && AsProbed(obs) && i < |obs.services|
    ensures var after, key := AfterServices(db, obs), ServiceOp(Placed(obs.services[i], FirstNode(db, obs))).key;
      HoldsService(after, Ref(Services, IdOf(after, key)), obs.services[i], FirstNode(db, obs))
  {
    hide Sound, Run, Batch, Extends, AsProbed, NameOf, FirstNode, AfterNodes, AfterServices, HoldsService, Matches;
    FirstNodeLives(db, obs);
    NamesLive(db, obs);
    ServiceStored(db, obs, i);
    var after, key := AfterServices(db, obs), ServiceOp(Placed(obs.services[i], FirstNode(db, obs))).key;
    IdIsLive(after, key);
    MatchHolds(after, Lookup(after, key), obs.services[i], FirstNode(db, obs));
  }

  lemma MatchHolds(db: Database, r: Ref, s: Service, first: Option<int>)
    requires r in db.rows && r.table == Services && Matches(db.rows[r].key, ServiceOp(Placed(s, first)).key)
    ensures HoldsService(db, r, s, first)
  {
  }

  ghost predicate IsNamed(db: Database, obs: Observation, e: (string, int)) {
    exists i ::
      && NamedLast(obs, i, e.0)
      && HoldsService(AfterServices(db, obs), Ref(Services, e.1), obs.services[i], FirstNode(db, obs))
  }

  /** service_name_map: each observed name, with the id of the last service observed under it. */
  lemma NamesAre(db: Database, obs: Observation, e: (string, int))
    requires Sound(db) && AsProbed(obs)
    ensures e in Names(db, obs) <==> IsNamed(db, obs, e)
  {
    hide Sound, Run, Batch, Extends, AsProbed, NameOf, FirstNode, AfterNodes, AfterServices, HoldsService, DictOf;
    hide NamePairs;
    var after, first := AfterServices(db, obs), FirstNode(db, obs);
    var pairs := NamePairs(after, obs.services, first);
    NamesLive(db, obs);
    DictHolds(pairs, e);
    LastPairs(after, obs, first, 0, e.0);
    forall i | 0 <= i < |obs.services|
      ensures IsLast(pairs, i) && pairs[i] == e <==>
        NamedLast(obs, i, e.0) && HoldsService(after, Ref(Services, e.1), obs.services[i], first)
    {
      LastPairs(after, obs, first, i, e.0);
      ServiceIs(db, obs, i);
      OneServiceHolds(after, obs.services[i], first, Ref(Services, e.1), Ref(Services, pairs[i].1));
    }
  }

  lemma LastPairs(after: Database, obs: Observation, first: Option<int>, i: int, name: string)
    ensures var pairs := NamePairs(after, obs.services, first);
      && |pairs| == |obs.services|
      && (0 <= i < |pairs| ==>
            pairs[i] == (obs.services[i].name, IdOf(after, ServiceOp(Placed(obs.services[i], first)).key)))
      && (NamedLast(obs, i, name) <==> IsLast(pairs, i) && pairs[i].0 == name)
      && (IsLast(pairs, i) ==> 0 <= i < |pairs|) && (NamedLast(obs, i, name) ==> 0 <= i < |pairs|)
  {
    hide IdOf, ServiceOp, Placed;
    var pairs := NamePairs(after, obs.services, first);
    forall j | 0 <= j < |pairs| ensures pairs[j].0 == obs.services[j].name {
    }
  }

  predicate NamedLast(obs: Observation, i: int, name: string) {
    && 0 <= i < |obs.services| && obs.services[i].name == name
    && forall j :: i < j < |obs.services| ==> obs.services[j].name != name
  }

  lemma OneServiceHolds(db: Database, s: Service, first: Option<int>, r: Ref, t: Ref)
    requires Sound(db) && HoldsService(db, t, s, first) && r.table == Services && t.table == Services
    ensures HoldsService(db, r, s, first) <==> r == t
  {
    if HoldsService(db, r, s, first) {
      assert Matches(db.rows[r].key, db.rows[t].key);
    }
  }

  // ---- The keys after a scan -------------------------------------------------------------

  /** The observation has an entity with this key. */
  ghost predicate Observed(db: Database, obs: Observation, key: Key) {
    match key
    case NodeKey(h) => exists n :: n in obs.nodes && n.hostname == h
    case ServiceKey(name, kind, node, namespace) =>
      node == FirstNode(db, obs)
      && exists s :: s in obs.services && s.name == name && s.kind == kind
           && (if s.namespace.Some? then s.namespace.value else "") == (if namespace.Some? then namespace.value else "")
    case PortKey(owner, number, protocol) =>
      owner.Some? && owner == PortOwner(db, number)
      && exists p :: p in obs.ports && p.port == number && p.protocol == protocol
    case InterfaceKey(host, name) =>
      FirstNode(db, obs) == Some(host) && exists i :: i in obs.interfaces && i.name == name
    case ConfigKey(owner, path) =>
      owner.Some?
      && exists e, f ::
           e in Names(db, obs) && owner.value == e.1 && e.0 in obs.configs && f in obs.configs[e.0] && f.path == path
    case DependencyKey(source, target, depType) => Infers(db, obs, source, target, depType)
  }

  lemma OwnersBefore(db: Database, obs: Observation, number: int)
    requires Sound(db) && AsProbed(obs)
    ensures PortOwner(AfterServices(db, obs), number) == PortOwner(db, number)
  {
    FirstNodeLives(db, obs);
    NamesLive(db, obs);
    var a := AfterServices(db, obs);
    hide Sound, PortOwner, Batch, AsProbed, AfterServices;
    ExtendsTransitively(db, AfterNodes(db, obs), a);
    assert PortsAttach(db, a) by {
      forall r | r in a.rows && r !in db.rows ensures !a.rows[r].key.PortKey? {
        NoPortsBefore(db, obs, r);
      }
    }
    OwnerPersists(db, a, number);
  }

  lemma ServiceCallObserved(db: Database, obs: Observation, op: Op, key: Key)
    requires AsProbed(obs) && op in ServiceOps(obs.services, FirstNode(db, obs))
    requires op.Upsert? && Matches(op.key, key)
    ensures Observed(db, obs, key)
  {
    hide FirstNode, Names;
    var i :| 0 <= i < |obs.services| && op == ServiceOps(obs.services, FirstNode(db, obs))[i];
    assert op == ServiceOp(Placed(obs.services[i], FirstNode(db, obs)));
    assert obs.services[i] in obs.services;
  }

  lemma PortCallOwned(db: Database, obs: Observation, op: Op)
    requires Sound(db) && AsProbed(obs) && op in PortOps(AfterServices(db, obs), obs.ports)
    ensures OwnersOp(db, op)
    ensures exists p, owner :: p in obs.ports && op == PortOp(p.(serviceId := owner))
  {
    NamesLive(db, obs);
    assert Unowned(obs.ports);
    hide Sound, PortOwner, Batch, AfterServices, FirstNode, Names, PortOps, AsProbed;
    PortOpsArePorts(AfterServices(db, obs), obs.ports, op);
    UnownedPorts(AfterServices(db, obs), obs.ports);
    assert OwnersOp(AfterServices(db, obs), op);
    OwnersBefore(db, obs, op.key.port);
  }

  lemma PortCallObserved(db: Database, obs: Observation, op: Op, key: Key)
    requires Sound(db) && AsProbed(obs) && op in PortOps(AfterServices(db, obs), obs.ports)
    requires op.Upsert? && Matches(op.key, key)
    ensures Observed(db, obs, key)
  {
    PortCallOwned(db, obs, op);
    hide Sound, PortOwner, AfterServices, FirstNode, Names, PortOps, AsProbed, Infers;
    var p, owner :| p in obs.ports && op == PortOp(p.(serviceId := owner));
  }

  lemma InterfaceCallObserved(db: Database, obs: Observation, op: Op, key: Key)
    requires AsProbed(obs) && op in InterfaceOps(obs.interfaces, FirstNode(db, obs))
    requires op.Upsert? && Matches(op.key, key)
    ensures Observed(db, obs, key)
  {
    hide FirstNode, Names;
    InterfaceOpsAre(obs.interfaces, FirstNode(db, obs), op);
  }

  lemma ConfigCallObserved(db: Database, obs: Observation, op: Op, key: Key)
    requires op in ConfigOps(Names(db, obs), obs.configs) && op.Upsert? && Matches(op.key, key)
    ensures Observed(db, obs, key)
  {
    hide FirstNode, Names;
    ConfigOpsAre(Names(db, obs), obs.configs, op);
  }

  lemma NodeCallObserved(db: Database, obs: Observation, op: Op, key: Key)
    requires op in NodeOps(obs.nodes) && op.Upsert? && Matches(op.key, key)
    ensures Observed(db, obs, key)
  {
    var i :| 0 <= i < |obs.nodes| && op == NodeOps(obs.nodes)[i];
    assert op == NodeOp(obs.nodes[i]) && obs.nodes[i] in obs.nodes;
  }

  lemma CallObserved(db: Database, obs: Observation, op: Op, key: Key)
    requires Sound(db) && AsProbed(obs) && op in Plan(db, obs)
    requires op.Upsert? && Matches(op.key, key) && !key.DependencyKey?
    ensures Observed(db, obs, key)
  {
    assert !op.key.DependencyKey?;
    hide *;
    PhaseOfCall(db, obs, op);
    if op.key.NodeKey? {
      NodeCallObserved(db, obs, op, key);
    } else if op.key.ServiceKey? {
      ServiceCallObserved(db, obs, op, key);
    } else if op.key.PortKey? {
      PortCallObserved(db, obs, op, key);
    } else if op.key.InterfaceKey? {
      InterfaceCallObserved(db, obs, op, key);
    } else {
      ConfigCallObserved(db, obs, op, key);
    }
  }

  lemma NewCallObserved(db: Database, obs: Observation, key: Key)
    requires Sound(db) && AsProbed(obs) && Batch(db, Plan(db, obs)) && !key.DependencyKey?
    requires Has(Run(db, Plan(db, obs)), key) && !Has(db, key)
    ensures Observed(db, obs, key)
  {
    hide *;
    BatchUpserts(db, Plan(db, obs));
    var i := NewKeyIsObserved(db, Plan(db, obs), key);
    PhaseOfCall(db, obs, Plan(db, obs)[i]);
    CallObserved(db, obs, Plan(db, obs)[i], key);
  }

  lemma NewDependencyObserved(db: Database, obs: Observation, key: Key)
    requires Sound(db) && Batch(db, Plan(db, obs)) && key.DependencyKey?
    requires Has(Run(db, Plan(db, obs)), key) && !Has(db, key)
    ensures Observed(db, obs, key)
  {
    hide Plan, Run, Sound, Batch, Has, Infers, Names, PortOwner, FirstNode;
    ScannedDependency(db, obs, key);
  }

  lemma NewKeyObserved(db: Database, obs: Observation, key: Key)
    requires Sound(db) && AsProbed(obs) && Has(Scan(db, obs), key) && !Has(db, key)
    ensures Observed(db, obs, key)
  {
    hide *;
    ScanIsBatch(db, obs);
    ScanIsPlan(db, obs);
    if key.DependencyKey? {
      NewDependencyObserved(db, obs, key);
    } else {
      NewCallObserved(db, obs, key);
    }
  }

  lemma HasMatching(db: Database, stored: Key, key: Key)
    requires Has(db, stored) && Matches(stored, key)
    ensures Has(db, key)
  {
    var r := Lookup(db, stored);
    assert Matches(db.rows[r].key, key);
  }

  /** A call of the plan leaves its key in the store. */
  lemma CallIsStored(db: Database, obs: Observation, op: Op, key: Key)
    requires Sound(db) && AsProbed(obs) && op in Plan(db, obs) && op.Upsert? && Matches(op.key, key)
    ensures Has(Scan(db, obs), key)
  {
    ScanIsBatch(db, obs);
    ScanIsPlan(db, obs);
    hide Sound, Batch, Plan, Run, Has, Scan, AsProbed, Matches, Extends;
    var i :| 0 <= i < |Plan(db, obs)| && Plan(db, obs)[i] == op;
    BatchIsStored(db, Plan(db, obs), i);
    HasMatching(Scan(db, obs), op.key, key);
  }

  lemma {:induction false} PortInPlan(db: Database, ports: seq<Port>, p: Port)
    requires Sound(db) && Unowned(ports) && p in ports && PortOwner(db, p.port).Some?
    ensures PortOp(p.(serviceId := PortOwner(db, p.port))) in PortOps(db, ports)
  {
    hide Sound, PortOwner, PortOp, PortOps, Run;
    var init, last := ports[..|ports| - 1], ports[|ports| - 1];
    assert last in ports;
    PortOpsLast(db, ports);
    OwnerDuringScan(db, init, last.port);
    if p in init {
      PortInPlan(db, init, p);
    }
  }

  lemma {:induction false} InterfaceInPlan(interfaces: seq<NetworkInterface>, host: int, i: NetworkInterface)
    requires i in interfaces && i.nodeId == 0
    ensures InterfaceOp(i.(nodeId := host)) in InterfaceOps(interfaces, Some(host))
  {
    if i in interfaces[..|interfaces| - 1] {
      InterfaceInPlan(interfaces[..|interfaces| - 1], host, i);
    }
  }

  lemma {:induction false} ConfigInPlan(names: Dict, configs: map<string, seq<ConfigFile>>, e: (string, int),
                                        f: ConfigFile)
    requires e in names && e.0 in configs && f in configs[e.0]
    ensures ConfigOp(f.(serviceId := Some(e.1))) in ConfigOps(names, configs)
  {
    var init, last := names[..|names| - 1], names[|names| - 1];
    if e in init {
      ConfigInPlan(init, configs, e, f);
    } else {
      var files := configs[e.0];
      var k :| 0 <= k < |files| && files[k] == f;
      assert FilesOps(files, e.1)[k] == ConfigOp(f.(serviceId := Some(e.1)));
    }
  }

  lemma PlanHas(db: Database, obs: Observation, op: Op)
    requires
      || op in NodeOps(obs.nodes) || op in ServiceOps(obs.services, FirstNode(db, obs))
      || op in PortOps(AfterServices(db, obs), obs.ports) || op in InterfaceOps(obs.interfaces, FirstNode(db, obs))
      || op in ConfigOps(Names(db, obs), obs.configs)
    ensures op in Plan(db, obs)
  {
    hide NodeOps, ServiceOps, PortOps, InterfaceOps, ConfigOps, DependencyOps;
    hide FirstNode, Names, AfterServices, Inferred;
  }

  lemma ObservedNodeStored(db: Database, obs: Observation, key: Key)
    requires Sound(db) && AsProbed(obs) && key.NodeKey? && Observed(db, obs, key)
    ensures Has(Scan(db, obs), key)
  {
    hide Sound, Plan, Scan, Has, AsProbed;
    var i :| 0 <= i < |obs.nodes| && obs.nodes[i].hostname == key.hostname;
    assert NodeOps(obs.nodes)[i] == NodeOp(obs.nodes[i]) && NodeOps(obs.nodes)[i] in NodeOps(obs.nodes);
    PlanHas(db, obs, NodeOp(obs.nodes[i]));
    CallIsStored(db, obs, NodeOp(obs.nodes[i]), key);
  }

  lemma ObservedServiceStored(db: Database, obs: Observation, key: Key)
    requires Sound(db) && AsProbed(obs) && key.ServiceKey? && Observed(db, obs, key)
    ensures Has(Scan(db, obs), key)
  {
    var s :| s in obs.services && s.name == key.name && s.kind == key.kind
      && (if s.namespace.Some? then s.namespace.value else "")
         == (if key.namespace.Some? then key.namespace.value else "");
    var first := FirstNode(db, obs);
    assert s.nodeId.None?;
    hide Sound, Plan, Scan, Has, AsProbed, FirstNode;
    var i :| 0 <= i < |obs.services| && obs.services[i] == s;
    assert ServiceOps(obs.services, first)[i] == ServiceOp(Placed(s, first));
    assert ServiceOps(obs.services, first)[i] in ServiceOps(obs.services, first);
    PlanHas(db, obs, ServiceOp(Placed(s, first)));
    CallIsStored(db, obs, ServiceOp(Placed(s, first)), key);
  }

  lemma ObservedPortStored(db: Database, obs: Observation, key: Key)
    requires Sound(db) && AsProbed(obs) && key.PortKey? && Observed(db, obs, key)
    ensures Has(Scan(db, obs), key)
  {
    var p :| p in obs.ports && p.port == key.port && p.protocol == key.protocol;
    NamesLive(db, obs);
    assert Unowned(obs.ports);
    hide Sound, Plan, Scan, Has, AsProbed, FirstNode, PortOwner, AfterServices, Batch;
    OwnersBefore(db, obs, p.port);
    PortInPlan(AfterServices(db, obs), obs.ports, p);
    PlanHas(db, obs, PortOp(p.(serviceId := key.owner)));
    CallIsStored(db, obs, PortOp(p.(serviceId := key.owner)), key);
  }

  lemma ObservedInterfaceStored(db: Database, obs: Observation, key: Key)
    requires Sound(db) && AsProbed(obs) && key.InterfaceKey? && Observed(db, obs, key)
    ensures Has(Scan(db, obs), key)
  {
    var i :| i in obs.interfaces && i.name == key.name;
    assert i.nodeId == 0;
    hide Sound, Plan, Scan, Has, AsProbed, FirstNode, InterfaceOps;
    InterfaceInPlan(obs.interfaces, key.host, i);
    PlanHas(db, obs, InterfaceOp(i.(nodeId := key.host)));
    CallIsStored(db, obs, InterfaceOp(i.(nodeId := key.host)), key);
  }

  lemma ObservedConfigStored(db: Database, obs: Observation, key: Key)
    requires Sound(db) && AsProbed(obs) && key.ConfigKey? && Observed(db, obs, key)
    ensures Has(Scan(db, obs), key)
  {
    hide Sound, Plan, Scan, Has, AsProbed, Names, ConfigOps;
    var e, f :| e in Names(db, obs) && key.owner.value == e.1
      && e.0 in obs.configs && f in obs.configs[e.0] && f.path == key.path;
    ConfigInPlan(Names(db, obs), obs.configs, e, f);
    PlanHas(db, obs, ConfigOp(f.(serviceId := Some(e.1))));
    CallIsStored(db, obs, ConfigOp(f.(serviceId := Some(e.1))), key);
  }

  /** After a scan the store has the keys it had, and exactly those that were observed. */
  lemma KeysAfterScan(db: Database, obs: Observation, key: Key)
    requires Sound(db) && AsProbed(obs)
    requires (key.PortKey? || key.ConfigKey?) ==> key.owner.Some?
    ensures Has(Scan(db, obs), key) <==> Has(db, key) || Observed(db, obs, key)
  {
    if Has(Scan(db, obs), key) && !Has(db, key) {
      NewKeyObserved(db, obs, key);
    }
    ScanIsBatch(db, obs);
    hide Sound, Has, AsProbed, Scan, Extends, Batch, Plan;
    if Has(db, key) {
      LookupKey(db, Scan(db, obs), key);
    } else if Observed(db, obs, key) {
      match key
      case NodeKey(_) => ObservedNodeStored(db, obs, key);
      case ServiceKey(_, _, _, _) => ObservedServiceStored(db, obs, key);
      case PortKey(_, _, _) => ObservedPortStored(db, obs, key);
      case InterfaceKey(_, _) => ObservedInterfaceStored(db, obs, key);
      case ConfigKey(_, _) => ObservedConfigStored(db, obs, key);
      case DependencyKey(s, t, d) => DependenciesAfterScan(db, obs, s, t, d);
    }
  }
}
