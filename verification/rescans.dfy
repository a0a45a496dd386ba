/** Repeating a scan: the tables stay, and a consistent observation is silent. */
module Rescans {
  import opened Options
  import opened Schema
  import opened StoreSpec
  import opened Replay
  import opened Models
  import opened ScanSpec
  import opened Scans

  // ---- Repeating a scan ------------------------------------------------------------------

  /** Equal observations, apart from the time stamps. */
  ghost predicate SameSeen(a: Observation, b: Observation) {
    && |a.nodes| == |b.nodes| && |a.services| == |b.services|
    && (forall i :: 0 <= i < |a.nodes| ==> a.nodes[i].(lastSeen := "") == b.nodes[i].(lastSeen := ""))
    && (forall i :: 0 <= i < |a.services| ==> a.services[i].(lastSeen := "") == b.services[i].(lastSeen := ""))
    && a.ports == b.ports && a.interfaces == b.interfaces
    && (forall name :: SameFiles(FilesOf(a.configs, name), FilesOf(b.configs, name)))
  }

  predicate SameFiles(a: seq<ConfigFile>, b: seq<ConfigFile>) {
    |a| == |b| && forall i :: 0 <= i < |a| ==> a[i].(lastScanned := "") == b[i].(lastScanned := "")
  }

  lemma SameNodeOp(a: Node, b: Node)
    requires a.(lastSeen := "") == b.(lastSeen := "")
    ensures SameObservation(NodeOp(a), NodeOp(b))
  {
    assert forall c :: NodeField(a, c) == NodeField(b, c);
  }

  lemma SameServiceOp(a: Service, b: Service, first: Option<int>)
    requires a.(lastSeen := "") == b.(lastSeen := "")
    ensures SameObservation(ServiceOp(Placed(a, first)), ServiceOp(Placed(b, first)))
  {
    assert forall c :: ServiceField(Placed(a, first), c) == ServiceField(Placed(b, first), c);
  }

  lemma SameConfigOp(a: ConfigFile, b: ConfigFile, id: int)
    requires a.(lastScanned := "") == b.(lastScanned := "")
    ensures SameObservation(ConfigOp(a.(serviceId := Some(id))), ConfigOp(b.(serviceId := Some(id))))
  {
    assert forall c :: ConfigField(a.(serviceId := Some(id)), c) == ConfigField(b.(serviceId := Some(id)), c);
  }

  lemma SameAppend(a: seq<Op>, b: seq<Op>, c: seq<Op>, d: seq<Op>)
    requires SameObservations(a, b) && SameObservations(c, d)
    ensures SameObservations(a + c, b + d)
  {
  }

  lemma SameNodeOps(a: seq<Node>, b: seq<Node>)
    requires |a| == |b| && forall i :: 0 <= i < |a| ==> a[i].(lastSeen := "") == b[i].(lastSeen := "")
    ensures SameObservations(NodeOps(a), NodeOps(b))
  {
    forall i | 0 <= i < |a| ensures SameObservation(NodeOps(a)[i], NodeOps(b)[i]) {
      SameNodeOp(a[i], b[i]);
    }
  }

  lemma SameServiceOps(a: seq<Service>, b: seq<Service>, first: Option<int>)
    requires |a| == |b| && forall i :: 0 <= i < |a| ==> a[i].(lastSeen := "") == b[i].(lastSeen := "")
    ensures SameObservations(ServiceOps(a, first), ServiceOps(b, first))
  {
    forall i | 0 <= i < |a| ensures SameObservation(ServiceOps(a, first)[i], ServiceOps(b, first)[i]) {
      SameServiceOp(a[i], b[i], first);
    }
  }

  lemma {:induction false} SameConfigOps(names: Dict, a: map<string, seq<ConfigFile>>, b: map<string, seq<ConfigFile>>)
    requires forall name :: SameFiles(FilesOf(a, name), FilesOf(b, name))
    ensures SameObservations(ConfigOps(names, a), ConfigOps(names, b))
  {
    if names != [] {
      var init := names[..|names| - 1];
      var (name, id) := names[|names| - 1];
      SameConfigOps(init, a, b);
      var xs, ys := FilesOps(FilesOf(a, name), id), FilesOps(FilesOf(b, name), id);
      assert SameFiles(FilesOf(a, name), FilesOf(b, name));
      forall i | 0 <= i < |xs| ensures SameObservation(xs[i], ys[i]) {
        SameConfigOp(FilesOf(a, name)[i], FilesOf(b, name)[i], id);
      }
      SameAppend(ConfigOps(init, a), ConfigOps(init, b), xs, ys);
    }
  }

  lemma Reflexive(ops: seq<Op>)
    requires Upserts(ops)
    ensures SameObservations(ops, ops)
  {
    forall i | 0 <= i < |ops| ensures SameObservation(ops[i], ops[i]) {
      assert IsUpsert(ops[i]);
    }
  }

  /** The second scan finds the rows the first one left, under the same ids. */
  lemma SameFirstNode(db: Database, obs: Observation, again: Observation)
    requires Sound(db) && AsProbed(obs) && SameSeen(obs, again)
    ensures FirstNode(Scan(db, obs), again) == FirstNode(db, obs)
  {
    var a, b := AfterNodes(db, obs), AfterNodes(Scan(db, obs), again);
    ScanIsBatch(db, obs);
    NodeScanIsBatch(db, obs);
    NodeScanIsBatch(Scan(db, obs), again);
    ExtendsTransitively(a, Scan(db, obs), b);
    hide Sound, Batch, Extends, Run, Scan;
    var xs, ys := NodePairs(a, obs.nodes), NodePairs(b, again.nodes);
    forall i | 0 <= i < |xs| ensures xs[i] == ys[i] {
      SameNodeId(db, obs, again, i);
    }
    assert xs == ys;
  }

  lemma SameNodeId(db: Database, obs: Observation, again: Observation, i: nat)
    requires Sound(db) && Batch(db, NodeOps(obs.nodes)) && SameSeen(obs, again) && i < |obs.nodes|
    requires Extends(AfterNodes(db, obs), AfterNodes(Scan(db, obs), again)) && Sound(AfterNodes(Scan(db, obs), again))
    ensures obs.nodes[i].hostname == again.nodes[i].hostname
    ensures IdOf(AfterNodes(db, obs), NodeOp(obs.nodes[i]).key)
      == IdOf(AfterNodes(Scan(db, obs), again), NodeOp(again.nodes[i]).key)
  {
    hide Scan, Extends, Run, Batch;
    BatchIsStored(db, NodeOps(obs.nodes), i);
    assert obs.nodes[i].(lastSeen := "").hostname == again.nodes[i].(lastSeen := "").hostname;
    IdPersists(AfterNodes(db, obs), AfterNodes(Scan(db, obs), again), NodeOp(obs.nodes[i]).key);
  }

  lemma SameNames(db: Database, obs: Observation, again: Observation)
    requires Sound(db) && AsProbed(obs) && AsProbed(again) && SameSeen(obs, again)
    ensures Names(Scan(db, obs), again) == Names(db, obs)
    ensures Extends(AfterServices(db, obs), AfterServices(Scan(db, obs), again))
    ensures Sound(AfterServices(Scan(db, obs), again))
  {
    hide Sound, Extends, Batch, Run;
    var first := FirstNode(db, obs);
    var a, b := AfterServices(db, obs), AfterServices(Scan(db, obs), again);
    ScanIsBatch(db, obs);
    NamesLive(db, obs);
    SameFirstNode(db, obs, again);
    FirstNodeLives(Scan(db, obs), again);
    NamesLive(Scan(db, obs), again);
    ExtendsTransitively(Scan(db, obs), AfterNodes(Scan(db, obs), again), b);
    ExtendsTransitively(a, Scan(db, obs), b);
    var xs, ys := NamePairs(a, obs.services, first), NamePairs(b, again.services, first);
    forall i | 0 <= i < |xs| ensures xs[i] == ys[i] {
      SameServiceOp(obs.services[i], again.services[i], first);
      FirstNodeLives(db, obs);
      ServiceStored(db, obs, i);
      IdPersistsSoundly(a, b, ServiceOp(Placed(obs.services[i], first)).key);
      assert obs.services[i].(lastSeen := "").name == again.services[i].(lastSeen := "").name;
    }
    assert xs == ys;
  }

  lemma IdPersistsSoundly(a: Database, b: Database, key: Key)
    requires Has(a, key) && Extends(a, b) && Sound(b)
    ensures IdOf(b, key) == IdOf(a, key)
  {
    IdPersists(a, b, key);
  }

  lemma ServiceStored(db: Database, obs: Observation, i: nat)
    requires Sound(AfterNodes(db, obs)) && i < |obs.services|
    requires Batch(AfterNodes(db, obs), ServiceOps(obs.services, FirstNode(db, obs)))
    ensures Has(AfterServices(db, obs), ServiceOp(Placed(obs.services[i], FirstNode(db, obs))).key)
  {
    BatchIsStored(AfterNodes(db, obs), ServiceOps(obs.services, FirstNode(db, obs)), i);
  }

  lemma {:induction false} ConfigOpsAre(names: Dict, configs: map<string, seq<ConfigFile>>, op: Op)
    requires op in ConfigOps(names, configs)
    ensures exists e, f :: e in names && f in FilesOf(configs, e.0) && op == ConfigOp(f.(serviceId := Some(e.1)))
  {
    var init := names[..|names| - 1];
    var (name, id) := names[|names| - 1];
    if op in ConfigOps(init, configs) {
      ConfigOpsAre(init, configs, op);
      var e, f :| e in init && f in FilesOf(configs, e.0) && op == ConfigOp(f.(serviceId := Some(e.1)));
      assert e in names;
    } else {
      var i :| 0 <= i < |FilesOps(FilesOf(configs, name), id)| && FilesOps(FilesOf(configs, name), id)[i] == op;
      assert (name, id) in names && FilesOf(configs, name)[i] in FilesOf(configs, name);
    }
  }

  /** Only the port phase inserts port rows, and only for numbers that are owned. */
  lemma AttachedPort(db: Database, obs: Observation, op: Op)
    requires Sound(AfterServices(db, obs)) && AsProbed(obs)
    requires op in AttachedOps(db, obs) && op.Upsert? && op.key.PortKey?
    ensures op.key.owner.Some? && op.key.owner == PortOwner(AfterServices(db, obs), op.key.port)
  {
    var d := AfterServices(db, obs);
    if op in PortOps(d, obs.ports) {
      UnownedPorts(d, obs.ports);
    } else if op in InterfaceOps(obs.interfaces, FirstNode(db, obs)) {
      InterfaceOpsAre(obs.interfaces, FirstNode(db, obs), op);
    } else if op in ConfigOps(Names(db, obs), obs.configs) {
      ConfigOpsAre(Names(db, obs), obs.configs, op);
    }
  }

  lemma PortsAttachInScan(db: Database, obs: Observation)
    requires Sound(db) && AsProbed(obs)
    ensures PortsAttach(AfterServices(db, obs), Scan(db, obs))
  {
    var a, b := AfterServices(db, obs), Scan(db, obs);
    NamesLive(db, obs);
    AttachedReady(db, obs);
    ReadyIsBatch(a, AttachedOps(db, obs));
    hide Sound, Batch, AttachedOps, AllReady;
    forall r | r in b.rows && r !in a.rows && b.rows[r].key.PortKey?
      ensures PortOwner(a, b.rows[r].key.port).Some? && b.rows[r].key.owner == PortOwner(a, b.rows[r].key.port)
    {
      var i := NewRowIsObserved(a, AttachedOps(db, obs), r);
      assert AttachedOps(db, obs)[i] in AttachedOps(db, obs);
      AttachedPort(db, obs, AttachedOps(db, obs)[i]);
    }
  }

  lemma NodeCallsAreNodes(obs: Observation, i: nat)
    requires i < |NodeOps(obs.nodes)|
    ensures NodeOps(obs.nodes)[i].Upsert? && NodeOps(obs.nodes)[i].key.NodeKey?
  {
  }

  /** Scanning nodes and services adds no port rows. */
  lemma NoPortsBefore(db: Database, obs: Observation, r: Ref)
    requires Sound(db) && AsProbed(obs) && r in AfterServices(db, obs).rows && r !in db.rows
    ensures AfterServices(db, obs).rows[r].key.NodeKey? || AfterServices(db, obs).rows[r].key.ServiceKey?
  {
    hide Sound, Batch, AllReady, Run, Extends, FirstNode, AsProbed, NameOf, Names, NodeOps, NodeOp;
    FirstNodeLives(db, obs);
    NamesLive(db, obs);
    if r in AfterNodes(db, obs).rows {
      NodesReady(db, obs.nodes);
      ReadyIsBatch(db, NodeOps(obs.nodes));
      var i := NewRowIsObserved(db, NodeOps(obs.nodes), r);
      NodeCallsAreNodes(obs, i);
      KeyKept(AfterNodes(db, obs), AfterServices(db, obs), r);
    } else {
      NewServiceRow(db, obs, r);
    }
  }

  lemma NewServiceRow(db: Database, obs: Observation, r: Ref)
    requires Sound(AfterNodes(db, obs)) && AsProbed(obs)
    requires FirstNode(db, obs).Some? ==> Ref(Nodes, FirstNode(db, obs).value) in AfterNodes(db, obs).rows
    requires r in AfterServices(db, obs).rows && r !in AfterNodes(db, obs).rows
    ensures AfterServices(db, obs).rows[r].key.ServiceKey?
  {
    hide Sound, Batch, AllReady, Run, FirstNode, AfterNodes;
    var ops := ServiceOps(obs.services, FirstNode(db, obs));
    ServicesReady(AfterNodes(db, obs), obs.services, FirstNode(db, obs));
    ReadyIsBatch(AfterNodes(db, obs), ops);
    var i := NewRowIsObserved(AfterNodes(db, obs), ops, r);
  }

  lemma KeyKept(a: Database, b: Database, r: Ref)
    requires Extends(a, b) && r in a.rows
    ensures r in b.rows && b.rows[r].key == a.rows[r].key
  {
  }

  lemma SameOwners(db: Database, obs: Observation, again: Observation, number: int)
    requires Sound(db) && AsProbed(obs) && AsProbed(again) && SameSeen(obs, again)
    ensures PortOwner(AfterServices(Scan(db, obs), again), number) == PortOwner(AfterServices(db, obs), number)
  {
    var a, m, b := AfterServices(db, obs), Scan(db, obs), AfterServices(Scan(db, obs), again);
    ScanIsBatch(db, obs);
    NamesLive(db, obs);
    PortsAttachInScan(db, obs);
    OwnerPersists(a, m, number);
    NamesLive(m, again);
    FirstNodeLives(m, again);
    ExtendsTransitively(m, AfterNodes(m, again), b);
    assert PortsAttach(m, b) by {
      forall r | r in b.rows && r !in m.rows ensures !b.rows[r].key.PortKey? {
        NoPortsBefore(m, again, r);
      }
    }
    OwnerPersists(m, b, number);
  }

  lemma {:induction false} SamePortOps(a: Database, b: Database, ports: seq<Port>)
    requires Sound(a) && Sound(b) && Unowned(ports)
    requires forall n: int :: PortOwner(a, n) == PortOwner(b, n)
    ensures PortOps(a, ports) == PortOps(b, ports)
  {
    if ports != [] {
      hide Sound, Run, PortOwner;
      var init, last := ports[..|ports| - 1], ports[|ports| - 1];
      SamePortOps(a, b, init);
      OwnerDuringScan(a, init, last.port);
      OwnerDuringScan(b, init, last.port);
      assert last in ports;
    }
  }

  lemma SamePortPhase(db: Database, obs: Observation, again: Observation)
    requires Sound(db) && AsProbed(obs) && AsProbed(again) && SameSeen(obs, again)
    ensures PortOps(AfterServices(db, obs), obs.ports) == PortOps(AfterServices(Scan(db, obs), again), obs.ports)
  {
    var a, b := AfterServices(db, obs), AfterServices(Scan(db, obs), again);
    NamesLive(db, obs);
    SameNames(db, obs, again);
    hide Sound, Run, PortOwner, PortOps, AfterServices, Scan, SameSeen;
    forall n: int ensures PortOwner(a, n) == PortOwner(b, n) {
      SameOwners(db, obs, again, n);
    }
    SamePortOps(a, b, obs.ports);
  }

  /** The second of two equal scans makes the same calls as the first. */
  lemma SamePlan(db: Database, obs: Observation, again: Observation)
    requires Sound(db) && AsProbed(obs) && AsProbed(again) && SameSeen(obs, again)
    ensures SameObservations(Plan(db, obs), Plan(Scan(db, obs), again))
  {
    var first, names := FirstNode(db, obs), Names(db, obs);
    SameFirstNode(db, obs, again);
    SameNames(db, obs, again);
    SamePortPhase(db, obs, again);
    AttachedReady(db, obs);
    SameNodeOps(obs.nodes, again.nodes);
    SameServiceOps(obs.services, again.services, first);
    SameConfigOps(names, obs.configs, again.configs);
    SameAttached(db, obs, again);
    hide Run, Sound, AttachedOps, SameObservations, SameSeen;
    var nodes, nodes' := NodeOps(obs.nodes), NodeOps(again.nodes);
    var services, services' := ServiceOps(obs.services, first), ServiceOps(again.services, first);
    SameAppend(nodes, nodes', services, services');
    SameAppend(nodes + services, nodes' + services', AttachedOps(db, obs), AttachedOps(Scan(db, obs), again));
  }

  lemma SameAttached(db: Database, obs: Observation, again: Observation)
    requires AllReady(AfterServices(db, obs), AttachedOps(db, obs)) && SameSeen(obs, again)
    requires PortOps(AfterServices(db, obs), obs.ports) == PortOps(AfterServices(Scan(db, obs), again), obs.ports)
    requires FirstNode(Scan(db, obs), again) == FirstNode(db, obs) && Names(Scan(db, obs), again) == Names(db, obs)
    requires SameObservations(ConfigOps(Names(db, obs), obs.configs), ConfigOps(Names(db, obs), again.configs))
    ensures SameObservations(AttachedOps(db, obs), AttachedOps(Scan(db, obs), again))
  {
    var front := PortOps(AfterServices(db, obs), obs.ports) + InterfaceOps(obs.interfaces, FirstNode(db, obs));
    var back := DependencyOps(Inferred(KNOWN_DEPENDENCIES, Names(db, obs)));
    var xs, ys := ConfigOps(Names(db, obs), obs.configs), ConfigOps(Names(db, obs), again.configs);
    assert AttachedOps(db, obs) == front + xs + back;
    assert AttachedOps(Scan(db, obs), again) == front + ys + back;
    assert Upserts(front) && Upserts(back) by {
      AttachedPieces(AfterServices(db, obs), front, xs, back);
    }
    Reflexive(front);
    Reflexive(back);
    hide PortOps, InterfaceOps, ConfigOps, DependencyOps, SameObservations, AttachedOps;
    SameAppend(front, front, xs, ys);
    SameAppend(front + xs, front + ys, back, back);
  }

  lemma AttachedPieces(d: Database, front: seq<Op>, middle: seq<Op>, back: seq<Op>)
    requires AllReady(d, front + middle + back)
    ensures Upserts(front) && Upserts(back)
  {
    var all := front + middle + back;
    forall i | 0 <= i < |front| ensures IsUpsert(front[i]) {
      assert Ready(d, all[i]);
    }
    forall i | 0 <= i < |back| ensures IsUpsert(back[i]) {
      assert Ready(d, all[|front| + |middle| + i]);
    }
  }

  /**
   Scanning twice with equal observations leaves the tables one scan leaves, apart from time
   stamps; the second scan logs nothing if and only if the observation does not contradict
   itself on a logged column of one key.
   */
  lemma RescanIsIdempotent(db: Database, obs: Observation, again: Observation)
    requires Sound(db) && AsProbed(obs) && AsProbed(again) && SameSeen(obs, again)
    ensures SameTables(Scan(db, obs), Scan(Scan(db, obs), again))
    ensures Scan(Scan(db, obs), again).log == Scan(db, obs).log <==> Consistent(Plan(db, obs))
  {
    ScanIsBatch(db, obs);
    SamePlan(db, obs, again);
    ScanIsPlan(db, obs);
    ScanIsPlan(Scan(db, obs), again);
    ReplayIsIdempotent(db, Plan(db, obs), Plan(Scan(db, obs), again));
  }

  // ---- Observations that do not contradict themselves --------------------------------------

  /** No key is observed twice, and every port is reported as the probe reports it. */
  ghost predicate DistinctKeys(obs: Observation) {
    && (forall i, j :: 0 <= i < j < |obs.nodes| ==> obs.nodes[i].hostname != obs.nodes[j].hostname)
    && (forall i, j :: 0 <= i < j < |obs.services| ==> !SameService(obs.services[i], obs.services[j]))
    && (forall i, j :: 0 <= i < j < |obs.interfaces| ==> obs.interfaces[i].name != obs.interfaces[j].name)
    && (forall p :: p in obs.ports ==> p.state == "LISTEN")
    && (forall name :: DistinctPaths(FilesOf(obs.configs, name)))
  }

  predicate SameService(a: Service, b: Service) {
    a.name == b.name && a.kind == b.kind && OrEmpty(a.namespace) == OrEmpty(b.namespace)
  }

  predicate DistinctPaths(files: seq<ConfigFile>) {
    forall i, j :: 0 <= i < j < |files| ==> files[i].path != files[j].path
  }

  lemma PlanParts(db: Database, obs: Observation, op: Op)
    requires op in Plan(db, obs)
    ensures
      || op in NodeOps(obs.nodes) || op in ServiceOps(obs.services, FirstNode(db, obs))
      || op in PortOps(AfterServices(db, obs), obs.ports) || op in InterfaceOps(obs.interfaces, FirstNode(db, obs))
      || op in ConfigOps(Names(db, obs), obs.configs)
      || op in DependencyOps(Inferred(KNOWN_DEPENDENCIES, Names(db, obs)))
  {
  }

  /** A call of the scan comes from the phase its key belongs to. */
  lemma PhaseOfCall(db: Database, obs: Observation, op: Op)
    requires op in Plan(db, obs)
    ensures op.Upsert?
    ensures op.key.NodeKey? ==> op in NodeOps(obs.nodes)
    ensures op.key.ServiceKey? ==> op in ServiceOps(obs.services, FirstNode(db, obs))
    ensures op.key.PortKey? ==> op in PortOps(AfterServices(db, obs), obs.ports)
    ensures op.key.InterfaceKey? ==> op in InterfaceOps(obs.interfaces, FirstNode(db, obs))
    ensures op.key.ConfigKey? ==> op in ConfigOps(Names(db, obs), obs.configs)
    ensures op.key.DependencyKey? ==> op in DependencyOps(Inferred(KNOWN_DEPENDENCIES, Names(db, obs)))
  {
    hide AfterServices, FirstNode, Names, Plan, Inferred, PortOps, ConfigOps, PortOwner;
    PlanParts(db, obs, op);
    if op in PortOps(AfterServices(db, obs), obs.ports) {
      PortOpsArePorts(AfterServices(db, obs), obs.ports, op);
    } else if op in InterfaceOps(obs.interfaces, FirstNode(db, obs)) {
      InterfaceOpsAre(obs.interfaces, FirstNode(db, obs), op);
    } else if op in ConfigOps(Names(db, obs), obs.configs) {
      ConfigOpsAre(Names(db, obs), obs.configs, op);
    }
  }

  lemma NodeCallsAgree(obs: Observation, a: Op, b: Op)
    requires DistinctKeys(obs) && a in NodeOps(obs.nodes) && b in NodeOps(obs.nodes) && Matches(a.key, b.key)
    ensures a == b
  {
    var i :| 0 <= i < |obs.nodes| && a == NodeOps(obs.nodes)[i];
    var j :| 0 <= j < |obs.nodes| && b == NodeOps(obs.nodes)[j];
    assert a == NodeOp(obs.nodes[i]) && b == NodeOp(obs.nodes[j]);
  }

  lemma ServiceCallsAgree(obs: Observation, first: Option<int>, a: Op, b: Op)
    requires DistinctKeys(obs) && a.Upsert? && b.Upsert? && Matches(a.key, b.key)
    requires a in ServiceOps(obs.services, first) && b in ServiceOps(obs.services, first)
    ensures a == b
  {
    var i :| 0 <= i < |obs.services| && a == ServiceOps(obs.services, first)[i];
    var j :| 0 <= j < |obs.services| && b == ServiceOps(obs.services, first)[j];
    assert a == ServiceOp(Placed(obs.services[i], first)) && b == ServiceOp(Placed(obs.services[j], first));
    assert SameService(obs.services[i], obs.services[j]);
  }

  lemma InterfaceCallsAgree(obs: Observation, first: Option<int>, a: Op, b: Op)
    requires DistinctKeys(obs) && a.Upsert? && b.Upsert? && Matches(a.key, b.key)
    requires a in InterfaceOps(obs.interfaces, first) && b in InterfaceOps(obs.interfaces, first)
    ensures a == b
  {
    InterfaceOpsAre(obs.interfaces, first, a);
    InterfaceOpsAre(obs.interfaces, first, b);
    var x :| x in obs.interfaces && OnNode(x, first).Some? && a == InterfaceOp(OnNode(x, first).value);
    var y :| y in obs.interfaces && OnNode(y, first).Some? && b == InterfaceOp(OnNode(y, first).value);
    assert x.name == y.name;
  }

  lemma ConfigCallsAgree(db: Database, obs: Observation, names: Dict, a: Op, b: Op)
    requires DistinctKeys(obs) && (forall e :: e in names ==> NameOf(db, e))
    requires a.Upsert? && b.Upsert? && Matches(a.key, b.key)
    requires a in ConfigOps(names, obs.configs) && b in ConfigOps(names, obs.configs)
    ensures a == b
  {
    ConfigOpsAre(names, obs.configs, a);
    ConfigOpsAre(names, obs.configs, b);
    var e, f :| e in names && f in FilesOf(obs.configs, e.0) && a == ConfigOp(f.(serviceId := Some(e.1)));
    var e', f' :| e' in names && f' in FilesOf(obs.configs, e'.0) && b == ConfigOp(f'.(serviceId := Some(e'.1)));
    ConfigKeysMatch(f, f', e.1, e'.1);
    assert NameOf(db, e) && NameOf(db, e') && e.0 == e'.0;
    assert DistinctPaths(FilesOf(obs.configs, e.0));
    hide Matches, ConfigOp;
  }

  lemma ConfigKeysMatch(f: ConfigFile, g: ConfigFile, s: int, t: int)
    ensures var a, b := ConfigOp(f.(serviceId := Some(s))), ConfigOp(g.(serviceId := Some(t)));
      a.Upsert? && b.Upsert? && (Matches(a.key, b.key) ==> s == t && f.path == g.path)
  {
  }

  lemma PortCallsListen(db: Database, obs: Observation, a: Op)
    requires DistinctKeys(obs) && a in PortOps(db, obs.ports)
    ensures a.Upsert? && State in a.cells && a.cells[State] == Text("LISTEN")
  {
    PortOpsArePorts(db, obs.ports, a);
  }

  lemma PortCallsAgree(db: Database, obs: Observation, a: Op, b: Op, c: Column)
    requires DistinctKeys(obs) && a in PortOps(db, obs.ports) && b in PortOps(db, obs.ports)
    requires Logged(Ports, c)
    ensures Compatible(a, b, c)
  {
    PortCallsListen(db, obs, a);
    PortCallsListen(db, obs, b);
  }

  lemma CallsAgree(db: Database, obs: Observation, a: Op, b: Op, c: Column)
    requires Sound(db) && AsProbed(obs) && DistinctKeys(obs) && a in Plan(db, obs) && b in Plan(db, obs)
    requires a.Upsert? && Logged(TableOf(a.key), c)
    ensures Compatible(a, b, c)
  {
    hide Sound, Batch, Plan, AfterServices, Names, FirstNode, DistinctKeys, Extends, AsProbed, WellTyped, NameOf;
    hide NodeOps, ServiceOps, InterfaceOps, ConfigOps, PortOps, DependencyOps, Inferred, Str, LoggedColumns;
    NamesLive(db, obs);
    PhaseOfCall(db, obs, a);
    PhaseOfCall(db, obs, b);
    if Matches(a.key, b.key) {
      match a.key
      case NodeKey(_) => NodeCallsAgree(obs, a, b);
      case ServiceKey(_, _, _, _) => ServiceCallsAgree(obs, FirstNode(db, obs), a, b);
      case PortKey(_, _, _) => PortCallsAgree(AfterServices(db, obs), obs, a, b, c);
      case ConfigKey(_, _) => ConfigCallsAgree(AfterServices(db, obs), obs, Names(db, obs), a, b);
      case DependencyKey(_, _, _) =>
      case InterfaceKey(_, _) => InterfaceCallsAgree(obs, FirstNode(db, obs), a, b);
    }
  }

  /** An observation with distinct keys is consistent, so rescanning it is silent. */
  lemma DistinctKeysRescanSilently(db: Database, obs: Observation, again: Observation)
    requires Sound(db) && AsProbed(obs) && AsProbed(again) && SameSeen(obs, again) && DistinctKeys(obs)
    ensures SameTables(Scan(db, obs), Scan(Scan(db, obs), again))
    ensures Scan(Scan(db, obs), again).log == Scan(db, obs).log
  {
    var ops := Plan(db, obs);
    forall i, j, c | 0 <= i < j < |ops| && ops[i].Upsert? && Logged(TableOf(ops[i].key), c)
      ensures Compatible(ops[i], ops[j], c)
    {
      CallsAgree(db, obs, ops[i], ops[j], c);
    }
    RescanIsIdempotent(db, obs, again);
  }
}
