/** BackgroundScanner.scan_once: the reconciliation loops, proved to run ScanSpec's plan. */
module Scanner {
  import opened Options
  import opened Strings
  import opened Schema
  import opened StoreSpec
  import opened Replay
  import opened Models
  import opened ScanSpec
  import opened Scans
  import opened Rescans
  import opened ScanRuns
  import opened DnaStore

  /** The id an accepted upsert reports is the one its key has when all the upserts are over. */
  lemma ReportedId(db: Database, ops: seq<Op>, i: nat)
    requires Sound(db) && Upserts(ops) && i < |ops| && InBatch(Run(db, ops[..i]), ops[i])
    ensures Target(Run(db, ops[..i]), ops[i].key) == Ref(TableOf(ops[i].key), IdOf(Run(db, ops), ops[i].key))
  {
    hide Run, Sound;
    var before, op := Run(db, ops[..i]), ops[i];
    assert Upserts(ops[..i]) && Upserts(ops[i + 1..]);
    UpsertsExtend(db, ops[..i]);
    TargetIsLookup(before, op);
    RunStep(db, ops, i);
    RunAppend(db, ops[..i + 1], ops[i + 1..]);
    assert ops == ops[..i + 1] + ops[i + 1..];
    UpsertsExtend(Apply(before, op), ops[i + 1..]);
    IdPersistsSoundly(Apply(before, op), Run(db, ops), op.key);
    LookupPersists(Apply(before, op), Run(db, ops), op.key);
  }

  lemma LookupPersists(a: Database, b: Database, key: Key)
    requires Has(a, key) && Extends(a, b) && Sound(b)
    ensures Has(b, key) && Lookup(b, key) == Lookup(a, key) && Lookup(a, key).table == TableOf(key)
  {
    LookupIsUnique(b, key, Lookup(a, key));
  }

  lemma TargetIsLookup(db: Database, op: Op)
    requires Sound(db) && InBatch(db, op)
    ensures Sound(Apply(db, op)) && Has(Apply(db, op), op.key)
    ensures Lookup(Apply(db, op), op.key) == Target(db, op.key)
  {
    ApplyKeepsSound(db, op);
    UpsertFindsRow(db, op);
    TargetMatches(db, op);
    hide Apply, Target;
    LookupIsUnique(Apply(db, op), op.key, Target(db, op.key));
  }

  lemma TargetMatches(db: Database, op: Op)
    requires Sound(db) && InBatch(db, op)
    ensures Target(db, op.key) in Apply(db, op).rows
    ensures Matches(Apply(db, op).rows[Target(db, op.key)].key, op.key)
  {
    hide Sound, Matches, Parents, WellTyped;
  }

  lemma NoneMade(db: Database, ops: seq<Op>)
    ensures AllAccepted(db, ops[..0]) && Run(db, ops[..0]) == db
  {
    RunNothing(db, ops);
  }

  /** One more accepted call of a plan. */
  lemma CallMade(db: Database, ops: seq<Op>, i: nat)
    requires i < |ops| && AllAccepted(db, ops[..i]) && Accepted(Run(db, ops[..i]), ops[i])
    ensures AllAccepted(db, ops[..i + 1]) && Run(db, ops[..i + 1]) == Apply(Run(db, ops[..i]), ops[i])
  {
    hide Run, Accepted, Apply;
    RunStep(db, ops, i);
    var made := ops[..i + 1];
    forall k | 0 <= k < |made| ensures Accepted(Run(db, made[..k]), made[k]) {
      assert made[..k] == ops[..k];
      assert k < i ==> ops[..i][..k] == ops[..k] && ops[..i][k] == ops[k];
    }
  }

  lemma AllMade(db: Database, ops: seq<Op>, n: nat)
    requires n == |ops| && AllAccepted(db, ops[..n])
    ensures AllAccepted(db, ops) && Run(db, ops[..n]) == Run(db, ops)
  {
    assert ops[..n] == ops;
  }

  lemma NodeCall(db: Database, nodes: seq<Node>, i: nat)
    requires i < |nodes|
    ensures InBatch(Run(db, NodeOps(nodes)[..i]), NodeOps(nodes)[i]) && NodeOps(nodes)[i] == NodeOp(nodes[i])
    ensures Upserts(NodeOps(nodes))
  {
  }

  lemma ServiceCall(db: Database, services: seq<Service>, first: Option<int>, i: nat)
    requires i < |services|
    ensures var ops := ServiceOps(services, first);
      && Upserts(ops) && ops[i] == ServiceOp(Placed(services[i], first))
      && (Accepts(Run(db, ops[..i]), ops[i].key) <==> InBatch(Run(db, ops[..i]), ops[i]))
  {
    hide Run, Accepts;
  }

  class BackgroundScanner {
    const store: DNAStore

    constructor (store: DNAStore)
      ensures this.store == store
    {
      this.store := store;
    }

    /** Upserts the scanned nodes; node_map remembers their ids in order of first appearance. */
    method PersistNodes(nodes: seq<Node>) returns (nodeMap: Dict)
      requires store.Valid()
      modifies store
      ensures store.Valid() && Ran(old(store.Db()), NodeOps(nodes), true, store.Db())
      ensures nodeMap == DictOf(NodePairs(store.Db(), nodes))
    {
      hide Run, Sound, DictOf, AllAccepted, InBatch;
      ghost var db, ops := store.Db(), NodeOps(nodes);
      ghost var pairs := NodePairs(Run(db, ops), nodes);
      nodeMap := [];
      DictStarts(pairs);
      NoneMade(db, ops);
      for i := 0 to |nodes|
        invariant store.Valid() && AllAccepted(db, ops[..i]) && store.Db() == Run(db, ops[..i])
        invariant nodeMap == DictOf(pairs[..i])
      {
        NodeCall(db, nodes, i);
        ReportedId(db, ops, i);
        BatchIsAccepted(store.Db(), ops[i]);
        CallMade(db, ops, i);
        var id := store.UpsertNode(nodes[i]);
        nodeMap := Put(nodeMap, nodes[i].hostname, id.value);
        DictStep(pairs, i);
      }
      AllMade(db, ops, |nodes|);
      assert pairs[..|nodes|] == pairs;
    }

    /** Upserts the scanned services, on the first node where none is known. */
    method PersistServices(services: seq<Service>, nodeMap: Dict) returns (done: bool, names: Dict)
      requires store.Valid()
      modifies store
      ensures store.Valid() && Ran(old(store.Db()), ServiceOps(services, FirstId(nodeMap)), done, store.Db())
      ensures done ==> names == DictOf(NamePairs(store.Db(), services, FirstId(nodeMap)))
    {
      hide Run, Sound, DictOf, AllAccepted, InBatch, Accepts;
      ghost var db, ops := store.Db(), ServiceOps(services, FirstId(nodeMap));
      ghost var pairs := NamePairs(Run(db, ops), services, FirstId(nodeMap));
      names := [];
      DictStarts(pairs);
      NoneMade(db, ops);
      for i := 0 to |services|
        invariant store.Valid() && AllAccepted(db, ops[..i]) && store.Db() == Run(db, ops[..i])
        invariant names == DictOf(pairs[..i])
      {
        var svc := services[i];
        if svc.nodeId.None? && nodeMap != [] {
          svc := svc.(nodeId := Some(nodeMap[0].1));
        }
        ServiceCall(db, services, FirstId(nodeMap), i);
        ghost var before := store.Db();
        var id := store.UpsertService(svc);
        if id.None? {
          RefusedKeeps(before, ops[i]);
          assert StopsAt(db, ops, i, store.Db());
          return false, names;
        }
        ReportedId(db, ops, i);
        CallMade(db, ops, i);
        names := Put(names, svc.name, id.value);
        DictStep(pairs, i);
      }
      AllMade(db, ops, |services|);
      assert pairs[..|services|] == pairs;
      done := true;
    }

    /** Gives each scanned port to its service, or the one that owns its number; drops it if none does. */
    method PersistPorts(ports: seq<Port>) returns (done: bool)
      requires store.Valid()
      modifies store
      ensures store.Valid() && Ran(old(store.Db()), PortOps(old(store.Db()), ports), done, store.Db())
    {
      hide Run, Sound, AllAccepted, Accepts, PortOwner;
      ghost var db := store.Db();
      NoneMade(db, []);
      assert [][..0] == PortOps(db, ports[..0]);
      for i := 0 to |ports|
        invariant store.Valid() && AllAccepted(db, PortOps(db, ports[..i]))
        invariant store.Db() == Run(db, PortOps(db, ports[..i]))
      {
        var port := ports[i];
        assert ports[..i + 1][..i] == ports[..i];
        if port.serviceId.None? {
          var owner := store.GetServiceByPort(port.port);
          port := port.(serviceId := owner);
        }
        if port.serviceId.Some? {
          ghost var before := store.Db();
          assert PortOps(db, ports[..i + 1]) == PortOps(db, ports[..i]) + [PortOp(port)];
          var id := store.UpsertPort(port);
          RefusedKeeps(before, PortOp(port));
          RanOne(db, PortOps(db, ports[..i]), PortOp(port), id.Some?, store.Db());
          if id.None? {
            PortOpsGrow(db, ports, i + 1);
            StopsEarly(db, PortOps(db, ports[..i + 1]), PortOps(db, ports), store.Db());
            return false;
          }
        } else {
          assert PortOps(db, ports[..i]) + [] == PortOps(db, ports[..i]);
        }
      }
      assert ports[..|ports|] == ports;
      done := true;
    }

    method PersistInterfaces(interfaces: seq<NetworkInterface>, nodeMap: Dict) returns (done: bool)
      requires store.Valid()
      modifies store
      ensures store.Valid() && Ran(old(store.Db()), InterfaceOps(interfaces, FirstId(nodeMap)), done, store.Db())
    {
      hide Run, Sound, AllAccepted, Accepts;
      ghost var db, first := store.Db(), FirstId(nodeMap);
      NoneMade(db, []);
      assert [][..0] == InterfaceOps(interfaces[..0], first);
      for i := 0 to |interfaces|
        invariant store.Valid()
        invariant AllAccepted(db, InterfaceOps(interfaces[..i], first))
        invariant store.Db() == Run(db, InterfaceOps(interfaces[..i], first))
      {
        var iface := interfaces[i];
        assert interfaces[..i + 1][..i] == interfaces[..i];
        if iface.nodeId != 0 || nodeMap != [] {
          if iface.nodeId == 0 && nodeMap != [] {
            iface := iface.(nodeId := nodeMap[0].1);
          }
          ghost var before := store.Db();
          assert InterfaceOps(interfaces[..i + 1], first)
            == InterfaceOps(interfaces[..i], first) + [InterfaceOp(iface)];
          var id := store.UpsertNetworkInterface(iface);
          RefusedKeeps(before, InterfaceOp(iface));
          RanOne(db, InterfaceOps(interfaces[..i], first), InterfaceOp(iface), id.Some?, store.Db());
          if id.None? {
            InterfaceOpsGrow(interfaces, first, i + 1);
            StopsEarly(db, InterfaceOps(interfaces[..i + 1], first), InterfaceOps(interfaces, first), store.Db());
            return false;
          }
        } else {
          assert InterfaceOps(interfaces[..i], first) + [] == InterfaceOps(interfaces[..i], first);
        }
      }
      assert interfaces[..|interfaces|] == interfaces;
      done := true;
    }

    /** Stores the files found for one service. */
    method PersistFiles(files: seq<ConfigFile>, service: int) returns (done: bool)
      requires store.Valid()
      modifies store
      ensures store.Valid() && Ran(old(store.Db()), FilesOps(files, service), done, store.Db())
    {
      hide Run, Sound, AllAccepted, Accepts;
      ghost var db, ops := store.Db(), FilesOps(files, service);
      NoneMade(db, ops);
      for i := 0 to |files|
        invariant store.Valid() && AllAccepted(db, ops[..i]) && store.Db() == Run(db, ops[..i])
      {
        ghost var before := store.Db();
        var id := store.UpsertConfigFile(files[i].(serviceId := Some(service)));
        if id.None? {
          RefusedKeeps(before, ops[i]);
          assert StopsAt(db, ops, i, store.Db());
          return false;
        }
        CallMade(db, ops, i);
      }
      AllMade(db, ops, |files|);
      done := true;
    }

    method PersistConfigs(names: Dict, configs: map<string, seq<ConfigFile>>) returns (done: bool)
      requires store.Valid()
      modifies store
      ensures store.Valid() && Ran(old(store.Db()), ConfigOps(names, configs), done, store.Db())
    {
      hide Run, Sound, AllAccepted, Accepts;
      ghost var db := store.Db();
      NoneMade(db, []);
      assert [][..0] == ConfigOps(names[..0], configs);
      for i := 0 to |names|
        invariant store.Valid() && AllAccepted(db, ConfigOps(names[..i], configs))
        invariant store.Db() == Run(db, ConfigOps(names[..i], configs))
      {
        assert names[..i + 1][..i] == names[..i];
        var files := FilesOf(configs, names[i].0);
        done := PersistFiles(files, names[i].1);
        GoesOn(db, ConfigOps(names[..i], configs), FilesOps(files, names[i].1), done, store.Db());
        if !done {
          ConfigOpsGrow(names, configs, i + 1);
          StopsEarly(db, ConfigOps(names[..i + 1], configs), ConfigOps(names, configs), store.Db());
          return;
        }
      }
      assert names[..|names|] == names;
      done := true;
    }

    /** The two inner loops: all pairs of names one pattern links. */
    method LinkNames(pattern: Pattern, names: Dict) returns (deps: seq<Dependency>)
      ensures deps == LinksOf(pattern, names, names)
      ensures forall d :: d in deps <==> exists a, b :: a in names && b in names && LinkedBy(d, pattern, a, b)
    {
      hide Contains;
      deps := [];
      for j := 0 to |names|
        invariant deps == LinksOf(pattern, names[..j], names)
      {
        assert names[..j + 1][..j] == names[..j];
        ghost var before := deps;
        if Contains(names[j].0, pattern.source) {
          for k := 0 to |names|
            invariant deps == before + TargetsOf(pattern, names[j], names[..k])
          {
            assert names[..k + 1][..k] == names[..k];
            if Contains(names[k].0, pattern.target) && names[j].1 != names[k].1 {
              deps := deps + [DependencyOf(pattern, names[j], names[k])];
            }
          }
          assert names[..|names|] == names;
        } else {
          NoTargets(pattern, names[j], names);
        }
      }
      assert names[..|names|] == names;
      LinksInFields(pattern, names);
    }

    method InferDependencies(names: Dict) returns (deps: seq<Dependency>)
      ensures deps == Inferred(KNOWN_DEPENDENCIES, names)
      ensures forall d :: d in deps <==> Linked(KNOWN_DEPENDENCIES, names, d)
    {
      hide Linked, LinkedBy;
      deps := [];
      for i := 0 to |KNOWN_DEPENDENCIES|
        invariant deps == Inferred(KNOWN_DEPENDENCIES[..i], names)
      {
        assert KNOWN_DEPENDENCIES[..i + 1][..i] == KNOWN_DEPENDENCIES[..i];
        var found := LinkNames(KNOWN_DEPENDENCIES[i], names);
        deps := deps + found;
      }
      assert KNOWN_DEPENDENCIES[..|KNOWN_DEPENDENCIES|] == KNOWN_DEPENDENCIES;
      forall d ensures d in deps <==> Linked(KNOWN_DEPENDENCIES, names, d) {
        InferredIsLinked(KNOWN_DEPENDENCIES, names, d);
      }
    }

    method PersistDependencies(deps: seq<Dependency>) returns (done: bool)
      requires store.Valid()
      modifies store
      ensures store.Valid() && Ran(old(store.Db()), DependencyOps(deps), done, store.Db())
    {
      hide Run, Sound, AllAccepted, Accepts;
      ghost var db, ops := store.Db(), DependencyOps(deps);
      NoneMade(db, ops);
      for i := 0 to |deps|
        invariant store.Valid() && AllAccepted(db, ops[..i]) && store.Db() == Run(db, ops[..i])
      {
        ghost var before := store.Db();
        var id := store.AddDependency(deps[i]);
        if id.None? {
          RefusedKeeps(before, ops[i]);
          assert StopsAt(db, ops, i, store.Db());
          return false;
        }
        CallMade(db, ops, i);
      }
      AllMade(db, ops, |deps|);
      done := true;
    }

    /** Ports, interfaces, config files and dependencies, in that order. */
    method PersistAttached(obs: Observation, nodeMap: Dict, names: Dict) returns (done: bool)
      requires store.Valid()
      modifies store
      ensures store.Valid()
      ensures Ran(old(store.Db()), Attachments(old(store.Db()), obs, FirstId(nodeMap), names), done, store.Db())
    {
      hide Run, Sound, AllAccepted, Accepts, PortOps, InterfaceOps, ConfigOps, DependencyOps, Inferred;
      ghost var db, all := store.Db(), Attachments(store.Db(), obs, FirstId(nodeMap), names);
      ghost var made := PortOps(db, obs.ports);
      done := PersistPorts(obs.ports);
      if !done {
        StopsEarly(db, made, all, store.Db());
        return;
      }
      done := PersistInterfaces(obs.interfaces, nodeMap);
      GoesOn(db, made, InterfaceOps(obs.interfaces, FirstId(nodeMap)), done, store.Db());
      made := made + InterfaceOps(obs.interfaces, FirstId(nodeMap));
      if !done {
        StopsEarly(db, made, all, store.Db());
        return;
      }
      done := PersistConfigs(names, obs.configs);
      GoesOn(db, made, ConfigOps(names, obs.configs), done, store.Db());
      made := made + ConfigOps(names, obs.configs);
      if !done {
        StopsEarly(db, made, all, store.Db());
        return;
      }
      var deps := InferDependencies(names);
      done := PersistDependencies(deps);
      GoesOn(db, made, DependencyOps(deps), done, store.Db());
    }

    /**
     One scan: runs its plan to the end, or to the first call the store refuses.  None is refused
     when the observation carries no ids, as the probes deliver it.
     */
    method ScanOnce(obs: Observation) returns (done: bool)
      requires store.Valid()
      modifies store
      ensures store.Valid() && Ran(old(store.Db()), Plan(old(store.Db()), obs), done, store.Db())
      ensures Extends(old(store.Db()), store.Db())
      ensures AsProbed(obs) ==> done && store.Db() == Scan(old(store.Db()), obs)
    {
      hide Run, Sound, AllAccepted, Accepts, Attachments, Batch, Extends;
      ghost var db := store.Db();
      ghost var nodes, services := NodeOps(obs.nodes), ServiceOps(obs.services, FirstNode(db, obs));
      var nodeMap := PersistNodes(obs.nodes);
      var names;
      done, names := PersistServices(obs.services, nodeMap);
      GoesOn(db, nodes, services, done, store.Db());
      if done {
        done := PersistAttached(obs, nodeMap, names);
        GoesOn(db, nodes + services, AttachedOps(db, obs), done, store.Db());
      } else {
        StopsEarly(db, nodes + services, Plan(db, obs), store.Db());
      }
      AnyScanOnlyAdds(db, obs, done, store.Db());
      if AsProbed(obs) {
        ScanIsBatch(db, obs);
        ScanIsPlan(db, obs);
        BatchRuns(db, Plan(db, obs), done, store.Db());
      }
    }
  }

  /** A refused call leaves the store as it was. */
  lemma RefusedKeeps(db: Database, op: Op)
    ensures op.Upsert? && !Accepts(db, op.key) ==> Apply(db, op) == db
  {
  }

  lemma BatchIsAccepted(db: Database, op: Op)
    requires InBatch(db, op)
    ensures Accepted(db, op)
  {
  }

  lemma {:induction false} PortOpsGrow(db: Database, ports: seq<Port>, k: nat)
    requires k <= |ports|
    ensures PortOps(db, ports[..k]) <= PortOps(db, ports)
  {
    hide Run, PortOwner;
    if k == |ports| {
      assert ports[..k] == ports;
    } else {
      PortOpsGrow(db, ports[..|ports| - 1], k);
      assert ports[..|ports| - 1][..k] == ports[..k];
    }
  }

  lemma {:induction false} InterfaceOpsGrow(interfaces: seq<NetworkInterface>, first: Option<int>, k: nat)
    requires k <= |interfaces|
    ensures InterfaceOps(interfaces[..k], first) <= InterfaceOps(interfaces, first)
  {
    if k == |interfaces| {
      assert interfaces[..k] == interfaces;
    } else {
      InterfaceOpsGrow(interfaces[..|interfaces| - 1], first, k);
      assert interfaces[..|interfaces| - 1][..k] == interfaces[..k];
    }
  }

  lemma {:induction false} ConfigOpsGrow(names: Dict, configs: map<string, seq<ConfigFile>>, k: nat)
    requires k <= |names|
    ensures ConfigOps(names[..k], configs) <= ConfigOps(names, configs)
  {
    if k == |names| {
      assert names[..k] == names;
    } else {
      ConfigOpsGrow(names[..|names| - 1], configs, k);
      assert names[..|names| - 1][..k] == names[..k];
    }
  }

  lemma LinksInFields(p: Pattern, names: Dict)
    ensures forall d :: d in LinksOf(p, names, names) <==>
      exists a, b :: a in names && b in names && LinkedBy(d, p, a, b)
  {
    forall d ensures d in LinksOf(p, names, names) <==>
        exists a, b :: a in names && b in names && LinkedBy(d, p, a, b)
    {
      LinksAreLinked(p, names, names, d);
      forall a, b ensures LinkedBy(d, p, a, b) <==> Links(p, a, b) && d == DependencyOf(p, a, b) {
        LinkInFields(d, p, a, b);
      }
      hide *;
    }
  }

  lemma DictStarts(pairs: seq<(string, int)>)
    ensures DictOf(pairs[..0]) == []
  {
  }

  lemma DictStep(pairs: seq<(string, int)>, i: nat)
    requires i < |pairs|
    ensures DictOf(pairs[..i + 1]) == Put(DictOf(pairs[..i]), pairs[i].0, pairs[i].1)
  {
    assert pairs[..i + 1][..i] == pairs[..i];
  }

  lemma {:induction false} NoTargets(p: Pattern, a: (string, int), names: Dict)
    requires !Contains(a.0, p.source)
    ensures TargetsOf(p, a, names) == []
  {
    if names != [] {
      NoTargets(p, a, names[..|names| - 1]);
    }
  }
}
