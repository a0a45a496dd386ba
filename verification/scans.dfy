/** A scan is a batch of upserts that are all accepted, and only ever adds rows. */
module Scans {
  import opened Options
  import opened Strings
  import opened Schema
  import opened StoreSpec
  import opened Replay
  import opened Models
  import opened ScanSpec

  // ---- Upserts only add ------------------------------------------------------------------

  predicate Upserts(ops: seq<Op>) {
    forall i :: 0 <= i < |ops| ==> IsUpsert(ops[i])
  }

  /** Every row is still there under its key, and newer rows have larger ids. */
  ghost predicate Extends(a: Database, b: Database) {
    && (forall r :: r in a.rows ==> r in b.rows && b.rows[r].key == a.rows[r].key)
    && (forall r :: r in b.rows && r !in a.rows ==> r.id >= NextId(a, r.table))
    && (forall t: Table :: NextId(a, t) <= NextId(b, t))
  }

  lemma ExtendsTransitively(a: Database, b: Database, c: Database)
    requires Extends(a, b) && Extends(b, c)
    ensures Extends(a, c)
  {
    forall r | r in c.rows && r !in a.rows ensures r.id >= NextId(a, r.table) {
      assert NextId(a, r.table) <= NextId(b, r.table);
    }
    forall t: Table ensures NextId(a, t) <= NextId(c, t) {
      assert NextId(a, t) <= NextId(b, t) && NextId(b, t) <= NextId(c, t);
    }
  }

  lemma UpsertExtends(db: Database, op: Op)
    requires Sound(db) && IsUpsert(op)
    ensures Extends(db, Apply(db, op))
    ensures forall r :: r in Apply(db, op).rows && r !in db.rows ==> Apply(db, op).rows[r].key == op.key
  {
    UpsertKeepsRows(db, op);
    forall t: Table ensures NextId(db, t) <= NextId(Apply(db, op), t) {
      CounterGrows(db, op, t);
    }
    forall r | r in Apply(db, op).rows && r !in db.rows ensures r.id == NextId(db, r.table) {
      NewRowHasNextId(db, op, r);
    }
    hide Sound, Matches, Parents, WellTyped;
  }

  lemma {:induction false} UpsertsExtend(db: Database, ops: seq<Op>)
    requires Sound(db) && Upserts(ops)
    ensures WellTypedOps(ops) && Sound(Run(db, ops)) && Extends(db, Run(db, ops))
  {
    RunKeepsSound(db, ops);
    if ops != [] {
      var init, last := ops[..|ops| - 1], ops[|ops| - 1];
      UpsertsExtend(db, init);
      UpsertExtends(Run(db, init), last);
      ExtendsTransitively(db, Run(db, init), Run(db, ops));
    }
  }

  /** A row that a batch of upserts added carries the key of one of them. */
  lemma {:induction false} NewRowIsObserved(db: Database, ops: seq<Op>, r: Ref) returns (i: nat)
    requires Sound(db) && Upserts(ops) && r in Run(db, ops).rows && r !in db.rows
    ensures i < |ops| && ops[i].key == Run(db, ops).rows[r].key
  {
    var init, last := ops[..|ops| - 1], ops[|ops| - 1];
    UpsertsExtend(db, init);
    UpsertExtends(Run(db, init), last);
    if r in Run(db, init).rows {
      i := NewRowIsObserved(db, init, r);
    } else {
      i := |ops| - 1;
    }
  }

  lemma IdPersists(a: Database, b: Database, key: Key)
    requires Has(a, key) && Extends(a, b) && UniqueKeys(b)
    ensures Has(b, key) && IdOf(b, key) == IdOf(a, key)
  {
    LookupIsUnique(b, key, Lookup(a, key));
  }

  // ---- Batches ---------------------------------------------------------------------------

  /** The upsert is accepted by `db` and by everything that extends it. */
  ghost predicate Ready(db: Database, op: Op) {
    IsUpsert(op) && Matches(op.key, op.key) && ParentsLive(db, op.key)
  }

  ghost predicate AllReady(db: Database, ops: seq<Op>) {
    forall i :: 0 <= i < |ops| ==> Ready(db, ops[i])
  }

  lemma ReadyIsBatch(db: Database, ops: seq<Op>)
    requires Sound(db) && AllReady(db, ops)
    ensures Batch(db, ops) && Upserts(ops)
  {
    forall i | 0 <= i < |ops| ensures InBatch(Run(db, ops[..i]), ops[i]) {
      assert Upserts(ops[..i]);
      UpsertsExtend(db, ops[..i]);
      assert Ready(db, ops[i]);
      ParentsStayLive(db, Run(db, ops[..i]), ops[i].key);
    }
  }

  lemma ParentsStayLive(a: Database, b: Database, key: Key)
    requires Extends(a, b) && ParentsLive(a, key)
    ensures ParentsLive(b, key) && Accepts(b, key)
  {
  }

  lemma BatchAppend(db: Database, a: seq<Op>, b: seq<Op>)
    requires Batch(db, a) && Batch(Run(db, a), b)
    ensures Batch(db, a + b)
  {
    forall i | 0 <= i < |a + b| ensures InBatch(Run(db, (a + b)[..i]), (a + b)[i]) {
      if i < |a| {
        assert (a + b)[..i] == a[..i];
      } else {
        assert (a + b)[..i] == a + b[..i - |a|];
        RunAppend(db, a, b[..i - |a|]);
        assert InBatch(Run(Run(db, a), b[..i - |a|]), b[i - |a|]);
      }
    }
  }

  // ---- Runs that may stop ----------------------------------------------------------------

  lemma StopsEarly(db: Database, a: seq<Op>, b: seq<Op>, after: Database)
    requires Ran(db, a, false, after) && a <= b
    ensures Ran(db, b, false, after)
  {
    hide Run, AllAccepted, Accepted;
    var i: nat :| StopsAt(db, a, i, after);
    assert a[..i] == b[..i];
    assert StopsAt(db, b, i, after);
  }

  lemma AcceptedAppend(db: Database, a: seq<Op>, b: seq<Op>)
    requires AllAccepted(db, a) && AllAccepted(Run(db, a), b)
    ensures AllAccepted(db, a + b) && Run(db, a + b) == Run(Run(db, a), b)
  {
    RunAppend(db, a, b);
    hide Run, Accepted;
    forall i | 0 <= i < |a + b| ensures Accepted(Run(db, (a + b)[..i]), (a + b)[i]) {
      if i < |a| {
        assert (a + b)[..i] == a[..i];
      } else {
        assert (a + b)[..i] == a + b[..i - |a|];
        RunAppend(db, a, b[..i - |a|]);
        assert Accepted(Run(Run(db, a), b[..i - |a|]), b[i - |a|]);
      }
    }
  }

  /** A run that goes on after an accepted part. */
  lemma GoesOn(db: Database, a: seq<Op>, b: seq<Op>, done: bool, after: Database)
    requires AllAccepted(db, a) && Ran(Run(db, a), b, done, after)
    ensures Ran(db, a + b, done, after)
  {
    hide Run, AllAccepted, Accepted;
    if done {
      AcceptedAppend(db, a, b);
    } else {
      var i: nat :| StopsAt(Run(db, a), b, i, after);
      AcceptedAppend(db, a, b[..i]);
      assert (a + b)[..|a| + i] == a + b[..i];
      assert StopsAt(db, a + b, |a| + i, after);
    }
  }

  /** One more call after an accepted part. */
  lemma RanOne(db: Database, a: seq<Op>, op: Op, done: bool, after: Database)
    requires AllAccepted(db, a) && (done <==> Accepted(Run(db, a), op))
    requires after == if done then Apply(Run(db, a), op) else Run(db, a)
    ensures Ran(db, a + [op], done, after)
  {
    hide Accepted;
    var one := [op];
    assert one[..0] == [] && Run(Run(db, a), one[..0]) == Run(db, a);
    assert AllAccepted(Run(db, a), []);
    if done {
      assert AllAccepted(Run(db, a), one) && Run(Run(db, a), one) == Apply(Run(db, a), op);
    } else {
      assert StopsAt(Run(db, a), one, 0, after);
    }
    hide Run, AllAccepted;
    GoesOn(db, a, one, done, after);
  }

  /** A batch always runs to its end. */
  lemma BatchRuns(db: Database, ops: seq<Op>, done: bool, after: Database)
    requires Batch(db, ops) && Ran(db, ops, done, after)
    ensures done && after == Run(db, ops)
  {
    hide Run, Accepts, WellTypedOp;
    forall i: nat ensures !StopsAt(db, ops, i, after) {
      if i < |ops| {
        assert InBatch(Run(db, ops[..i]), ops[i]);
      }
    }
  }

  lemma ReadyAppend(db: Database, a: seq<Op>, b: seq<Op>)
    requires AllReady(db, a) && AllReady(db, b)
    ensures AllReady(db, a + b)
  {
    forall i | 0 <= i < |a + b| ensures Ready(db, (a + b)[i]) {
      assert i < |a| ==> Ready(db, a[i]);
      assert i >= |a| ==> Ready(db, b[i - |a|]);
    }
  }

  // ---- A scan is a batch -----------------------------------------------------------------

  lemma NodesReady(db: Database, nodes: seq<Node>)
    ensures AllReady(db, NodeOps(nodes))
  {
    forall i | 0 <= i < |nodes| ensures Ready(db, NodeOps(nodes)[i]) {
      assert NodeOps(nodes)[i] == NodeOp(nodes[i]);
    }
  }

  lemma NodeScanIsBatch(db: Database, obs: Observation)
    requires Sound(db)
    ensures Sound(AfterNodes(db, obs)) && Batch(db, NodeOps(obs.nodes)) && Extends(db, AfterNodes(db, obs))
  {
    NodesReady(db, obs.nodes);
    ReadyIsBatch(db, NodeOps(obs.nodes));
    UpsertsExtend(db, NodeOps(obs.nodes));
  }

  lemma NodeLives(db: Database, nodes: seq<Node>, i: nat)
    requires Sound(db) && Batch(db, NodeOps(nodes)) && Sound(Run(db, NodeOps(nodes))) && i < |nodes|
    ensures Ref(Nodes, IdOf(Run(db, NodeOps(nodes)), NodeOp(nodes[i]).key)) in Run(db, NodeOps(nodes)).rows
  {
    BatchIsStored(db, NodeOps(nodes), i);
    assert NodeOps(nodes)[i] == NodeOp(nodes[i]);
    IdIsLive(Run(db, NodeOps(nodes)), NodeOp(nodes[i]).key);
  }

  lemma FirstNodeLives(db: Database, obs: Observation)
    requires Sound(db)
    ensures Sound(AfterNodes(db, obs)) && Batch(db, NodeOps(obs.nodes)) && Extends(db, AfterNodes(db, obs))
    ensures FirstNode(db, obs).Some? ==> Ref(Nodes, FirstNode(db, obs).value) in AfterNodes(db, obs).rows
  {
    NodeScanIsBatch(db, obs);
    hide Sound, Batch, Extends, Run;
    if FirstNode(db, obs).Some? {
      var pairs := NodePairs(AfterNodes(db, obs), obs.nodes);
      DictEntries(pairs, DictOf(pairs)[0]);
      var i :| 0 <= i < |pairs| && pairs[i] == DictOf(pairs)[0];
      NodeLives(db, obs.nodes, i);
    }
  }

  lemma IdIsLive(db: Database, key: Key)
    requires Sound(db) && Has(db, key)
    ensures Lookup(db, key) == Ref(TableOf(key), IdOf(db, key)) && Ref(TableOf(key), IdOf(db, key)) in db.rows
  {
    LookupTable(db, key);
  }

  lemma ServicesReady(db: Database, services: seq<Service>, first: Option<int>)
    requires forall s :: s in services ==> s.nodeId.None?
    requires first.Some? ==> Ref(Nodes, first.value) in db.rows
    ensures AllReady(db, ServiceOps(services, first))
  {
    forall i | 0 <= i < |services| ensures Ready(db, ServiceOps(services, first)[i]) {
      assert services[i] in services;
      assert ServiceOps(services, first)[i] == ServiceOp(Placed(services[i], first));
    }
  }

  /** The entry maps the name of a live service to its id. */
  ghost predicate NameOf(db: Database, e: (string, int)) {
    var r := Ref(Services, e.1);
    r in db.rows && db.rows[r].key.ServiceKey? && db.rows[r].key.name == e.0
  }

  lemma NamesLive(db: Database, obs: Observation)
    requires Sound(db) && AsProbed(obs)
    ensures Sound(AfterServices(db, obs)) && Batch(AfterNodes(db, obs), ServiceOps(obs.services, FirstNode(db, obs)))
    ensures Extends(AfterNodes(db, obs), AfterServices(db, obs))
    ensures forall e :: e in Names(db, obs) ==> NameOf(AfterServices(db, obs), e)
  {
    FirstNodeLives(db, obs);
    var ops := ServiceOps(obs.services, FirstNode(db, obs));
    ServicesReady(AfterNodes(db, obs), obs.services, FirstNode(db, obs));
    ReadyIsBatch(AfterNodes(db, obs), ops);
    UpsertsExtend(AfterNodes(db, obs), ops);
    forall e | e in Names(db, obs) ensures NameOf(AfterServices(db, obs), e) {
      NameLives(db, obs, e);
    }
  }

  lemma NameLives(db: Database, obs: Observation, e: (string, int))
    requires Sound(AfterNodes(db, obs)) && Sound(AfterServices(db, obs))
    requires Batch(AfterNodes(db, obs), ServiceOps(obs.services, FirstNode(db, obs)))
    requires e in Names(db, obs)
    ensures NameOf(AfterServices(db, obs), e)
  {
    var ops := ServiceOps(obs.services, FirstNode(db, obs));
    var pairs := NamePairs(AfterServices(db, obs), obs.services, FirstNode(db, obs));
    DictEntries(pairs, e);
    var i :| 0 <= i < |pairs| && pairs[i] == e;
    BatchIsStored(AfterNodes(db, obs), ops, i);
    IdIsLive(AfterServices(db, obs), ops[i].key);
  }

  // ---- Port owners -----------------------------------------------------------------------

  /** Every new port row is for a number that some service owned already. */
  ghost predicate PortsAttach(a: Database, b: Database) {
    forall r :: r in b.rows && r !in a.rows && b.rows[r].key.PortKey? ==>
      PortOwner(a, b.rows[r].key.port).Some? && b.rows[r].key.owner == PortOwner(a, b.rows[r].key.port)
  }

  lemma OwnerPersists(a: Database, b: Database, number: int)
    requires Sound(a) && Sound(b) && Extends(a, b) && PortsAttach(a, b)
    ensures PortOwner(b, number) == PortOwner(a, number)
  {
    if PortOwner(a, number).Some? {
      var r :| OwnsFirst(a, number, r) && a.rows[r].key.owner == PortOwner(a, number);
      forall s | s in b.rows && IsOwned(b.rows[s].key, number) ensures r.id <= s.id {
        OldestStays(a, b, number, r, s);
      }
      assert OwnsFirst(b, number, r);
      OwnerIs(b, number, r);
    } else if s :| s in b.rows && IsOwned(b.rows[s].key, number) {
      if s in a.rows {
        OwnedHasOwner(a, number, s);
      }
    }
  }

  lemma OldestStays(a: Database, b: Database, number: int, r: Ref, s: Ref)
    requires Sound(a) && Sound(b) && Extends(a, b) && OwnsFirst(a, number, r)
    requires s in b.rows && IsOwned(b.rows[s].key, number)
    ensures r.id <= s.id
  {
    assert RowsFiled(a) && RowsFiled(b);
    hide Sound;
    if s !in a.rows {
      assert r.table == Ports && s.table == Ports;
    }
  }

  /** Each call of the port phase stores a scanned port under some owner. */
  lemma {:induction false} PortOpsArePorts(db: Database, ports: seq<Port>, op: Op)
    requires op in PortOps(db, ports)
    ensures op.Upsert? && op.key.PortKey?
    ensures exists p, owner :: p in ports && op == PortOp(p.(serviceId := owner))
  {
    hide PortOwner, Run, Accepts;
    var init, last := ports[..|ports| - 1], ports[|ports| - 1];
    if op in PortOps(db, init) {
      PortOpsArePorts(db, init, op);
      var p, owner :| p in init && op == PortOp(p.(serviceId := owner));
      assert p in ports;
    } else {
      assert last in ports && op == PortOp(last.(serviceId := OwnerOf(Run(db, PortOps(db, init)), last)));
    }
  }

  predicate Unowned(ports: seq<Port>) {
    forall p :: p in ports ==> p.serviceId.None?
  }

  /** The call stores a port under the service that owns its number. */
  ghost predicate OwnersOp(db: Database, op: Op) {
    op.Upsert? && op.key.PortKey? && op.key.owner.Some? && op.key.owner == PortOwner(db, op.key.port)
  }

  lemma OwnersOpIsReady(db: Database, last: Port, owner: Option<int>)
    requires Sound(db) && owner == PortOwner(db, last.port) && owner.Some?
    ensures Ready(db, PortOp(last.(serviceId := owner))) && OwnersOp(db, PortOp(last.(serviceId := owner)))
  {
    var r :| OwnsFirst(db, last.port, r) && db.rows[r].key.owner == owner;
    assert ParentsLive(db, db.rows[r].key);
  }

  lemma OwnersOpsKeepOwners(db: Database, ops: seq<Op>, number: int)
    requires Sound(db) && AllReady(db, ops) && forall op :: op in ops ==> OwnersOp(db, op)
    ensures PortOwner(Run(db, ops), number) == PortOwner(db, number)
  {
    var after := Run(db, ops);
    ReadyIsBatch(db, ops);
    UpsertsExtend(db, ops);
    hide Run, AllReady, PortOwner;
    forall r | r in after.rows && r !in db.rows && after.rows[r].key.PortKey?
      ensures PortOwner(db, after.rows[r].key.port).Some?
      ensures after.rows[r].key.owner == PortOwner(db, after.rows[r].key.port)
    {
      var i := NewRowIsObserved(db, ops, r);
      assert OwnersOp(db, ops[i]);
    }
    OwnerPersists(db, after, number);
  }

  lemma PortOpsLast(db: Database, ports: seq<Port>)
    requires ports != [] && ports[|ports| - 1].serviceId.None?
    ensures var init, last := PortOps(db, ports[..|ports| - 1]), ports[|ports| - 1];
      var owner := PortOwner(Run(db, init), last.port);
      PortOps(db, ports) == if owner.Some? then init + [PortOp(last.(serviceId := owner))] else init
  {
    hide PortOwner, Run;
  }

  /** Ports without an owner of their own all go to services that own their numbers already. */
  lemma {:induction false} UnownedPorts(db: Database, ports: seq<Port>)
    requires Sound(db) && Unowned(ports)
    ensures AllReady(db, PortOps(db, ports)) && forall op :: op in PortOps(db, ports) ==> OwnersOp(db, op)
  {
    if ports != [] {
      hide Sound, Run, PortOwner, Ready, OwnersOp, PortOps, PortOp;
      var init, last := ports[..|ports| - 1], ports[|ports| - 1];
      UnownedPorts(db, init);
      OwnersOpsKeepOwners(db, PortOps(db, init), last.port);
      assert last in ports;
      PortOpsLast(db, ports);
      if PortOwner(db, last.port).Some? {
        OwnersOpIsReady(db, last, PortOwner(db, last.port));
      }
    } else {
      assert PortOps(db, ports) == [];
    }
  }

  /** Storing such ports never changes who owns a number. */
  lemma OwnerDuringScan(db: Database, ports: seq<Port>, number: int)
    requires Sound(db) && Unowned(ports)
    ensures PortOwner(Run(db, PortOps(db, ports)), number) == PortOwner(db, number)
  {
    UnownedPorts(db, ports);
    hide Sound, Run, PortOwner, PortOps;
    OwnersOpsKeepOwners(db, PortOps(db, ports), number);
  }

  lemma {:induction false} InterfaceOpsAre(interfaces: seq<NetworkInterface>, first: Option<int>, op: Op)
    requires op in InterfaceOps(interfaces, first)
    ensures exists i :: i in interfaces && OnNode(i, first).Some? && op == InterfaceOp(OnNode(i, first).value)
  {
    var init, last := interfaces[..|interfaces| - 1], interfaces[|interfaces| - 1];
    if op in InterfaceOps(init, first) {
      InterfaceOpsAre(init, first, op);
      var i :| i in init && OnNode(i, first).Some? && op == InterfaceOp(OnNode(i, first).value);
      assert i in interfaces;
    } else {
      assert last in interfaces;
    }
  }

  lemma InterfacesReady(db: Database, interfaces: seq<NetworkInterface>, first: Option<int>)
    requires first.Some? ==> Ref(Nodes, first.value) in db.rows
    requires forall i :: i in interfaces ==> i.nodeId == 0
    ensures AllReady(db, InterfaceOps(interfaces, first))
  {
    var ops := InterfaceOps(interfaces, first);
    forall k | 0 <= k < |ops| ensures Ready(db, ops[k]) {
      InterfaceOpsAre(interfaces, first, ops[k]);
    }
  }

  lemma {:induction false} ConfigsReady(db: Database, names: Dict, configs: map<string, seq<ConfigFile>>)
    requires forall e :: e in names ==> Ref(Services, e.1) in db.rows
    ensures AllReady(db, ConfigOps(names, configs))
  {
    if names != [] {
      var init := names[..|names| - 1];
      var (name, id) := names[|names| - 1];
      ConfigsReady(db, init, configs);
      var ops := FilesOps(FilesOf(configs, name), id);
      assert (name, id) in names;
      forall i | 0 <= i < |ops| ensures Ready(db, ops[i]) {
        assert ops[i] == ConfigOp(FilesOf(configs, name)[i].(serviceId := Some(id)));
      }
      ReadyAppend(db, ConfigOps(init, configs), ops);
    }
  }

  lemma DependenciesReady(db: Database, names: Dict)
    requires forall e :: e in names ==> Ref(Services, e.1) in db.rows
    ensures AllReady(db, DependencyOps(Inferred(KNOWN_DEPENDENCIES, names)))
  {
    var deps := Inferred(KNOWN_DEPENDENCIES, names);
    forall i | 0 <= i < |deps| ensures Ready(db, DependencyOps(deps)[i]) {
      assert deps[i] in deps;
      InferredIsLinked(KNOWN_DEPENDENCIES, names, deps[i]);
      assert DependencyOps(deps)[i] == DependencyOp(deps[i]);
    }
  }

  /**
   The dependency runs from a service whose name contains the pattern's source to another one whose
   name contains its target, with the pattern's type and detail.
   */
  ghost predicate LinkedBy(d: Dependency, p: Pattern, a: (string, int), b: (string, int)) {
    && Contains(a.0, p.source) && Contains(b.0, p.target) && a.1 != b.1
    && d.source == a.1 && d.target == b.1 && d.depType == p.depType && d.detail == Some(p.detail)
  }

  ghost predicate Linked(patterns: seq<Pattern>, names: Dict, d: Dependency) {
    exists p, a, b :: p in patterns && a in names && b in names && LinkedBy(d, p, a, b)
  }

  lemma LinkInFields(d: Dependency, p: Pattern, a: (string, int), b: (string, int))
    ensures LinkedBy(d, p, a, b) <==> Links(p, a, b) && d == DependencyOf(p, a, b)
  {
  }

  lemma {:induction false} TargetsAreLinked(p: Pattern, a: (string, int), names: Dict, d: Dependency)
    ensures d in TargetsOf(p, a, names) <==> exists b :: b in names && Links(p, a, b) && d == DependencyOf(p, a, b)
    decreases names
  {
    if names != [] {
      var init, last := names[..|names| - 1], names[|names| - 1];
      TargetsAreLinked(p, a, init, d);
      assert forall b :: b in names <==> b in init || b == last;
    }
  }

  lemma {:induction false} LinksAreLinked(p: Pattern, sources: Dict, names: Dict, d: Dependency)
    ensures d in LinksOf(p, sources, names) <==>
      exists a, b :: a in sources && b in names && Links(p, a, b) && d == DependencyOf(p, a, b)
    decreases sources
  {
    if sources != [] {
      var init, last := sources[..|sources| - 1], sources[|sources| - 1];
      LinksAreLinked(p, init, names, d);
      TargetsAreLinked(p, last, names, d);
      assert forall a :: a in sources <==> a in init || a == last;
    }
  }

  lemma {:induction false} InferredIsLinked(patterns: seq<Pattern>, names: Dict, d: Dependency)
    ensures d in Inferred(patterns, names) <==> Linked(patterns, names, d)
    decreases patterns
  {
    if patterns != [] {
      var init, last := patterns[..|patterns| - 1], patterns[|patterns| - 1];
      InferredIsLinked(init, names, d);
      LinksAreLinked(last, names, names, d);
      forall a, b ensures LinkedBy(d, last, a, b) <==> Links(last, a, b) && d == DependencyOf(last, a, b) {
        LinkInFields(d, last, a, b);
      }
      hide LinkedBy, Links, DependencyOf;
      assert forall p :: p in patterns <==> p in init || p == last;
    }
  }

  lemma AttachedReady(db: Database, obs: Observation)
    requires Sound(db) && AsProbed(obs)
    ensures AllReady(AfterServices(db, obs), AttachedOps(db, obs))
  {
    var d := AfterServices(db, obs);
    FirstNodeLives(db, obs);
    NamesLive(db, obs);
    hide *;
    var first, names := FirstNode(db, obs), Names(db, obs);
    assert first.Some? ==> Ref(Nodes, first.value) in d.rows by { NodeStaysLive(db, obs); }
    UnownedPorts(d, obs.ports);
    InterfacesReady(d, obs.interfaces, first);
    ConfigsReady(d, names, obs.configs);
    DependenciesReady(d, names);
    var ports, interfaces := PortOps(d, obs.ports), InterfaceOps(obs.interfaces, first);
    var configs, deps := ConfigOps(names, obs.configs), DependencyOps(Inferred(KNOWN_DEPENDENCIES, names));
    ReadyAppend(d, ports, interfaces);
    ReadyAppend(d, ports + interfaces, configs);
    ReadyAppend(d, ports + interfaces + configs, deps);
    AttachedIs(db, obs);
  }

  lemma AttachedIs(db: Database, obs: Observation)
    ensures AttachedOps(db, obs)
      == PortOps(AfterServices(db, obs), obs.ports) + InterfaceOps(obs.interfaces, FirstNode(db, obs))
         + ConfigOps(Names(db, obs), obs.configs) + DependencyOps(Inferred(KNOWN_DEPENDENCIES, Names(db, obs)))
  {
  }

  lemma NodeStaysLive(db: Database, obs: Observation)
    requires Sound(db) && AsProbed(obs)
    ensures FirstNode(db, obs).Some? ==> Ref(Nodes, FirstNode(db, obs).value) in AfterServices(db, obs).rows
  {
    FirstNodeLives(db, obs);
    NamesLive(db, obs);
  }

  /** No call of a scan is refused, so a scan runs to its end. */
  lemma ScanIsBatch(db: Database, obs: Observation)
    requires Sound(db) && AsProbed(obs)
    ensures Batch(db, Plan(db, obs)) && Sound(Scan(db, obs))
    ensures Extends(db, Scan(db, obs)) && Extends(AfterNodes(db, obs), Scan(db, obs))
    ensures Extends(AfterServices(db, obs), Scan(db, obs))
  {
    FirstNodeLives(db, obs);
    NamesLive(db, obs);
    AttachedReady(db, obs);
    ReadyIsBatch(AfterServices(db, obs), AttachedOps(db, obs));
    UpsertsExtend(AfterServices(db, obs), AttachedOps(db, obs));
    ExtendsTransitively(AfterNodes(db, obs), AfterServices(db, obs), Scan(db, obs));
    ExtendsTransitively(db, AfterNodes(db, obs), Scan(db, obs));
    PlanIsBatch(db, obs);
  }

  lemma PlanIsBatch(db: Database, obs: Observation)
    requires Batch(db, NodeOps(obs.nodes)) && Batch(AfterNodes(db, obs), ServiceOps(obs.services, FirstNode(db, obs)))
    requires Batch(AfterServices(db, obs), AttachedOps(db, obs))
    ensures Batch(db, Plan(db, obs))
  {
    hide Batch, AttachedOps;
    var nodes, services := NodeOps(obs.nodes), ServiceOps(obs.services, FirstNode(db, obs));
    BatchAppend(db, nodes, services);
    RunAppend(db, nodes, services);
    BatchAppend(db, nodes + services, AttachedOps(db, obs));
  }
}
