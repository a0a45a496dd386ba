/**
 What a scan leaves in each cell of the store: the last value the observation reports for it, or
 what the cell held before.
 */
module ScanCells {
  import opened Options
  import opened Schema
  import opened StoreSpec
  import opened Observations
  import opened Replay
  import opened Models
  import opened ScanSpec
  import opened Scans
  import opened Rescans
  import opened ScanEffects

  // ---- What an observation reports of a column of a key ------------------------------------

  /** The last report there is. */
  function LastOf(reports: seq<Option<Value>>): Option<Value> {
    if reports == [] then None
    else if reports[|reports| - 1].Some? then reports[|reports| - 1]
    else LastOf(reports[..|reports| - 1])
  }

  function NodeReports(nodes: seq<Node>, hostname: string, c: Column): seq<Option<Value>> {
    seq(|nodes|, i requires 0 <= i < |nodes| => if nodes[i].hostname == hostname then NodeField(nodes[i], c) else None)
  }

  function ServiceReport(s: Service, name: string, kind: string, namespace: Option<string>, c: Column): Option<Value> {
    if s.name == name && s.kind == kind && OrEmpty(s.namespace) == OrEmpty(namespace) then ServiceField(s, c) else None
  }

  function ServiceReports(services: seq<Service>, name: string, kind: string, namespace: Option<string>, c: Column)
    : seq<Option<Value>>
  {
    seq(|services|, i requires 0 <= i < |services| => ServiceReport(services[i], name, kind, namespace, c))
  }

  function PortReport(p: Port, number: int, protocol: string, c: Column): Option<Value> {
    if p.port == number && p.protocol == protocol then
      match c
      case BindAddress => Some(Text(p.bindAddress))
      case State => Some(Text(p.state))
      case _ => None
    else None
  }

  function PortReports(ports: seq<Port>, number: int, protocol: string, c: Column): seq<Option<Value>> {
    seq(|ports|, i requires 0 <= i < |ports| => PortReport(ports[i], number, protocol, c))
  }

  function InterfaceReports(interfaces: seq<NetworkInterface>, name: string, c: Column): seq<Option<Value>> {
    seq(|interfaces|, i requires 0 <= i < |interfaces| =>
      if interfaces[i].name == name then InterfaceField(interfaces[i], c) else None)
  }

  function FileReports(files: seq<ConfigFile>, path: string, c: Column): seq<Option<Value>> {
    seq(|files|, i requires 0 <= i < |files| => if files[i].path == path then ConfigField(files[i], c) else None)
  }

  /** Of the files of the names a service has in the name map. */
  function ConfigReports(names: Dict, configs: map<string, seq<ConfigFile>>, owner: int, path: string, c: Column)
    : seq<Option<Value>>
  {
    if names == [] then []
    else
      var (name, id) := names[|names| - 1];
      ConfigReports(names[..|names| - 1], configs, owner, path, c)
      + if id == owner && name in configs then FileReports(configs[name], path, c) else []
  }

  ghost function Reports(db: Database, obs: Observation, key: Key, c: Column): seq<Option<Value>> {
    match key
    case NodeKey(h) => NodeReports(obs.nodes, h, c)
    case ServiceKey(name, kind, node, namespace) =>
      if node == FirstNode(db, obs) then ServiceReports(obs.services, name, kind, namespace, c) else []
    case PortKey(owner, number, protocol) =>
      if owner.Some? && owner == PortOwner(db, number) then PortReports(obs.ports, number, protocol, c) else []
    case InterfaceKey(host, name) =>
      if FirstNode(db, obs) == Some(host) then InterfaceReports(obs.interfaces, name, c) else []
    case ConfigKey(owner, path) =>
      if owner.Some? then ConfigReports(Names(db, obs), obs.configs, owner.value, path, c) else []
    case DependencyKey(_, _, _) => []
  }

  lemma {:induction false} LastOfConcat(a: seq<Option<Value>>, b: seq<Option<Value>>)
    ensures LastOf(a + b) == Else(LastOf(b), LastOf(a))
  {
    if b == [] {
      assert a + b == a;
    } else {
      assert (a + b)[..|a + b| - 1] == a + b[..|b| - 1] && (a + b)[|a + b| - 1] == b[|b| - 1];
      LastOfConcat(a, b[..|b| - 1]);
    }
  }

  lemma LastOfMore(reports: seq<Option<Value>>, last: Option<Value>)
    ensures LastOf(reports + [last]) == Else(last, LastOf(reports))
  {
    assert (reports + [last])[..|reports|] == reports;
  }

  // ---- What a batch leaves in a cell -------------------------------------------------------

  lemma {:induction false} SeenConcat(a: seq<Op>, b: seq<Op>, key: Key, c: Column)
    ensures LastSeen(a + b, key, c) == Else(LastSeen(b, key, c), LastSeen(a, key, c))
  {
    hide Observes;
    if b == [] {
      assert a + b == a;
    } else {
      assert (a + b)[..|a + b| - 1] == a + b[..|b| - 1] && (a + b)[|a + b| - 1] == b[|b| - 1];
      SeenConcat(a, b[..|b| - 1], key, c);
    }
  }

  lemma {:induction false} SeenNowhere(ops: seq<Op>, key: Key, c: Column)
    requires forall op :: op in ops ==> op.Upsert? && TableOf(op.key) != TableOf(key)
    ensures LastSeen(ops, key, c) == None
  {
    if ops != [] {
      assert ops[|ops| - 1] in ops && forall op :: op in ops[..|ops| - 1] ==> op in ops;
      assert !Matches(key, ops[|ops| - 1].key);
      SeenNowhere(ops[..|ops| - 1], key, c);
    }
  }

  function Report(op: Op, key: Key, c: Column): Option<Value> {
    if Observes(op, key, c) then Some(op.cells[c]) else None
  }

  lemma SeenMore(ops: seq<Op>, op: Op, key: Key, c: Column)
    ensures LastSeen(ops + [op], key, c) == Else(Report(op, key, c), LastSeen(ops, key, c))
  {
    assert (ops + [op])[..|ops|] == ops;
  }

  lemma InsertedCell(db: Database, op: Op, r: Ref, c: Column)
    requires InBatch(db, op) && r in Apply(db, op).rows && r !in db.rows
    requires !Observes(op, Apply(db, op).rows[r].key, c)
    ensures Cell(Apply(db, op).rows[r].cells, c) == None
  {
    hide Accepts, WellTypedOp;
    assert Apply(db, op).rows[r] == Row(op.key, op.cells, op.stamp);
  }

  ghost function CellBefore(db: Database, r: Ref, c: Column): Option<Value> {
    if r in db.rows then Cell(db.rows[r].cells, c) else None
  }

  /** Whoever inserted the row: the last report of the batch, else what it held before, NULL if it is new. */
  lemma {:induction false} CellAfterBatch(db: Database, ops: seq<Op>, r: Ref, c: Column)
    requires Sound(db) && Batch(db, ops) && r in Run(db, ops).rows && r.table != Dependencies
    ensures Cell(Run(db, ops).rows[r].cells, c)
      == Else(LastSeen(ops, Run(db, ops).rows[r].key, c), CellBefore(db, r, c))
  {
    if ops != [] {
      var init, last := ops[..|ops| - 1], ops[|ops| - 1];
      var before, key := Run(db, init), Run(db, ops).rows[r].key;
      BatchPrefix(db, ops);
      BatchIsSound(db, init);
      hide Sound, Batch, Apply, Observes, WellTypedOp, Cell;
      if LastSeen(ops, key, c).Some? {
        LastSeenIsStored(db, ops, r, c);
      } else if r in before.rows {
        CellAfterUpsert(before, last, r, c);
        CellAfterBatch(db, init, r, c);
      } else {
        InsertedCell(before, last, r, c);
        if r in db.rows {
          RowsStay(db, init, r);
        }
      }
    }
  }

  lemma RowsStay(db: Database, ops: seq<Op>, r: Ref)
    requires Sound(db) && Batch(db, ops) && r in db.rows
    ensures r in Run(db, ops).rows
  {
    assert Upserts(ops);
    UpsertsExtend(db, ops);
  }

  // ---- The phases of a scan ----------------------------------------------------------------

  lemma {:induction false} NodesSeen(nodes: seq<Node>, hostname: string, c: Column)
    ensures LastSeen(NodeOps(nodes), NodeKey(hostname), c) == LastOf(NodeReports(nodes, hostname, c))
  {
    if nodes != [] {
      var init, last := nodes[..|nodes| - 1], nodes[|nodes| - 1];
      NodesSeen(init, hostname, c);
      LastNode(nodes, hostname, c);
      NodeSeen(last, hostname, c);
      hide NodeOps, NodeReports, NodeOp, NodeField, LastSeen, LastOf, Report;
      SeenMore(NodeOps(init), NodeOp(last), NodeKey(hostname), c);
      LastOfMore(NodeReports(init, hostname, c), if last.hostname == hostname then NodeField(last, c) else None);
    }
  }

  lemma LastNode(nodes: seq<Node>, hostname: string, c: Column)
    requires nodes != []
    ensures var init, last := nodes[..|nodes| - 1], nodes[|nodes| - 1];
      && NodeOps(nodes) == NodeOps(init) + [NodeOp(last)]
      && NodeReports(nodes, hostname, c)
         == NodeReports(init, hostname, c) + [if last.hostname == hostname then NodeField(last, c) else None]
  {
    hide NodeOp, NodeField;
  }

  lemma NodeSeen(n: Node, hostname: string, c: Column)
    ensures Report(NodeOp(n), NodeKey(hostname), c) == if n.hostname == hostname then NodeField(n, c) else None
  {
  }

  lemma {:induction false} ServicesSeen(services: seq<Service>, first: Option<int>, name: string, kind: string,
                                        namespace: Option<string>, c: Column)
    requires forall s :: s in services ==> s.nodeId.None?
    ensures LastSeen(ServiceOps(services, first), ServiceKey(name, kind, first, namespace), c)
      == LastOf(ServiceReports(services, name, kind, namespace, c))
  {
    if services != [] {
      var init, last := services[..|services| - 1], services[|services| - 1];
      ServicesSeen(init, first, name, kind, namespace, c);
      LastService(services, first, name, kind, namespace, c);
      assert last in services;
      ServiceSeen(last, first, name, kind, namespace, c);
      hide ServiceOps, ServiceReports, ServiceOp, Placed, ServiceReport, LastSeen, LastOf, Report;
      SeenMore(ServiceOps(init, first), ServiceOp(Placed(last, first)), ServiceKey(name, kind, first, namespace), c);
      LastOfMore(ServiceReports(init, name, kind, namespace, c), ServiceReport(last, name, kind, namespace, c));
    }
  }

  lemma LastService(services: seq<Service>, first: Option<int>, name: string, kind: string,
                    namespace: Option<string>, c: Column)
    requires services != []
    ensures var init, last := services[..|services| - 1], services[|services| - 1];
      && ServiceOps(services, first) == ServiceOps(init, first) + [ServiceOp(Placed(last, first))]
      && ServiceReports(services, name, kind, namespace, c)
         == ServiceReports(init, name, kind, namespace, c) + [ServiceReport(last, name, kind, namespace, c)]
  {
    hide ServiceOp, Placed, ServiceReport;
  }

  lemma ServiceSeen(s: Service, first: Option<int>, name: string, kind: string, namespace: Option<string>, c: Column)
    requires s.nodeId.None?
    ensures Report(ServiceOp(Placed(s, first)), ServiceKey(name, kind, first, namespace), c)
      == ServiceReport(s, name, kind, namespace, c)
  {
    assert Placed(s, first) == s.(nodeId := first);
  }

  /** All services a scan observes land on the first node. */
  lemma {:induction false} ServicesElsewhere(services: seq<Service>, first: Option<int>, key: Key, c: Column)
    requires (forall s :: s in services ==> s.nodeId.None?) && key.ServiceKey? && key.node != first
    ensures LastSeen(ServiceOps(services, first), key, c) == None
  {
    if services != [] {
      var init, last := services[..|services| - 1], services[|services| - 1];
      assert ServiceOps(services, first)[..|services| - 1] == ServiceOps(init, first);
      assert last in services;
      ServicesElsewhere(init, first, key, c);
    }
  }

  lemma {:induction false} PortsSeen(db: Database, ports: seq<Port>, key: Key, c: Column)
    requires Sound(db) && Unowned(ports) && key.PortKey? && key.owner.Some?
    ensures LastSeen(PortOps(db, ports), key, c)
      == if key.owner == PortOwner(db, key.port) then LastOf(PortReports(ports, key.port, key.protocol, c)) else None
  {
    hide Sound, PortOwner, Run, PortOps, PortOp, LastSeen, LastOf, Report, PortReport, OwnersOp;
    if ports != [] {
      var init, last := ports[..|ports| - 1], ports[|ports| - 1];
      PortsSeen(db, init, key, c);
      assert last in ports && PortReports(ports, key.port, key.protocol, c)
        == PortReports(init, key.port, key.protocol, c) + [PortReport(last, key.port, key.protocol, c)];
      hide PortReports;
      LastOfMore(PortReports(init, key.port, key.protocol, c), PortReport(last, key.port, key.protocol, c));
      PortOpsLast(db, ports);
      OwnerDuringScan(db, init, last.port);
      var owner := PortOwner(db, last.port);
      PortSeen(last, owner, key, c);
      PortUnseen(last, key, c);
      if owner.Some? {
        SeenMore(PortOps(db, init), PortOp(last.(serviceId := owner)), key, c);
      }
    } else {
      NoPorts(db, key, c);
    }
  }

  lemma NoPorts(db: Database, key: Key, c: Column)
    requires key.PortKey?
    ensures LastSeen(PortOps(db, []), key, c) == None && LastOf(PortReports([], key.port, key.protocol, c)) == None
  {
  }

  lemma PortSeen(p: Port, owner: Option<int>, key: Key, c: Column)
    requires key.PortKey? && key.owner.Some?
    ensures Report(PortOp(p.(serviceId := owner)), key, c)
      == if key.owner == owner then PortReport(p, key.port, key.protocol, c) else None
  {
  }

  lemma PortUnseen(p: Port, key: Key, c: Column)
    requires key.PortKey?
    ensures p.port != key.port ==> PortReport(p, key.port, key.protocol, c) == None
  {
  }

  lemma {:induction false} InterfacesSeen(interfaces: seq<NetworkInterface>, first: Option<int>, key: Key, c: Column)
    requires (forall i :: i in interfaces ==> i.nodeId == 0) && key.InterfaceKey?
    ensures LastSeen(InterfaceOps(interfaces, first), key, c)
      == if first == Some(key.host) then LastOf(InterfaceReports(interfaces, key.name, c)) else None
  {
    if interfaces != [] {
      var init, last := interfaces[..|interfaces| - 1], interfaces[|interfaces| - 1];
      assert last in interfaces;
      InterfacesSeen(init, first, key, c);
      LastInterface(interfaces, first, key.name, c);
      hide InterfaceOps, InterfaceReports, InterfaceOp, InterfaceField, LastSeen, LastOf, Report;
      if first.Some? {
        InterfaceSeen(last, first.value, key, c);
        var report := if last.name == key.name then InterfaceField(last, c) else None;
        SeenMore(InterfaceOps(init, first), InterfaceOp(last.(nodeId := first.value)), key, c);
        LastOfMore(InterfaceReports(init, key.name, c), report);
      } else {
        assert InterfaceOps(init, first) + [] == InterfaceOps(init, first);
      }
    }
  }

  lemma LastInterface(interfaces: seq<NetworkInterface>, first: Option<int>, name: string, c: Column)
    requires interfaces != [] && interfaces[|interfaces| - 1].nodeId == 0
    ensures var init, last := interfaces[..|interfaces| - 1], interfaces[|interfaces| - 1];
      && InterfaceReports(interfaces, name, c)
         == InterfaceReports(init, name, c) + [if last.name == name then InterfaceField(last, c) else None]
      && InterfaceOps(interfaces, first) == InterfaceOps(init, first)
         + if first.Some? then [InterfaceOp(last.(nodeId := first.value))] else []
  {
    hide InterfaceOp, InterfaceField;
  }

  lemma InterfaceSeen(i: NetworkInterface, host: int, key: Key, c: Column)
    requires key.InterfaceKey?
    ensures Report(InterfaceOp(i.(nodeId := host)), key, c)
      == if host == key.host && i.name == key.name then InterfaceField(i, c) else None
  {
  }

  lemma {:induction false} FilesSeen(files: seq<ConfigFile>, service: int, key: Key, c: Column)
    requires key.ConfigKey? && key.owner.Some?
    ensures LastSeen(FilesOps(files, service), key, c)
      == if service == key.owner.value then LastOf(FileReports(files, key.path, c)) else None
  {
    if files != [] {
      var init, last := files[..|files| - 1], files[|files| - 1];
      FilesSeen(init, service, key, c);
      var report := if last.path == key.path then ConfigField(last, c) else None;
      LastFile(files, service, key.path, c);
      hide FilesOps, FileReports, ConfigOp, ConfigField, LastSeen, LastOf, Report;
      FileSeen(last, service, key, c);
      SeenMore(FilesOps(init, service), ConfigOp(last.(serviceId := Some(service))), key, c);
      LastOfMore(FileReports(init, key.path, c), report);
    }
  }

  lemma LastFile(files: seq<ConfigFile>, service: int, path: string, c: Column)
    requires files != []
    ensures var init, last := files[..|files| - 1], files[|files| - 1];
      && FilesOps(files, service) == FilesOps(init, service) + [ConfigOp(last.(serviceId := Some(service)))]
      && FileReports(files, path, c)
         == FileReports(init, path, c) + [if last.path == path then ConfigField(last, c) else None]
  {
    hide ConfigOp, ConfigField;
  }

  lemma FileSeen(f: ConfigFile, service: int, key: Key, c: Column)
    requires key.ConfigKey? && key.owner.Some?
    ensures Report(ConfigOp(f.(serviceId := Some(service))), key, c)
      == if service == key.owner.value && f.path == key.path then ConfigField(f, c) else None
  {
  }

  lemma {:induction false} ConfigsSeen(names: Dict, configs: map<string, seq<ConfigFile>>, key: Key, c: Column)
    requires key.ConfigKey? && key.owner.Some?
    ensures LastSeen(ConfigOps(names, configs), key, c)
      == LastOf(ConfigReports(names, configs, key.owner.value, key.path, c))
  {
    if names != [] {
      var init, last := names[..|names| - 1], names[|names| - 1];
      ConfigsSeen(init, configs, key, c);
      var files := FilesOf(configs, last.0);
      FilesSeen(files, last.1, key, c);
      assert ConfigOps(names, configs) == ConfigOps(init, configs) + FilesOps(files, last.1);
      var reports := if last.1 == key.owner.value && last.0 in configs then FileReports(files, key.path, c) else [];
      assert ConfigReports(names, configs, key.owner.value, key.path, c)
        == ConfigReports(init, configs, key.owner.value, key.path, c) + reports;
      assert last.0 !in configs ==> FileReports(files, key.path, c) == [];
      hide ConfigOps, FilesOps, ConfigReports, FileReports, LastSeen;
      SeenConcat(ConfigOps(init, configs), FilesOps(files, last.1), key, c);
      LastOfConcat(ConfigReports(init, configs, key.owner.value, key.path, c), reports);
    }
  }

  // ---- The cells after a scan --------------------------------------------------------------

  /** Only the phase a key belongs to reports on it. */
  lemma SeenByPhase(db: Database, obs: Observation, key: Key, c: Column)
    ensures var first, names := FirstNode(db, obs), Names(db, obs);
      LastSeen(Plan(db, obs), key, c) ==
        match key
        case NodeKey(_) => LastSeen(NodeOps(obs.nodes), key, c)
        case ServiceKey(_, _, _, _) => LastSeen(ServiceOps(obs.services, first), key, c)
        case PortKey(_, _, _) => LastSeen(PortOps(AfterServices(db, obs), obs.ports), key, c)
        case InterfaceKey(_, _) => LastSeen(InterfaceOps(obs.interfaces, first), key, c)
        case ConfigKey(_, _) => LastSeen(ConfigOps(names, obs.configs), key, c)
        case DependencyKey(_, _, _) => LastSeen(DependencyOps(Inferred(KNOWN_DEPENDENCIES, names)), key, c)
  {
    var first, names := FirstNode(db, obs), Names(db, obs);
    var a, b := NodeOps(obs.nodes), ServiceOps(obs.services, first);
    var p, i := PortOps(AfterServices(db, obs), obs.ports), InterfaceOps(obs.interfaces, first);
    var f, d := ConfigOps(names, obs.configs), DependencyOps(Inferred(KNOWN_DEPENDENCIES, names));
    assert Plan(db, obs) == a + b + (p + i + f + d);
    PhaseTables(db, obs);
    hide *;
    SeenConcat(a + b, p + i + f + d, key, c);
    SeenConcat(a, b, key, c);
    SeenConcat(p + i + f, d, key, c);
    SeenConcat(p + i, f, key, c);
    SeenConcat(p, i, key, c);
    ElsewhereUnseen(a, Nodes, key, c);
    ElsewhereUnseen(b, Services, key, c);
    ElsewhereUnseen(p, Ports, key, c);
    ElsewhereUnseen(i, Interfaces, key, c);
    ElsewhereUnseen(f, ConfigFiles, key, c);
    ElsewhereUnseen(d, Dependencies, key, c);
    TablesOfKeys(key);
    OneSeen();
  }

  ghost predicate InTable(ops: seq<Op>, table: Table) {
    forall op :: op in ops ==> op.Upsert? && TableOf(op.key) == table
  }

  lemma ElsewhereUnseen(ops: seq<Op>, table: Table, key: Key, c: Column)
    requires InTable(ops, table)
    ensures TableOf(key) != table ==> LastSeen(ops, key, c) == None
  {
    if TableOf(key) != table {
      SeenNowhere(ops, key, c);
    }
  }

  lemma TablesOfKeys(key: Key)
    ensures TableOf(key) ==
      match key
      case NodeKey(_) => Nodes
      case ServiceKey(_, _, _, _) => Services
      case PortKey(_, _, _) => Ports
      case InterfaceKey(_, _) => Interfaces
      case ConfigKey(_, _) => ConfigFiles
      case DependencyKey(_, _, _) => Dependencies
  {
  }

  lemma OneSeen()
    ensures forall v: Option<Value> :: Else(v, None) == v && Else(None, v) == v
  {
  }

  lemma PhaseTables(db: Database, obs: Observation)
    ensures InTable(NodeOps(obs.nodes), Nodes)
    ensures InTable(ServiceOps(obs.services, FirstNode(db, obs)), Services)
    ensures InTable(PortOps(AfterServices(db, obs), obs.ports), Ports)
    ensures InTable(InterfaceOps(obs.interfaces, FirstNode(db, obs)), Interfaces)
    ensures InTable(ConfigOps(Names(db, obs), obs.configs), ConfigFiles)
    ensures InTable(DependencyOps(Inferred(KNOWN_DEPENDENCIES, Names(db, obs))), Dependencies)
  {
    hide AfterServices, FirstNode, Names, PortOps, InterfaceOps, ConfigOps, Inferred;
    forall op | op in PortOps(AfterServices(db, obs), obs.ports) ensures op.Upsert? && TableOf(op.key) == Ports {
      PortOpsArePorts(AfterServices(db, obs), obs.ports, op);
    }
    forall op | op in InterfaceOps(obs.interfaces, FirstNode(db, obs))
      ensures op.Upsert? && TableOf(op.key) == Interfaces
    {
      InterfaceOpsAre(obs.interfaces, FirstNode(db, obs), op);
    }
    forall op | op in ConfigOps(Names(db, obs), obs.configs) ensures op.Upsert? && TableOf(op.key) == ConfigFiles {
      ConfigOpsAre(Names(db, obs), obs.configs, op);
    }
  }

  lemma ScanReports(db: Database, obs: Observation, key: Key, c: Column)
    requires Sound(db) && AsProbed(obs) && Sound(AfterServices(db, obs)) && !key.DependencyKey?
    requires Matches(key, key)
    ensures LastSeen(Plan(db, obs), key, c) == LastOf(Reports(db, obs, key, c))
  {
    SeenByPhase(db, obs, key, c);
    hide Sound, Plan, FirstNode, Names, AfterServices, PortOwner, NodeOps, ServiceOps, PortOps, InterfaceOps, ConfigOps;
    hide NodeReports, ServiceReports, PortReports, InterfaceReports, ConfigReports, LastSeen;
    match key
    case NodeKey(h) => NodesSeen(obs.nodes, h, c);
    case ServiceKey(name, kind, node, namespace) =>
      if node == FirstNode(db, obs) {
        ServicesSeen(obs.services, node, name, kind, namespace, c);
      } else {
        ServicesElsewhere(obs.services, FirstNode(db, obs), key, c);
      }
    case PortKey(_, number, _) =>
      PortsSeen(AfterServices(db, obs), obs.ports, key, c);
      OwnersBefore(db, obs, number);
    case InterfaceKey(_, _) => InterfacesSeen(obs.interfaces, FirstNode(db, obs), key, c);
    case ConfigKey(_, _) => ConfigsSeen(Names(db, obs), obs.configs, key, c);
  }

  /** A key without an owner matches nothing, so nothing is reported on it. */
  lemma {:induction false} OwnerlessUnseen(ops: seq<Op>, key: Key, c: Column)
    requires !Matches(key, key)
    ensures LastSeen(ops, key, c) == None
  {
    if ops != [] {
      assert ops[|ops| - 1].Upsert? ==> !Matches(key, ops[|ops| - 1].key);
      OwnerlessUnseen(ops[..|ops| - 1], key, c);
    }
  }

  lemma PlanReports(db: Database, obs: Observation, key: Key, c: Column)
    requires Sound(db) && AsProbed(obs) && Sound(AfterServices(db, obs)) && !key.DependencyKey?
    ensures LastSeen(Plan(db, obs), key, c) == LastOf(Reports(db, obs, key, c))
  {
    hide FirstNode, Names, Plan, Sound, AfterServices, AsProbed;
    if Matches(key, key) {
      ScanReports(db, obs, key, c);
    } else {
      OwnerlessUnseen(Plan(db, obs), key, c);
      assert LastOf([]) == None;
    }
  }

  lemma KeyInTable(db: Database, r: Ref)
    requires Sound(db) && r in db.rows && r.table != Dependencies
    ensures !db.rows[r].key.DependencyKey?
  {
    assert TableOf(db.rows[r].key) == r.table;
  }

  /** After a scan every cell holds the last value reported for it, else what it held before, NULL in a new row. */
  lemma CellsAfterScan(db: Database, obs: Observation, r: Ref, c: Column)
    requires Sound(db) && AsProbed(obs) && r in Scan(db, obs).rows && r.table != Dependencies
    ensures Cell(Scan(db, obs).rows[r].cells, c)
      == Else(LastOf(Reports(db, obs, Scan(db, obs).rows[r].key, c)), CellBefore(db, r, c))
  {
    hide *;
    ScanIsBatch(db, obs);
    ScanIsPlan(db, obs);
    NamesLive(db, obs);
    KeyInTable(Scan(db, obs), r);
    CellAfterBatch(db, Plan(db, obs), r, c);
    PlanReports(db, obs, Scan(db, obs).rows[r].key, c);
  }

  // ---- What carries an id of its own -------------------------------------------------------

  lemma {:induction false} PortStands(db: Database, ports: seq<Port>, p: Port)
    requires p in ports && p.serviceId.Some?
    ensures PortOp(p) in PortOps(db, ports)
  {
    hide PortOwner, Run, PortOp;
    var init, last := ports[..|ports| - 1], ports[|ports| - 1];
    if p in init {
      PortStands(db, init, p);
    } else {
      assert p == last && p.(serviceId := p.serviceId) == p;
    }
  }

  lemma {:induction false} InterfaceStands(interfaces: seq<NetworkInterface>, first: Option<int>, i: NetworkInterface)
    requires i in interfaces && i.nodeId != 0
    ensures InterfaceOp(i) in InterfaceOps(interfaces, first)
  {
    hide InterfaceOp;
    var init, last := interfaces[..|interfaces| - 1], interfaces[|interfaces| - 1];
    if i in init {
      InterfaceStands(init, first, i);
    }
  }

  lemma ServiceStands(services: seq<Service>, first: Option<int>, s: Service)
    requires s in services && s.nodeId.Some?
    ensures ServiceOp(s) in ServiceOps(services, first)
  {
    var i :| 0 <= i < |services| && services[i] == s;
    assert ServiceOps(services, first)[i] == ServiceOp(s);
  }

  /** In any observation, a service, port or interface that carries an id is stored as it is. */
  lemma OwnIdsStand(db: Database, obs: Observation)
    ensures forall s :: s in obs.services && s.nodeId.Some? ==> ServiceOp(s) in Plan(db, obs)
    ensures forall p :: p in obs.ports && p.serviceId.Some? ==> PortOp(p) in Plan(db, obs)
    ensures forall i :: i in obs.interfaces && i.nodeId != 0 ==> InterfaceOp(i) in Plan(db, obs)
  {
    hide FirstNode, Names, AfterServices, NodeOps, ServiceOps, PortOps, InterfaceOps, ConfigOps, Inferred;
    hide ServiceOp, PortOp, InterfaceOp;
    forall s | s in obs.services && s.nodeId.Some? ensures ServiceOp(s) in Plan(db, obs) {
      ServiceStands(obs.services, FirstNode(db, obs), s);
    }
    forall p | p in obs.ports && p.serviceId.Some? ensures PortOp(p) in Plan(db, obs) {
      PortStands(AfterServices(db, obs), obs.ports, p);
    }
    forall i | i in obs.interfaces && i.nodeId != 0 ensures InterfaceOp(i) in Plan(db, obs) {
      InterfaceStands(obs.interfaces, FirstNode(db, obs), i);
    }
  }
}
