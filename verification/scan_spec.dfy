/**
 One background scan as a plan of upserts, computed from the store and what the probes found,
 and what it means that a scan ran its plan to the end or stopped at a refused call.
 */
module ScanSpec {
  import opened Options
  import opened Strings
  import opened Schema
  import opened StoreSpec
  import opened Models

  /** `configs` maps a service name to the config files found for it. */
  datatype Observation = Observation(
    nodes: seq<Node>, services: seq<Service>, ports: seq<Port>,
    interfaces: seq<NetworkInterface>, configs: map<string, seq<ConfigFile>>)

  datatype Pattern = Pattern(source: string, target: string, depType: string, detail: string)

  const KNOWN_DEPENDENCIES: seq<Pattern> := [
    Pattern("zabbix-server", "postgresql", "network", "database backend"),
    Pattern("zabbix-server", "mysql", "network", "database backend"),
    Pattern("rabbitmq-server", "erlang", "config", "runtime dependency"),
    Pattern("nginx", "php-fpm", "network", "PHP processing"),
    Pattern("grafana", "prometheus", "network", "metrics source")]

  // ---- Python dictionaries from names to ids ---------------------------------------------

  /** Entries in insertion order. */
  type Dict = seq<(string, int)>

  function Put(d: Dict, k: string, v: int): Dict {
    if d == [] then [(k, v)]
    else if d[0].0 == k then [(k, v)] + d[1..]
    else [d[0]] + Put(d[1..], k, v)
  }

  function DictOf(pairs: seq<(string, int)>): Dict {
    if pairs == [] then []
    else Put(DictOf(pairs[..|pairs| - 1]), pairs[|pairs| - 1].0, pairs[|pairs| - 1].1)
  }

  lemma {:induction false} PutEntries(d: Dict, k: string, v: int, e: (string, int))
    requires e in Put(d, k, v)
    ensures e in d || e == (k, v)
  {
    if d != [] && d[0].0 != k && e != d[0] {
      PutEntries(d[1..], k, v, e);
    }
  }

  lemma {:induction false} DictEntries(pairs: seq<(string, int)>, e: (string, int))
    requires e in DictOf(pairs)
    ensures e in pairs
  {
    if pairs != [] {
      var init, last := pairs[..|pairs| - 1], pairs[|pairs| - 1];
      PutEntries(DictOf(init), last.0, last.1, e);
      if e in DictOf(init) {
        DictEntries(init, e);
      }
    }
  }

  function FirstId(d: Dict): Option<int> {
    if d == [] then None else Some(d[0].1)
  }

  // ---- The calls of one scan -------------------------------------------------------------

  function NodeOps(nodes: seq<Node>): seq<Op> {
    seq(|nodes|, i requires 0 <= i < |nodes| => NodeOp(nodes[i]))
  }

  /** A service whose node is unknown goes to the first node, if there is one. */
  function Placed(s: Service, first: Option<int>): Service {
    if s.nodeId.None? && first.Some? then s.(nodeId := first) else s
  }

  function ServiceOps(services: seq<Service>, first: Option<int>): seq<Op> {
    seq(|services|, i requires 0 <= i < |services| => ServiceOp(Placed(services[i], first)))
  }

  /** An interface without a node id (0) goes to the first node; if there is none, it is dropped. */
  function OnNode(iface: NetworkInterface, first: Option<int>): Option<NetworkInterface> {
    if iface.nodeId != 0 then Some(iface)
    else if first.Some? then Some(iface.(nodeId := first.value))
    else None
  }

  function InterfaceOps(interfaces: seq<NetworkInterface>, first: Option<int>): seq<Op> {
    if interfaces == [] then []
    else
      var placed := OnNode(interfaces[|interfaces| - 1], first);
      InterfaceOps(interfaces[..|interfaces| - 1], first) + if placed.Some? then [InterfaceOp(placed.value)] else []
  }

  function FilesOps(files: seq<ConfigFile>, service: int): seq<Op> {
    seq(|files|, i requires 0 <= i < |files| => ConfigOp(files[i].(serviceId := Some(service))))
  }

  function FilesOf(configs: map<string, seq<ConfigFile>>, name: string): seq<ConfigFile> {
    if name in configs then configs[name] else []
  }

  function ConfigOps(names: Dict, configs: map<string, seq<ConfigFile>>): seq<Op> {
    if names == [] then []
    else
      var (name, id) := names[|names| - 1];
      ConfigOps(names[..|names| - 1], configs) + FilesOps(FilesOf(configs, name), id)
  }

  /** The service a scanned port is given to: its own, or the one that owns its number by now. */
  ghost function OwnerOf(db: Database, port: Port): Option<int> {
    if port.serviceId.Some? then port.serviceId else PortOwner(db, port.port)
  }

  /** Scanned ports that no service owns are dropped. */
  ghost function PortOps(db: Database, ports: seq<Port>): seq<Op> {
    if ports == [] then []
    else
      var earlier, last := PortOps(db, ports[..|ports| - 1]), ports[|ports| - 1];
      var owner := OwnerOf(Run(db, earlier), last);
      earlier + if owner.Some? then [PortOp(last.(serviceId := owner))] else []
  }

  predicate Links(p: Pattern, a: (string, int), b: (string, int)) {
    Contains(a.0, p.source) && Contains(b.0, p.target) && a.1 != b.1
  }

  function DependencyOf(p: Pattern, a: (string, int), b: (string, int)): Dependency {
    Dependency(a.1, b.1, p.depType, Some(p.detail))
  }

  function TargetsOf(p: Pattern, a: (string, int), names: Dict): seq<Dependency> {
    if names == [] then []
    else
      TargetsOf(p, a, names[..|names| - 1])
      + if Links(p, a, names[|names| - 1]) then [DependencyOf(p, a, names[|names| - 1])] else []
  }

  function LinksOf(p: Pattern, sources: Dict, names: Dict): seq<Dependency> {
    if sources == [] then []
    else LinksOf(p, sources[..|sources| - 1], names) + TargetsOf(p, sources[|sources| - 1], names)
  }

  /** The dependencies inferred for a list of patterns, in the order the loops find them. */
  function Inferred(patterns: seq<Pattern>, names: Dict): seq<Dependency> {
    if patterns == [] then []
    else Inferred(patterns[..|patterns| - 1], names) + LinksOf(patterns[|patterns| - 1], names, names)
  }

  function DependencyOps(deps: seq<Dependency>): seq<Op> {
    seq(|deps|, i requires 0 <= i < |deps| => DependencyOp(deps[i]))
  }

  ghost function IdOf(db: Database, key: Key): int {
    if Has(db, key) then Lookup(db, key).id else 0
  }

  ghost function NodePairs(db: Database, nodes: seq<Node>): seq<(string, int)> {
    seq(|nodes|, i requires 0 <= i < |nodes| => (nodes[i].hostname, IdOf(db, NodeOp(nodes[i]).key)))
  }

  ghost function NamePairs(db: Database, services: seq<Service>, first: Option<int>): seq<(string, int)> {
    seq(|services|, i requires 0 <= i < |services| =>
      (services[i].name, IdOf(db, ServiceOp(Placed(services[i], first)).key)))
  }

  ghost function AfterNodes(db: Database, obs: Observation): Database {
    Run(db, NodeOps(obs.nodes))
  }

  ghost function FirstNode(db: Database, obs: Observation): Option<int> {
    FirstId(DictOf(NodePairs(AfterNodes(db, obs), obs.nodes)))
  }

  ghost function AfterServices(db: Database, obs: Observation): Database {
    Run(AfterNodes(db, obs), ServiceOps(obs.services, FirstNode(db, obs)))
  }

  /** service_name_map: a later service takes over an earlier one's name. */
  ghost function Names(db: Database, obs: Observation): Dict {
    DictOf(NamePairs(AfterServices(db, obs), obs.services, FirstNode(db, obs)))
  }

  /** The calls after the services, given the first node and the service names. */
  ghost function Attachments(db: Database, obs: Observation, first: Option<int>, names: Dict): seq<Op> {
    PortOps(db, obs.ports)
    + InterfaceOps(obs.interfaces, first)
    + ConfigOps(names, obs.configs)
    + DependencyOps(Inferred(KNOWN_DEPENDENCIES, names))
  }

  ghost function AttachedOps(db: Database, obs: Observation): seq<Op> {
    Attachments(AfterServices(db, obs), obs, FirstNode(db, obs), Names(db, obs))
  }

  ghost function Plan(db: Database, obs: Observation): seq<Op> {
    NodeOps(obs.nodes) + ServiceOps(obs.services, FirstNode(db, obs)) + AttachedOps(db, obs)
  }

  /** The database after one scan. */
  ghost function Scan(db: Database, obs: Observation): Database {
    Run(AfterServices(db, obs), AttachedOps(db, obs))
  }

  lemma ScanIsPlan(db: Database, obs: Observation)
    ensures Scan(db, obs) == Run(db, Plan(db, obs))
  {
    var nodes, services := NodeOps(obs.nodes), ServiceOps(obs.services, FirstNode(db, obs));
    RunAppend(db, nodes, services);
    RunAppend(db, nodes + services, AttachedOps(db, obs));
  }

  // ---- Running a plan --------------------------------------------------------------------

  ghost predicate Accepted(db: Database, op: Op) {
    op.Upsert? ==> Accepts(db, op.key)
  }

  ghost predicate AllAccepted(db: Database, ops: seq<Op>) {
    forall i :: 0 <= i < |ops| ==> Accepted(Run(db, ops[..i]), ops[i])
  }

  /** The calls before `i` were made; call `i` is refused. */
  ghost predicate StopsAt(db: Database, ops: seq<Op>, i: nat, after: Database) {
    i < |ops| && AllAccepted(db, ops[..i]) && !Accepted(Run(db, ops[..i]), ops[i]) && after == Run(db, ops[..i])
  }

  /** All calls were accepted, or the first refused one ended the run. */
  ghost predicate Ran(db: Database, ops: seq<Op>, done: bool, after: Database) {
    if done then AllAccepted(db, ops) && after == Run(db, ops) else exists i: nat :: StopsAt(db, ops, i, after)
  }

  /** What the probes promise: no service, port or interface carries an id. */
  predicate AsProbed(obs: Observation) {
    && (forall s :: s in obs.services ==> s.nodeId.None?)
    && (forall p :: p in obs.ports ==> p.serviceId.None?)
    && (forall i :: i in obs.interfaces ==> i.nodeId == 0)
  }
}
