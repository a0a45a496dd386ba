/** The scanned entities and the upsert each of them stands for. */
module Models {
  import opened Options
  import opened Schema
  import opened StoreSpec

  datatype Node = Node(hostname: string, ip: Option<string>, role: Option<string>, osVersion: Option<string>,
                       ramTotalMb: Option<int>, cpuCores: Option<int>, lastSeen: string)
  datatype Service = Service(name: string, kind: string, nodeId: Option<int>, namespace: Option<string>,
                             status: Option<string>, pid: Option<int>, image: Option<string>, lastSeen: string)
  datatype Port = Port(port: int, serviceId: Option<int>, protocol: string, bindAddress: string, state: string)
  datatype ConfigFile = ConfigFile(path: string, serviceId: Option<int>, hash: Option<string>,
                                   lastModified: Option<string>, lastScanned: string)
  datatype Dependency = Dependency(source: int, target: int, depType: string, detail: Option<string>)
  datatype NetworkInterface = NetworkInterface(nodeId: int, name: string, ip: Option<string>,
                                               subnet: Option<string>, mac: Option<string>, state: string)

  function TextValue(v: Option<string>): Option<Value> {
    if v.None? then None else Some(Text(v.value))
  }

  function NumberValue(v: Option<int>): Option<Value> {
    if v.None? then None else Some(Number(v.value))
  }

  predicate Typed(c: Column, v: Option<Value>) {
    v.Some? ==> v.value.Number? == IsNumeric(c)
  }

  function NodeField(n: Node, c: Column): (v: Option<Value>)
    ensures Typed(c, v)
  {
    match c
    case Ip => TextValue(n.ip)
    case Role => TextValue(n.role)
    case OsVersion => TextValue(n.osVersion)
    case RamTotalMb => NumberValue(n.ramTotalMb)
    case CpuCores => NumberValue(n.cpuCores)
    case _ => None
  }

  function NodeOp(n: Node): (op: Op)
    ensures WellTypedOp(op)
  {
    Upsert(NodeKey(n.hostname),
           map c | c in ColumnsOf(Nodes) && NodeField(n, c).Some? :: NodeField(n, c).value,
           n.lastSeen)
  }

  function ServiceField(s: Service, c: Column): (v: Option<Value>)
    ensures Typed(c, v)
  {
    match c
    case Status => TextValue(s.status)
    case Pid => NumberValue(s.pid)
    case Image => TextValue(s.image)
    case _ => None
  }

  function ServiceOp(s: Service): (op: Op)
    ensures WellTypedOp(op)
  {
    Upsert(ServiceKey(s.name, s.kind, s.nodeId, s.namespace),
           map c | c in ColumnsOf(Services) && ServiceField(s, c).Some? :: ServiceField(s, c).value,
           s.lastSeen)
  }

  function PortOp(p: Port): (op: Op)
    ensures WellTypedOp(op)
  {
    Upsert(PortKey(p.serviceId, p.port, p.protocol),
           map[BindAddress := Text(p.bindAddress), State := Text(p.state)],
           "")
  }

  function ConfigField(f: ConfigFile, c: Column): (v: Option<Value>)
    ensures Typed(c, v)
  {
    match c
    case HashSha256 => TextValue(f.hash)
    case LastModified => TextValue(f.lastModified)
    case _ => None
  }

  function ConfigOp(f: ConfigFile): (op: Op)
    ensures WellTypedOp(op)
  {
    Upsert(ConfigKey(f.serviceId, f.path),
           map c | c in ColumnsOf(ConfigFiles) && ConfigField(f, c).Some? :: ConfigField(f, c).value,
           f.lastScanned)
  }

  function DependencyOp(d: Dependency): (op: Op)
    ensures WellTypedOp(op)
  {
    Upsert(DependencyKey(d.source, d.target, d.depType),
           if d.detail.None? then map[] else map[Detail := Text(d.detail.value)],
           "")
  }

  function InterfaceField(i: NetworkInterface, c: Column): (v: Option<Value>)
    ensures Typed(c, v)
  {
    match c
    case Ip => TextValue(i.ip)
    case Subnet => TextValue(i.subnet)
    case Mac => TextValue(i.mac)
    case State => Some(Text(i.state))
    case _ => None
  }

  function InterfaceOp(i: NetworkInterface): (op: Op)
    ensures WellTypedOp(op)
  {
    Upsert(InterfaceKey(i.nodeId, i.name),
           map c | c in ColumnsOf(Interfaces) && InterfaceField(i, c).Some? :: InterfaceField(i, c).value,
           "")
  }
}
