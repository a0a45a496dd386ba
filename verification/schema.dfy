/**
 The Infrastructure DNA tables.  One row type serves all six tables: a key (the columns the
 upsert looks a row up by), its remaining cells and its last-seen stamp.  A NULL cell is an
 absent map entry, so a COALESCE update is map override.
 */
module Schema {
  import opened Options

  datatype Table = Nodes | Services | Ports | ConfigFiles | Dependencies | Interfaces

  datatype Column =
    | Ip | Role | OsVersion | RamTotalMb | CpuCores
    | Status | Pid | Image
    | BindAddress | State
    | HashSha256 | LastModified
    | Detail
    | Subnet | Mac

  datatype Value = Text(text: string) | Number(number: int)

  type Cells = map<Column, Value>

  datatype Ref = Ref(table: Table, id: int)

  datatype Key =
    | NodeKey(hostname: string)
    | ServiceKey(name: string, kind: string, node: Option<int>, namespace: Option<string>)
    | PortKey(owner: Option<int>, port: int, protocol: string)
    | ConfigKey(owner: Option<int>, path: string)
    | DependencyKey(source: int, target: int, depType: string)
    | InterfaceKey(host: int, name: string)

  /** `stamp` is last_seen (nodes, services) or last_scanned (config files), else empty. */
  datatype Row = Row(key: Key, cells: Cells, stamp: string)

  datatype ChangeKind =
    | Added
    | Modified(column: Column, oldText: Option<string>, newText: string)
    | Removed

  datatype Change = Change(ref: Ref, kind: ChangeKind)

  /** `next` holds the AUTOINCREMENT counters; a table that never had a row is absent. */
  datatype Database = Database(rows: map<Ref, Row>, next: map<Table, int>, log: seq<Change>)

  const EMPTY := Database(map[], map[], [])

  function NextId(db: Database, table: Table): int {
    if table in db.next then db.next[table] else 1
  }

  function TableOf(key: Key): Table {
    match key
    case NodeKey(_) => Nodes
    case ServiceKey(_, _, _, _) => Services
    case PortKey(_, _, _) => Ports
    case ConfigKey(_, _) => ConfigFiles
    case DependencyKey(_, _, _) => Dependencies
    case InterfaceKey(_, _) => Interfaces
  }

  function ColumnsOf(table: Table): set<Column> {
    match table
    case Nodes => {Ip, Role, OsVersion, RamTotalMb, CpuCores}
    case Services => {Status, Pid, Image}
    case Ports => {BindAddress, State}
    case ConfigFiles => {HashSha256, LastModified}
    case Dependencies => {Detail}
    case Interfaces => {Ip, Subnet, Mac, State}
  }

  /** Changes are logged of every column but the three no upsert compares. */
  predicate Logged(table: Table, c: Column) {
    c in ColumnsOf(table) && c != BindAddress && c != LastModified && c != Detail
  }

  /** The columns whose changes are logged, in the order the upsert visits them. */
  function LoggedColumns(table: Table): (columns: seq<Column>)
    ensures forall c :: c in columns <==> Logged(table, c)
    ensures forall i, j :: 0 <= i < j < |columns| ==> columns[i] != columns[j]
  {
    match table
    case Nodes => [Ip, Role, OsVersion, RamTotalMb, CpuCores]
    case Services => [Status, Pid, Image]
    case Ports => [State]
    case ConfigFiles => [HashSha256]
    case Dependencies => []
    case Interfaces => [Ip, Subnet, Mac, State]
  }

  predicate IsNumeric(c: Column) {
    c == RamTotalMb || c == CpuCores || c == Pid
  }

  /** What the dataclasses' field types promise about the cells of a row or an observation. */
  predicate WellTyped(table: Table, cells: Cells) {
    && cells.Keys <= ColumnsOf(table)
    && (forall c :: c in cells ==> cells[c].Number? == IsNumeric(c))
    && (table == Ports ==> BindAddress in cells && State in cells)
  }

  function OrEmpty(s: Option<string>): string {
    if s.None? then "" else s.value
  }

  /**
   The WHERE clause of each upsert.  SQL `=` is not true of NULL, so an ownerless port or
   config file matches nothing; services compare COALESCE(node_id,'') and COALESCE(namespace,'').
   */
  predicate Matches(stored: Key, query: Key) {
    match (stored, query)
    case (NodeKey(h), NodeKey(h')) => h == h'
    case (ServiceKey(n, k, d, s), ServiceKey(n', k', d', s')) =>
      n == n' && k == k' && d == d' && OrEmpty(s) == OrEmpty(s')
    case (PortKey(o, p, t), PortKey(o', p', t')) => o.Some? && o == o' && p == p' && t == t'
    case (ConfigKey(o, p), ConfigKey(o', p')) => o.Some? && o == o' && p == p'
    case (DependencyKey(s, t, d), DependencyKey(s', t', d')) => s == s' && t == t' && d == d'
    case (InterfaceKey(h, n), InterfaceKey(h', n')) => h == h' && n == n'
    case _ => false
  }

  function RefIf(table: Table, id: Option<int>): set<Ref> {
    if id.None? then {} else {Ref(table, id.value)}
  }

  /** The rows a key's foreign-key columns point at. */
  function Parents(key: Key): set<Ref> {
    match key
    case NodeKey(_) => {}
    case ServiceKey(_, _, node, _) => RefIf(Nodes, node)
    case PortKey(owner, _, _) => RefIf(Services, owner)
    case ConfigKey(owner, _) => RefIf(Services, owner)
    case DependencyKey(source, target, _) => {Ref(Services, source), Ref(Services, target)}
    case InterfaceKey(host, _) => {Ref(Nodes, host)}
  }

  // ---- Python's str() -------------------------------------------------------------------

  function Digit(n: nat): (c: char)
    requires n < 10
    ensures c != 'e'
  {
    "0123456789"[n]
  }

  function Decimal(n: int): (s: string)
    ensures s != [] && s[|s| - 1] != 'e'
    decreases n < 0, if n < 0 then -n else n
  {
    if n < 0 then "-" + Decimal(-n)
    else if n < 10 then [Digit(n)]
    else Decimal(n / 10) + [Digit(n % 10)]
  }

  function DigitValue(c: char): int {
    c as int - '0' as int
  }

  function ReadDigits(s: string): int {
    if s == [] then 0 else 10 * ReadDigits(s[..|s| - 1]) + DigitValue(s[|s| - 1])
  }

  function ReadInt(s: string): int {
    if s != [] && s[0] == '-' then -ReadDigits(s[1..]) else ReadDigits(s)
  }

  lemma {:induction false} DigitsRead(n: nat)
    ensures ReadDigits(Decimal(n)) == n && Decimal(n)[0] != '-' && (n > 0 ==> Decimal(n)[0] != '0')
    decreases n
  {
    if n < 10 {
      assert [Digit(n)][..0] == [];
    } else {
      DigitsRead(n / 10);
      var front := Decimal(n / 10);
      assert (front + [Digit(n % 10)])[..|front|] == front;
    }
  }

  /** Reading the text of a number back gives the number, so different numbers have different texts. */
  lemma DecimalReads(n: int)
    ensures ReadInt(Decimal(n)) == n && (n > 0 ==> Decimal(n)[0] != '0')
  {
    if n < 0 {
      DigitsRead(-n);
      assert ("-" + Decimal(-n))[1..] == Decimal(-n);
    } else {
      DigitsRead(n);
    }
  }

  function Str(v: Value): string {
    match v
    case Text(t) => t
    case Number(n) => Decimal(n)
  }

  const NONE_TEXT := "None"

  /** str(x) of a cell, where a NULL cell prints as "None". */
  function Show(text: Option<string>): string {
    if text.None? then NONE_TEXT else text.value
  }

  function Cell(cells: Cells, c: Column): Option<Value> {
    if c in cells then Some(cells[c]) else None
  }

  /** The text a change-log entry stores for a cell: NULL stays NULL. */
  function CellText(cells: Cells, c: Column): Option<string> {
    if c in cells then Some(Str(cells[c])) else None
  }

  lemma OnlyTextPrintsAsNone(v: Value)
    ensures Str(v) == NONE_TEXT <==> v == Text(NONE_TEXT)
  {
    if v.Number? {
      assert Decimal(v.number)[|Decimal(v.number)| - 1] != NONE_TEXT[3];
    }
  }

  /**
   Does an observed value count as a change?  Nodes, services and interfaces compare str()
   texts; ports and config files compare the values themselves.
   */
  predicate Differs(table: Table, cells: Cells, c: Column, seen: Value) {
    if table == Ports || table == ConfigFiles
    then Cell(cells, c) != Some(seen)
    else Show(CellText(cells, c)) != Str(seen)
  }
}
