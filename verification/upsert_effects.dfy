/**
 What each upsert does to its table and to the log, in the fields of the entity it stores: the
 reference the generic calls of StoreSpec are held against.
 */
module UpsertEffects {
  import opened Options
  import opened Schema
  import opened StoreSpec
  import opened Models

  // ---- One cell --------------------------------------------------------------------------

  /** COALESCE with nothing observed: the cell is what it was, and NULL in a new row. */
  ghost predicate KeepsCell(db: Database, after: Database, r: Ref, c: Column)
    requires r in after.rows
  {
    && (c in after.rows[r].cells <==> r in db.rows && c in db.rows[r].cells)
    && (c in after.rows[r].cells ==> after.rows[r].cells[c] == db.rows[r].cells[c])
  }

  ghost predicate HoldsText(after: Database, r: Ref, c: Column, text: string)
    requires r in after.rows
  {
    c in after.rows[r].cells && after.rows[r].cells[c] == Text(text)
  }

  ghost predicate TakesText(db: Database, after: Database, r: Ref, c: Column, seen: Option<string>)
    requires r in after.rows
  {
    if seen.Some? then HoldsText(after, r, c, seen.value) else KeepsCell(db, after, r, c)
  }

  ghost predicate TakesNumber(db: Database, after: Database, r: Ref, c: Column, seen: Option<int>)
    requires r in after.rows
  {
    if seen.Some? then c in after.rows[r].cells && after.rows[r].cells[c] == Number(seen.value)
    else KeepsCell(db, after, r, c)
  }

  // ---- What the store's invariant means in fields --------------------------------------------

  /** Two rows never share a hostname, a service, an owned port or file, a dependency or an interface. */
  lemma UniqueInFields(db: Database, r: Ref, s: Ref)
    requires Sound(db) && r in db.rows && s in db.rows && r != s
    ensures match (db.rows[r].key, db.rows[s].key)
      case (NodeKey(h), NodeKey(h')) => h != h'
      case (ServiceKey(n, k, d, p), ServiceKey(n', k', d', p')) =>
        n != n' || k != k' || d != d' || (if p.Some? then p.value else "") != (if p'.Some? then p'.value else "")
      case (PortKey(o, p, t), PortKey(o', p', t')) => o.None? || o != o' || p != p' || t != t'
      case (ConfigKey(o, p), ConfigKey(o', p')) => o.None? || o != o' || p != p'
      case (DependencyKey(x, y, t), DependencyKey(x', y', t')) => x != x' || y != y' || t != t'
      case (InterfaceKey(h, n), InterfaceKey(h', n')) => h != h' || n != n'
      case _ => true
  {
    assert !Matches(db.rows[r].key, db.rows[s].key);
    hide Sound;
  }

  /** Every foreign key points at a live row. */
  lemma ParentsInFields(db: Database, r: Ref)
    requires Sound(db) && r in db.rows
    ensures match db.rows[r].key
      case NodeKey(_) => true
      case ServiceKey(_, _, node, _) => node.Some? ==> Ref(Nodes, node.value) in db.rows
      case PortKey(owner, _, _) => owner.Some? ==> Ref(Services, owner.value) in db.rows
      case ConfigKey(owner, _) => owner.Some? ==> Ref(Services, owner.value) in db.rows
      case DependencyKey(x, y, _) => Ref(Services, x) in db.rows && Ref(Services, y) in db.rows
      case InterfaceKey(host, _) => Ref(Nodes, host) in db.rows
  {
    assert ParentsLive(db, db.rows[r].key);
    hide Sound;
  }

  // ---- One log entry ---------------------------------------------------------------------

  /** The old value as the log stores it: its text, or NULL. */
  function OldText(was: Cells, c: Column): Option<string> {
    if c !in was then None
    else
      match was[c]
      case Text(t) => Some(t)
      case Number(n) => Some(Decimal(n))
  }

  /** An entry if something was observed and its text differs from str() of the stored value. */
  function TextEntry(r: Ref, was: Cells, c: Column, seen: Option<string>): seq<Change> {
    if seen.None? || seen.value == (if OldText(was, c).Some? then OldText(was, c).value else "None") then []
    else [Change(r, Modified(c, OldText(was, c), seen.value))]
  }

  function NumberEntry(r: Ref, was: Cells, c: Column, seen: Option<int>): seq<Change> {
    TextEntry(r, was, c, if seen.Some? then Some(Decimal(seen.value)) else None)
  }

  /** An entry if something was observed and it is not the stored value. */
  function ValueEntry(r: Ref, was: Cells, c: Column, seen: Option<string>): seq<Change> {
    if seen.None? || OldText(was, c) == seen then []
    else [Change(r, Modified(c, OldText(was, c), seen.value))]
  }

  // ---- Where the entity lands ------------------------------------------------------------

  /** All rows but `r` are as they were. */
  ghost predicate OnlyRow(db: Database, after: Database, r: Ref) {
    && r in after.rows
    && (forall s :: s in db.rows && s != r ==> s in after.rows && after.rows[s] == db.rows[s])
    && (forall s :: s in after.rows && s != r ==> s in db.rows)
  }

  ghost predicate Updates(db: Database, after: Database, r: Ref, entries: seq<Change>) {
    OnlyRow(db, after, r) && r in db.rows && after.next == db.next && after.log == db.log + entries
  }

  /** A new row under the table's next id, with its key, logged as added. */
  ghost predicate Inserts(db: Database, after: Database, r: Ref, key: Key) {
    && OnlyRow(db, after, r) && r !in db.rows && after.rows[r].key == key
    && r.id == (if r.table in db.next then db.next[r.table] else 1)
    && after.next == db.next[r.table := r.id + 1]
    && after.log == db.log + [Change(r, Added)]
  }

  // ---- The six upserts -------------------------------------------------------------------

  ghost predicate NodeUpserted(db: Database, after: Database, id: int, n: Node) {
    var r, key := Ref(Nodes, id), NodeKey(n.hostname);
    && r in after.rows && after.rows[r].key == key && after.rows[r].stamp == n.lastSeen
    && TakesText(db, after, r, Ip, n.ip) && TakesText(db, after, r, Role, n.role)
    && TakesText(db, after, r, OsVersion, n.osVersion)
    && TakesNumber(db, after, r, RamTotalMb, n.ramTotalMb) && TakesNumber(db, after, r, CpuCores, n.cpuCores)
    && if exists s :: s in db.rows && db.rows[s].key == key then
         r in db.rows
         && var was := db.rows[r].cells;
         Updates(db, after, r,
           TextEntry(r, was, Ip, n.ip) + TextEntry(r, was, Role, n.role) + TextEntry(r, was, OsVersion, n.osVersion)
           + NumberEntry(r, was, RamTotalMb, n.ramTotalMb) + NumberEntry(r, was, CpuCores, n.cpuCores))
       else Inserts(db, after, r, key)
  }

  /** Equal names, types and nodes; a NULL namespace is an empty one. */
  predicate IsService(key: Key, s: Service) {
    && key.ServiceKey? && key.name == s.name && key.kind == s.kind && key.node == s.nodeId
    && (if key.namespace.Some? then key.namespace.value else "")
       == (if s.namespace.Some? then s.namespace.value else "")
  }

  ghost predicate ServiceRefused(db: Database, s: Service) {
    && s.nodeId.Some? && Ref(Nodes, s.nodeId.value) !in db.rows
    && forall r :: r in db.rows ==> !IsService(db.rows[r].key, s)
  }

  ghost predicate ServiceUpserted(db: Database, after: Database, id: int, s: Service) {
    var r := Ref(Services, id);
    && r in after.rows && IsService(after.rows[r].key, s) && after.rows[r].stamp == s.lastSeen
    && TakesText(db, after, r, Status, s.status) && TakesNumber(db, after, r, Pid, s.pid)
    && TakesText(db, after, r, Image, s.image)
    && if exists t :: t in db.rows && IsService(db.rows[t].key, s) then
         r in db.rows
         && var was := db.rows[r].cells;
         after.rows[r].key == db.rows[r].key
         && Updates(db, after, r,
              TextEntry(r, was, Status, s.status) + NumberEntry(r, was, Pid, s.pid) + TextEntry(r, was, Image, s.image))
       else Inserts(db, after, r, ServiceKey(s.name, s.kind, s.nodeId, s.namespace))
  }

  ghost predicate OwnerMissing(db: Database, service: Option<int>) {
    service.Some? && Ref(Services, service.value) !in db.rows
  }

  /** The row a port or config file with an owner is looked up by; without one there is none. */
  ghost predicate HasOwned(db: Database, service: Option<int>, key: Key) {
    service.Some? && exists r :: r in db.rows && db.rows[r].key == key
  }

  ghost predicate PortUpserted(db: Database, after: Database, id: int, p: Port) {
    var r, key := Ref(Ports, id), PortKey(p.serviceId, p.port, p.protocol);
    && r in after.rows && after.rows[r].key == key
    && HoldsText(after, r, BindAddress, p.bindAddress) && HoldsText(after, r, State, p.state)
    && if HasOwned(db, p.serviceId, key) then
         r in db.rows && Updates(db, after, r, ValueEntry(r, db.rows[r].cells, State, Some(p.state)))
       else Inserts(db, after, r, key)
  }

  ghost predicate ConfigUpserted(db: Database, after: Database, id: int, f: ConfigFile) {
    var r, key := Ref(ConfigFiles, id), ConfigKey(f.serviceId, f.path);
    && r in after.rows && after.rows[r].key == key && after.rows[r].stamp == f.lastScanned
    && TakesText(db, after, r, HashSha256, f.hash) && TakesText(db, after, r, LastModified, f.lastModified)
    && if HasOwned(db, f.serviceId, key) then
         r in db.rows && Updates(db, after, r, ValueEntry(r, db.rows[r].cells, HashSha256, f.hash))
       else Inserts(db, after, r, key)
  }

  ghost predicate DependencyRefused(db: Database, d: Dependency) {
    && (Ref(Services, d.source) !in db.rows || Ref(Services, d.target) !in db.rows)
    && forall r :: r in db.rows ==> db.rows[r].key != DependencyKey(d.source, d.target, d.depType)
  }

  ghost predicate DependencyAdded(db: Database, after: Database, id: int, d: Dependency) {
    var r, key := Ref(Dependencies, id), DependencyKey(d.source, d.target, d.depType);
    && r in after.rows && after.rows[r].key == key
    && if exists s :: s in db.rows && db.rows[s].key == key then after == db
       else Inserts(db, after, r, key) && TakesText(db, after, r, Detail, d.detail)
  }

  ghost predicate InterfaceRefused(db: Database, i: NetworkInterface) {
    && Ref(Nodes, i.nodeId) !in db.rows
    && forall r :: r in db.rows ==> db.rows[r].key != InterfaceKey(i.nodeId, i.name)
  }

  ghost predicate InterfaceUpserted(db: Database, after: Database, id: int, i: NetworkInterface) {
    var r, key := Ref(Interfaces, id), InterfaceKey(i.nodeId, i.name);
    && r in after.rows && after.rows[r].key == key
    && TakesText(db, after, r, Ip, i.ip) && TakesText(db, after, r, Subnet, i.subnet)
    && TakesText(db, after, r, Mac, i.mac) && HoldsText(after, r, State, i.state)
    && if exists s :: s in db.rows && db.rows[s].key == key then
         r in db.rows
         && var was := db.rows[r].cells;
         Updates(db, after, r,
           TextEntry(r, was, Ip, i.ip) + TextEntry(r, was, Subnet, i.subnet) + TextEntry(r, was, Mac, i.mac)
           + TextEntry(r, was, State, Some(i.state)))
       else Inserts(db, after, r, key)
  }

  // ---- The generic call does just that ---------------------------------------------------

  /** The observed cells hold this text for the column, or nothing. */
  predicate SeesText(seen: Cells, c: Column, text: Option<string>) {
    (c in seen <==> text.Some?) && (c in seen ==> seen[c] == Text(text.value))
  }

  predicate SeesNumber(seen: Cells, c: Column, number: Option<int>) {
    (c in seen <==> number.Some?) && (c in seen ==> seen[c] == Number(number.value))
  }

  lemma TextIsTaken(db: Database, after: Database, r: Ref, c: Column, seen: Cells, text: Option<string>)
    requires r in after.rows && SeesText(seen, c, text)
    requires after.rows[r].cells == if r in db.rows then db.rows[r].cells + seen else seen
    ensures TakesText(db, after, r, c, text)
  {
  }

  lemma NumberIsTaken(db: Database, after: Database, r: Ref, c: Column, seen: Cells, number: Option<int>)
    requires r in after.rows && SeesNumber(seen, c, number)
    requires after.rows[r].cells == if r in db.rows then db.rows[r].cells + seen else seen
    ensures TakesNumber(db, after, r, c, number)
  {
  }

  lemma TextIsLogged(r: Ref, was: Cells, c: Column, seen: Cells, text: Option<string>)
    requires SeesText(seen, c, text) && r.table != Ports && r.table != ConfigFiles
    ensures EntryFor(r, c, was, seen) == TextEntry(r, was, c, text)
  {
  }

  lemma NumberIsLogged(r: Ref, was: Cells, c: Column, seen: Cells, number: Option<int>)
    requires SeesNumber(seen, c, number) && r.table != Ports && r.table != ConfigFiles
    ensures EntryFor(r, c, was, seen) == NumberEntry(r, was, c, number)
  {
    hide Decimal;
  }

  lemma ValueIsLogged(r: Ref, was: Cells, c: Column, seen: Cells, text: Option<string>)
    requires SeesText(seen, c, text) && (r.table == Ports || r.table == ConfigFiles)
    requires c in was ==> was[c].Text?
    ensures EntryFor(r, c, was, seen) == ValueEntry(r, was, c, text)
  {
  }

  lemma EntriesGrow(r: Ref, columns: seq<Column>, c: Column, was: Cells, seen: Cells)
    ensures ModifiedEntries(r, columns + [c], was, seen)
      == ModifiedEntries(r, columns, was, seen) + EntryFor(r, c, was, seen)
  {
    assert (columns + [c])[..|columns|] == columns;
  }

  lemma EntriesOfOne(r: Ref, c: Column, was: Cells, seen: Cells)
    ensures ModifiedEntries(r, [c], was, seen) == EntryFor(r, c, was, seen)
  {
    EntriesGrow(r, [], c, was, seen);
    assert [] + [c] == [c];
    hide ModifiedEntries, EntryFor;
    assert ModifiedEntries(r, [], was, seen) == [] by { EntriesOfNone(r, was, seen); }
  }

  lemma EntriesOfNone(r: Ref, was: Cells, seen: Cells)
    ensures ModifiedEntries(r, [], was, seen) == []
  {
  }

  lemma EntriesOfTwo(r: Ref, a: Column, b: Column, was: Cells, seen: Cells)
    ensures ModifiedEntries(r, [a, b], was, seen) == EntryFor(r, a, was, seen) + EntryFor(r, b, was, seen)
  {
    hide ModifiedEntries, EntryFor;
    EntriesOfOne(r, a, was, seen);
    EntriesGrow(r, [a], b, was, seen);
    assert [a] + [b] == [a, b];
  }

  lemma EntriesOfThree(r: Ref, a: Column, b: Column, c: Column, was: Cells, seen: Cells)
    ensures ModifiedEntries(r, [a, b, c], was, seen)
      == EntryFor(r, a, was, seen) + EntryFor(r, b, was, seen) + EntryFor(r, c, was, seen)
  {
    hide ModifiedEntries, EntryFor;
    EntriesOfTwo(r, a, b, was, seen);
    EntriesGrow(r, [a, b], c, was, seen);
    assert [a, b] + [c] == [a, b, c];
  }

  lemma EntriesOfFour(r: Ref, a: Column, b: Column, c: Column, d: Column, was: Cells, seen: Cells)
    ensures ModifiedEntries(r, [a, b, c, d], was, seen)
      == EntryFor(r, a, was, seen) + EntryFor(r, b, was, seen) + EntryFor(r, c, was, seen) + EntryFor(r, d, was, seen)
  {
    hide ModifiedEntries, EntryFor;
    EntriesOfThree(r, a, b, c, was, seen);
    EntriesGrow(r, [a, b, c], d, was, seen);
    assert [a, b, c] + [d] == [a, b, c, d];
  }

  /** How an accepted upsert of a row with cells ends, whether the row is old or new. */
  ghost predicate Lands(db: Database, after: Database, r: Ref, key: Key, seen: Cells, stamp: string) {
    && r in after.rows && OnlyRow(db, after, r) && after.rows[r].stamp == stamp
    && after.rows[r].cells == (if r in db.rows then db.rows[r].cells + seen else seen)
    && if Has(db, key) then
         && r in db.rows && Matches(db.rows[r].key, key) && after.rows[r].key == db.rows[r].key
         && Updates(db, after, r, ModifiedEntries(r, LoggedColumns(r.table), db.rows[r].cells, seen))
       else Inserts(db, after, r, key)
  }

  lemma UpdateLands(db: Database, r: Ref, key: Key, seen: Cells, stamp: string)
    requires Has(db, key) && r in db.rows && Matches(db.rows[r].key, key) && r.table != Dependencies
    ensures Lands(db, UpdateRow(db, r, seen, stamp), r, key, seen, stamp)
  {
    hide Has, Matches, ModifiedEntries, LoggedColumns;
  }

  lemma InsertLands(db: Database, r: Ref, key: Key, seen: Cells, stamp: string)
    requires !Has(db, key) && r !in db.rows && r.id == NextId(db, r.table)
    ensures Lands(db, InsertRow(db, r, Row(key, seen, stamp)), r, key, seen, stamp)
  {
    hide Has, Matches, ModifiedEntries, LoggedColumns;
  }

  lemma UpsertLands(db: Database, key: Key, seen: Cells, stamp: string)
    requires Sound(db) && Accepts(db, key) && TableOf(key) != Dependencies
    ensures Target(db, key).table == TableOf(key)
    ensures Lands(db, Apply(db, Upsert(key, seen, stamp)), Target(db, key), key, seen, stamp)
  {
    hide Sound, Matches, TableOf, Apply, Accepts, Target, Has, UpdateRow, InsertRow, Lands, ParentsLive, NextId;
    UpsertDoes(db, key, seen, stamp);
    if Has(db, key) {
      LookupTable(db, key);
      UpdateLands(db, Target(db, key), key, seen, stamp);
    } else {
      NextIsNew(db, TableOf(key));
      InsertLands(db, Target(db, key), key, seen, stamp);
    }
  }

  lemma NextIsNew(db: Database, table: Table)
    requires Sound(db)
    ensures Ref(table, NextId(db, table)) !in db.rows
  {
  }

  lemma SeesNode(n: Node)
    ensures NodeOp(n).Upsert? && var seen := NodeOp(n).cells;
      && SeesText(seen, Ip, n.ip) && SeesText(seen, Role, n.role) && SeesText(seen, OsVersion, n.osVersion)
      && SeesNumber(seen, RamTotalMb, n.ramTotalMb) && SeesNumber(seen, CpuCores, n.cpuCores)
  {
  }

  lemma NodeEntries(r: Ref, was: Cells, n: Node)
    requires r.table == Nodes
    ensures ModifiedEntries(r, LoggedColumns(Nodes), was, NodeOp(n).cells)
      == TextEntry(r, was, Ip, n.ip) + TextEntry(r, was, Role, n.role) + TextEntry(r, was, OsVersion, n.osVersion)
         + NumberEntry(r, was, RamTotalMb, n.ramTotalMb) + NumberEntry(r, was, CpuCores, n.cpuCores)
  {
    SeesNode(n);
    hide SeesText, SeesNumber, NodeOp, EntryFor, TextEntry, NumberEntry;
    var seen := NodeOp(n).cells;
    TextIsLogged(r, was, Ip, seen, n.ip);
    TextIsLogged(r, was, Role, seen, n.role);
    TextIsLogged(r, was, OsVersion, seen, n.osVersion);
    NumberIsLogged(r, was, RamTotalMb, seen, n.ramTotalMb);
    NumberIsLogged(r, was, CpuCores, seen, n.cpuCores);
    hide ModifiedEntries;
    EntriesOfFour(r, Ip, Role, OsVersion, RamTotalMb, was, seen);
    EntriesGrow(r, [Ip, Role, OsVersion, RamTotalMb], CpuCores, was, seen);
    assert LoggedColumns(Nodes) == [Ip, Role, OsVersion, RamTotalMb] + [CpuCores];
  }

  lemma NodeUpsert(db: Database, n: Node)
    requires Sound(db)
    ensures var op := NodeOp(n);
      Target(db, op.key).table == Nodes && NodeUpserted(db, Apply(db, op), Target(db, op.key).id, n)
  {
    var op := NodeOp(n);
    var after, r := Apply(db, op), Target(db, op.key);
    assert forall key :: Matches(key, op.key) <==> key == op.key;
    UpsertLands(db, op.key, op.cells, op.stamp);
    TextIsTaken(db, after, r, Ip, op.cells, n.ip);
    TextIsTaken(db, after, r, Role, op.cells, n.role);
    TextIsTaken(db, after, r, OsVersion, op.cells, n.osVersion);
    NumberIsTaken(db, after, r, RamTotalMb, op.cells, n.ramTotalMb);
    NumberIsTaken(db, after, r, CpuCores, op.cells, n.cpuCores);
    if r in db.rows {
      NodeEntries(r, db.rows[r].cells, n);
    }
    hide Sound, Apply, Target, TakesText, TakesNumber, ModifiedEntries, TextEntry, NumberEntry, LoggedColumns;
  }

  lemma ServiceEntries(r: Ref, was: Cells, s: Service)
    requires r.table == Services
    ensures ModifiedEntries(r, LoggedColumns(Services), was, ServiceOp(s).cells)
      == TextEntry(r, was, Status, s.status) + NumberEntry(r, was, Pid, s.pid) + TextEntry(r, was, Image, s.image)
  {
    SeesService(s);
    hide SeesText, SeesNumber, ServiceOp, EntryFor, TextEntry, NumberEntry;
    var seen := ServiceOp(s).cells;
    TextIsLogged(r, was, Status, seen, s.status);
    NumberIsLogged(r, was, Pid, seen, s.pid);
    TextIsLogged(r, was, Image, seen, s.image);
    hide ModifiedEntries;
    EntriesOfThree(r, Status, Pid, Image, was, seen);
  }

  lemma ServiceLookup(db: Database, s: Service)
    ensures var key := ServiceOp(s).key;
      && (forall r :: r in db.rows ==> (Matches(db.rows[r].key, key) <==> IsService(db.rows[r].key, s)))
      && (Has(db, key) <==> exists t :: t in db.rows && IsService(db.rows[t].key, s))
      && (Accepts(db, key) <==> !ServiceRefused(db, s))
      && key == ServiceKey(s.name, s.kind, s.nodeId, s.namespace)
  {
    assert forall key :: Matches(key, ServiceOp(s).key) <==> IsService(key, s);
    hide Matches, IsService;
  }

  lemma ServiceUpsert(db: Database, s: Service)
    requires Sound(db) && !ServiceRefused(db, s)
    ensures var op := ServiceOp(s);
      && Accepts(db, op.key) && Target(db, op.key).table == Services
      && ServiceUpserted(db, Apply(db, op), Target(db, op.key).id, s)
  {
    var op := ServiceOp(s);
    var after, r := Apply(db, op), Target(db, op.key);
    SeesService(s);
    hide Sound, Apply, Target, Accepts, Has, Matches, IsService, ServiceRefused, ServiceOp, ModifiedEntries;
    hide TakesText, TakesNumber, TextEntry, NumberEntry, SeesText, SeesNumber, LoggedColumns;
    ServiceLookup(db, s);
    UpsertLands(db, op.key, op.cells, op.stamp);
    TextIsTaken(db, after, r, Status, op.cells, s.status);
    NumberIsTaken(db, after, r, Pid, op.cells, s.pid);
    TextIsTaken(db, after, r, Image, op.cells, s.image);
    if Has(db, op.key) {
      ServiceEntries(r, db.rows[r].cells, s);
    } else {
      IsItself(s);
    }
  }

  lemma IsItself(s: Service)
    ensures IsService(ServiceKey(s.name, s.kind, s.nodeId, s.namespace), s)
  {
  }

  lemma SeesService(s: Service)
    ensures var op := ServiceOp(s);
      && op.Upsert? && TableOf(op.key) == Services && op.stamp == s.lastSeen
      && SeesText(op.cells, Status, s.status) && SeesNumber(op.cells, Pid, s.pid)
      && SeesText(op.cells, Image, s.image)
  {
  }

  lemma StoredPortState(db: Database, r: Ref)
    requires Sound(db) && r in db.rows
    ensures forall c :: c in db.rows[r].cells && !IsNumeric(c) ==> db.rows[r].cells[c].Text?
  {
  }

  lemma OwnedHasOwner(db: Database, service: Option<int>, key: Key)
    requires Sound(db) && (key.PortKey? || key.ConfigKey?) && key.owner == service
    ensures HasOwned(db, service, key) ==> !OwnerMissing(db, service)
  {
    if HasOwned(db, service, key) {
      var r :| r in db.rows && db.rows[r].key == key;
      assert ParentsLive(db, db.rows[r].key);
    }
  }

  lemma PortLookup(db: Database, p: Port)
    ensures var key := PortKey(p.serviceId, p.port, p.protocol);
      && PortOp(p).Upsert? && PortOp(p).key == key
      && (forall r :: r in db.rows && Matches(db.rows[r].key, key) ==> db.rows[r].key == key)
      && (Has(db, key) <==> HasOwned(db, p.serviceId, key))
      && (Accepts(db, key) <==> !OwnerMissing(db, p.serviceId) || HasOwned(db, p.serviceId, key))
  {
    assert forall key :: Matches(key, PortOp(p).key) <==> p.serviceId.Some? && key == PortOp(p).key;
    hide Matches;
  }

  lemma PortUpsert(db: Database, p: Port)
    requires Sound(db)
    ensures var op := PortOp(p);
      && (Accepts(db, op.key) <==> !OwnerMissing(db, p.serviceId))
      && (Accepts(db, op.key) ==>
            Target(db, op.key).table == Ports && PortUpserted(db, Apply(db, op), Target(db, op.key).id, p))
  {
    var op := PortOp(p);
    hide Sound, Apply, Target, Accepts, Has, HasOwned, Matches, OwnerMissing, ModifiedEntries, ValueEntry, EntryFor;
    PortLookup(db, p);
    OwnedHasOwner(db, p.serviceId, op.key);
    if Accepts(db, op.key) {
      var r := Target(db, op.key);
      UpsertLands(db, op.key, op.cells, op.stamp);
      if Has(db, op.key) {
        StoredPortState(db, r);
        ValueIsLogged(r, db.rows[r].cells, State, op.cells, Some(p.state));
        EntriesOfOne(r, State, db.rows[r].cells, op.cells);
      }
    }
  }

  lemma ConfigLookup(db: Database, f: ConfigFile)
    ensures var key := ConfigKey(f.serviceId, f.path);
      && ConfigOp(f).Upsert? && ConfigOp(f).key == key && ConfigOp(f).stamp == f.lastScanned
      && SeesText(ConfigOp(f).cells, HashSha256, f.hash) && SeesText(ConfigOp(f).cells, LastModified, f.lastModified)
      && (forall r :: r in db.rows && Matches(db.rows[r].key, key) ==> db.rows[r].key == key)
      && (Has(db, key) <==> HasOwned(db, f.serviceId, key))
      && (Accepts(db, key) <==> !OwnerMissing(db, f.serviceId) || HasOwned(db, f.serviceId, key))
  {
    assert forall key :: Matches(key, ConfigOp(f).key) <==> f.serviceId.Some? && key == ConfigOp(f).key;
    hide Matches;
  }

  lemma ConfigUpsert(db: Database, f: ConfigFile)
    requires Sound(db)
    ensures var op := ConfigOp(f);
      && (Accepts(db, op.key) <==> !OwnerMissing(db, f.serviceId))
      && (Accepts(db, op.key) ==>
            Target(db, op.key).table == ConfigFiles && ConfigUpserted(db, Apply(db, op), Target(db, op.key).id, f))
  {
    var op := ConfigOp(f);
    hide Sound, Apply, Target, Accepts, Has, HasOwned, Matches, OwnerMissing, ModifiedEntries, ValueEntry, EntryFor;
    hide TakesText, SeesText, ConfigOp;
    ConfigLookup(db, f);
    OwnedHasOwner(db, f.serviceId, op.key);
    if Accepts(db, op.key) {
      var after, r := Apply(db, op), Target(db, op.key);
      UpsertLands(db, op.key, op.cells, op.stamp);
      TextIsTaken(db, after, r, HashSha256, op.cells, f.hash);
      TextIsTaken(db, after, r, LastModified, op.cells, f.lastModified);
      if Has(db, op.key) {
        StoredPortState(db, r);
        ValueIsLogged(r, db.rows[r].cells, HashSha256, op.cells, f.hash);
        EntriesOfOne(r, HashSha256, db.rows[r].cells, op.cells);
      }
    }
  }

  lemma DependencyLookup(db: Database, d: Dependency)
    ensures var key := DependencyKey(d.source, d.target, d.depType);
      && DependencyOp(d).Upsert? && DependencyOp(d).key == key && SeesText(DependencyOp(d).cells, Detail, d.detail)
      && (forall r :: r in db.rows ==> (Matches(db.rows[r].key, key) <==> db.rows[r].key == key))
      && (Has(db, key) <==> exists s :: s in db.rows && db.rows[s].key == key)
      && (Accepts(db, key) <==> !DependencyRefused(db, d))
  {
    assert forall key :: Matches(key, DependencyOp(d).key) <==> key == DependencyOp(d).key;
    hide Matches;
  }

  lemma DependencyUpsert(db: Database, d: Dependency)
    requires Sound(db) && !DependencyRefused(db, d)
    ensures var op := DependencyOp(d);
      && Accepts(db, op.key) && Target(db, op.key).table == Dependencies
      && DependencyAdded(db, Apply(db, op), Target(db, op.key).id, d)
  {
    var op := DependencyOp(d);
    var after, r := Apply(db, op), Target(db, op.key);
    hide Sound, Apply, Target, Accepts, Has, Matches, DependencyRefused, DependencyOp, SeesText, TakesText;
    hide UpdateRow, InsertRow, ParentsLive, OnlyRow, Inserts, NextId, ModifiedEntries, LoggedColumns;
    DependencyLookup(db, d);
    UpsertDoes(db, op.key, op.cells, op.stamp);
    if Has(db, op.key) {
      LookupTable(db, op.key);
      DependencyStays(db, r, op.cells, op.stamp);
    } else {
      NextIsNew(db, Dependencies);
      InsertLands(db, r, op.key, op.cells, op.stamp);
      TextIsTaken(db, after, r, Detail, op.cells, d.detail);
    }
  }

  lemma DependencyStays(db: Database, r: Ref, cells: Cells, stamp: string)
    requires r in db.rows && r.table == Dependencies
    ensures UpdateRow(db, r, cells, stamp) == db
  {
    EntriesOfNone(r, db.rows[r].cells, cells);
    assert db.log + [] == db.log;
    assert db.rows[r := db.rows[r]] == db.rows;
  }

  lemma InterfaceEntries(r: Ref, was: Cells, i: NetworkInterface)
    requires r.table == Interfaces
    ensures ModifiedEntries(r, LoggedColumns(Interfaces), was, InterfaceOp(i).cells)
      == TextEntry(r, was, Ip, i.ip) + TextEntry(r, was, Subnet, i.subnet) + TextEntry(r, was, Mac, i.mac)
         + TextEntry(r, was, State, Some(i.state))
  {
    SeesInterface(i);
    hide SeesText, SeesNumber, InterfaceOp, EntryFor, TextEntry, NumberEntry;
    var seen := InterfaceOp(i).cells;
    TextIsLogged(r, was, Ip, seen, i.ip);
    TextIsLogged(r, was, Subnet, seen, i.subnet);
    TextIsLogged(r, was, Mac, seen, i.mac);
    TextIsLogged(r, was, State, seen, Some(i.state));
    hide ModifiedEntries;
    EntriesOfFour(r, Ip, Subnet, Mac, State, was, seen);
  }

  lemma SeesInterface(i: NetworkInterface)
    ensures InterfaceOp(i).Upsert? && var seen := InterfaceOp(i).cells;
      && SeesText(seen, Ip, i.ip) && SeesText(seen, Subnet, i.subnet) && SeesText(seen, Mac, i.mac)
      && SeesText(seen, State, Some(i.state))
  {
  }

  lemma InterfaceLookup(db: Database, i: NetworkInterface)
    ensures var key := InterfaceKey(i.nodeId, i.name);
      && InterfaceOp(i).Upsert? && InterfaceOp(i).key == key
      && (forall r :: r in db.rows ==> (Matches(db.rows[r].key, key) <==> db.rows[r].key == key))
      && (Has(db, key) <==> exists s :: s in db.rows && db.rows[s].key == key)
      && (Accepts(db, key) <==> !InterfaceRefused(db, i))
  {
    assert forall key :: Matches(key, InterfaceKey(i.nodeId, i.name)) <==> key == InterfaceKey(i.nodeId, i.name);
    assert InterfaceOp(i).Upsert? && InterfaceOp(i).key == InterfaceKey(i.nodeId, i.name);
    hide Matches, InterfaceOp;
  }

  lemma InterfaceUpsert(db: Database, i: NetworkInterface)
    requires Sound(db) && !InterfaceRefused(db, i)
    ensures var op := InterfaceOp(i);
      && Accepts(db, op.key) && Target(db, op.key).table == Interfaces
      && InterfaceUpserted(db, Apply(db, op), Target(db, op.key).id, i)
  {
    var op := InterfaceOp(i);
    var after, r := Apply(db, op), Target(db, op.key);
    hide Sound, Apply, Target, Accepts, Has, Matches, InterfaceRefused, InterfaceOp, SeesText, TakesText;
    hide ModifiedEntries, TextEntry, LoggedColumns;
    InterfaceLookup(db, i);
    SeesInterface(i);
    UpsertLands(db, op.key, op.cells, op.stamp);
    TextIsTaken(db, after, r, Ip, op.cells, i.ip);
    TextIsTaken(db, after, r, Subnet, op.cells, i.subnet);
    TextIsTaken(db, after, r, Mac, op.cells, i.mac);
    StateIsTaken(db, after, r, op.cells, i);
    if Has(db, op.key) {
      InterfaceEntries(r, db.rows[r].cells, i);
    }
  }

  lemma StateIsTaken(db: Database, after: Database, r: Ref, seen: Cells, i: NetworkInterface)
    requires r in after.rows && SeesText(seen, State, Some(i.state))
    requires after.rows[r].cells == if r in db.rows then db.rows[r].cells + seen else seen
    ensures HoldsText(after, r, State, i.state)
  {
  }
}
