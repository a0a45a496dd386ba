/** DNAStore: the tables and the change log as fields, each call proved against StoreSpec. */
module DnaStore {
  import opened Options
  import opened Schema
  import opened StoreSpec
  import opened Models
  import opened Reachability
  import opened UpsertEffects

  // ---- Specification of the whole-table calls --------------------------------------------

  /** The dependency graph the dependency rows describe. */
  ghost function Edges(db: Database): Graph {
    set r | r in db.rows && db.rows[r].key.DependencyKey? :: (db.rows[r].key.source, db.rows[r].key.target)
  }

  /** The services that depend on some service. */
  ghost function SourceIds(db: Database): set<int> {
    set e | e in Edges(db) :: e.0
  }

  ghost function DependencyRows(db: Database): set<Ref> {
    set r | r in db.rows && db.rows[r].key.DependencyKey?
  }

  ghost predicate HasDependency(db: Database, source: int, target: int) {
    exists r :: r in db.rows && db.rows[r].key.DependencyKey?
      && db.rows[r].key.source == source && db.rows[r].key.target == target
  }

  /** Dependency rows lead from `x` to `target`, each from a service to one it depends on. */
  ghost predicate RowChain(db: Database, p: seq<int>, x: int, target: int) {
    && |p| >= 2 && p[0] == x && p[|p| - 1] == target
    && forall i :: 0 <= i < |p| - 1 ==> HasDependency(db, p[i], p[i + 1])
  }

  lemma EdgesAreRows(db: Database, source: int, target: int)
    ensures (source, target) in Edges(db) <==> HasDependency(db, source, target)
  {
    if HasDependency(db, source, target) {
      var r :| r in db.rows && db.rows[r].key.DependencyKey?
        && db.rows[r].key.source == source && db.rows[r].key.target == target;
      assert (db.rows[r].key.source, db.rows[r].key.target) in Edges(db);
    }
  }

  lemma DependsByRows(db: Database, x: int, target: int)
    ensures DependsOn(Edges(db), x, target) <==> exists p :: RowChain(db, p, x, target)
  {
    hide Edges, HasDependency;
    forall s, t ensures (s, t) in Edges(db) <==> HasDependency(db, s, t) {
      EdgesAreRows(db, s, t);
    }
    if DependsOn(Edges(db), x, target) {
      var p: seq<int> :| |p| >= 2 && p[0] == x && p[|p| - 1] == target && IsPath(Edges(db), p);
      assert RowChain(db, p, x, target);
    }
    if p :| RowChain(db, p, x, target) {
      assert IsPath(Edges(db), p);
    }
  }

  predicate Distinct<T(==)>(xs: seq<T>) {
    forall i, j :: 0 <= i < j < |xs| ==> xs[i] != xs[j]
  }

  function Removals(ids: seq<int>): seq<Op> {
    if ids == [] then [] else Removals(ids[..|ids| - 1]) + [Remove(ids[|ids| - 1])]
  }

  function RemovalEntries(ids: seq<int>): seq<Change> {
    seq(|ids|, i requires 0 <= i < |ids| => Change(Ref(Services, ids[i]), Removed))
  }

  /** A row that neither is nor hangs off one of the services. */
  ghost predicate Kept(db: Database, ids: seq<int>, r: Ref) {
    r in db.rows && forall id :: id in ids ==> r != Ref(Services, id) && Ref(Services, id) !in Parents(db.rows[r].key)
  }

  /** The services and everything they own gone, each service logged once, in the order given. */
  ghost function Purged(db: Database, ids: seq<int>): Database {
    db.(rows := map r | r in db.rows && Kept(db, ids, r) :: db.rows[r], log := db.log + RemovalEntries(ids))
  }

  /** The rows that go with a service. */
  predicate BelongsTo(key: Key, service: int) {
    match key
    case PortKey(owner, _, _) => owner == Some(service)
    case ConfigKey(owner, _) => owner == Some(service)
    case DependencyKey(source, target, _) => source == service || target == service
    case _ => false
  }

  lemma ParentsOwn(key: Key, service: int)
    ensures Ref(Services, service) in Parents(key) <==> BelongsTo(key, service)
  {
  }

  lemma RemovalTakes(db: Database, id: int)
    ensures var after := RemoveService(db, id);
      && (forall r :: r in after.rows <==> r in db.rows && r != Ref(Services, id) && !BelongsTo(db.rows[r].key, id))
      && (forall r :: r in after.rows ==> after.rows[r] == db.rows[r])
  {
    forall r | r in db.rows ensures Ref(Services, id) in Parents(db.rows[r].key) <==> BelongsTo(db.rows[r].key, id) {
      ParentsOwn(db.rows[r].key, id);
    }
    hide Parents, BelongsTo;
  }

  /** What is left of the rows when some services have gone. */
  ghost predicate Survives(rows: map<Ref, Row>, removed: seq<int>, r: Ref) {
    r in rows && forall id :: id in removed ==> r != Ref(Services, id) && !BelongsTo(rows[r].key, id)
  }

  lemma PurgeTakes(db: Database, ids: seq<int>)
    ensures var after := Purged(db, ids);
      && (forall r :: r in after.rows <==> Survives(db.rows, ids, r))
      && (forall r :: r in after.rows ==> after.rows[r] == db.rows[r])
  {
    forall r, id | r in db.rows
      ensures Ref(Services, id) in Parents(db.rows[r].key) <==> BelongsTo(db.rows[r].key, id)
    {
      ParentsOwn(db.rows[r].key, id);
    }
    hide Parents, BelongsTo;
  }

  lemma PurgeStep(db: Database, ids: seq<int>, id: int)
    ensures RemoveService(Purged(db, ids), id) == Purged(db, ids + [id])
  {
    var a, b := RemoveService(Purged(db, ids), id), Purged(db, ids + [id]);
    assert forall i :: i in ids + [id] <==> i in ids || i == id;
    assert a.rows == b.rows;
    assert a.log == b.log;
  }

  /** Services own no services, so one that is to go is still there when its turn comes. */
  lemma StillThere(db: Database, ids: seq<int>, id: int)
    requires Sound(db) && Ref(Services, id) in db.rows && id !in ids
    ensures Kept(db, ids, Ref(Services, id))
  {
    assert ParentsLive(db, db.rows[Ref(Services, id)].key);
  }

  lemma RemovalsStep(db: Database, ids: seq<int>)
    requires ids != []
    ensures Run(db, Removals(ids)) == Apply(Run(db, Removals(ids[..|ids| - 1])), Remove(ids[|ids| - 1]))
  {
    assert Removals(ids)[..|Removals(ids)| - 1] == Removals(ids[..|ids| - 1]);
  }

  lemma PurgeNothing(db: Database)
    ensures Purged(db, []) == db
  {
    assert Purged(db, []).rows == db.rows && Purged(db, []).log == db.log;
  }

  /** Removing services one by one purges them, whatever the order. */
  lemma {:induction false} RemovalsPurge(db: Database, ids: seq<int>)
    requires Sound(db) && Distinct(ids)
    requires forall id :: id in ids ==> Ref(Services, id) in db.rows
    ensures Run(db, Removals(ids)) == Purged(db, ids)
  {
    hide Sound, Run, Removals;
    if ids == [] {
      RunEmpty(db);
      PurgeNothing(db);
    } else {
      var init, last := ids[..|ids| - 1], ids[|ids| - 1];
      RemovalsPurge(db, init);
      RemovalsStep(db, ids);
      assert last in ids && last !in init && ids == init + [last];
      StillThere(db, init, last);
      PurgeStep(db, init, last);
    }
  }

  lemma RunEmpty(db: Database)
    ensures Run(db, Removals([])) == db
  {
  }

  // ---- The store -------------------------------------------------------------------------

  class DNAStore {
    var rows: map<Ref, Row>
    var next: map<Table, int>
    var changesLog: seq<Change>

    ghost function Db(): Database
      reads this
    {
      Database(rows, next, changesLog)
    }

    ghost predicate Valid()
      reads this
    {
      Sound(Db())
    }

    constructor ()
      ensures Valid() && Db() == EMPTY
    {
      rows, next, changesLog := map[], map[], [];
    }

    method RecordChange(ref: Ref, kind: ChangeKind)
      modifies this`changesLog
      ensures changesLog == old(changesLog) + [Change(ref, kind)]
    {
      changesLog := changesLog + [Change(ref, kind)];
    }

    /** SELECT ... fetchone(): rows may come in any order, but at most one can match. */
    method Find(key: Key) returns (found: Option<Ref>)
      requires Valid()
      ensures found.Some? <==> Has(Db(), key)
      ensures found.Some? ==> found.value == Lookup(Db(), key)
    {
      var left := rows.Keys;
      while left != {}
        invariant left <= rows.Keys
        invariant forall r :: r in rows && r !in left ==> !Matches(rows[r].key, key)
      {
        var r :| r in left;
        if Matches(rows[r].key, key) {
          LookupIsUnique(Db(), key, r);
          return Some(r);
        }
        left := left - {r};
      }
      return None;
    }

    /** Logs the changed columns of a row in the order of LoggedColumns. */
    method LogModifications(r: Ref, cells: Cells, seen: Cells)
      modifies this`changesLog
      ensures changesLog == old(changesLog) + ModifiedEntries(r, LoggedColumns(r.table), cells, seen)
    {
      hide Differs, CellText, Str, Logged, ColumnsOf, LoggedColumns;
      var columns := LoggedColumns(r.table);
      for i := 0 to |columns|
        invariant changesLog == old(changesLog) + ModifiedEntries(r, columns[..i], cells, seen)
      {
        var c := columns[i];
        assert columns[..i + 1][..i] == columns[..i];
        if c in seen && Differs(r.table, cells, c, seen[c]) {
          RecordChange(r, Modified(c, CellText(cells, c), Str(seen[c])));
        }
      }
      assert columns[..|columns|] == columns;
    }

    /** UPDATE with COALESCE, after logging what changes. */
    method UpdateExisting(r: Ref, cells: Cells, stamp: string)
      requires r in rows
      modifies this
      ensures Db() == UpdateRow(old(Db()), r, cells, stamp)
    {
      LogModifications(r, rows[r].cells, cells);
      rows := rows[r := Merged(r.table, rows[r], cells, stamp)];
    }

    /** INSERT under the next id, logged as added. */
    method InsertNew(key: Key, cells: Cells, stamp: string) returns (r: Ref)
      modifies this
      ensures r == Ref(TableOf(key), NextId(old(Db()), TableOf(key)))
      ensures Db() == InsertRow(old(Db()), r, Row(key, cells, stamp))
    {
      r := Ref(TableOf(key), if TableOf(key) in next then next[TableOf(key)] else 1);
      rows := rows[r := Row(key, cells, stamp)];
      next := next[r.table := r.id + 1];
      RecordChange(r, Added);
    }

    /** Update the matching row or insert one; None is sqlite3.IntegrityError. */
    method UpsertRow(key: Key, cells: Cells, stamp: string) returns (id: Option<int>)
      requires Valid() && WellTyped(TableOf(key), cells)
      modifies this
      ensures Valid() && Db() == Apply(old(Db()), Op.Upsert(key, cells, stamp))
      ensures id.Some? <==> old(Accepts(Db(), key))
      ensures id.Some? ==> Ref(TableOf(key), id.value) == old(Target(Db(), key))
      ensures id.Some? ==>
        var r := Ref(TableOf(key), id.value); r in rows && TableOf(rows[r].key) == TableOf(key)
    {
      hide Sound, Matches, WellTyped, Has, Parents, TableOf, Apply, Accepts, Target, UpdateRow, InsertRow;
      ghost var before := Db();
      ApplyKeepsSound(before, Op.Upsert(key, cells, stamp));
      UpsertDoes(before, key, cells, stamp);
      var found := Find(key);
      if found.Some? {
        LookupTable(before, key);
        UpdateExisting(found.value, cells, stamp);
        KeepsRow(before, found.value, cells, stamp);
        RowIsFiled(Db(), found.value);
        return Some(found.value.id);
      }
      if !(Parents(key) <= rows.Keys) {
        return None;
      }
      var r := InsertNew(key, cells, stamp);
      HasNewRow(before, r, Row(key, cells, stamp));
      RowIsFiled(Db(), r);
      return Some(r.id);
    }

    method UpsertNode(node: Node) returns (id: Option<int>)
      requires Valid()
      modifies this
      ensures Valid() && Db() == Apply(old(Db()), NodeOp(node))
      ensures id.Some? && Ref(Nodes, id.value) == old(Target(Db(), NodeOp(node).key)) && Ref(Nodes, id.value) in rows
      ensures NodeUpserted(old(Db()), Db(), id.value, node)
    {
      hide Sound, NodeUpserted, Apply, Target, WellTyped;
      NodeUpsert(Db(), node);
      var op := NodeOp(node);
      id := UpsertRow(op.key, op.cells, op.stamp);
    }

    method UpsertService(service: Service) returns (id: Option<int>)
      requires Valid()
      modifies this
      ensures Valid() && Db() == Apply(old(Db()), ServiceOp(service))
      ensures id.Some? <==> old(Accepts(Db(), ServiceOp(service).key))
      ensures id.Some? ==>
        Ref(Services, id.value) == old(Target(Db(), ServiceOp(service).key)) && Ref(Services, id.value) in rows
      ensures id.None? <==> ServiceRefused(old(Db()), service)
      ensures id.Some? ==> ServiceUpserted(old(Db()), Db(), id.value, service)
    {
      hide Sound, ServiceUpserted, Apply, Target, Accepts, WellTyped, ServiceRefused;
      ServiceLookup(Db(), service);
      if !ServiceRefused(Db(), service) {
        ServiceUpsert(Db(), service);
      }
      var op := ServiceOp(service);
      id := UpsertRow(op.key, op.cells, op.stamp);
    }

    method UpsertPort(port: Port) returns (id: Option<int>)
      requires Valid()
      modifies this
      ensures Valid() && Db() == Apply(old(Db()), PortOp(port))
      ensures id.Some? <==> old(Accepts(Db(), PortOp(port).key))
      ensures id.Some? ==> Ref(Ports, id.value) == old(Target(Db(), PortOp(port).key))
      ensures id.None? <==> OwnerMissing(old(Db()), port.serviceId)
      ensures id.Some? ==> PortUpserted(old(Db()), Db(), id.value, port)
    {
      hide Sound, PortUpserted, Apply, Target, Accepts, WellTyped, OwnerMissing;
      PortUpsert(Db(), port);
      var op := PortOp(port);
      id := UpsertRow(op.key, op.cells, op.stamp);
    }

    method UpsertConfigFile(file: ConfigFile) returns (id: Option<int>)
      requires Valid()
      modifies this
      ensures Valid() && Db() == Apply(old(Db()), ConfigOp(file))
      ensures id.Some? <==> old(Accepts(Db(), ConfigOp(file).key))
      ensures id.Some? ==> Ref(ConfigFiles, id.value) == old(Target(Db(), ConfigOp(file).key))
      ensures id.None? <==> OwnerMissing(old(Db()), file.serviceId)
      ensures id.Some? ==> ConfigUpserted(old(Db()), Db(), id.value, file)
    {
      hide Sound, ConfigUpserted, Apply, Target, Accepts, WellTyped, OwnerMissing;
      ConfigUpsert(Db(), file);
      var op := ConfigOp(file);
      id := UpsertRow(op.key, op.cells, op.stamp);
    }

    method AddDependency(dep: Dependency) returns (id: Option<int>)
      requires Valid()
      modifies this
      ensures Valid() && Db() == Apply(old(Db()), DependencyOp(dep))
      ensures id.Some? <==> old(Accepts(Db(), DependencyOp(dep).key))
      ensures id.Some? ==> Ref(Dependencies, id.value) == old(Target(Db(), DependencyOp(dep).key))
      ensures id.None? <==> DependencyRefused(old(Db()), dep)
      ensures id.Some? ==> DependencyAdded(old(Db()), Db(), id.value, dep)
    {
      hide Sound, DependencyAdded, Apply, Target, Accepts, WellTyped, DependencyRefused;
      DependencyLookup(Db(), dep);
      if !DependencyRefused(Db(), dep) {
        DependencyUpsert(Db(), dep);
      }
      var op := DependencyOp(dep);
      id := UpsertRow(op.key, op.cells, op.stamp);
    }

    method UpsertNetworkInterface(iface: NetworkInterface) returns (id: Option<int>)
      requires Valid()
      modifies this
      ensures Valid() && Db() == Apply(old(Db()), InterfaceOp(iface))
      ensures id.Some? <==> old(Accepts(Db(), InterfaceOp(iface).key))
      ensures id.Some? ==> Ref(Interfaces, id.value) == old(Target(Db(), InterfaceOp(iface).key))
      ensures id.None? <==> InterfaceRefused(old(Db()), iface)
      ensures id.Some? ==> InterfaceUpserted(old(Db()), Db(), id.value, iface)
    {
      hide Sound, InterfaceUpserted, Apply, Target, Accepts, WellTyped, InterfaceRefused;
      InterfaceLookup(Db(), iface);
      if !InterfaceRefused(Db(), iface) {
        InterfaceUpsert(Db(), iface);
      }
      var op := InterfaceOp(iface);
      id := UpsertRow(op.key, op.cells, op.stamp);
    }

    /** No port row of the number that has an owner is older than `r`. */
    ghost predicate OldestOfNumber(r: Ref, number: int, owner: Option<int>)
      reads this
    {
      && r in rows && rows[r].key.PortKey? && rows[r].key.port == number && rows[r].key.owner == owner
      && forall s :: s in rows && rows[s].key.PortKey? && rows[s].key.port == number && rows[s].key.owner.Some? ==>
           r.id <= s.id
    }

    lemma OldestFound(number: int, r: Ref)
      requires Valid() && r in rows && IsOwned(rows[r].key, number)
      requires forall s :: s in rows && IsOwned(rows[s].key, number) ==> r.id <= s.id
      ensures PortOwner(Db(), number) == rows[r].key.owner && Ref(Services, rows[r].key.owner.value) in rows
      ensures OldestOfNumber(r, number, rows[r].key.owner)
    {
      assert ParentsLive(Db(), rows[r].key);
      hide PortOwner;
      OwnerIs(Db(), number, r);
    }

    /** The service that owns a port number, through the oldest owned port row. */
    method GetServiceByPort(number: int) returns (owner: Option<int>)
      requires Valid()
      ensures owner == PortOwner(Db(), number)
      ensures owner.Some? ==> Ref(Services, owner.value) in rows && exists r :: OldestOfNumber(r, number, owner)
      ensures owner.None? ==> forall r :: r in rows && rows[r].key.PortKey? && rows[r].key.port == number ==>
        rows[r].key.owner.None?
    {
      hide PortOwner, Sound, OwnsFirst, OldestOfNumber, Parents;
      var left := set r | r in rows && IsOwned(rows[r].key, number);
      ghost var all := left;
      var best: Option<Ref> := None;
      while left != {}
        invariant left <= all
        invariant best.None? ==> left == all
        invariant best.Some? ==> best.value in all && forall r :: r in all && r !in left ==> best.value.id <= r.id
      {
        var r :| r in left;
        if best.None? || r.id < best.value.id {
          best := Some(r);
        }
        left := left - {r};
      }
      if best.None? {
        assert forall r :: r in rows && IsOwned(rows[r].key, number) ==> r in all;
        NoneOwned(Db(), number);
        return None;
      }
      assert forall r :: r in rows && IsOwned(rows[r].key, number) ==> r in all;
      OldestFound(number, best.value);
      return rows[best.value].key.owner;
    }

    /** The rows of a SELECT without ORDER BY: each selected row once, in some order. */
    method Select(chosen: set<Ref>) returns (refs: seq<Ref>)
      ensures Distinct(refs) && forall r :: r in refs <==> r in chosen
    {
      refs := [];
      var left := chosen;
      while left != {}
        invariant left <= chosen && Distinct(refs)
        invariant forall r :: r in refs <==> r in chosen && r !in left
      {
        var r :| r in left;
        refs := refs + [r];
        left := left - {r};
      }
    }

    /** DELETE FROM services WHERE id=?, with its ON DELETE CASCADE. */
    method DeleteService(id: int)
      requires Valid()
      modifies this
      ensures Valid() && Db() == RemoveService(old(Db()), id)
      ensures forall r ::
        r in rows <==> r in old(rows) && r != Ref(Services, id) && !BelongsTo(old(rows)[r].key, id)
      ensures forall r :: r in rows ==> rows[r] == old(rows)[r]
      ensures next == old(next) && changesLog == old(changesLog) + [Change(Ref(Services, id), Removed)]
    {
      RemovalTakes(Db(), id);
      RemoveKeepsSound(Db(), id);
      var gone := Ref(Services, id);
      RecordChange(gone, Removed);
      rows := map r | r in rows && r != gone && gone !in Parents(rows[r].key) :: rows[r];
    }

    /** Logs and deletes every service outside `active`, with what it owns. */
    method MarkServicesRemoved(active: set<int>) returns (removed: seq<int>)
      requires Valid()
      modifies this
      ensures Valid() && Distinct(removed)
      ensures forall id :: id in removed <==> Ref(Services, id) in old(rows) && id !in active
      ensures Db() == Purged(old(Db()), removed)
      ensures forall r :: r in rows <==> Survives(old(rows), removed, r)
      ensures forall r :: r in rows ==> rows[r] == old(rows)[r]
      ensures next == old(next) && |changesLog| == |old(changesLog)| + |removed| && old(changesLog) <= changesLog
      ensures forall i :: 0 <= i < |removed| ==>
        changesLog[|old(changesLog)| + i] == Change(Ref(Services, removed[i]), Removed)
    {
      hide Survives, BelongsTo, Sound, Parents;
      var services := Select(set r | r in rows && r.table == Services);
      removed := [];
      PurgeNothing(Db());
      for i := 0 to |services|
        invariant Valid() && Db() == Purged(old(Db()), removed) && Distinct(removed)
        invariant forall id :: id in removed <==> id !in active && Ref(Services, id) in services[..i]
      {
        var id := services[i].id;
        assert services[i] in services && services[i] == Ref(Services, id);
        assert services[..i + 1] == services[..i] + [services[i]];
        if id !in active {
          DeleteService(id);
          PurgeStep(old(Db()), removed, id);
          removed := removed + [id];
        }
      }
      assert services[..|services|] == services;
      PurgeTakes(old(Db()), removed);
    }

    /** Row `r` says that `source` depends on `target`. */
    ghost predicate IsEdge(r: Ref, source: int, target: int)
      reads this
    {
      r in rows && rows[r].key.DependencyKey? && rows[r].key.source == source && rows[r].key.target == target
    }

    /**
     SELECT s.* FROM services s JOIN dependencies d ... WHERE d.target_service_id = ?: one
     service per dependency row, in any order.
     */
    method DirectDependents(target: int) returns (sources: seq<int>, ghost refs: seq<Ref>)
      requires Valid()
      ensures |refs| == |sources| && Distinct(refs)
      ensures forall k :: 0 <= k < |refs| ==> IsEdge(refs[k], sources[k], target)
      ensures forall r, source :: IsEdge(r, source, target) ==> r in refs
      ensures forall x :: x in sources ==> Ref(Services, x) in rows
    {
      var joined := Select(set r | r in rows && rows[r].key.DependencyKey? && rows[r].key.target == target);
      sources, refs := [], joined;
      for i := 0 to |joined|
        invariant |sources| == i
        invariant forall k :: 0 <= k < i ==> IsEdge(refs[k], sources[k], target)
        invariant forall x :: x in sources ==> Ref(Services, x) in rows
      {
        assert joined[i] in joined;
        assert ParentsLive(Db(), rows[joined[i]].key);
        sources := sources + [rows[joined[i]].key.source];
      }
    }

    /** Each entry of a search result is charged to a dependency row onto a visited service. */
    ghost predicate Charged(result: seq<int>, used: set<Ref>, visited: set<int>)
      reads this
    {
      && |result| <= |used|
      && (forall r :: r in used ==> r in rows && rows[r].key.DependencyKey? && rows[r].key.target in visited)
      && (forall x :: x in result ==> Ref(Services, x) in rows)
    }

    lemma ChargedMore(result: seq<int>, used: set<Ref>, visited: set<int>, more: set<int>)
      requires Charged(result, used, visited) && visited <= more
      ensures Charged(result, used, more)
    {
    }

    lemma ChargeOne(result: seq<int>, used: set<Ref>, visited: set<int>, r: Ref, source: int, target: int)
      requires Charged(result, used, visited) && IsEdge(r, source, target) && r !in used && target in visited
      requires Ref(Services, source) in rows
      ensures Charged(result + [source], used + {r}, visited)
    {
    }

    /** No row onto `target` is charged while it is not visited. */
    lemma NoneUsed(target: int, visited: set<int>, result: seq<int>, used: set<Ref>)
      requires Charged(result, used, visited - {target})
      ensures forall r, source :: IsEdge(r, source, target) ==> r !in used
    {
    }

    lemma EdgeIn(r: Ref, source: int, target: int)
      requires IsEdge(r, source, target)
      ensures (source, target) in Edges(Db()) && source in SourceIds(Db())
    {
      assert (rows[r].key.source, rows[r].key.target) in Edges(Db());
    }

    lemma AllEdgesPending(current: int, sources: seq<int>, refs: seq<Ref>, s: Search)
      requires |refs| == |sources| && AllPending(s, sources, s.level + 1)
      requires forall k :: 0 <= k < |refs| ==> IsEdge(refs[k], sources[k], current)
      requires forall r, source :: IsEdge(r, source, current) ==> r in refs
      ensures forall e :: e in Edges(Db()) && e.1 == current ==> Pending(s, e.0, s.level + 1)
    {
      hide Pending;
      forall e | e in Edges(Db()) && e.1 == current ensures Pending(s, e.0, s.level + 1) {
        var r :| r in rows && rows[r].key.DependencyKey? && (rows[r].key.source, rows[r].key.target) == e;
        assert IsEdge(r, e.0, current);
        var k :| 0 <= k < |refs| && refs[k] == r;
        assert IsEdge(refs[k], sources[k], current);
      }
    }

    /** The inner loop: reports and queues the unvisited direct dependents of `current`. */
    method ReportDependents(ghost target: int, current: int, visited: set<int>, queue0: seq<int>, result0: seq<int>,
                            ghost s0: Search, ghost used0: set<Ref>)
      returns (queue: seq<int>, result: seq<int>, ghost s: Search, ghost used: set<Ref>)
      requires Valid()
      requires Searching(Edges(Db()), target, s0, {current}) && Tracks(s0, visited, queue0, result0)
      requires current in s0.depth && s0.depth[current] == s0.level && target in s0.depth
      requires Charged(result0, used0, visited - {current})
      ensures Searching(Edges(Db()), target, s, {}) && Tracks(s, visited, queue, result)
      ensures Charged(result, used, visited)
      ensures forall x :: x in queue ==> x in queue0 || x in SourceIds(Db())
    {
      hide Searching, Sound, Pending, AllPending, Charged, Edges, IsEdge, SourceIds;
      NoneUsed(current, visited, result0, used0);
      ChargedMore(result0, used0, visited - {current}, visited);
      NonePending(s0, s0.level + 1);
      queue, result, s, used := queue0, result0, s0, used0;
      ghost var refs;
      var sources;
      sources, refs := DirectDependents(current);
      for i := 0 to |sources|
        invariant Searching(Edges(Db()), target, s, {current}) && Tracks(s, visited, queue, result)
        invariant s.depth == s0.depth && s.level == s0.level
        invariant AllPending(s, sources[..i], s.level + 1)
        invariant Charged(result, used, visited)
        invariant forall r :: r in used ==> r in used0 || r in refs[..i]
        invariant forall x :: x in queue ==> x in queue0 || x in SourceIds(Db())
      {
        var source := sources[i];
        EdgeIn(refs[i], source, current);
        assert source in sources;
        if source !in visited {
          ReportSearches(Edges(Db()), target, s, current, source);
          ReportKeepsAllPending(s, source, sources[..i], s.level + 1);
          s := Report(s, source);
          queue := queue + [source];
          ChargeOne(result, used, visited, refs[i], source, current);
          result := result + [source];
          used := used + {refs[i]};
        } else {
          VisitedIsPending(s, source, s.level + 1);
        }
        assert sources[..i + 1] == sources[..i] + [source];
        OneMorePending(s, sources[..i], source, s.level + 1);
      }
      assert sources[..|sources|] == sources;
      AllEdgesPending(current, sources, refs, s);
      CloseSearches(Edges(Db()), target, s, current);
    }

    /**
     The services that transitively depend on `serviceId`: all of them, nearest first.  One
     may be listed more than once, but never more often than there are dependency rows.
     */
    method GetDependents(serviceId: int) returns (result: seq<int>)
      requires Valid()
      ensures forall x :: x in result <==> x != serviceId && DependsOn(Edges(Db()), x, serviceId)
      ensures NearestFirst(Edges(Db()), serviceId, result)
      ensures |result| <= |DependencyRows(Db())|
      ensures forall x :: x in result ==> Ref(Services, x) in rows
      ensures forall x :: x in result <==> x != serviceId && exists p :: RowChain(Db(), p, x, serviceId)
    {
      hide Searching, Sound, DependsOn, NearestFirst, Edges, SourceIds, RowChain;
      var visited: set<int> := {};
      var queue := [serviceId];
      result := [];
      ghost var g := Edges(Db());
      ghost var s := Start(serviceId);
      ghost var used: set<Ref> := {};
      ghost var ids := {serviceId} + SourceIds(Db());
      StartSearches(g, serviceId);
      while queue != []
        invariant Searching(g, serviceId, s, {}) && Tracks(s, visited, queue, result)
        invariant Charged(result, used, visited)
        invariant visited <= ids && forall x :: x in queue ==> x in ids
        decreases ids - visited, |queue|
      {
        var current := queue[0];
        queue := queue[1..];
        if current in visited {
          SkipSearches(g, serviceId, s);
          s := Drop(s);
        } else {
          VisitSearches(g, serviceId, s);
          s := Visit(s);
          visited := visited + {current};
          queue, result, s, used := ReportDependents(serviceId, current, visited, queue, result, s, used);
        }
      }
      SearchIsComplete(g, serviceId, s);
      FinishedIsNearestFirst(g, serviceId, s);
      SubsetSize(used, DependencyRows(Db()));
      forall x ensures DependsOn(g, x, serviceId) <==> exists p :: RowChain(Db(), p, x, serviceId) {
        DependsByRows(Db(), x, serviceId);
      }
    }
  }

  lemma KeepsRow(db: Database, r: Ref, cells: Cells, stamp: string)
    requires r in db.rows
    ensures r in UpdateRow(db, r, cells, stamp).rows
  {
  }

  lemma RowIsFiled(db: Database, r: Ref)
    requires Sound(db) && r in db.rows
    ensures TableOf(db.rows[r].key) == r.table
  {
  }

  lemma HasNewRow(db: Database, r: Ref, row: Row)
    ensures r in InsertRow(db, r, row).rows
  {
  }

  /** The search's variables are the parts of the abstract search state. */
  ghost predicate Tracks(s: Search, visited: set<int>, queue: seq<int>, result: seq<int>) {
    visited == s.depth.Keys && queue == s.queue && result == s.result && |s.tags| == |s.queue|
  }

  ghost predicate AllPending(s: Search, xs: seq<int>, n: nat) {
    |s.tags| == |s.queue| && forall k :: 0 <= k < |xs| ==> Pending(s, xs[k], n)
  }

  lemma NonePending(s: Search, n: nat)
    requires |s.tags| == |s.queue|
    ensures AllPending(s, [], n)
  {
  }

  lemma OneMorePending(s: Search, xs: seq<int>, x: int, n: nat)
    requires AllPending(s, xs, n) && Pending(s, x, n)
    ensures AllPending(s, xs + [x], n)
  {
    hide Pending;
  }

  lemma ReportKeepsAllPending(s: Search, x: int, xs: seq<int>, n: nat)
    requires AllPending(s, xs, n)
    ensures AllPending(Report(s, x), xs, n)
  {
    hide Pending;
    forall k | 0 <= k < |xs| ensures Pending(Report(s, x), xs[k], n) {
      ReportKeepsPending(s, x, xs[k], n);
    }
  }

  lemma VisitedIsPending(s: Search, x: int, n: nat)
    requires |s.tags| == |s.queue| && x in s.depth
    ensures Pending(s, x, n)
  {
  }

  lemma FinishedIsNearestFirst(g: Graph, target: int, s: Search)
    requires Searching(g, target, s, {})
    ensures NearestFirst(g, target, s.result)
  {
    SearchIsNearestFirst(g, target, s);
  }

  lemma {:induction false} SubsetSize<T>(a: set<T>, b: set<T>)
    requires a <= b
    ensures |a| <= |b|
  {
    if x :| x in a {
      SubsetSize(a - {x}, b - {x});
    }
  }
}
