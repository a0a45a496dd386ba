/**
 What each store call does to the database, as a function, and the invariants every sequence
 of calls keeps.
 */
module StoreSpec {
  import opened Options
  import opened Schema

  datatype Op =
    | Upsert(key: Key, cells: Cells, stamp: string)
    | Remove(service: int)

  predicate WellTypedOp(op: Op) {
    op.Upsert? ==> WellTyped(TableOf(op.key), op.cells)
  }

  predicate WellTypedOps(ops: seq<Op>) {
    forall i :: 0 <= i < |ops| ==> WellTypedOp(ops[i])
  }

  // ---- One call -------------------------------------------------------------------------

  ghost predicate Has(db: Database, key: Key) {
    exists r :: r in db.rows && Matches(db.rows[r].key, key)
  }

  ghost function Lookup(db: Database, key: Key): (r: Ref)
    requires Has(db, key)
    ensures r in db.rows && Matches(db.rows[r].key, key)
  {
    var r :| r in db.rows && Matches(db.rows[r].key, key);
    r
  }

  function EntryFor(ref: Ref, c: Column, cells: Cells, seen: Cells): seq<Change> {
    if c in seen && Differs(ref.table, cells, c, seen[c])
    then [Change(ref, Modified(c, CellText(cells, c), Str(seen[c])))]
    else []
  }

  function ModifiedEntries(ref: Ref, columns: seq<Column>, cells: Cells, seen: Cells): seq<Change> {
    if columns == [] then []
    else
      ModifiedEntries(ref, columns[..|columns| - 1], cells, seen)
      + EntryFor(ref, columns[|columns| - 1], cells, seen)
  }

  /** A dependency that exists is left alone; any other row takes the non-null observed cells. */
  function Merged(table: Table, row: Row, cells: Cells, stamp: string): Row {
    if table == Dependencies then row else row.(cells := row.cells + cells, stamp := stamp)
  }

  predicate ParentsLive(db: Database, key: Key) {
    forall p :: p in Parents(key) ==> p in db.rows
  }

  ghost predicate Accepts(db: Database, key: Key) {
    Has(db, key) || ParentsLive(db, key)
  }

  /** The reference of the row an accepted upsert reports back. */
  ghost function Target(db: Database, key: Key): Ref
  {
    if Has(db, key) then Lookup(db, key) else Ref(TableOf(key), NextId(db, TableOf(key)))
  }

  function RemoveService(db: Database, id: int): Database {
    var gone := Ref(Services, id);
    db.(rows := map r | r in db.rows && r != gone && gone !in Parents(db.rows[r].key) :: db.rows[r],
        log := db.log + [Change(gone, Removed)])
  }

  function UpdateRow(db: Database, r: Ref, cells: Cells, stamp: string): Database
    requires r in db.rows
  {
    db.(rows := db.rows[r := Merged(r.table, db.rows[r], cells, stamp)],
        log := db.log + ModifiedEntries(r, LoggedColumns(r.table), db.rows[r].cells, cells))
  }

  function InsertRow(db: Database, r: Ref, row: Row): Database {
    Database(db.rows[r := row], db.next[r.table := r.id + 1], db.log + [Change(r, Added)])
  }

  /** A refused insert (foreign key violation) changes nothing. */
  ghost function Apply(db: Database, op: Op): Database {
    match op
    case Remove(id) => if Ref(Services, id) in db.rows then RemoveService(db, id) else db
    case Upsert(key, cells, stamp) =>
      if Has(db, key) then UpdateRow(db, Lookup(db, key), cells, stamp)
      else if ParentsLive(db, key) then InsertRow(db, Target(db, key), Row(key, cells, stamp))
      else db
  }

  /** The database after a sequence of calls. */
  ghost function Run(db: Database, ops: seq<Op>): Database
  {
    if ops == [] then db else Apply(Run(db, ops[..|ops| - 1]), ops[|ops| - 1])
  }

  // ---- The store invariant --------------------------------------------------------------

  ghost predicate UniqueKeys(db: Database) {
    forall r, s :: r in db.rows && s in db.rows && Matches(db.rows[r].key, db.rows[s].key) ==> r == s
  }

  ghost predicate ForeignKeysLive(db: Database) {
    forall r :: r in db.rows ==> ParentsLive(db, db.rows[r].key)
  }

  ghost predicate RowsFiled(db: Database) {
    forall r :: r in db.rows ==>
      && TableOf(db.rows[r].key) == r.table
      && 1 <= r.id < NextId(db, r.table)
      && WellTyped(r.table, db.rows[r].cells)
  }

  ghost predicate Sound(db: Database) {
    && (forall t :: t in db.next ==> 1 <= db.next[t])
    && RowsFiled(db)
    && UniqueKeys(db)
    && ForeignKeysLive(db)
  }

  lemma UpdateKeepsUnique(db: Database, r: Ref, cells: Cells, stamp: string)
    requires UniqueKeys(db) && ForeignKeysLive(db) && r in db.rows
    ensures UniqueKeys(UpdateRow(db, r, cells, stamp)) && ForeignKeysLive(UpdateRow(db, r, cells, stamp))
  {
    var after := UpdateRow(db, r, cells, stamp);
    assert after.rows.Keys == db.rows.Keys;
    forall s | s in after.rows ensures after.rows[s].key == db.rows[s].key && ParentsLive(after, after.rows[s].key) {
      assert ParentsLive(db, db.rows[s].key);
    }
  }

  lemma UpdateKeepsFiled(db: Database, r: Ref, cells: Cells, stamp: string)
    requires RowsFiled(db) && r in db.rows && WellTyped(r.table, cells)
    ensures RowsFiled(UpdateRow(db, r, cells, stamp))
  {
    MergedIsTyped(r.table, db.rows[r], cells, stamp);
    hide WellTyped, TableOf, Merged, ModifiedEntries;
  }

  lemma MergedIsTyped(t: Table, row: Row, cells: Cells, stamp: string)
    requires WellTyped(t, row.cells) && WellTyped(t, cells)
    ensures WellTyped(t, Merged(t, row, cells, stamp).cells) && Merged(t, row, cells, stamp).key == row.key
  {
  }

  lemma UpdateKeepsSound(db: Database, r: Ref, cells: Cells, stamp: string)
    requires Sound(db) && r in db.rows && WellTyped(r.table, cells)
    ensures Sound(UpdateRow(db, r, cells, stamp))
  {
    hide UniqueKeys, ForeignKeysLive, RowsFiled, WellTyped, ModifiedEntries, Merged;
    UpdateKeepsUnique(db, r, cells, stamp);
    UpdateKeepsFiled(db, r, cells, stamp);
  }

  lemma InsertKeepsUnique(db: Database, r: Ref, row: Row)
    requires UniqueKeys(db) && ForeignKeysLive(db) && r !in db.rows
    requires !Has(db, row.key) && ParentsLive(db, row.key)
    ensures UniqueKeys(InsertRow(db, r, row)) && ForeignKeysLive(InsertRow(db, r, row))
  {
    var after := InsertRow(db, r, row);
    forall s | s in after.rows ensures ParentsLive(after, after.rows[s].key) {
      if s != r {
        assert ParentsLive(db, db.rows[s].key);
      }
    }
    forall s, t | s in after.rows && t in after.rows && Matches(after.rows[s].key, after.rows[t].key) ensures s == t {
      MatchesIsSymmetric(after.rows[s].key, after.rows[t].key);
    }
  }

  lemma MatchesIsSymmetric(a: Key, b: Key)
    ensures Matches(a, b) == Matches(b, a)
  {
  }

  lemma InsertKeepsFiled(db: Database, r: Ref, row: Row)
    requires RowsFiled(db) && r.table == TableOf(row.key) && WellTyped(r.table, row.cells)
    requires r.id == NextId(db, r.table)
    requires forall t :: t in db.next ==> 1 <= db.next[t]
    ensures RowsFiled(InsertRow(db, r, row))
    ensures forall t :: t in InsertRow(db, r, row).next ==> 1 <= InsertRow(db, r, row).next[t]
  {
    hide WellTyped, TableOf;
  }

  lemma InsertKeepsSound(db: Database, key: Key, cells: Cells, stamp: string)
    requires Sound(db) && WellTyped(TableOf(key), cells)
    requires !Has(db, key) && ParentsLive(db, key)
    ensures Sound(InsertRow(db, Target(db, key), Row(key, cells, stamp)))
  {
    assert Target(db, key) !in db.rows;
    hide UniqueKeys, ForeignKeysLive, RowsFiled, WellTyped, TableOf, Has, ParentsLive, InsertRow;
    InsertKeepsUnique(db, Target(db, key), Row(key, cells, stamp));
    InsertKeepsFiled(db, Target(db, key), Row(key, cells, stamp));
  }

  lemma ParentTables(key: Key)
    ensures forall p :: p in Parents(key) ==> p.table == Services || p.table == Nodes
    ensures TableOf(key) == Nodes || TableOf(key) == Services ==> forall p :: p in Parents(key) ==> p.table == Nodes
  {
  }

  /** Cascades do not chain: nothing a row points at is itself owned by a service. */
  lemma ParentsAreRoots(db: Database, r: Ref, p: Ref, gone: Ref)
    requires RowsFiled(db) && ForeignKeysLive(db)
    requires r in db.rows && p in Parents(db.rows[r].key) && gone.table == Services
    ensures p in db.rows && gone !in Parents(db.rows[p].key)
  {
    hide Parents, TableOf, WellTyped;
    assert ParentsLive(db, db.rows[r].key);
    ParentTables(db.rows[r].key);
    ParentTables(db.rows[p].key);
  }

  lemma RemoveKeepsSound(db: Database, id: int)
    requires Sound(db)
    ensures Sound(RemoveService(db, id))
  {
    var after := RemoveService(db, id);
    forall r, p | r in after.rows && p in Parents(after.rows[r].key) ensures p in after.rows {
      ParentsAreRoots(db, r, p, Ref(Services, id));
    }
    forall r | r in after.rows ensures ParentsLive(after, after.rows[r].key) {
    }
  }

  lemma LookupTable(db: Database, key: Key)
    requires Sound(db) && Has(db, key)
    ensures Lookup(db, key).table == TableOf(key) && Lookup(db, key) in db.rows
  {
    MatchesSameTable(db.rows[Lookup(db, key)].key, key);
    hide Matches, TableOf, WellTyped, UniqueKeys, ForeignKeysLive;
  }

  lemma MatchesSameTable(stored: Key, query: Key)
    requires Matches(stored, query)
    ensures TableOf(stored) == TableOf(query)
  {
  }

  /** The three things an upsert can do. */
  lemma UpsertDoes(db: Database, key: Key, cells: Cells, stamp: string)
    ensures var after := Apply(db, Upsert(key, cells, stamp));
      if Has(db, key) then
        Accepts(db, key) && Target(db, key) == Lookup(db, key) && after == UpdateRow(db, Lookup(db, key), cells, stamp)
      else if ParentsLive(db, key) then
        Accepts(db, key) && Target(db, key) == Ref(TableOf(key), NextId(db, TableOf(key)))
        && after == InsertRow(db, Target(db, key), Row(key, cells, stamp))
      else !Accepts(db, key) && after == db
  {
  }

  lemma ApplyKeepsSound(db: Database, op: Op)
    requires Sound(db) && WellTypedOp(op)
    ensures Sound(Apply(db, op))
  {
    hide Sound, Has, ParentsLive, WellTyped, TableOf, UpdateRow, InsertRow, RemoveService, Target;
    match op
    case Remove(id) => RemoveKeepsSound(db, id);
    case Upsert(key, cells, stamp) =>
      if Has(db, key) {
        LookupTable(db, key);
        UpdateKeepsSound(db, Lookup(db, key), cells, stamp);
      } else if ParentsLive(db, key) {
        InsertKeepsSound(db, key, cells, stamp);
      }
  }

  lemma {:induction false} RunKeepsSound(db: Database, ops: seq<Op>)
    requires Sound(db) && WellTypedOps(ops)
    ensures Sound(Run(db, ops))
  {
    if ops != [] {
      RunKeepsSound(db, ops[..|ops| - 1]);
      ApplyKeepsSound(Run(db, ops[..|ops| - 1]), ops[|ops| - 1]);
    }
  }

  /** Every database the store can reach from the empty schema satisfies the invariant. */
  lemma ReachableIsSound(ops: seq<Op>)
    requires WellTypedOps(ops)
    ensures Sound(Run(EMPTY, ops))
  {
    RunKeepsSound(EMPTY, ops);
  }

  lemma LookupIsUnique(db: Database, key: Key, r: Ref)
    requires UniqueKeys(db) && r in db.rows && Matches(db.rows[r].key, key)
    ensures Has(db, key) && Lookup(db, key) == r
  {
  }

  /** UNIQUE(name, type, node_id, namespace) as SQL enforces it: a NULL equals nothing. */
  predicate SqlDuplicate(a: Key, b: Key) {
    a.ServiceKey? && a == b && a.node.Some? && a.namespace.Some?
  }

  /** The services SQL's UNIQUE would let in twice: on no node, or with a NULL namespace on one side. */
  predicate SqlBlind(a: Key, b: Key)
    requires a.ServiceKey? && b.ServiceKey?
  {
    && a.name == b.name && a.kind == b.kind && a.node == b.node && OrEmpty(a.namespace) == OrEmpty(b.namespace)
    && (a.node.None? || a.namespace.None? || b.namespace.None?)
  }

  /** No two rows share a key, which is more than UNIQUE asks: it misses exactly the blind pairs. */
  lemma ServiceKeyIsStrongerThanUnique(db: Database, r: Ref, s: Ref)
    requires Sound(db) && r in db.rows && s in db.rows && r != s
    ensures !Matches(db.rows[r].key, db.rows[s].key) && !SqlDuplicate(db.rows[r].key, db.rows[s].key)
    ensures forall a: Key, b: Key :: a.ServiceKey? && b.ServiceKey? && SqlDuplicate(a, b) ==> Matches(a, b)
    ensures forall a: Key, b: Key :: a.ServiceKey? && b.ServiceKey? ==>
      (Matches(a, b) && !SqlDuplicate(a, b) <==> SqlBlind(a, b))
  {
  }

  // ---- Sequences of calls ---------------------------------------------------------------

  lemma {:induction false} RunAppend(db: Database, a: seq<Op>, b: seq<Op>)
    ensures Run(db, a + b) == Run(Run(db, a), b)
  {
    if b == [] {
      assert a + b == a;
    } else {
      assert (a + b)[..|a + b| - 1] == a + b[..|b| - 1];
      RunAppend(db, a, b[..|b| - 1]);
    }
  }

  ghost function Entries(db: Database, op: Op): seq<Change>
  {
    Apply(db, op).log[|db.log|..]
  }

  lemma ApplyExtendsLog(db: Database, op: Op)
    ensures Apply(db, op).log == db.log + Entries(db, op)
  {
  }

  /** The log entries a run appends. */
  ghost function Since(db: Database, ops: seq<Op>): seq<Change>
  {
    if ops == [] then []
    else Since(db, ops[..|ops| - 1]) + Entries(Run(db, ops[..|ops| - 1]), ops[|ops| - 1])
  }

  lemma ConcatIsAssociative(a: seq<Change>, b: seq<Change>, c: seq<Change>)
    ensures a + b + c == a + (b + c)
  {
  }

  lemma {:induction false} RunExtendsLog(db: Database, ops: seq<Op>)
    ensures Run(db, ops).log == db.log + Since(db, ops)
  {
    if ops != [] {
      hide Apply, Entries;
      var init, last := ops[..|ops| - 1], ops[|ops| - 1];
      RunExtendsLog(db, init);
      ApplyExtendsLog(Run(db, init), last);
      ConcatIsAssociative(db.log, Since(db, init), Entries(Run(db, init), last));
    }
  }

  // ---- Row identity ---------------------------------------------------------------------

  /** One call: a row keeps its key and merges exactly the observations that match it. */
  lemma RowAfterApply(db: Database, op: Op, r: Ref)
    requires Sound(db) && WellTypedOp(op) && r in db.rows && r in Apply(db, op).rows
    ensures Apply(db, op).rows[r] ==
      if op.Upsert? && Matches(db.rows[r].key, op.key)
      then Merged(r.table, db.rows[r], op.cells, op.stamp) else db.rows[r]
  {
    if op.Upsert? && Matches(db.rows[r].key, op.key) {
      LookupIsUnique(db, op.key, r);
    }
    hide Sound, Matches, Parents;
  }

  /** A call can only bring in the next id of a table. */
  lemma NewRowHasNextId(db: Database, op: Op, r: Ref)
    requires Sound(db) && r in Apply(db, op).rows && r !in db.rows
    ensures r.id == NextId(db, r.table)
  {
    hide Sound, Matches, Parents;
  }

  /** Ids are never reused: a row seen before and after a run was there throughout. */
  lemma {:induction false} RowPersists(db: Database, ops: seq<Op>, r: Ref)
    requires Sound(db) && WellTypedOps(ops)
    requires 1 <= r.id < NextId(db, r.table) && r in Run(db, ops).rows
    ensures r in db.rows && Run(db, ops).rows[r].key == db.rows[r].key
    ensures NextId(db, r.table) <= NextId(Run(db, ops), r.table)
  {
    CountersGrow(db, ops, r.table);
    if ops != [] {
      hide Sound, Apply, Matches;
      var before, last := Run(db, ops[..|ops| - 1]), ops[|ops| - 1];
      RunKeepsSound(db, ops[..|ops| - 1]);
      CountersGrow(db, ops[..|ops| - 1], r.table);
      if r !in before.rows {
        NewRowHasNextId(before, last, r);
      }
      RowPersists(db, ops[..|ops| - 1], r);
      RowAfterApply(before, last, r);
    }
  }

  lemma KeyPersists(db: Database, ops: seq<Op>, r: Ref)
    requires Sound(db) && WellTypedOps(ops) && r in db.rows && r in Run(db, ops).rows
    ensures Run(db, ops).rows[r].key == db.rows[r].key
  {
    assert 1 <= r.id < NextId(db, r.table);
    hide Sound, Run;
    RowPersists(db, ops, r);
  }

  lemma CounterGrows(db: Database, op: Op, t: Table)
    requires Sound(db)
    ensures NextId(db, t) <= NextId(Apply(db, op), t)
  {
  }

  lemma {:induction false} CountersGrow(db: Database, ops: seq<Op>, t: Table)
    requires Sound(db) && WellTypedOps(ops)
    ensures NextId(db, t) <= NextId(Run(db, ops), t)
  {
    if ops != [] {
      RunKeepsSound(db, ops[..|ops| - 1]);
      CountersGrow(db, ops[..|ops| - 1], t);
      CounterGrows(Run(db, ops[..|ops| - 1]), ops[|ops| - 1], t);
    }
  }

  // ---- get_service_by_port ---------------------------------------------------------------

  /** The row `LIMIT 1` finds through the index on port numbers: the oldest one that joins. */
  ghost predicate OwnsFirst(db: Database, number: int, r: Ref) {
    && r in db.rows && IsOwned(db.rows[r].key, number)
    && forall s :: s in db.rows && IsOwned(db.rows[s].key, number) ==> r.id <= s.id
  }

  predicate IsOwned(key: Key, number: int) {
    key.PortKey? && key.port == number && key.owner.Some?
  }

  ghost function PortOwner(db: Database, number: int): (owner: Option<int>)
    ensures owner.Some? ==> exists r :: OwnsFirst(db, number, r) && db.rows[r].key.owner == owner
    ensures owner.None? ==> forall r :: !OwnsFirst(db, number, r)
  {
    if r :| OwnsFirst(db, number, r) then db.rows[r].key.owner else None
  }

  lemma {:induction false} OldestExists(db: Database, number: int, refs: set<Ref>) returns (r: Ref)
    requires refs != {} && forall s :: s in refs ==> s in db.rows && IsOwned(db.rows[s].key, number)
    ensures r in refs && forall s :: s in refs ==> r.id <= s.id
  {
    var x :| x in refs;
    if refs == {x} {
      r := x;
    } else {
      var y := OldestExists(db, number, refs - {x});
      r := if x.id <= y.id then x else y;
    }
  }

  lemma OwnedHasOwner(db: Database, number: int, s: Ref)
    requires s in db.rows && IsOwned(db.rows[s].key, number)
    ensures PortOwner(db, number).Some?
  {
    var refs := set t | t in db.rows && IsOwned(db.rows[t].key, number);
    assert s in refs;
    var r := OldestExists(db, number, refs);
    assert OwnsFirst(db, number, r);
  }

  lemma NoneOwned(db: Database, number: int)
    requires forall r :: r in db.rows ==> !IsOwned(db.rows[r].key, number)
    ensures PortOwner(db, number).None?
  {
  }

  lemma OldestIsUnique(db: Database, number: int, r: Ref, s: Ref)
    requires RowsFiled(db) && OwnsFirst(db, number, r) && OwnsFirst(db, number, s)
    ensures r == s
  {
    assert TableOf(db.rows[r].key) == Ports && TableOf(db.rows[s].key) == Ports;
  }

  lemma OwnerIs(db: Database, number: int, r: Ref)
    requires RowsFiled(db) && OwnsFirst(db, number, r)
    ensures PortOwner(db, number) == db.rows[r].key.owner
  {
    hide RowsFiled;
    var s :| OwnsFirst(db, number, s) && db.rows[s].key.owner == PortOwner(db, number);
    OldestIsUnique(db, number, r, s);
  }
}
