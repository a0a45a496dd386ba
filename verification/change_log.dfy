/**
 The change log.  Its entries say exactly which rows live, and it can be walked backwards to
 recover what any logged cell held before.
 */
module ChangeLog {
  import opened Options
  import opened Schema
  import opened StoreSpec
  import opened Observations

  // ---- Lives of rows --------------------------------------------------------------------

  datatype Phase = Unborn | Alive | Dead | Broken

  /** Reads the log of one row as `added modified* removed?`; anything else is Broken. */
  function PhaseOf(log: seq<Change>, r: Ref): Phase {
    if log == [] then Unborn
    else
      var before := PhaseOf(log[..|log| - 1], r);
      var entry := log[|log| - 1];
      if entry.ref != r then before
      else match entry.kind
        case Added => if before == Unborn then Alive else Broken
        case Modified(_, _, _) => if before == Alive then Alive else Broken
        case Removed => if before == Alive then Dead else Broken
  }

  /** Ids below the counter were added once; services, and only they, are logged as removed. */
  ghost predicate LogTellsLives(db: Database) {
    forall r: Ref :: PhaseOf(db.log, r) ==
      if !(1 <= r.id < NextId(db, r.table)) then Unborn
      else if r.table == Services && r !in db.rows then Dead
      else Alive
  }

  lemma {:induction false} ModifiedKeepsPhase(log: seq<Change>, r: Ref, columns: seq<Column>, cells: Cells,
                                              seen: Cells, s: Ref)
    requires PhaseOf(log, r) == Alive
    ensures PhaseOf(log + ModifiedEntries(r, columns, cells, seen), s) == PhaseOf(log, s)
    decreases columns
  {
    if columns == [] {
      assert log + ModifiedEntries(r, columns, cells, seen) == log;
    } else {
      var init, c := columns[..|columns| - 1], columns[|columns| - 1];
      ModifiedKeepsPhase(log, r, init, cells, seen, s);
      ModifiedKeepsPhase(log, r, init, cells, seen, r);
      var front := log + ModifiedEntries(r, init, cells, seen);
      var whole := log + ModifiedEntries(r, columns, cells, seen);
      if c in seen && Differs(r.table, cells, c, seen[c]) {
        assert whole[..|whole| - 1] == front;
      } else {
        assert whole == front;
      }
    }
  }

  lemma UpdateTellsLives(db: Database, r: Ref, cells: Cells, stamp: string)
    requires Sound(db) && LogTellsLives(db) && r in db.rows
    ensures LogTellsLives(UpdateRow(db, r, cells, stamp))
  {
    assert PhaseOf(db.log, r) == Alive;
    forall s: Ref {
      ModifiedKeepsPhase(db.log, r, LoggedColumns(r.table), db.rows[r].cells, cells, s);
    }
  }

  lemma InsertTellsLives(db: Database, key: Key, row: Row)
    requires Sound(db) && LogTellsLives(db)
    ensures !Has(db, key) ==> LogTellsLives(InsertRow(db, Target(db, key), row))
  {
    if !Has(db, key) {
      var after := InsertRow(db, Target(db, key), row);
      assert after.log[..|after.log| - 1] == db.log;
      assert PhaseOf(db.log, Target(db, key)) == Unborn;
    }
  }

  lemma RemovalKeepsOtherServices(db: Database, id: int, r: Ref)
    requires Sound(db) && r in db.rows && r.table == Services && r.id != id
    ensures r in RemoveService(db, id).rows
  {
    assert TableOf(db.rows[r].key) == Services;
    ParentTables(db.rows[r].key);
    hide Sound, Parents, TableOf;
  }

  lemma RemoveTellsLives(db: Database, id: int)
    requires Sound(db) && LogTellsLives(db) && Ref(Services, id) in db.rows
    ensures LogTellsLives(RemoveService(db, id))
  {
    var gone, after := Ref(Services, id), RemoveService(db, id);
    assert after.log[..|after.log| - 1] == db.log;
    assert PhaseOf(db.log, gone) == Alive;
    forall r: Ref
      ensures r.table == Services ==> (r in after.rows <==> r in db.rows && r != gone)
    {
      if r.table == Services && r in db.rows && r != gone {
        RemovalKeepsOtherServices(db, id, r);
      }
    }
    hide Sound, Parents, TableOf;
  }

  lemma ApplyTellsLives(db: Database, op: Op)
    requires Sound(db) && LogTellsLives(db) && WellTypedOp(op)
    ensures LogTellsLives(Apply(db, op))
  {
    match op
    case Remove(id) =>
      if Ref(Services, id) in db.rows {
        RemoveTellsLives(db, id);
      }
    case Upsert(key, cells, stamp) =>
      if Has(db, key) {
        UpdateTellsLives(db, Lookup(db, key), cells, stamp);
      } else if ParentsLive(db, key) {
        InsertTellsLives(db, key, Row(key, cells, stamp));
      }
  }

  /** Every reachable store: the log of each row is well formed and tells exactly who lives. */
  lemma {:induction false} LogTellsLivesOfReachable(ops: seq<Op>)
    requires WellTypedOps(ops)
    ensures LogTellsLives(Run(EMPTY, ops))
  {
    if ops != [] {
      var init := ops[..|ops| - 1];
      LogTellsLivesOfReachable(init);
      ReachableIsSound(init);
      ApplyTellsLives(Run(EMPTY, init), ops[|ops| - 1]);
    }
  }

  lemma {:induction false} ModifiedAreModified(r: Ref, columns: seq<Column>, cells: Cells, seen: Cells, e: Change)
    requires e in ModifiedEntries(r, columns, cells, seen)
    ensures e.ref == r && e.kind.Modified?
    decreases columns
  {
    var init := columns[..|columns| - 1];
    if e in ModifiedEntries(r, init, cells, seen) {
      ModifiedAreModified(r, init, cells, seen, e);
    }
  }

  lemma EntriesOfRemoval(db: Database, op: Op)
    requires Sound(db) && WellTypedOp(op)
    ensures forall s :: Change(s, Removed) in Entries(db, op) <==>
      s in db.rows && op.Remove? && s == Ref(Services, op.service)
  {
    if op.Upsert? && Has(db, op.key) {
      var r := Lookup(db, op.key);
      var entries := ModifiedEntries(r, LoggedColumns(r.table), db.rows[r].cells, op.cells);
      assert Entries(db, op) == entries;
      forall s | Change(s, Removed) in entries ensures false {
        ModifiedAreModified(r, LoggedColumns(r.table), db.rows[r].cells, op.cells, Change(s, Removed));
      }
    }
  }

  ghost predicate NoneRemoved(entries: seq<Change>, refs: set<Ref>) {
    forall r :: r in refs ==> Change(r, Removed) !in entries
  }

  lemma StepSurvives(db: Database, op: Op, r: Ref)
    requires Sound(db) && WellTypedOp(op) && r in db.rows
    ensures r in Apply(db, op).rows <==> NoneRemoved(Entries(db, op), {r} + Parents(db.rows[r].key))
  {
    EntriesOfRemoval(db, op);
    assert ParentsLive(db, db.rows[r].key);
    if op.Remove? && r !in Apply(db, op).rows {
      assert Change(Ref(Services, op.service), Removed) in Entries(db, op);
    }
  }

  /** A live row survives a run exactly if the run logs no removal of it or of an owner. */
  lemma {:induction false} SurvivesUnlessRemoved(db: Database, ops: seq<Op>, r: Ref)
    requires Sound(db) && WellTypedOps(ops) && r in db.rows
    ensures r in Run(db, ops).rows <==> NoneRemoved(Since(db, ops), {r} + Parents(db.rows[r].key))
  {
    if ops != [] {
      var init, last := ops[..|ops| - 1], ops[|ops| - 1];
      SurvivesUnlessRemoved(db, init, r);
      if r in Run(db, init).rows {
        RunKeepsSound(db, init);
        KeyPersists(db, init, r);
        StepSurvives(Run(db, init), last, r);
      } else if r in Run(db, ops).rows {
        LiveBefore(db, ops, r);
      }
    }
  }

  /** A row that is gone went with a service: itself or an owner that is gone too. */
  lemma {:induction false} GoneWithService(db: Database, ops: seq<Op>, r: Ref)
    requires Sound(db) && WellTypedOps(ops) && r in db.rows
    ensures r !in Run(db, ops).rows ==>
      exists q :: q in {r} + Parents(db.rows[r].key) && q.table == Services && q !in Run(db, ops).rows
  {
    if ops != [] {
      var init, last := ops[..|ops| - 1], ops[|ops| - 1];
      var before := Run(db, init);
      RunKeepsSound(db, init);
      GoneWithService(db, init, r);
      hide Run, Sound;
      if r !in before.rows {
        var q :| q in {r} + Parents(db.rows[r].key) && q.table == Services && q !in before.rows;
        OwnerWasLive(db, r, q);
        CountersGrow(db, init, q.table);
        StaysGone(before, last, q);
      } else if r !in Apply(before, last).rows {
        KeyPersists(db, init, r);
        RemovedWithService(before, last, r);
      }
    }
  }

  lemma OwnerWasLive(db: Database, r: Ref, q: Ref)
    requires Sound(db) && r in db.rows && q in {r} + Parents(db.rows[r].key)
    ensures q in db.rows && 1 <= q.id < NextId(db, q.table)
  {
    assert ParentsLive(db, db.rows[r].key);
  }

  lemma StaysGone(db: Database, op: Op, q: Ref)
    requires Sound(db) && q !in db.rows && q.id < NextId(db, q.table)
    ensures q !in Apply(db, op).rows
  {
    if q in Apply(db, op).rows {
      NewRowHasNextId(db, op, q);
    }
  }

  lemma RemovedWithService(db: Database, op: Op, r: Ref)
    requires Sound(db) && r in db.rows && r !in Apply(db, op).rows
    ensures exists q :: q in {r} + Parents(db.rows[r].key) && q.table == Services && q !in Apply(db, op).rows
  {
    var gone := Ref(Services, op.service);
    assert gone in {r} + Parents(db.rows[r].key) && gone !in Apply(db, op).rows;
  }

  lemma LogTellsService(db: Database, q: Ref)
    requires LogTellsLives(db) && q.table == Services && 1 <= q.id < NextId(db, q.table)
    ensures PhaseOf(db.log, q) == Alive <==> q in db.rows
  {
    hide PhaseOf;
  }

  /**
   In every reachable store a row that was inserted is live if and only if the log shows no
   removal of a service it is or belongs to.
   */
  lemma LiveWhileOwnersLive(ops: seq<Op>, k: nat, r: Ref)
    requires WellTypedOps(ops) && InsertedAt(ops, k, r)
    ensures r in Run(EMPTY, ops).rows <==>
      forall q :: q in {r} + Parents(ops[k].key) && q.table == Services ==> PhaseOf(Run(EMPTY, ops).log, q) == Alive
  {
    var born, rest, db := Run(EMPTY, ops[..k + 1]), ops[k + 1..], Run(EMPTY, ops);
    assert r in born.rows && born.rows[r].key == ops[k].key;
    WellTypedParts(ops, k + 1);
    hide Run, PhaseOf, Sound, LogTellsLives, NextId, Parents, InsertedAt, WellTypedOps;
    ReachableIsSound(ops[..k + 1]);
    ReachableIsSound(ops);
    RunAppend(EMPTY, ops[..k + 1], rest);
    assert ops == ops[..k + 1] + rest;
    LogTellsLivesOfReachable(ops);
    LiveExactly(born, rest, r);
  }

  lemma WellTypedParts(ops: seq<Op>, k: nat)
    requires WellTypedOps(ops) && k <= |ops|
    ensures WellTypedOps(ops[..k]) && WellTypedOps(ops[k..])
  {
  }

  lemma LiveExactly(born: Database, rest: seq<Op>, r: Ref)
    requires Sound(born) && WellTypedOps(rest) && r in born.rows
    requires Sound(Run(born, rest)) && LogTellsLives(Run(born, rest))
    ensures var db := Run(born, rest);
      r in db.rows <==>
        forall q :: q in {r} + Parents(born.rows[r].key) && q.table == Services ==> PhaseOf(db.log, q) == Alive
  {
    hide Run, PhaseOf, Sound, LogTellsLives, NextId, Parents, WellTypedOps;
    var db := Run(born, rest);
    GoneWithService(born, rest, r);
    forall q | q in {r} + Parents(born.rows[r].key) && q.table == Services
      ensures PhaseOf(db.log, q) == Alive <==> q in db.rows
    {
      OwnerWasLive(born, r, q);
      CountersGrow(born, rest, q.table);
      LogTellsService(db, q);
    }
    if r in db.rows {
      KeyPersists(born, rest, r);
      forall q | q in {r} + Parents(born.rows[r].key) ensures q in db.rows {
        OwnerWasLive(db, r, q);
      }
    }
  }

  // ---- Undoing changes ------------------------------------------------------------------

  predicate IsChangeOf(e: Change, r: Ref, c: Column) {
    e.ref == r && e.kind.Modified? && e.kind.column == c
  }

  /** Walks entries backwards from the text a cell shows now. */
  function Undo(entries: seq<Change>, r: Ref, c: Column, now: Option<string>): Option<string> {
    if entries == [] then now
    else
      var last := entries[|entries| - 1];
      Undo(entries[..|entries| - 1], r, c, if IsChangeOf(last, r, c) then last.kind.oldText else now)
  }

  /** Follows entries forwards; None if one does not continue the chain or changes nothing. */
  function ChainEnd(entries: seq<Change>, r: Ref, c: Column, start: string): Option<string> {
    if entries == [] then Some(start)
    else
      var last := entries[|entries| - 1];
      var text := ChainEnd(entries[..|entries| - 1], r, c, start);
      if !IsChangeOf(last, r, c) then text
      else if text == Some(Show(last.kind.oldText)) && last.kind.oldText != Some(last.kind.newText)
      then Some(last.kind.newText)
      else None
  }

  lemma {:induction false} UndoConcat(a: seq<Change>, b: seq<Change>, r: Ref, c: Column, now: Option<string>)
    ensures Undo(a + b, r, c, now) == Undo(a, r, c, Undo(b, r, c, now))
    decreases b
  {
    if b == [] {
      assert a + b == a;
    } else {
      var last := b[|b| - 1];
      assert (a + b)[..|a + b| - 1] == a + b[..|b| - 1];
      UndoConcat(a, b[..|b| - 1], r, c, if IsChangeOf(last, r, c) then last.kind.oldText else now);
    }
  }

  lemma {:induction false} ChainConcat(a: seq<Change>, b: seq<Change>, r: Ref, c: Column, start: string)
    requires ChainEnd(a, r, c, start).Some?
    ensures ChainEnd(a + b, r, c, start) == ChainEnd(b, r, c, ChainEnd(a, r, c, start).value)
    decreases b
  {
    if b == [] {
      assert a + b == a;
    } else {
      assert (a + b)[..|a + b| - 1] == a + b[..|b| - 1];
      ChainConcat(a, b[..|b| - 1], r, c, start);
    }
  }

  /** Entries about other cells neither undo to nor chain to anything new. */
  lemma {:induction false} OtherEntries(entries: seq<Change>, r: Ref, c: Column, now: Option<string>, start: string)
    requires forall e :: e in entries ==> !IsChangeOf(e, r, c)
    ensures Undo(entries, r, c, now) == now && ChainEnd(entries, r, c, start) == Some(start)
  {
    if entries != [] {
      OtherEntries(entries[..|entries| - 1], r, c, now, start);
    }
  }

  predicate Recorded(r: Ref, c: Column, cells: Cells, seen: Cells) {
    c in seen && Differs(r.table, cells, c, seen[c])
  }

  /** A logged change is a change of text, and the chain continues from the old text. */
  lemma EntryForOne(r: Ref, c: Column, cells: Cells, seen: Cells, now: Option<string>)
    requires WellTyped(r.table, cells) && WellTyped(r.table, seen) && Logged(r.table, c)
    ensures Undo(EntryFor(r, c, cells, seen), r, c, now)
      == if Recorded(r, c, cells, seen) then CellText(cells, c) else now
    ensures ChainEnd(EntryFor(r, c, cells, seen), r, c, Show(CellText(cells, c)))
      == Some(if Recorded(r, c, cells, seen) then Str(seen[c]) else Show(CellText(cells, c)))
  {
    var entries := EntryFor(r, c, cells, seen);
    if entries != [] {
      assert entries[..0] == [];
    }
  }

  /** What one upsert's entries say about a logged column of the row it updates. */
  lemma {:induction false} ModifiedEntriesOf(r: Ref, columns: seq<Column>, cells: Cells, seen: Cells, c: Column,
                                             now: Option<string>)
    requires forall i, j :: 0 <= i < j < |columns| ==> columns[i] != columns[j]
    requires WellTyped(r.table, cells) && WellTyped(r.table, seen)
    requires c in columns && Logged(r.table, c)
    ensures Undo(ModifiedEntries(r, columns, cells, seen), r, c, now)
      == if Recorded(r, c, cells, seen) then CellText(cells, c) else now
    ensures ChainEnd(ModifiedEntries(r, columns, cells, seen), r, c, Show(CellText(cells, c)))
      == Some(if Recorded(r, c, cells, seen) then Str(seen[c]) else Show(CellText(cells, c)))
    decreases columns
  {
    var init, d := columns[..|columns| - 1], columns[|columns| - 1];
    var front, back := ModifiedEntries(r, init, cells, seen), EntryFor(r, d, cells, seen);
    var shown := Show(CellText(cells, c));
    if d == c {
      EntryForOne(r, c, cells, seen, now);
      OthersUnmodified(r, init, cells, seen, r, c);
      OtherEntries(front, r, c, if Recorded(r, c, cells, seen) then CellText(cells, c) else now, shown);
    } else {
      ModifiedEntriesOf(r, init, cells, seen, c, now);
      var text := ChainEnd(front, r, c, shown).value;
      OtherEntries(back, r, c, now, text);
    }
    UndoConcat(front, back, r, c, now);
    ChainConcat(front, back, r, c, shown);
  }

  lemma {:induction false} OthersUnmodified(r: Ref, columns: seq<Column>, cells: Cells, seen: Cells, s: Ref, c: Column)
    requires s != r || c !in columns
    ensures forall e :: e in ModifiedEntries(r, columns, cells, seen) ==> !IsChangeOf(e, s, c)
    decreases columns
  {
    if columns != [] {
      OthersUnmodified(r, columns[..|columns| - 1], cells, seen, s, c);
    }
  }

  lemma {:induction false} ModifiedColumns(r: Ref, columns: seq<Column>, cells: Cells, seen: Cells, e: Change)
    requires e in ModifiedEntries(r, columns, cells, seen)
    ensures e.ref == r && e.kind.Modified? && e.kind.column in columns
    decreases columns
  {
    var init := columns[..|columns| - 1];
    if e in ModifiedEntries(r, init, cells, seen) {
      ModifiedColumns(r, init, cells, seen, e);
    }
  }

  lemma CallLogsLoggedColumns(db: Database, op: Op, e: Change)
    requires e in Entries(db, op) && e.kind.Modified?
    ensures Logged(e.ref.table, e.kind.column)
  {
    if op.Upsert? && Has(db, op.key) {
      var r := Lookup(db, op.key);
      assert Entries(db, op) == ModifiedEntries(r, LoggedColumns(r.table), db.rows[r].cells, op.cells);
      ModifiedColumns(r, LoggedColumns(r.table), db.rows[r].cells, op.cells, e);
    }
  }

  /** A modified entry is about a column of its table, never a bind address, a file time or a detail. */
  lemma {:induction false} OnlyLoggedColumnsAreLogged(db: Database, ops: seq<Op>, e: Change)
    requires e in Since(db, ops) && e.kind.Modified?
    ensures e.kind.column in ColumnsOf(e.ref.table)
    ensures e.kind.column != BindAddress && e.kind.column != LastModified && e.kind.column != Detail
  {
    var init, last := ops[..|ops| - 1], ops[|ops| - 1];
    if e in Since(db, init) {
      OnlyLoggedColumnsAreLogged(db, init, e);
    } else {
      CallLogsLoggedColumns(Run(db, init), last, e);
    }
  }

  /** The first non-null value the calls report for a column of a key. */
  function FirstSeen(ops: seq<Op>, key: Key, c: Column): Option<Value> {
    if ops == [] then None
    else
      var before := FirstSeen(ops[..|ops| - 1], key, c);
      var last := ops[|ops| - 1];
      if before.None? && Observes(last, key, c) then Some(last.cells[c]) else before
  }

  predicate ComparesText(table: Table) {
    table != Ports && table != ConfigFiles
  }

  /** The observation the log cannot tell from "no value": the literal text "None" on a NULL cell. */
  predicate Unrecorded(table: Table, cells: Cells, c: Column, seen: Option<Value>) {
    ComparesText(table) && c !in cells && seen == Some(Text(NONE_TEXT))
  }

  ghost function TextIn(db: Database, r: Ref, c: Column): Option<string>
    requires r in db.rows
  {
    CellText(db.rows[r].cells, c)
  }

  /** A call that does not hit row `r` logs no change of it. */
  lemma MissLogsNothing(db: Database, op: Op, r: Ref, c: Column)
    requires Sound(db) && WellTypedOp(op) && r in db.rows
    requires !(op.Upsert? && Matches(db.rows[r].key, op.key))
    ensures forall e :: e in Entries(db, op) ==> !IsChangeOf(e, r, c)
  {
    if op.Upsert? && Has(db, op.key) {
      var s := Lookup(db, op.key);
      assert Entries(db, op) == ModifiedEntries(s, LoggedColumns(s.table), db.rows[s].cells, op.cells);
      OthersUnmodified(s, LoggedColumns(s.table), db.rows[s].cells, op.cells, r, c);
    }
  }

  /** A call that hits row `r` logs a change of column `c` exactly if its value differs. */
  lemma HitLogsChange(db: Database, op: Op, r: Ref, c: Column, now: Option<string>)
    requires Sound(db) && WellTypedOp(op) && r in db.rows && Logged(r.table, c)
    requires op.Upsert? && Matches(db.rows[r].key, op.key)
    ensures Undo(Entries(db, op), r, c, now)
      == if Recorded(r, c, db.rows[r].cells, op.cells) then TextIn(db, r, c) else now
    ensures ChainEnd(Entries(db, op), r, c, Show(TextIn(db, r, c)))
      == Some(if Recorded(r, c, db.rows[r].cells, op.cells) then Str(op.cells[c]) else Show(TextIn(db, r, c)))
  {
    LookupIsUnique(db, op.key, r);
    assert Entries(db, op) == ModifiedEntries(r, LoggedColumns(r.table), db.rows[r].cells, op.cells);
    ModifiedEntriesOf(r, LoggedColumns(r.table), db.rows[r].cells, op.cells, c, now);
  }

  lemma LoggedTables(table: Table, c: Column)
    requires Logged(table, c)
    ensures table != Dependencies
  {
  }

  /** An observation that does not differ repeats the text the cell shows. */
  lemma SameShows(table: Table, cells: Cells, c: Column, seen: Value)
    requires !Differs(table, cells, c, seen)
    ensures Show(CellText(cells, c)) == Str(seen)
    ensures CellText(cells, c) != Some(Str(seen)) ==> Unrecorded(table, cells, c, Some(seen)) && Str(seen) == NONE_TEXT
  {
    OnlyTextPrintsAsNone(seen);
    hide Decimal;
  }

  lemma DifferentIsRecorded(table: Table, cells: Cells, c: Column, seen: Value)
    requires Differs(table, cells, c, seen)
    ensures !Unrecorded(table, cells, c, Some(seen))
  {
  }

  lemma SameHasText(table: Table, cells: Cells, c: Column, seen: Value)
    requires !Differs(table, cells, c, seen) && CellText(cells, c) == Some(Str(seen))
    ensures !Unrecorded(table, cells, c, Some(seen))
  {
  }

  /** The text of a cell after a call that hits its row. */
  lemma TextAfterHit(db: Database, op: Op, r: Ref, c: Column)
    requires Sound(db) && WellTypedOp(op) && r.table != Dependencies
    requires r in db.rows && r in Apply(db, op).rows && op.Upsert? && Matches(db.rows[r].key, op.key)
    ensures TextIn(Apply(db, op), r, c) == if c in op.cells then Some(Str(op.cells[c])) else TextIn(db, r, c)
  {
    hide Sound, Apply, Matches, WellTypedOp, Str;
    RowAfterApply(db, op, r);
  }

  lemma TextAfterMiss(db: Database, op: Op, r: Ref, c: Column)
    requires Sound(db) && WellTypedOp(op)
    requires r in db.rows && r in Apply(db, op).rows && !(op.Upsert? && Matches(db.rows[r].key, op.key))
    ensures TextIn(Apply(db, op), r, c) == TextIn(db, r, c)
  {
    hide Sound, Apply, Matches, WellTypedOp, Str;
    RowAfterApply(db, op, r);
  }

  lemma StepOfLog(db: Database, op: Op, r: Ref, c: Column)
    requires Sound(db) && WellTypedOp(op) && Logged(r.table, c)
    requires r in db.rows && r in Apply(db, op).rows
    ensures Undo(Entries(db, op), r, c, TextIn(Apply(db, op), r, c))
      == if Observes(op, db.rows[r].key, c) && Unrecorded(r.table, db.rows[r].cells, c, Some(op.cells[c]))
         then Some(NONE_TEXT) else TextIn(db, r, c)
    ensures ChainEnd(Entries(db, op), r, c, Show(TextIn(db, r, c))) == Some(Show(TextIn(Apply(db, op), r, c)))
  {
    LoggedTables(r.table, c);
    hide Sound, Apply, Matches, WellTypedOp, Logged, Entries, Undo, ChainEnd, Differs, Unrecorded, Str, CellText;
    var after := TextIn(Apply(db, op), r, c);
    if op.Upsert? && Matches(db.rows[r].key, op.key) {
      HitLogsChange(db, op, r, c, after);
      TextAfterHit(db, op, r, c);
      if c in op.cells {
        if Differs(r.table, db.rows[r].cells, c, op.cells[c]) {
          DifferentIsRecorded(r.table, db.rows[r].cells, c, op.cells[c]);
        } else {
          SameShows(r.table, db.rows[r].cells, c, op.cells[c]);
          if TextIn(db, r, c) == after {
            SameHasText(r.table, db.rows[r].cells, c, op.cells[c]);
          }
        }
      }
    } else {
      MissLogsNothing(db, op, r, c);
      TextAfterMiss(db, op, r, c);
      OtherEntries(Entries(db, op), r, c, after, Show(TextIn(db, r, c)));
    }
  }

  /** While a cell is NULL nothing has been observed or logged for it. */
  lemma {:induction false} NothingLoggedForNull(db: Database, ops: seq<Op>, r: Ref, c: Column, now: Option<string>)
    requires Sound(db) && WellTypedOps(ops) && Logged(r.table, c)
    requires r in db.rows && r in Run(db, ops).rows
    requires c !in Run(db, ops).rows[r].cells
    ensures c !in db.rows[r].cells && FirstSeen(ops, db.rows[r].key, c) == None
    ensures Undo(Since(db, ops), r, c, now) == now
  {
    if ops != [] {
      var init, last := ops[..|ops| - 1], ops[|ops| - 1];
      var before := Run(db, init);
      LiveBefore(db, ops, r);
      RowAfterApply(before, last, r);
      KeyPersists(db, init, r);
      NothingLoggedForNull(db, init, r, c, now);
      QuietStep(before, last, r, c, now);
      UndoConcat(Since(db, init), Entries(before, last), r, c, now);
    }
  }

  lemma QuietStep(db: Database, op: Op, r: Ref, c: Column, now: Option<string>)
    requires Sound(db) && WellTypedOp(op) && Logged(r.table, c)
    requires r in db.rows && r in Apply(db, op).rows && c !in Apply(db, op).rows[r].cells
    ensures Undo(Entries(db, op), r, c, now) == now && !Observes(op, db.rows[r].key, c)
  {
    hide Sound, Apply, Matches, WellTyped, Entries, Undo;
    RowAfterApply(db, op, r);
    if op.Upsert? && Matches(db.rows[r].key, op.key) {
      HitLogsChange(db, op, r, c, now);
    } else {
      MissLogsNothing(db, op, r, c);
      OtherEntries(Entries(db, op), r, c, now, "");
    }
  }

  /**
   Walking the log back over any run recovers what a logged cell held before it -- exactly
   unless the cell was NULL and the first value observed for it was the text "None".
   */
  lemma {:induction false} UndoRecovers(db: Database, ops: seq<Op>, r: Ref, c: Column)
    requires Sound(db) && WellTypedOps(ops) && Logged(r.table, c)
    requires r in db.rows && r in Run(db, ops).rows
    ensures Undo(Since(db, ops), r, c, TextIn(Run(db, ops), r, c)) == TextIn(db, r, c)
      <==> !Unrecorded(r.table, db.rows[r].cells, c, FirstSeen(ops, db.rows[r].key, c))
    ensures Show(Undo(Since(db, ops), r, c, TextIn(Run(db, ops), r, c))) == Show(TextIn(db, r, c))
  {
    if ops != [] {
      hide Sound, Apply, Matches, WellTypedOp, Logged, Entries;
      var init, last := ops[..|ops| - 1], ops[|ops| - 1];
      var before := Run(db, init);
      LiveBefore(db, ops, r);
      KeyPersists(db, init, r);
      UndoRecovers(db, init, r, c);
      StepOfLog(before, last, r, c);
      var middle := Undo(Entries(before, last), r, c, TextIn(Run(db, ops), r, c));
      UndoConcat(Since(db, init), Entries(before, last), r, c, TextIn(Run(db, ops), r, c));
      if c in before.rows[r].cells {
        if c !in db.rows[r].cells && FirstSeen(init, db.rows[r].key, c).None? {
          NeverSeenStaysNull(db, init, r, c);
          assert false;
        }
      } else {
        NothingLoggedForNull(db, init, r, c, middle);
      }
    }
  }

  /** A node stored without a role and then seen with the role "None": the log does not show the change. */
  lemma NoneTextIsLost(hostname: string, stored: string, seen: string)
    ensures
      var first := Upsert(NodeKey(hostname), map[], stored);
      var second := Upsert(NodeKey(hostname), map[Role := Text(NONE_TEXT)], seen);
      var db, r := Apply(EMPTY, first), Ref(Nodes, 1);
      && r in db.rows && r in Run(db, [second]).rows
      && TextIn(db, r, Role) == None && TextIn(Run(db, [second]), r, Role) == Some(NONE_TEXT)
      && Undo(Since(db, [second]), r, Role, Some(NONE_TEXT)) != TextIn(db, r, Role)
  {
    var first := Upsert(NodeKey(hostname), map[], stored);
    var second := Upsert(NodeKey(hostname), map[Role := Text(NONE_TEXT)], seen);
    var db, r, ops := Apply(EMPTY, first), Ref(Nodes, 1), [second];
    assert !Has(EMPTY, first.key) && db == InsertRow(EMPTY, r, Row(first.key, first.cells, stored));
    ApplyKeepsSound(EMPTY, first);
    assert ops[..0] == [] && Run(db, ops) == Apply(db, second);
    assert Matches(db.rows[r].key, second.key);
    LookupIsUnique(db, second.key, r);
    RowAfterApply(db, second, r);
    assert FirstSeen(ops[..0], first.key, Role) == None;
    UndoRecovers(db, ops, r, Role);
  }

  lemma {:induction false} NeverSeenStaysNull(db: Database, ops: seq<Op>, r: Ref, c: Column)
    requires Sound(db) && WellTypedOps(ops) && r in db.rows && r in Run(db, ops).rows
    requires c !in db.rows[r].cells && FirstSeen(ops, db.rows[r].key, c).None?
    ensures c !in Run(db, ops).rows[r].cells
  {
    if ops != [] {
      var init := ops[..|ops| - 1];
      LiveBefore(db, ops, r);
      KeyPersists(db, init, r);
      NeverSeenStaysNull(db, init, r, c);
      RowAfterApply(Run(db, init), ops[|ops| - 1], r);
    }
  }

  /**
   For each logged cell the run's entries form a chain: each starts where the previous one
   ended, each records a real change, and the last one ends at the text the cell now shows.
   */
  lemma {:induction false} ModificationsChain(db: Database, ops: seq<Op>, r: Ref, c: Column)
    requires Sound(db) && WellTypedOps(ops) && Logged(r.table, c)
    requires r in db.rows && r in Run(db, ops).rows
    ensures ChainEnd(Since(db, ops), r, c, Show(TextIn(db, r, c))) == Some(Show(TextIn(Run(db, ops), r, c)))
  {
    if ops != [] {
      var init, last := ops[..|ops| - 1], ops[|ops| - 1];
      LiveBefore(db, ops, r);
      ModificationsChain(db, init, r, c);
      StepOfLog(Run(db, init), last, r, c);
      ChainConcat(Since(db, init), Entries(Run(db, init), last), r, c, Show(TextIn(db, r, c)));
    }
  }
}
