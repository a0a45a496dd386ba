/**
 Repeating a batch of upserts leaves every table as it was, apart from the stamps, and logs
 nothing exactly if the batch does not contradict itself.
 */
module Replay {
  import opened Options
  import opened Schema
  import opened StoreSpec
  import opened Observations
  import opened ChangeLog

  /** Upserts that are all accepted where they stand, none of an ownerless port or config file. */
  ghost predicate Batch(db: Database, ops: seq<Op>) {
    forall i :: 0 <= i < |ops| ==> InBatch(Run(db, ops[..i]), ops[i])
  }

  ghost predicate InBatch(db: Database, op: Op) {
    op.Upsert? && WellTypedOp(op) && Matches(op.key, op.key) && Accepts(db, op.key)
  }

  predicate SameObservation(a: Op, b: Op) {
    a.Upsert? && b.Upsert? && a.key == b.key && a.cells == b.cells
  }

  /** Equal up to the time stamps. */
  predicate SameObservations(a: seq<Op>, b: seq<Op>) {
    |a| == |b| && forall i :: 0 <= i < |a| ==> SameObservation(a[i], b[i])
  }

  predicate Compatible(a: Op, b: Op, c: Column) {
    a.Upsert? && b.Upsert? && Matches(a.key, b.key) && c in a.cells && c in b.cells ==>
      Str(a.cells[c]) == Str(b.cells[c])
  }

  /** No two observations of one key report different texts for a logged column. */
  predicate Consistent(ops: seq<Op>) {
    forall i, j, c :: 0 <= i < j < |ops| && ops[i].Upsert? && Logged(TableOf(ops[i].key), c) ==>
      Compatible(ops[i], ops[j], c)
  }

  predicate SameRow(a: Row, b: Row) {
    a.key == b.key && a.cells == b.cells
  }

  /** Equal tables and counters, apart from time stamps. */
  predicate SameTables(a: Database, b: Database) {
    && a.rows.Keys == b.rows.Keys
    && (forall r :: r in a.rows ==> SameRow(a.rows[r], b.rows[r]))
    && a.next == b.next
  }

  lemma BatchPrefix(db: Database, ops: seq<Op>)
    requires Batch(db, ops) && ops != []
    ensures Batch(db, ops[..|ops| - 1])
    ensures InBatch(Run(db, ops[..|ops| - 1]), ops[|ops| - 1])
  {
    var init := ops[..|ops| - 1];
    forall i | 0 <= i < |init| ensures InBatch(Run(db, init[..i]), init[i]) {
      assert init[..i] == ops[..i];
    }
  }

  lemma UpsertKeepsRows(db: Database, op: Op)
    requires Sound(db) && op.Upsert?
    ensures forall r :: r in db.rows ==> r in Apply(db, op).rows && Apply(db, op).rows[r].key == db.rows[r].key
  {
  }

  lemma UpsertFindsRow(db: Database, op: Op)
    requires InBatch(db, op)
    ensures Has(Apply(db, op), op.key)
  {
    if Has(db, op.key) {
      assert Lookup(db, op.key) in Apply(db, op).rows;
    } else {
      assert Target(db, op.key) in Apply(db, op).rows;
    }
  }

  lemma UpsertKeepsHas(db: Database, op: Op, key: Key)
    requires Sound(db) && op.Upsert? && Has(db, key)
    ensures Has(Apply(db, op), key)
  {
    var r := Lookup(db, key);
    UpsertKeepsRows(db, op);
    assert r in Apply(db, op).rows && Matches(Apply(db, op).rows[r].key, key);
  }

  lemma BatchIsSound(db: Database, ops: seq<Op>)
    requires Sound(db) && Batch(db, ops)
    ensures WellTypedOps(ops) && Sound(Run(db, ops))
  {
    forall i | 0 <= i < |ops| ensures WellTypedOp(ops[i]) {
      assert InBatch(Run(db, ops[..i]), ops[i]);
    }
    RunKeepsSound(db, ops);
  }

  /** After a batch, every key it observed has a row. */
  lemma {:induction false} BatchIsStored(db: Database, ops: seq<Op>, i: nat)
    requires Sound(db) && Batch(db, ops) && i < |ops|
    ensures ops[i].Upsert? && Has(Run(db, ops), ops[i].key)
  {
    var init, last := ops[..|ops| - 1], ops[|ops| - 1];
    BatchPrefix(db, ops);
    if i == |ops| - 1 {
      UpsertFindsRow(Run(db, init), last);
    } else {
      BatchIsStored(db, init, i);
      BatchIsSound(db, init);
      UpsertKeepsHas(Run(db, init), last, ops[i].key);
    }
  }

  lemma {:induction false} LastSeenIsObserved(ops: seq<Op>, key: Key, c: Column) returns (i: nat)
    requires LastSeen(ops, key, c).Some?
    ensures i < |ops| && Observes(ops[i], key, c) && LastSeen(ops, key, c) == Some(ops[i].cells[c])
  {
    if Observes(ops[|ops| - 1], key, c) {
      i := |ops| - 1;
    } else {
      i := LastSeenIsObserved(ops[..|ops| - 1], key, c);
    }
  }

  lemma {:induction false} ObservedIsSeen(ops: seq<Op>, key: Key, c: Column, i: nat)
    requires i < |ops| && Observes(ops[i], key, c)
    ensures LastSeen(ops, key, c).Some?
  {
    if i < |ops| - 1 {
      ObservedIsSeen(ops[..|ops| - 1], key, c, i);
    }
  }

  /** A key observed by the batch so far names a row that is already there. */
  lemma ObservedRowIsOld(db: Database, ops: seq<Op>, last: Op, r: Ref, i: nat)
    requires Sound(db) && Batch(db, ops) && InBatch(Run(db, ops), last)
    requires r in Apply(Run(db, ops), last).rows && i < |ops|
    requires Matches(Apply(Run(db, ops), last).rows[r].key, ops[i].key)
    ensures r in Run(db, ops).rows
  {
    var before := Run(db, ops);
    BatchIsSound(db, ops);
    BatchIsStored(db, ops, i);
    UpsertKeepsRows(before, last);
    ApplyKeepsSound(before, last);
    var s := Lookup(before, ops[i].key);
    assert Matches(Apply(before, last).rows[r].key, Apply(before, last).rows[s].key);
  }

  predicate IsUpsert(op: Op) {
    op.Upsert? && WellTypedOp(op)
  }

  lemma CellAfterUpsert(db: Database, op: Op, r: Ref, c: Column)
    requires Sound(db) && IsUpsert(op) && r in Apply(db, op).rows && r.table != Dependencies
    ensures Observes(op, Apply(db, op).rows[r].key, c) ==> Cell(Apply(db, op).rows[r].cells, c) == Some(op.cells[c])
    ensures !Observes(op, Apply(db, op).rows[r].key, c) && r in db.rows ==>
      Apply(db, op).rows[r].key == db.rows[r].key
      && Cell(Apply(db, op).rows[r].cells, c) == Cell(db.rows[r].cells, c)
  {
    if r in db.rows {
      hide Apply, Sound, Matches;
      RowAfterApply(db, op, r);
    } else {
      hide Sound, Matches;
    }
  }

  /** The last value a batch reports is what the row holds, whoever inserted it. */
  lemma {:induction false} LastSeenIsStored(db: Database, ops: seq<Op>, r: Ref, c: Column)
    requires Sound(db) && Batch(db, ops) && r in Run(db, ops).rows && r.table != Dependencies
    requires LastSeen(ops, Run(db, ops).rows[r].key, c).Some?
    ensures Cell(Run(db, ops).rows[r].cells, c) == LastSeen(ops, Run(db, ops).rows[r].key, c)
  {
    var init, last := ops[..|ops| - 1], ops[|ops| - 1];
    var key := Run(db, ops).rows[r].key;
    BatchPrefix(db, ops);
    BatchIsSound(db, init);
    CellAfterUpsert(Run(db, init), last, r, c);
    if !Observes(last, key, c) {
      var i := LastSeenIsObserved(init, key, c);
      ObservedRowIsOld(db, init, last, r, i);
      LastSeenIsStored(db, init, r, c);
    }
  }

  // ---- A store that already holds a batch -----------------------------------------------

  ghost predicate HoldsLast(db: Database, ops: seq<Op>, r: Ref, c: Column)
    requires r in db.rows
  {
    var seen := LastSeen(ops, db.rows[r].key, c);
    seen.Some? && r.table != Dependencies ==> Cell(db.rows[r].cells, c) == seen
  }

  /** Every key of the batch has a row, and the row holds the batch's last word on each cell. */
  ghost predicate Settled(db: Database, ops: seq<Op>) {
    && Sound(db)
    && (forall i :: 0 <= i < |ops| ==> IsUpsert(ops[i]) && Has(db, ops[i].key))
    && (forall r, c :: r in db.rows ==> HoldsLast(db, ops, r, c))
  }

  lemma BatchSettles(db: Database, ops: seq<Op>)
    requires Sound(db) && Batch(db, ops)
    ensures Settled(Run(db, ops), ops)
  {
    BatchIsSound(db, ops);
    forall i | 0 <= i < |ops| ensures IsUpsert(ops[i]) && Has(Run(db, ops), ops[i].key) {
      BatchIsStored(db, ops, i);
    }
    forall r, c | r in Run(db, ops).rows ensures HoldsLast(Run(db, ops), ops, r, c) {
      if r.table != Dependencies && LastSeen(ops, Run(db, ops).rows[r].key, c).Some? {
        LastSeenIsStored(db, ops, r, c);
      }
    }
  }

  lemma {:induction false} LastSeenIgnoresStamps(a: seq<Op>, b: seq<Op>, key: Key, c: Column)
    requires SameObservations(a, b)
    ensures LastSeen(a, key, c) == LastSeen(b, key, c)
  {
    if a != [] {
      assert SameObservation(a[|a| - 1], b[|b| - 1]);
      assert forall i :: 0 <= i < |a| - 1 ==> a[..|a| - 1][i] == a[i] && b[..|b| - 1][i] == b[i];
      LastSeenIgnoresStamps(a[..|a| - 1], b[..|b| - 1], key, c);
    }
  }

  lemma SettledIgnoresStamps(db: Database, a: seq<Op>, b: seq<Op>)
    requires Settled(db, a) && SameObservations(a, b)
    ensures Settled(db, b)
    ensures Consistent(a) <==> Consistent(b)
  {
    forall i | 0 <= i < |b| ensures SameObservation(a[i], b[i]) {
    }
    forall r, c | r in db.rows ensures HoldsLast(db, b, r, c) {
      assert HoldsLast(db, a, r, c);
      LastSeenIgnoresStamps(a, b, db.rows[r].key, c);
    }
    assert forall i, j, c :: 0 <= i < j < |a| ==> Compatible(a[i], a[j], c) == Compatible(b[i], b[j], c);
  }

  lemma KnownKeyKeepsRows(db: Database, op: Op)
    requires Sound(db) && IsUpsert(op) && Has(db, op.key)
    ensures Sound(Apply(db, op)) && Apply(db, op).rows.Keys == db.rows.Keys && Apply(db, op).next == db.next
    ensures forall r :: r in db.rows ==> Apply(db, op).rows[r].key == db.rows[r].key
  {
    ApplyKeepsSound(db, op);
    UpsertKeepsRows(db, op);
    hide Sound, Matches, WellTyped;
  }

  /** Upserts of keys that all have rows insert nothing. */
  lemma {:induction false} KnownKeysKeepRows(db: Database, ops: seq<Op>)
    requires Sound(db)
    requires forall i :: 0 <= i < |ops| ==> IsUpsert(ops[i]) && Has(db, ops[i].key)
    ensures Sound(Run(db, ops)) && WellTypedOps(ops)
    ensures Run(db, ops).rows.Keys == db.rows.Keys && Run(db, ops).next == db.next
    ensures forall r :: r in db.rows ==> Run(db, ops).rows[r].key == db.rows[r].key
  {
    if ops != [] {
      hide Sound, Apply, WellTypedOp, Matches;
      var init, last := ops[..|ops| - 1], ops[|ops| - 1];
      KnownKeysKeepRows(db, init);
      assert Has(db, last.key);
      var r := Lookup(db, last.key);
      assert r in Run(db, init).rows && Matches(Run(db, init).rows[r].key, last.key);
      KnownKeyKeepsRows(Run(db, init), last);
    }
  }

  lemma CellsExtensional(a: Cells, b: Cells)
    requires forall c: Column :: Cell(a, c) == Cell(b, c)
    ensures a == b
  {
    forall c: Column ensures (c in a <==> c in b) && (c in a ==> a[c] == b[c]) {
      assert Cell(a, c) == Cell(b, c);
    }
  }

  lemma SettledKeepsTables(db: Database, ops: seq<Op>)
    requires Settled(db, ops)
    ensures SameTables(db, Run(db, ops))
  {
    KnownKeysKeepRows(db, ops);
    forall r | r in db.rows ensures SameRow(db.rows[r], Run(db, ops).rows[r]) {
      forall c: Column ensures Cell(db.rows[r].cells, c) == Cell(Run(db, ops).rows[r].cells, c) {
        assert HoldsLast(db, ops, r, c);
        CellIsLastSeen(db, ops, r, c);
      }
      CellsExtensional(db.rows[r].cells, Run(db, ops).rows[r].cells);
    }
  }

  // ---- When the second pass is silent ---------------------------------------------------

  lemma {:induction false} NoEntriesMeansNoneDiffer(r: Ref, columns: seq<Column>, cells: Cells, seen: Cells)
    ensures ModifiedEntries(r, columns, cells, seen) == [] <==>
      forall c :: c in columns ==> !Recorded(r, c, cells, seen)
    decreases columns
  {
    if columns != [] {
      var init, d := columns[..|columns| - 1], columns[|columns| - 1];
      assert forall c :: c in columns <==> c in init || c == d;
      NoEntriesMeansNoneDiffer(r, init, cells, seen);
      assert EntryFor(r, d, cells, seen) == [] <==> !Recorded(r, d, cells, seen);
      assert |ModifiedEntries(r, columns, cells, seen)|
          == |ModifiedEntries(r, init, cells, seen)| + |EntryFor(r, d, cells, seen)|;
    }
  }

  ghost predicate SilentAt(db: Database, ops: seq<Op>, k: nat)
    requires k < |ops|
  {
    Entries(Run(db, ops[..k]), ops[k]) == []
  }

  lemma SinceGrows(db: Database, ops: seq<Op>)
    requires ops != []
    ensures Since(db, ops) == [] <==> Since(db, ops[..|ops| - 1]) == [] && SilentAt(db, ops, |ops| - 1)
  {
    var entries := Entries(Run(db, ops[..|ops| - 1]), ops[|ops| - 1]);
    assert |Since(db, ops)| == |Since(db, ops[..|ops| - 1])| + |entries|;
  }

  lemma {:induction false} SilentRunAt(db: Database, ops: seq<Op>, k: nat)
    requires Since(db, ops) == [] && k < |ops|
    ensures SilentAt(db, ops, k) && Entries(Run(db, ops[..k]), ops[k]) == []
  {
    SinceGrows(db, ops);
    if k < |ops| - 1 {
      SilentRunAt(db, ops[..|ops| - 1], k);
      assert ops[..|ops| - 1][..k] == ops[..k];
    }
  }

  lemma {:induction false} SilentSteps(db: Database, ops: seq<Op>)
    requires forall k :: 0 <= k < |ops| ==> SilentAt(db, ops, k)
    ensures Since(db, ops) == []
  {
    if ops != [] {
      var init := ops[..|ops| - 1];
      forall k | 0 <= k < |init| ensures SilentAt(db, init, k) {
        assert init[..k] == ops[..k] && SilentAt(db, ops, k);
      }
      SilentSteps(db, init);
      SinceGrows(db, ops);
    }
  }

  /** Part-way through the second pass no row has come or gone. */
  lemma MidPass(db: Database, ops: seq<Op>, k: nat)
    requires Settled(db, ops) && k <= |ops|
    ensures Sound(Run(db, ops[..k])) && WellTypedOps(ops[..k])
    ensures Run(db, ops[..k]).rows.Keys == db.rows.Keys
    ensures forall r :: r in db.rows ==> Run(db, ops[..k]).rows[r].key == db.rows[r].key
  {
    forall i | 0 <= i < k ensures IsUpsert(ops[..k][i]) && Has(db, ops[..k][i].key) {
      assert IsUpsert(ops[i]);
    }
    KnownKeysKeepRows(db, ops[..k]);
  }

  /** Just before step `k` each cell that step observes holds a value some step reported. */
  lemma HitCell(db: Database, ops: seq<Op>, k: nat, r: Ref, c: Column) returns (i: nat)
    requires Settled(db, ops) && k < |ops| && r in db.rows && r in Run(db, ops[..k]).rows
    requires Observes(ops[k], db.rows[r].key, c) && r.table != Dependencies
    ensures i < |ops| && Observes(ops[i], db.rows[r].key, c)
    ensures Cell(Run(db, ops[..k]).rows[r].cells, c) == Some(ops[i].cells[c])
  {
    hide Run, Sound, Matches, WellTyped;
    var key := db.rows[r].key;
    MidPass(db, ops, k);
    CellIsLastSeen(db, ops[..k], r, c);
    if LastSeen(ops[..k], key, c).Some? {
      i := LastSeenIsObserved(ops[..k], key, c);
    } else {
      ObservedIsSeen(ops, key, c, k);
      assert HoldsLast(db, ops, r, c);
      i := LastSeenIsObserved(ops, key, c);
    }
  }

  lemma MatchesIsTransitive(stored: Key, a: Key, b: Key)
    requires Matches(stored, a) && Matches(stored, b)
    ensures Matches(a, b) && Matches(b, a) && TableOf(a) == TableOf(b) == TableOf(stored)
  {
  }

  lemma SameTextDoesNotDiffer(t: Table, cells: Cells, seen: Cells, c: Column)
    requires WellTyped(t, cells) && WellTyped(t, seen) && c in cells && c in seen && Logged(t, c)
    ensures Differs(t, cells, c, seen[c]) <==> Str(cells[c]) != Str(seen[c])
  {
  }

  /** Two steps of a consistent batch that observe one cell report the same text. */
  lemma ConsistentSteps(key: Key, ops: seq<Op>, i: nat, k: nat, c: Column)
    requires Consistent(ops) && i < |ops| && k < |ops| && Logged(TableOf(key), c)
    requires Observes(ops[i], key, c) && Observes(ops[k], key, c)
    ensures Str(ops[i].cells[c]) == Str(ops[k].cells[c])
  {
    MatchesIsTransitive(key, ops[i].key, ops[k].key);
    hide Matches;
    assert i < k ==> Compatible(ops[i], ops[k], c);
    assert k < i ==> Compatible(ops[k], ops[i], c);
  }

  lemma SettledTypes(db: Database, ops: seq<Op>, k: nat, r: Ref)
    requires Settled(db, ops) && k < |ops| && r in db.rows && Matches(db.rows[r].key, ops[k].key)
    ensures TableOf(db.rows[r].key) == r.table && WellTyped(r.table, ops[k].cells) && ops[k].Upsert?
    ensures r in Run(db, ops[..k]).rows && WellTyped(r.table, Run(db, ops[..k]).rows[r].cells)
  {
    MidPass(db, ops, k);
    assert IsUpsert(ops[k]);
  }

  lemma ConsistentCellIsSilent(db: Database, ops: seq<Op>, k: nat, r: Ref, c: Column)
    requires Settled(db, ops) && Consistent(ops) && k < |ops|
    requires r in db.rows && r in Run(db, ops[..k]).rows && Matches(db.rows[r].key, ops[k].key)
    requires Logged(r.table, c)
    ensures !Recorded(r, c, Run(db, ops[..k]).rows[r].cells, ops[k].cells)
  {
    hide Sound, Run, Settled, Matches, Consistent, WellTyped;
    SettledTypes(db, ops, k, r);
    if c in ops[k].cells {
      var i := HitCell(db, ops, k, r, c);
      ConsistentSteps(db.rows[r].key, ops, i, k, c);
      SameTextDoesNotDiffer(r.table, Run(db, ops[..k]).rows[r].cells, ops[k].cells, c);
    }
  }

  lemma ConsistentStepIsSilent(db: Database, ops: seq<Op>, k: nat)
    requires Settled(db, ops) && Consistent(ops) && k < |ops|
    ensures SilentAt(db, ops, k)
  {
    var before := Run(db, ops[..k]);
    MidPass(db, ops, k);
    assert IsUpsert(ops[k]) && Has(db, ops[k].key);
    var r := Lookup(db, ops[k].key);
    LookupIsUnique(before, ops[k].key, r);
    forall c | Logged(r.table, c) ensures !Recorded(r, c, before.rows[r].cells, ops[k].cells) {
      ConsistentCellIsSilent(db, ops, k, r, c);
    }
    NoEntriesMeansNoneDiffer(r, LoggedColumns(r.table), before.rows[r].cells, ops[k].cells);
  }

  lemma SilentStepKeepsText(db: Database, op: Op, r: Ref, c: Column)
    requires Sound(db) && IsUpsert(op) && Entries(db, op) == []
    requires r in db.rows && Logged(r.table, c) && c in db.rows[r].cells
    ensures r in Apply(db, op).rows && c in Apply(db, op).rows[r].cells
    ensures TextIn(Apply(db, op), r, c) == TextIn(db, r, c)
  {
    UpsertKeepsRows(db, op);
    RowAfterApply(db, op, r);
    StepOfLog(db, op, r, c);
  }

  lemma RunStep(db: Database, ops: seq<Op>, k: nat)
    requires k < |ops|
    ensures Run(db, ops[..k + 1]) == Apply(Run(db, ops[..k]), ops[k])
  {
    assert ops[..k + 1][..k] == ops[..k];
  }

  lemma RunNothing(db: Database, ops: seq<Op>)
    ensures Run(db, ops[..0]) == db
  {
    assert ops[..0] == [];
  }

  /** In a silent second pass the text of a logged cell never moves. */
  lemma {:induction false} SilentPassKeepsText(db: Database, ops: seq<Op>, r: Ref, c: Column, k: nat)
    requires Settled(db, ops) && Since(db, ops) == [] && k <= |ops|
    requires r in db.rows && Logged(r.table, c) && c in db.rows[r].cells
    ensures r in Run(db, ops[..k]).rows && c in Run(db, ops[..k]).rows[r].cells
    ensures TextIn(Run(db, ops[..k]), r, c) == TextIn(db, r, c)
  {
    hide *;
    if k == 0 {
      RunNothing(db, ops);
    } else {
      SilentPassKeepsText(db, ops, r, c, k - 1);
      SilentRunAt(db, ops, k - 1);
      MidPassStep(db, ops, k - 1);
      RunStep(db, ops, k - 1);
      SilentStepKeepsText(Run(db, ops[..k - 1]), ops[k - 1], r, c);
    }
  }

  lemma MidPassStep(db: Database, ops: seq<Op>, k: nat)
    requires Settled(db, ops) && k < |ops|
    ensures Sound(Run(db, ops[..k])) && IsUpsert(ops[k])
  {
    MidPass(db, ops, k);
  }

  /** A step that observes a cell leaves the observed value in it. */
  lemma CellAfterStep(db: Database, op: Op, r: Ref, c: Column)
    requires Sound(db) && IsUpsert(op) && r in db.rows && r.table != Dependencies
    requires Observes(op, db.rows[r].key, c)
    ensures r in Apply(db, op).rows && TextIn(Apply(db, op), r, c) == Some(Str(op.cells[c]))
  {
    UpsertKeepsRows(db, op);
    RowAfterApply(db, op, r);
  }

  lemma TextAfterStep(db: Database, ops: seq<Op>, r: Ref, c: Column, k: nat)
    requires Settled(db, ops) && Since(db, ops) == [] && k < |ops|
    requires r in db.rows && Logged(r.table, c) && Observes(ops[k], db.rows[r].key, c)
    ensures TextIn(db, r, c) == Some(Str(ops[k].cells[c]))
  {
    hide *;
    MidPass(db, ops, k);
    SettledHolds(db, ops, r, c, k);
    LoggedTables(r.table, c);
    RunStep(db, ops, k);
    CellAfterStep(Run(db, ops[..k]), ops[k], r, c);
    SilentPassKeepsText(db, ops, r, c, k + 1);
  }

  lemma SettledHolds(db: Database, ops: seq<Op>, r: Ref, c: Column, k: nat)
    requires Settled(db, ops) && k < |ops|
    requires r in db.rows && Observes(ops[k], db.rows[r].key, c)
    ensures IsUpsert(ops[k]) && (r.table != Dependencies ==> c in db.rows[r].cells)
  {
    assert HoldsLast(db, ops, r, c);
    ObservedIsSeen(ops, db.rows[r].key, c, k);
  }

  lemma SilentPassIsConsistent(db: Database, ops: seq<Op>)
    requires Settled(db, ops) && Since(db, ops) == []
    ensures Consistent(ops)
  {
    forall i, j, c | 0 <= i < j < |ops| && ops[i].Upsert? && Logged(TableOf(ops[i].key), c)
      ensures Compatible(ops[i], ops[j], c)
    {
      if ops[j].Upsert? && Matches(ops[i].key, ops[j].key) && c in ops[i].cells && c in ops[j].cells {
        assert Has(db, ops[i].key);
        var r := Lookup(db, ops[i].key);
        assert Matches(db.rows[r].key, ops[j].key);
        TextAfterStep(db, ops, r, c, i);
        TextAfterStep(db, ops, r, c, j);
      }
    }
  }

  /** A settled batch changes no table, and logs nothing if and only if it is consistent. */
  lemma SettledReplay(db: Database, ops: seq<Op>)
    requires Settled(db, ops)
    ensures SameTables(db, Run(db, ops))
    ensures Run(db, ops).log == db.log <==> Consistent(ops)
  {
    SettledKeepsTables(db, ops);
    RunExtendsLog(db, ops);
    if Consistent(ops) {
      forall k | 0 <= k < |ops| ensures SilentAt(db, ops, k) {
        ConsistentStepIsSilent(db, ops, k);
      }
      SilentSteps(db, ops);
    } else if Since(db, ops) == [] {
      SilentPassIsConsistent(db, ops);
    }
  }

  /**
   Two passes of one batch end with the same tables as one pass, apart from time stamps; the
   second pass logs nothing if and only if the batch is consistent.
   */
  lemma ReplayIsIdempotent(db: Database, ops: seq<Op>, again: seq<Op>)
    requires Sound(db) && Batch(db, ops) && SameObservations(ops, again)
    ensures SameTables(Run(db, ops), Run(Run(db, ops), again))
    ensures Run(Run(db, ops), again).log == Run(db, ops).log <==> Consistent(ops)
  {
    BatchSettles(db, ops);
    SettledIgnoresStamps(Run(db, ops), ops, again);
    SettledReplay(Run(db, ops), again);
  }
}
