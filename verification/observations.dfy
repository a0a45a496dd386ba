/**
 What a row holds after any sequence of calls: each COALESCE-merged cell is the last non-null
 value observed for the row's key since the row was inserted.
 */
module Observations {
  import opened Options
  import opened Schema
  import opened StoreSpec

  predicate Observes(op: Op, key: Key, c: Column) {
    op.Upsert? && Matches(key, op.key) && c in op.cells
  }

  /** The last non-null value the calls report for a column of a key. */
  function LastSeen(ops: seq<Op>, key: Key, c: Column): Option<Value> {
    if ops == [] then None
    else
      var last := ops[|ops| - 1];
      if Observes(last, key, c) then Some(last.cells[c]) else LastSeen(ops[..|ops| - 1], key, c)
  }

  function Else<T>(a: Option<T>, b: Option<T>): Option<T> {
    if a.Some? then a else b
  }

  /** One call: a surviving row's cell is the observed value, or what it was. */
  lemma CellAfterCall(db: Database, op: Op, r: Ref, c: Column)
    requires Sound(db) && WellTypedOp(op) && r in db.rows && r in Apply(db, op).rows
    ensures r.table != Dependencies ==>
      Cell(Apply(db, op).rows[r].cells, c)
      == if Observes(op, db.rows[r].key, c) then Some(op.cells[c]) else Cell(db.rows[r].cells, c)
    ensures r.table == Dependencies ==> Apply(db, op).rows[r] == db.rows[r]
  {
    hide Sound, Apply, Matches, WellTypedOp;
    RowAfterApply(db, op, r);
  }

  lemma {:induction false} CellIsLastSeen(db: Database, ops: seq<Op>, r: Ref, c: Column)
    requires Sound(db) && WellTypedOps(ops)
    requires r in db.rows && r in Run(db, ops).rows
    ensures r.table != Dependencies ==>
      Cell(Run(db, ops).rows[r].cells, c)
      == Else(LastSeen(ops, db.rows[r].key, c), Cell(db.rows[r].cells, c))
    ensures r.table == Dependencies ==> Run(db, ops).rows[r] == db.rows[r]
  {
    if ops != [] {
      hide Sound, Apply, Observes, Cell, WellTypedOp;
      var init, last := ops[..|ops| - 1], ops[|ops| - 1];
      LiveBefore(db, ops, r);
      CellIsLastSeen(db, init, r, c);
      KeyPersists(db, init, r);
      CellAfterCall(Run(db, init), last, r, c);
    }
  }

  /** A row live at both ends of a run was live just before its last call too. */
  lemma LiveBefore(db: Database, ops: seq<Op>, r: Ref)
    requires Sound(db) && WellTypedOps(ops) && ops != []
    requires r in db.rows && r in Run(db, ops).rows
    ensures r in Run(db, ops[..|ops| - 1]).rows
    ensures Sound(Run(db, ops[..|ops| - 1]))
  {
    var init := ops[..|ops| - 1];
    RunKeepsSound(db, init);
    CountersGrow(db, init, r.table);
    assert r.id < NextId(db, r.table);
    hide Sound, Apply, Matches, WellTyped, NextId;
    if r !in Run(db, init).rows {
      NewRowHasNextId(Run(db, init), ops[|ops| - 1], r);
    }
  }

  /** Call `k` is the one that inserted row `r`. */
  ghost predicate InsertedAt(ops: seq<Op>, k: nat, r: Ref) {
    && k < |ops| && ops[k].Upsert?
    && r !in Run(EMPTY, ops[..k]).rows
    && r in Run(EMPTY, ops[..k + 1]).rows
    && Run(EMPTY, ops[..k + 1]).rows[r].key == ops[k].key
  }

  ghost predicate HoldsSince(ops: seq<Op>, k: nat, r: Ref, c: Column, cell: Option<Value>)
    requires InsertedAt(ops, k, r)
  {
    cell == if r.table == Dependencies then Cell(ops[k].cells, c)
            else Else(LastSeen(ops[k + 1..], ops[k].key, c), Cell(ops[k].cells, c))
  }

  /**
   In every reachable store, every cell of every row is the last non-null observation since
   the insertion (for a dependency, the inserted detail).
   */
  lemma {:induction false} CellIsLastObservationSinceInsertion(ops: seq<Op>, r: Ref, c: Column)
    requires WellTypedOps(ops) && r in Run(EMPTY, ops).rows
    ensures exists k: nat ::
      InsertedAt(ops, k, r) && HoldsSince(ops, k, r, c, Cell(Run(EMPTY, ops).rows[r].cells, c))
  {
    var k := FindInsertion(ops, r);
    var born := Run(EMPTY, ops[..k + 1]);
    ReachableIsSound(ops[..k + 1]);
    RunAppend(EMPTY, ops[..k + 1], ops[k + 1..]);
    assert ops == ops[..k + 1] + ops[k + 1..];
    CellIsLastSeen(born, ops[k + 1..], r, c);
    assert ops[..k + 1][..k] == ops[..k];
    assert born == Apply(Run(EMPTY, ops[..k]), ops[k]);
    assert HoldsSince(ops, k, r, c, Cell(Run(EMPTY, ops).rows[r].cells, c));
  }

  lemma {:induction false} FindInsertion(ops: seq<Op>, r: Ref) returns (k: nat)
    requires WellTypedOps(ops) && r in Run(EMPTY, ops).rows
    ensures InsertedAt(ops, k, r)
  {
    var init, last := ops[..|ops| - 1], ops[|ops| - 1];
    if r in Run(EMPTY, init).rows {
      k := FindInsertion(init, r);
      assert init[..k] == ops[..k] && init[..k + 1] == ops[..k + 1];
    } else {
      k := |ops| - 1;
      ReachableIsSound(init);
      assert ops[..k + 1] == ops;
    }
  }
}
