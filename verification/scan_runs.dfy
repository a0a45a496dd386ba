/** What any number of scans adds. */
module ScanRuns {
  import opened Options
  import opened Strings
  import opened Schema
  import opened StoreSpec
  import opened Replay
  import opened Models
  import opened ScanSpec
  import opened Scans
  import opened Rescans

  // ---- Any run of scans ------------------------------------------------------------------

  ghost function ScanAll(db: Database, seen: seq<Observation>): Database {
    if seen == [] then db else Scan(ScanAll(db, seen[..|seen| - 1]), seen[|seen| - 1])
  }

  lemma ScanAttachesPorts(db: Database, obs: Observation)
    requires Sound(db) && AsProbed(obs)
    ensures PortsAttach(db, Scan(db, obs))
  {
    var a, b := AfterServices(db, obs), Scan(db, obs);
    ScanIsBatch(db, obs);
    FirstNodeLives(db, obs);
    NamesLive(db, obs);
    ExtendsTransitively(db, AfterNodes(db, obs), a);
    PortsAttachInScan(db, obs);
    assert PortsAttach(db, a) by {
      forall r | r in a.rows && r !in db.rows ensures !a.rows[r].key.PortKey? {
        NoPortsBefore(db, obs, r);
      }
    }
    AttachTransitively(db, a, b);
  }

  lemma AttachTransitively(a: Database, b: Database, c: Database)
    requires Sound(a) && Sound(b) && Extends(a, b) && Extends(b, c) && PortsAttach(a, b) && PortsAttach(b, c)
    ensures PortsAttach(a, c)
  {
    forall r | r in c.rows && r !in a.rows && c.rows[r].key.PortKey?
      ensures PortOwner(a, c.rows[r].key.port).Some? && c.rows[r].key.owner == PortOwner(a, c.rows[r].key.port)
    {
      OwnerPersists(a, b, c.rows[r].key.port);
    }
  }

  /**
   Over any run of scans no row goes away or changes its key, and every port row that appears
   goes to the service that owned its number at the start.
   */
  lemma {:induction false} ScansOnlyAdd(db: Database, seen: seq<Observation>)
    requires Sound(db) && forall obs :: obs in seen ==> AsProbed(obs)
    ensures Sound(ScanAll(db, seen)) && Extends(db, ScanAll(db, seen))
    ensures PortsAttach(db, ScanAll(db, seen))
  {
    if seen != [] {
      var init, last := seen[..|seen| - 1], seen[|seen| - 1];
      ScansOnlyAdd(db, init);
      ScanIsBatch(ScanAll(db, init), last);
      ScanAttachesPorts(ScanAll(db, init), last);
      hide Sound;
      AttachTransitivelySoundly(db, ScanAll(db, init), ScanAll(db, seen));
    }
  }

  lemma AttachTransitivelySoundly(a: Database, b: Database, c: Database)
    requires Sound(a) && Sound(b) && Extends(a, b) && Extends(b, c) && PortsAttach(a, b) && PortsAttach(b, c)
    ensures Extends(a, c) && PortsAttach(a, c)
  {
    ExtendsTransitively(a, b, c);
    AttachTransitively(a, b, c);
  }

  // ---- Scans of any observations, refused calls included -----------------------------------

  lemma PlanUpserts(db: Database, obs: Observation)
    ensures Upserts(Plan(db, obs))
  {
    forall i | 0 <= i < |Plan(db, obs)| ensures IsUpsert(Plan(db, obs)[i]) {
      PlanCallIsUpsert(db, obs, Plan(db, obs)[i]);
    }
  }

  lemma PlanCallIsUpsert(db: Database, obs: Observation, op: Op)
    requires op in Plan(db, obs)
    ensures IsUpsert(op)
  {
    hide AfterServices, FirstNode, Names, Plan, Inferred, PortOps, InterfaceOps, ConfigOps, PortOwner, WellTypedOp;
    PlanParts(db, obs, op);
    if op in PortOps(AfterServices(db, obs), obs.ports) {
      PortOpsArePorts(AfterServices(db, obs), obs.ports, op);
    } else if op in InterfaceOps(obs.interfaces, FirstNode(db, obs)) {
      InterfaceOpsAre(obs.interfaces, FirstNode(db, obs), op);
    } else if op in ConfigOps(Names(db, obs), obs.configs) {
      ConfigOpsAre(Names(db, obs), obs.configs, op);
    }
  }

  /** Whatever it observes and wherever it stops, a scan deletes no row and changes no key. */
  lemma AnyScanOnlyAdds(db: Database, obs: Observation, done: bool, after: Database)
    requires Sound(db) && Ran(db, Plan(db, obs), done, after)
    ensures Sound(after) && Extends(db, after)
  {
    PlanUpserts(db, obs);
    hide Plan, Sound, AllAccepted, Accepted, Extends, IsUpsert;
    if done {
      UpsertsExtend(db, Plan(db, obs));
    } else {
      var i: nat :| StopsAt(db, Plan(db, obs), i, after);
      assert Upserts(Plan(db, obs)[..i]);
      UpsertsExtend(db, Plan(db, obs)[..i]);
    }
  }

  ghost predicate OneScan(before: Database, obs: Observation, after: Database) {
    exists done :: Ran(before, Plan(before, obs), done, after)
  }

  /** So does any number of scans. */
  lemma {:induction false} AnyScansOnlyAdd(dbs: seq<Database>, seen: seq<Observation>)
    requires |dbs| == |seen| + 1 && Sound(dbs[0])
    requires forall i :: 0 <= i < |seen| ==> OneScan(dbs[i], seen[i], dbs[i + 1])
    ensures Sound(dbs[|seen|]) && Extends(dbs[0], dbs[|seen|])
  {
    if seen != [] {
      hide Sound, Extends, Ran, Plan;
      var n := |seen| - 1;
      AnyScansOnlyAdd(dbs[..n + 1], seen[..n]);
      assert OneScan(dbs[n], seen[n], dbs[n + 1]);
      var done :| Ran(dbs[n], Plan(dbs[n], seen[n]), done, dbs[n + 1]);
      AnyScanOnlyAdds(dbs[n], seen[n], done, dbs[n + 1]);
      ExtendsTransitively(dbs[0], dbs[n], dbs[n + 1]);
    } else {
      NothingAdded(dbs[0]);
    }
  }

  lemma NothingAdded(db: Database)
    ensures Extends(db, db)
  {
  }

  // ---- Any number of equal scans -----------------------------------------------------------

  lemma SameSeenTwice(obs: Observation, a: Observation, b: Observation)
    requires SameSeen(obs, a) && SameSeen(obs, b)
    ensures SameSeen(a, b)
  {
    forall name ensures SameFiles(FilesOf(a.configs, name), FilesOf(b.configs, name)) {
      assert SameFiles(FilesOf(obs.configs, name), FilesOf(a.configs, name));
      assert SameFiles(FilesOf(obs.configs, name), FilesOf(b.configs, name));
    }
    forall i | 0 <= i < |a.nodes| ensures a.nodes[i].(lastSeen := "") == b.nodes[i].(lastSeen := "") {
      assert obs.nodes[i].(lastSeen := "") == a.nodes[i].(lastSeen := "");
      assert obs.nodes[i].(lastSeen := "") == b.nodes[i].(lastSeen := "");
    }
    forall i | 0 <= i < |a.services| ensures a.services[i].(lastSeen := "") == b.services[i].(lastSeen := "") {
      assert obs.services[i].(lastSeen := "") == a.services[i].(lastSeen := "");
      assert obs.services[i].(lastSeen := "") == b.services[i].(lastSeen := "");
    }
  }

  lemma SeenAsItself(obs: Observation)
    ensures SameSeen(obs, obs)
  {
  }

  lemma SameObservationsTransitively(a: seq<Op>, b: seq<Op>, c: seq<Op>)
    requires SameObservations(a, b) && SameObservations(b, c)
    ensures SameObservations(a, c)
  {
    forall i | 0 <= i < |a| ensures SameObservation(a[i], c[i]) {
      assert SameObservation(a[i], b[i]) && SameObservation(b[i], c[i]);
    }
  }

  lemma ConsistentIgnoresStamps(a: seq<Op>, b: seq<Op>)
    requires SameObservations(a, b)
    ensures Consistent(a) <==> Consistent(b)
  {
    assert forall i :: 0 <= i < |a| ==> SameObservation(a[i], b[i]);
    assert forall i, j, c :: 0 <= i < j < |a| ==> Compatible(a[i], a[j], c) == Compatible(b[i], b[j], c);
  }

  ghost predicate AllSeenAs(obs: Observation, again: seq<Observation>) {
    AsProbed(obs) && forall i :: 0 <= i < |again| ==> AsProbed(again[i]) && SameSeen(obs, again[i])
  }

  /** The last of a run of equal scans makes the calls of the first. */
  lemma {:induction false} LastScan(db: Database, obs: Observation, again: seq<Observation>)
      returns (before: Database, last: Observation)
    requires Sound(db) && AllSeenAs(obs, again)
    ensures Sound(before) && AsProbed(last) && SameSeen(obs, last)
    ensures ScanAll(Scan(db, obs), again) == Scan(before, last)
    ensures SameObservations(Plan(db, obs), Plan(before, last))
    decreases |again|
  {
    hide Sound, AsProbed, SameSeen, Scan, Plan, SameObservations, Upserts, Batch, Extends;
    if again == [] {
      before, last := db, obs;
      SeenAsItself(obs);
      PlanUpserts(db, obs);
      Reflexive(Plan(db, obs));
    } else {
      var n := |again| - 1;
      var d, o := LastScan(db, obs, again[..n]);
      before, last := Scan(d, o), again[n];
      ScanIsBatch(d, o);
      SameSeenTwice(obs, o, last);
      SamePlan(d, o, last);
      SameObservationsTransitively(Plan(db, obs), Plan(d, o), Plan(before, last));
    }
  }

  lemma SameTablesTransitively(a: Database, b: Database, c: Database)
    requires SameTables(a, b) && SameTables(b, c)
    ensures SameTables(a, c)
  {
  }

  lemma ScanExtendsLog(db: Database, obs: Observation)
    ensures db.log <= Scan(db, obs).log
  {
    ScanIsPlan(db, obs);
    RunExtendsLog(db, Plan(db, obs));
    hide Run, Plan, Scan;
  }

  /**
   However often a scan is repeated with equal observations, the tables stay those of one scan,
   apart from time stamps; the repetitions log nothing if and only if the observation does not
   contradict itself, or there are none.
   */
  lemma {:induction false} RescansAreIdempotent(db: Database, obs: Observation, again: seq<Observation>)
    requires Sound(db) && AllSeenAs(obs, again)
    ensures SameTables(Scan(db, obs), ScanAll(Scan(db, obs), again))
    ensures Scan(db, obs).log <= ScanAll(Scan(db, obs), again).log
    ensures ScanAll(Scan(db, obs), again).log == Scan(db, obs).log <==> again == [] || Consistent(Plan(db, obs))
    decreases |again|
  {
    hide Sound, AsProbed, SameSeen, Scan, Plan, SameObservations, Consistent, SameTables;
    if again == [] {
      SameTablesAsItself(Scan(db, obs));
    } else {
      var n := |again| - 1;
      var init, last := again[..n], again[n];
      RescansAreIdempotent(db, obs, init);
      var d, o := LastScan(db, obs, init);
      SameSeenTwice(obs, o, last);
      RescanIsIdempotent(d, o, last);
      ConsistentIgnoresStamps(Plan(db, obs), Plan(d, o));
      SameTablesTransitively(Scan(db, obs), Scan(d, o), Scan(Scan(d, o), last));
      ScanExtendsLog(Scan(d, o), last);
    }
  }

  lemma SameTablesAsItself(db: Database)
    ensures SameTables(db, db)
  {
  }

  // ---- Ports and dependencies ----------------------------------------------------------------

  ghost predicate HasPort(db: Database, number: int) {
    exists r :: r in db.rows && db.rows[r].key.PortKey? && db.rows[r].key.port == number
  }

  /** Scans never bring a new port number into the ports table, nor lose one. */
  lemma PortNumbersAreConstant(db: Database, seen: seq<Observation>, number: int)
    requires Sound(db) && forall obs :: obs in seen ==> AsProbed(obs)
    ensures HasPort(ScanAll(db, seen), number) <==> HasPort(db, number)
  {
    ScansOnlyAdd(db, seen);
    var after := ScanAll(db, seen);
    if r :| r in after.rows && after.rows[r].key.PortKey? && after.rows[r].key.port == number {
      if r !in db.rows {
        var s :| OwnsFirst(db, number, s);
        assert db.rows[s].key.PortKey? && db.rows[s].key.port == number;
      } else {
        assert db.rows[r].key == ScanAll(db, seen).rows[r].key;
      }
    }
    if r :| r in db.rows && db.rows[r].key.PortKey? && db.rows[r].key.port == number {
      assert r in ScanAll(db, seen).rows && ScanAll(db, seen).rows[r].key == db.rows[r].key;
    }
  }

  /** One of the known patterns links the two services under the names of this scan. */
  ghost predicate Infers(db: Database, obs: Observation, source: int, target: int, depType: string) {
    exists p, a, b :: p in KNOWN_DEPENDENCIES && a in Names(db, obs) && b in Names(db, obs)
      && Contains(a.0, p.source) && Contains(b.0, p.target) && a.1 != b.1
      && source == a.1 && target == b.1 && depType == p.depType
  }

  /** After a scan the dependencies are the old ones and exactly the pattern-matched pairs. */
  lemma DependenciesAfterScan(db: Database, obs: Observation, source: int, target: int, depType: string)
    requires Sound(db) && AsProbed(obs)
    ensures Has(Scan(db, obs), DependencyKey(source, target, depType)) <==>
      Has(db, DependencyKey(source, target, depType)) || Infers(db, obs, source, target, depType)
    ensures Infers(db, obs, source, target, depType) ==> source != target
  {
    var key := DependencyKey(source, target, depType);
    ScanIsBatch(db, obs);
    ScanIsPlan(db, obs);
    if Has(Scan(db, obs), key) && !Has(db, key) {
      ScannedDependency(db, obs, key);
    }
    if Has(db, key) {
      IdPersistsSoundly(db, Scan(db, obs), key);
      LookupKey(db, Scan(db, obs), key);
    }
    if Infers(db, obs, source, target, depType) {
      InferredIsStored(db, obs, source, target, depType);
    }
  }

  /**
   After any run of scans the dependencies are the old ones and exactly the pairs some scan of
   the run inferred.
   */
  lemma {:induction false} DependenciesAfterScans(db: Database, seen: seq<Observation>, source: int, target: int,
                                                  depType: string)
    requires Sound(db) && forall obs :: obs in seen ==> AsProbed(obs)
    ensures Has(ScanAll(db, seen), DependencyKey(source, target, depType)) <==>
      Has(db, DependencyKey(source, target, depType)) || InferredInRun(db, seen, source, target, depType)
    ensures InferredInRun(db, seen, source, target, depType) ==> source != target
  {
    hide Sound, Has, Infers, AsProbed, Scan;
    if seen == [] {
      assert ScanAll(db, seen) == db;
    } else {
      var init, last := seen[..|seen| - 1], seen[|seen| - 1];
      DependenciesAfterScans(db, init, source, target, depType);
      ScansOnlyAdd(db, init);
      DependenciesAfterScan(ScanAll(db, init), last, source, target, depType);
      InferredInRunLast(db, seen, source, target, depType);
    }
  }

  /** Some scan of the run infers the dependency from the store it finds. */
  ghost predicate InferredInRun(db: Database, seen: seq<Observation>, source: int, target: int, depType: string) {
    exists i :: 0 <= i < |seen| && InferredAt(db, seen, i, source, target, depType)
  }

  ghost predicate InferredAt(db: Database, seen: seq<Observation>, i: nat, source: int, target: int, depType: string)
    requires i < |seen|
  {
    Infers(ScanAll(db, seen[..i]), seen[i], source, target, depType)
  }

  lemma InferredInRunLast(db: Database, seen: seq<Observation>, source: int, target: int, depType: string)
    requires seen != []
    ensures var init, last := seen[..|seen| - 1], seen[|seen| - 1];
      InferredInRun(db, seen, source, target, depType) <==>
        InferredInRun(db, init, source, target, depType) || Infers(ScanAll(db, init), last, source, target, depType)
  {
    hide Infers, ScanAll;
    var n := |seen| - 1;
    var init := seen[..n];
    forall i | 0 <= i < n
      ensures InferredAt(db, init, i, source, target, depType) == InferredAt(db, seen, i, source, target, depType)
    {
      assert init[..i] == seen[..i];
    }
    assert InferredAt(db, seen, n, source, target, depType)
      == Infers(ScanAll(db, init), seen[n], source, target, depType);
  }

  lemma LookupKey(a: Database, b: Database, key: Key)
    requires Has(a, key) && Extends(a, b) && Sound(b)
    ensures Has(b, key)
  {
    IdPersists(a, b, key);
  }

  /** A key the batch brings in was observed by one of its calls. */
  lemma NewKeyIsObserved(db: Database, ops: seq<Op>, key: Key) returns (i: nat)
    requires Sound(db) && Upserts(ops) && Has(Run(db, ops), key) && !Has(db, key)
    ensures i < |ops| && Matches(ops[i].key, key)
  {
    var r := Lookup(Run(db, ops), key);
    UpsertsExtend(db, ops);
    hide Run, Sound;
    i := NewRowIsObserved(db, ops, r);
  }

  lemma BatchUpserts(db: Database, ops: seq<Op>)
    requires Sound(db) && Batch(db, ops)
    ensures Upserts(ops)
  {
    BatchSettles(db, ops);
  }

  lemma ScannedDependency(db: Database, obs: Observation, key: Key)
    requires Sound(db) && Batch(db, Plan(db, obs)) && key.DependencyKey?
    requires Has(Run(db, Plan(db, obs)), key) && !Has(db, key)
    ensures Infers(db, obs, key.source, key.target, key.depType)
  {
    hide Plan, Run, Sound, Batch, Names, Has, Inferred, Contains;
    BatchUpserts(db, Plan(db, obs));
    var i := NewKeyIsObserved(db, Plan(db, obs), key);
    var op := Plan(db, obs)[i];
    assert op in Plan(db, obs);
    PhaseOfCall(db, obs, op);
    var deps := Inferred(KNOWN_DEPENDENCIES, Names(db, obs));
    var j :| 0 <= j < |deps| && DependencyOps(deps)[j] == op;
    assert deps[j] in deps && DependencyOps(deps)[j] == DependencyOp(deps[j]);
    InferredIsLinked(KNOWN_DEPENDENCIES, Names(db, obs), deps[j]);
  }

  lemma InferredIsCalled(db: Database, obs: Observation, d: Dependency)
    requires d in Inferred(KNOWN_DEPENDENCIES, Names(db, obs))
    ensures DependencyOp(d) in Plan(db, obs)
  {
    hide Inferred, Names, NodeOps, ServiceOps, PortOps, InterfaceOps, ConfigOps, AfterServices, FirstNode;
    var deps := Inferred(KNOWN_DEPENDENCIES, Names(db, obs));
    var j :| 0 <= j < |deps| && deps[j] == d;
    assert DependencyOps(deps)[j] in DependencyOps(deps);
  }

  lemma InferredIsStored(db: Database, obs: Observation, source: int, target: int, depType: string)
    requires Sound(db) && Batch(db, Plan(db, obs)) && Infers(db, obs, source, target, depType)
    ensures Has(Run(db, Plan(db, obs)), DependencyKey(source, target, depType)) && source != target
  {
    hide Contains, Names, Sound, Batch, Plan, Run, Has;
    var names := Names(db, obs);
    var p, a, b :| p in KNOWN_DEPENDENCIES && a in names && b in names
      && Contains(a.0, p.source) && Contains(b.0, p.target) && a.1 != b.1
      && source == a.1 && target == b.1 && depType == p.depType;
    var d := Dependency(source, target, depType, Some(p.detail));
    assert LinkedBy(d, p, a, b);
    InferredIsLinked(KNOWN_DEPENDENCIES, names, d);
    InferredIsCalled(db, obs, d);
    var i :| 0 <= i < |Plan(db, obs)| && Plan(db, obs)[i] == DependencyOp(d);
    BatchIsStored(db, Plan(db, obs), i);
  }
}
