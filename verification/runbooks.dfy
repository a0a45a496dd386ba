/**
 The runbook library: a table and a search index kept in step across an embedding call that
 may fail, while other additions of the same or other runbooks are under way.
 */
module Runbooks {
  import opened Options

  datatype Entry = Entry(
    id: string, title: string, problemPattern: string, symptoms: seq<string>, rootCause: Option<string>,
    steps: string, successCount: int, lastUsed: Option<string>)

  function JoinAll(parts: seq<string>): string {
    if parts == [] then "" else if |parts| == 1 then parts[0] else parts[0] + " " + JoinAll(parts[1..])
  }

  function SearchText(e: Entry): string {
    JoinAll([e.title, e.problemPattern] + e.symptoms
            + (match e.rootCause case Some(cause) => (if cause == "" then [] else [cause]) case None => []))
  }

  datatype Stage = Embedding | Indexed | EmbeddingFailed

  datatype Add = Add(entry: Entry, stage: Stage)

  datatype Library = Library(rows: map<string, Entry>, index: map<string, string>, adds: seq<Add>)

  const EMPTY_LIBRARY := Library(map[], map[], [])

  /** One stretch of code between two awaits; an addition is named by its place in `adds`. */
  datatype Event =
    | BeginAdd(entry: Entry)
    | Embedded(add: nat)
    | EmbeddingFails(add: nat)
    | RecordSuccess(id: string, now: string)

  predicate InFlight(l: Library, k: nat) {
    k < |l.adds| && l.adds[k].stage == Embedding
  }

  function Next(l: Library, e: Event): Library {
    match e
    case BeginAdd(entry) => l.(rows := l.rows[entry.id := entry], adds := l.adds + [Add(entry, Embedding)])
    case Embedded(k) =>
      if !InFlight(l, k) then l
      else
        var entry := l.adds[k].entry;
        l.(index := l.index[entry.id := SearchText(entry)], adds := l.adds[k := Add(entry, Indexed)])
    case EmbeddingFails(k) =>
      if !InFlight(l, k) then l else l.(adds := l.adds[k := Add(l.adds[k].entry, EmbeddingFailed)])
    case RecordSuccess(id, now) =>
      if id !in l.rows then l
      else l.(rows := l.rows[id := l.rows[id].(successCount := l.rows[id].successCount + 1, lastUsed := Some(now))])
  }

  function Run(trace: seq<Event>): Library {
    if trace == [] then EMPTY_LIBRARY else Next(Run(trace[..|trace| - 1]), trace[|trace| - 1])
  }

  /** The rows of the hits that have one, in the order of the hits. */
  function Lookup(rows: map<string, Entry>, hits: seq<string>): seq<Entry> {
    if hits == [] then []
    else
      var earlier, id := Lookup(rows, hits[..|hits| - 1]), hits[|hits| - 1];
      if id in rows then earlier + [rows[id]] else earlier
  }

  class RunbookLibrary {
    var rows: map<string, Entry>
    var index: map<string, string>
    var adds: seq<Add>

    ghost function Contents(): Library
      reads this
    {
      Library(rows, index, adds)
    }

    constructor ()
      ensures Contents() == EMPTY_LIBRARY
    {
      rows, index, adds := map[], map[], [];
    }

    /** add(), up to the embedding. */
    method StartAdd(entry: Entry) returns (k: nat)
      modifies this`rows, this`adds
      ensures k == old(|adds|) && Contents() == Next(old(Contents()), BeginAdd(entry))
      ensures rows == old(rows)[entry.id := entry] && adds == old(adds) + [Add(entry, Embedding)]
    {
      rows := rows[entry.id := entry];
      k := |adds|;
      adds := adds + [Add(entry, Embedding)];
    }

    /** add(), after the embedding: `embedded` says whether it returned. */
    method EndAdd(k: nat, embedded: bool)
      requires InFlight(Contents(), k)
      modifies this`index, this`adds
      ensures Contents() == Next(old(Contents()), if embedded then Embedded(k) else EmbeddingFails(k))
      ensures index ==
        if embedded then old(index)[adds[k].entry.id := SearchText(adds[k].entry)] else old(index)
      ensures adds == old(adds)[k := Add(old(adds)[k].entry, if embedded then Indexed else EmbeddingFailed)]
    {
      var entry := adds[k].entry;
      if embedded {
        index := index[entry.id := SearchText(entry)];
        adds := adds[k := Add(entry, Indexed)];
      } else {
        adds := adds[k := Add(entry, EmbeddingFailed)];
      }
    }

    /** search(), after the index query has returned `hits`. */
    method Search(hits: seq<string>) returns (entries: seq<Entry>)
      ensures entries == Lookup(rows, hits)
    {
      entries := [];
      for i := 0 to |hits|
        invariant entries == Lookup(rows, hits[..i])
      {
        assert hits[..i + 1][..i] == hits[..i];
        if hits[i] in rows {
          entries := entries + [rows[hits[i]]];
        }
      }
      assert hits[..|hits|] == hits;
    }

    method Succeed(id: string, now: string)
      modifies this`rows
      ensures Contents() == Next(old(Contents()), RecordSuccess(id, now))
      ensures rows ==
        if id !in old(rows) then old(rows)
        else old(rows)[id := old(rows)[id].(successCount := old(rows)[id].successCount + 1, lastUsed := Some(now))]
    {
      if id in rows {
        rows := rows[id := rows[id].(successCount := rows[id].successCount + 1, lastUsed := Some(now))];
      }
    }
  }

  // ---- What is searched for and what is found ----------------------------------------------

  /** Each part with a blank before it. */
  function Spaced(parts: seq<string>): string {
    if parts == [] then "" else " " + parts[0] + Spaced(parts[1..])
  }

  lemma {:induction false} JoinIsSpaced(first: string, rest: seq<string>)
    ensures JoinAll([first] + rest) == first + Spaced(rest)
    decreases rest
  {
    if rest != [] {
      assert ([first] + rest)[1..] == rest && rest == [rest[0]] + rest[1..];
      JoinIsSpaced(rest[0], rest[1..]);
    }
  }

  lemma {:induction false} SpacedConcat(a: seq<string>, b: seq<string>)
    ensures Spaced(a + b) == Spaced(a) + Spaced(b)
  {
    if a == [] {
      assert a + b == b;
    } else {
      assert (a + b)[1..] == a[1..] + b;
      SpacedConcat(a[1..], b);
    }
  }

  lemma SpacedOne(x: string)
    ensures Spaced([x]) == " " + x && Spaced([]) == ""
  {
    assert [x][1..] == [];
  }

  /** The text embedded: title, pattern, symptoms, and a root cause that is neither None nor empty. */
  lemma SearchTextIs(e: Entry)
    ensures SearchText(e) ==
      e.title + " " + e.problemPattern + Spaced(e.symptoms)
      + if e.rootCause.Some? && e.rootCause.value != "" then " " + e.rootCause.value else ""
  {
    var cause: seq<string> :=
      match e.rootCause case Some(cause) => (if cause == "" then [] else [cause]) case None => [];
    hide Spaced;
    assert [e.title, e.problemPattern] + e.symptoms + cause == [e.title] + ([e.problemPattern] + (e.symptoms + cause));
    JoinIsSpaced(e.title, [e.problemPattern] + (e.symptoms + cause));
    SpacedConcat([e.problemPattern], e.symptoms + cause);
    SpacedConcat(e.symptoms, cause);
    SpacedOne(e.problemPattern);
    SpacedOne(if cause == [] then "" else cause[0]);
    assert cause == [] || cause == [cause[0]];
  }

  lemma LookupOne(rows: map<string, Entry>, id: string)
    ensures Lookup(rows, [id]) == if id in rows then [rows[id]] else []
  {
    assert [id][..0] == [];
  }

  lemma {:induction false} LookupConcat(rows: map<string, Entry>, a: seq<string>, b: seq<string>)
    ensures Lookup(rows, a + b) == Lookup(rows, a) + Lookup(rows, b)
    decreases b
  {
    if b == [] {
      assert a + b == a;
    } else {
      assert (a + b)[..|a + b| - 1] == a + b[..|b| - 1] && (a + b)[|a + b| - 1] == b[|b| - 1];
      LookupConcat(rows, a, b[..|b| - 1]);
    }
  }

  /** Hits are looked up one by one, and one without a row is dropped. */
  lemma LookupIs(rows: map<string, Entry>, hits: seq<string>, i: nat)
    requires i < |hits|
    ensures Lookup(rows, hits) ==
      Lookup(rows, hits[..i]) + (if hits[i] in rows then [rows[hits[i]]] else []) + Lookup(rows, hits[i + 1..])
  {
    assert hits == (hits[..i] + [hits[i]]) + hits[i + 1..];
    LookupConcat(rows, hits[..i] + [hits[i]], hits[i + 1..]);
    LookupConcat(rows, hits[..i], [hits[i]]);
    LookupOne(rows, hits[i]);
  }

  // ---- Table and index -------------------------------------------------------------------

  predicate HasAdd(l: Library, id: string, stage: Stage) {
    exists k :: 0 <= k < |l.adds| && l.adds[k] == Add(l.adds[k].entry, stage) && l.adds[k].entry.id == id
  }

  predicate WasAdded(l: Library, id: string) {
    exists k :: 0 <= k < |l.adds| && l.adds[k].entry.id == id
  }

  /** The table has a row for each runbook ever added, the index for each add that was embedded. */
  ghost predicate IdsOfAdds(l: Library) {
    && (forall id :: id in l.rows <==> WasAdded(l, id))
    && (forall id :: id in l.index <==> HasAdd(l, id, Indexed))
  }

  lemma AddBegins(l: Library, entry: Entry)
    requires IdsOfAdds(l)
    ensures IdsOfAdds(Next(l, BeginAdd(entry)))
  {
    var l' := Next(l, BeginAdd(entry));
    assert l'.adds[|l.adds|].entry.id == entry.id;
    forall id ensures WasAdded(l', id) <==> WasAdded(l, id) || id == entry.id {
      if k :| 0 <= k < |l.adds| && l.adds[k].entry.id == id {
        assert l'.adds[k].entry.id == id;
      }
    }
    forall id ensures HasAdd(l', id, Indexed) <==> HasAdd(l, id, Indexed) {
      if k :| 0 <= k < |l.adds| && l.adds[k] == Add(l.adds[k].entry, Indexed) && l.adds[k].entry.id == id {
        assert l'.adds[k] == l.adds[k];
      }
    }
  }

  /** What ending addition `k` does to the list of additions. */
  ghost predicate Ends(l: Library, l': Library, k: nat, stage: Stage)
    requires k < |l.adds|
  {
    l'.adds == l.adds[k := Add(l.adds[k].entry, stage)]
  }

  lemma EndKeepsAdded(l: Library, l': Library, k: nat, stage: Stage, id: string)
    requires InFlight(l, k) && Ends(l, l', k, stage)
    ensures WasAdded(l', id) <==> WasAdded(l, id)
  {
    assert forall i :: 0 <= i < |l.adds| ==> l'.adds[i].entry == l.adds[i].entry;
    if i :| 0 <= i < |l.adds| && l.adds[i].entry.id == id {
      assert l'.adds[i].entry.id == id;
    }
  }

  lemma EndIndexes(l: Library, l': Library, k: nat, stage: Stage, id: string)
    requires InFlight(l, k) && Ends(l, l', k, stage)
    ensures HasAdd(l', id, Indexed) <==> HasAdd(l, id, Indexed) || (stage == Indexed && id == l.adds[k].entry.id)
  {
    if i :| 0 <= i < |l.adds| && l.adds[i] == Add(l.adds[i].entry, Indexed) && l.adds[i].entry.id == id {
      assert l'.adds[i] == l.adds[i];
    }
    assert l'.adds[k] == Add(l.adds[k].entry, stage);
  }

  lemma AddEnds(l: Library, k: nat, embedded: bool)
    requires IdsOfAdds(l) && InFlight(l, k)
    ensures IdsOfAdds(Next(l, if embedded then Embedded(k) else EmbeddingFails(k)))
  {
    hide SearchText, HasAdd, WasAdded;
    var l' := Next(l, if embedded then Embedded(k) else EmbeddingFails(k));
    var stage := if embedded then Indexed else EmbeddingFailed;
    forall id
      ensures WasAdded(l', id) <==> WasAdded(l, id)
      ensures HasAdd(l', id, Indexed) <==> HasAdd(l, id, Indexed) || (embedded && id == l.adds[k].entry.id)
    {
      EndKeepsAdded(l, l', k, stage, id);
      EndIndexes(l, l', k, stage, id);
    }
  }

  lemma IdsKept(l: Library, e: Event)
    requires IdsOfAdds(l)
    ensures IdsOfAdds(Next(l, e))
  {
    match e
    case BeginAdd(entry) => AddBegins(l, entry);
    case Embedded(k) => if InFlight(l, k) { AddEnds(l, k, true); }
    case EmbeddingFails(k) => if InFlight(l, k) { AddEnds(l, k, false); }
    case RecordSuccess(_, _) =>
      assert Next(l, e).adds == l.adds;
      assert forall id :: WasAdded(Next(l, e), id) <==> WasAdded(l, id);
      assert forall id :: HasAdd(Next(l, e), id, Indexed) <==> HasAdd(l, id, Indexed);
  }

  lemma {:induction false} RunHasIdsOfAdds(trace: seq<Event>)
    ensures IdsOfAdds(Run(trace))
  {
    if trace != [] {
      RunHasIdsOfAdds(trace[..|trace| - 1]);
      hide IdsOfAdds, Next;
      IdsKept(Run(trace[..|trace| - 1]), trace[|trace| - 1]);
    }
  }

  /**
   In every interleaving the index is within the table, and the two agree exactly when each
   added runbook has been embedded at least once.
   */
  lemma IndexWithinTable(trace: seq<Event>)
    ensures var l := Run(trace);
      && l.index.Keys <= l.rows.Keys
      && (l.index.Keys == l.rows.Keys <==> forall id :: WasAdded(l, id) ==> HasAdd(l, id, Indexed))
      && ((forall k :: 0 <= k < |l.adds| ==> l.adds[k].stage == Indexed) ==> l.index.Keys == l.rows.Keys)
  {
    var l := Run(trace);
    RunHasIdsOfAdds(trace);
    hide Run;
    forall id | HasAdd(l, id, Indexed) ensures WasAdded(l, id) {
    }
    assert forall id :: id in l.index ==> id in l.rows;
    if forall k :: 0 <= k < |l.adds| ==> l.adds[k].stage == Indexed {
      forall id | WasAdded(l, id) ensures HasAdd(l, id, Indexed) {
        var k :| 0 <= k < |l.adds| && l.adds[k].entry.id == id;
        assert l.adds[k] == Add(l.adds[k].entry, Indexed);
      }
    }
  }

  lemma {:induction false} LookupOfRows(rows: map<string, Entry>, hits: seq<string>)
    requires forall i :: 0 <= i < |hits| ==> hits[i] in rows
    ensures |Lookup(rows, hits)| == |hits|
    ensures forall i :: 0 <= i < |hits| ==> Lookup(rows, hits)[i] == rows[hits[i]]
  {
    if hits != [] {
      LookupOfRows(rows, hits[..|hits| - 1]);
    }
  }

  /** A search returns the row of every hit of the index, in the order of the hits. */
  lemma SearchDropsNoHit(trace: seq<Event>, hits: seq<string>)
    requires forall i :: 0 <= i < |hits| ==> hits[i] in Run(trace).index
    ensures |Lookup(Run(trace).rows, hits)| == |hits|
    ensures forall i :: 0 <= i < |hits| ==>
      hits[i] in Run(trace).rows && Lookup(Run(trace).rows, hits)[i] == Run(trace).rows[hits[i]]
  {
    IndexWithinTable(trace);
    hide Run;
    LookupOfRows(Run(trace).rows, hits);
  }

  // ---- What a row and an index entry hold ------------------------------------------------

  /** The last addition of a runbook that was begun, and the times of the successes since. */
  function LastBegun(trace: seq<Event>, id: string): Option<(Entry, seq<string>)> {
    if trace == [] then None
    else
      var before := LastBegun(trace[..|trace| - 1], id);
      match trace[|trace| - 1]
      case BeginAdd(entry) => if entry.id == id then Some((entry, [])) else before
      case RecordSuccess(id', now) =>
        if id' == id && before.Some? then Some((before.value.0, before.value.1 + [now])) else before
      case _ => before
  }

  /** The last addition of a runbook whose embedding returned. */
  function LastEmbedded(trace: seq<Event>, id: string): Option<Entry> {
    if trace == [] then None
    else
      var init := trace[..|trace| - 1];
      match trace[|trace| - 1]
      case Embedded(k) =>
        if InFlight(Run(init), k) && Run(init).adds[k].entry.id == id then Some(Run(init).adds[k].entry)
        else LastEmbedded(init, id)
      case _ => LastEmbedded(init, id)
  }

  function WithSuccesses(entry: Entry, times: seq<string>): Entry {
    if times == [] then entry
    else entry.(successCount := entry.successCount + |times|, lastUsed := Some(times[|times| - 1]))
  }

  /** The table follows the order in which additions begin, the index that in which they end. */
  lemma {:induction false} RowIsLastBegun(trace: seq<Event>, id: string)
    ensures var l, begun := Run(trace), LastBegun(trace, id);
      && (id in l.rows <==> begun.Some?)
      && (id in l.rows ==> l.rows[id] == WithSuccesses(begun.value.0, begun.value.1))
    ensures var l, embedded := Run(trace), LastEmbedded(trace, id);
      && (id in l.index <==> embedded.Some?)
      && (id in l.index ==> l.index[id] == SearchText(embedded.value))
  {
    if trace != [] {
      hide SearchText;
      RowIsLastBegun(trace[..|trace| - 1], id);
    }
  }

  // ---- When the index is current ---------------------------------------------------------

  lemma CountsAreNotSearched(e: Entry, times: seq<string>)
    ensures SearchText(WithSuccesses(e, times)) == SearchText(e)
  {
  }

  /** The text in the index is the row's exactly if the last addition embedded has the text of the last begun. */
  lemma IndexIsCurrentIff(trace: seq<Event>, id: string)
    requires id in Run(trace).index
    ensures id in Run(trace).rows && LastEmbedded(trace, id).Some? && LastBegun(trace, id).Some?
    ensures Run(trace).index[id] == SearchText(Run(trace).rows[id]) <==>
      SearchText(LastEmbedded(trace, id).value) == SearchText(LastBegun(trace, id).value.0)
  {
    IndexWithinTable(trace);
    RowIsLastBegun(trace, id);
    hide Run, SearchText, LastBegun, LastEmbedded, WithSuccesses;
    assert id in Run(trace).index.Keys;
    CountsAreNotSearched(LastBegun(trace, id).value.0, LastBegun(trace, id).value.1);
  }

  /** Addition `k` is the last one of the runbook. */
  predicate IsLastAdd(l: Library, id: string, k: int) {
    && 0 <= k < |l.adds| && l.adds[k].entry.id == id
    && forall i :: k < i < |l.adds| ==> l.adds[i].entry.id != id
  }

  /** No addition of the runbook begins while another one of it is in flight. */
  predicate OneAtATime(trace: seq<Event>, id: string) {
    forall i :: 0 <= i < |trace| && trace[i].BeginAdd? && trace[i].entry.id == id ==>
      !HasAdd(Run(trace[..i]), id, Embedding)
  }

  /** With one addition at a time, only the last one can be in flight, and the index follows its end. */
  ghost predicate InStepAt(trace: seq<Event>, id: string, k: nat)
    requires k < |Run(trace).adds|
  {
    var l := Run(trace);
    && (forall i :: 0 <= i < k && l.adds[i].entry.id == id ==> l.adds[i].stage != Embedding)
    && LastBegun(trace, id).Some? && LastBegun(trace, id).value.0 == l.adds[k].entry
    && (l.adds[k].stage == Indexed ==> LastEmbedded(trace, id) == Some(l.adds[k].entry))
  }

  ghost predicate InStep(trace: seq<Event>, id: string) {
    forall k :: IsLastAdd(Run(trace), id, k) ==> InStepAt(trace, id, k)
  }

  lemma OneAtATimePrefix(trace: seq<Event>, id: string)
    requires OneAtATime(trace, id) && trace != []
    ensures var init, e := trace[..|trace| - 1], trace[|trace| - 1];
      OneAtATime(init, id) && (e.BeginAdd? && e.entry.id == id ==> !HasAdd(Run(init), id, Embedding))
  {
    hide Run, HasAdd;
    var init := trace[..|trace| - 1];
    forall i | 0 <= i < |init| && init[i].BeginAdd? && init[i].entry.id == id
      ensures !HasAdd(Run(init[..i]), id, Embedding)
    {
      assert init[..i] == trace[..i] && init[i] == trace[i];
    }
  }

  lemma NewestInStep(trace: seq<Event>, id: string, k: nat)
    requires trace != [] && IsLastAdd(Run(trace), id, k) && k >= |Run(trace[..|trace| - 1]).adds|
    requires !HasAdd(Run(trace[..|trace| - 1]), id, Embedding)
    ensures InStepAt(trace, id, k)
  {
    var l, l' := Run(trace[..|trace| - 1]), Run(trace);
    forall i | 0 <= i < k && l'.adds[i].entry.id == id ensures l'.adds[i].stage != Embedding {
      assert l.adds[i] == l'.adds[i] && l.adds[i] == Add(l.adds[i].entry, l.adds[i].stage);
    }
  }

  lemma AddsAfter(l: Library, e: Event)
    ensures var l' := Next(l, e);
      && |l.adds| <= |l'.adds|
      && (forall i :: 0 <= i < |l.adds| ==>
            && l'.adds[i].entry == l.adds[i].entry && (l.adds[i].stage != Embedding ==> l'.adds[i] == l.adds[i])
            && (l.adds[i].stage == Embedding && l'.adds[i].stage == Indexed ==> e == Embedded(i)))
      && (e.BeginAdd? ==> |l'.adds| > |l.adds| && l'.adds[|l.adds|].entry == e.entry)
  {
    hide SearchText;
  }

  lemma OlderInStep(trace: seq<Event>, id: string, k: nat)
    requires trace != [] && IsLastAdd(Run(trace), id, k) && k < |Run(trace[..|trace| - 1]).adds|
    requires InStep(trace[..|trace| - 1], id)
    ensures InStepAt(trace, id, k)
  {
    var init, e := trace[..|trace| - 1], trace[|trace| - 1];
    var l, l' := Run(init), Run(trace);
    assert l' == Next(l, e);
    hide Next, Run, SearchText;
    AddsAfter(l, e);
    assert IsLastAdd(l, id, k) && InStepAt(init, id, k);
    SameLastBegun(init, e, id);
    assert init + [e] == trace;
    hide LastBegun;
  }

  lemma SameLastBegun(init: seq<Event>, e: Event, id: string)
    requires LastBegun(init, id).Some? && (e.BeginAdd? ==> e.entry.id != id)
    ensures LastBegun(init + [e], id).Some? && LastBegun(init + [e], id).value.0 == LastBegun(init, id).value.0
  {
    assert (init + [e])[..|init|] == init;
  }

  lemma InStepKept(trace: seq<Event>, id: string)
    requires trace != [] && InStep(trace[..|trace| - 1], id)
    requires var e := trace[|trace| - 1];
      e.BeginAdd? && e.entry.id == id ==> !HasAdd(Run(trace[..|trace| - 1]), id, Embedding)
    ensures InStep(trace, id)
  {
    var l := Run(trace[..|trace| - 1]);
    forall k | IsLastAdd(Run(trace), id, k) ensures InStepAt(trace, id, k) {
      if k < |l.adds| {
        OlderInStep(trace, id, k);
      } else {
        NewestInStep(trace, id, k);
      }
    }
  }

  lemma {:induction false} StaysInStep(trace: seq<Event>, id: string)
    requires OneAtATime(trace, id)
    ensures InStep(trace, id)
  {
    if trace != [] {
      hide InStep, Run, HasAdd;
      OneAtATimePrefix(trace, id);
      StaysInStep(trace[..|trace| - 1], id);
      InStepKept(trace, id);
    } else {
      assert Run(trace).adds == [];
    }
  }

  /**
   If no addition of a runbook begins while another one of it is in flight, and the embedding of
   the last one returned, the index holds the text of the row.
   */
  lemma IndexIsCurrentOneAtATime(trace: seq<Event>, id: string, k: nat)
    requires OneAtATime(trace, id) && IsLastAdd(Run(trace), id, k) && Run(trace).adds[k].stage == Indexed
    ensures id in Run(trace).index && id in Run(trace).rows
    ensures Run(trace).index[id] == SearchText(Run(trace).rows[id])
  {
    StaysInStep(trace, id);
    RowIsLastBegun(trace, id);
    hide Run, LastBegun, LastEmbedded, OneAtATime, SearchText;
    IndexIsCurrentIff(trace, id);
  }

  /** A failed embedding leaves the index with the earlier text too, without any overlap. */
  lemma FailedEmbeddingLeavesTheIndexStale(first: Entry, second: Entry)
    requires first.id == second.id
    ensures var trace := [BeginAdd(first), Embedded(0), BeginAdd(second), EmbeddingFails(1)];
      && Run(trace).rows == map[first.id := second] && Run(trace).index == map[first.id := SearchText(first)]
  {
    hide SearchText;
    var t := [BeginAdd(first), Embedded(0), BeginAdd(second), EmbeddingFails(1)];
    assert t[..3][..2] == t[..2] && t[..2][..1] == t[..1] && t[..1][..0] == [];
    assert Run(t[..1]) == Next(EMPTY_LIBRARY, t[0]);
    assert Run(t[..2]) == Next(Run(t[..1]), t[1]);
    assert Run(t[..3]) == Next(Run(t[..2]), t[2]);
  }

  /** Additions of one runbook that overlap can leave the index with the text of the earlier one. */
  lemma OverlappingAddsCanLeaveTheIndexStale(first: Entry, second: Entry)
    requires first.id == second.id
    ensures var l := Run([BeginAdd(first), BeginAdd(second), Embedded(1), Embedded(0)]);
      && l.rows == map[first.id := second] && l.index == map[first.id := SearchText(first)]
      && l.adds == [Add(first, Indexed), Add(second, Indexed)]
  {
    hide SearchText;
    var t := [BeginAdd(first), BeginAdd(second), Embedded(1), Embedded(0)];
    assert t[..3][..2] == t[..2] && t[..2][..1] == t[..1] && t[..1][..0] == [];
    assert Run(t[..1]) == Next(EMPTY_LIBRARY, t[0]);
    assert Run(t[..2]) == Next(Run(t[..1]), t[1]);
    assert Run(t[..3]) == Next(Run(t[..2]), t[2]);
  }
}
