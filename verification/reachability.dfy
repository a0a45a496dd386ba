/** Dependency paths, shortest distances, and what a breadth-first search knows along the way. */
module Reachability {
  /** Pairs (source, target): the source service depends on the target service. */
  type Graph = set<(int, int)>

  ghost predicate IsPath(g: Graph, p: seq<int>) {
    forall i :: 0 <= i < |p| - 1 ==> (p[i], p[i + 1]) in g
  }

  /** A dependency path with at least one step leads from `x` to `target`. */
  ghost predicate DependsOn(g: Graph, x: int, target: int) {
    exists p: seq<int> :: |p| >= 2 && p[0] == x && p[|p| - 1] == target && IsPath(g, p)
  }

  /** The services with a path of at most `n` steps to `target`. */
  ghost function Within(g: Graph, target: int, n: nat): set<int> {
    if n == 0 then {target}
    else Within(g, target, n - 1) + set e | e in g && e.1 in Within(g, target, n - 1) :: e.0
  }

  /** The shortest path from `x` to `target` has `n` steps. */
  ghost predicate Distance(g: Graph, target: int, x: int, n: nat) {
    x in Within(g, target, n) && (n > 0 ==> x !in Within(g, target, n - 1))
  }

  lemma {:induction false} WithinGrows(g: Graph, target: int, m: nat, n: nat)
    requires m <= n
    ensures Within(g, target, m) <= Within(g, target, n)
    decreases n
  {
    if m < n {
      WithinGrows(g, target, m, n - 1);
    }
  }

  lemma DistanceIsUnique(g: Graph, target: int, x: int, m: nat, n: nat)
    requires Distance(g, target, x, m) && x in Within(g, target, n)
    ensures m <= n
  {
    if n < m {
      WithinGrows(g, target, n, m - 1);
    }
  }

  lemma {:induction false} WithinHasPath(g: Graph, target: int, x: int, n: nat) returns (p: seq<int>)
    requires x in Within(g, target, n)
    ensures 1 <= |p| <= n + 1 && p[0] == x && p[|p| - 1] == target && IsPath(g, p)
    decreases n
  {
    if n == 0 {
      p := [x];
    } else if x in Within(g, target, n - 1) {
      p := WithinHasPath(g, target, x, n - 1);
    } else {
      var e :| e in g && e.1 in Within(g, target, n - 1) && e.0 == x;
      var q := WithinHasPath(g, target, e.1, n - 1);
      p := [x] + q;
    }
  }

  lemma {:induction false} PathIsWithin(g: Graph, p: seq<int>)
    requires p != [] && IsPath(g, p)
    ensures p[0] in Within(g, p[|p| - 1], |p| - 1)
  {
    if |p| > 1 {
      assert IsPath(g, p[1..]) by {
        forall i | 0 <= i < |p[1..]| - 1 ensures (p[1..][i], p[1..][i + 1]) in g {
          assert (p[i + 1], p[i + 2]) in g;
        }
      }
      PathIsWithin(g, p[1..]);
      assert (p[0], p[1]) in g && p[1..][0] == p[1];
    }
  }

  /** Other services depend on `target` exactly if they are within some number of steps. */
  lemma DependsOnIsWithin(g: Graph, x: int, target: int)
    requires x != target
    ensures DependsOn(g, x, target) <==> exists n: nat :: x in Within(g, target, n)
  {
    if DependsOn(g, x, target) {
      var p: seq<int> :| |p| >= 2 && p[0] == x && p[|p| - 1] == target && IsPath(g, p);
      PathIsWithin(g, p);
    }
    if n: nat :| x in Within(g, target, n) {
      var p := WithinHasPath(g, target, x, n);
      assert |p| >= 2;
    }
  }

  // ---- Breadth-first search -------------------------------------------------------------

  /**
   A state of the search.  `depth` maps each visited service to its distance; `tags` and
   `ranks` give, for each entry of the queue and of the result, one more than the depth of the
   service it was found from.
   */
  datatype Search = Search(depth: map<int, nat>, queue: seq<int>, tags: seq<nat>,
                           result: seq<int>, ranks: seq<nat>, level: nat)

  /** `x` has been visited, or is queued with a tag of at most `n`. */
  ghost predicate Pending(s: Search, x: int, n: nat)
    requires |s.tags| == |s.queue|
  {
    x in s.depth || exists i :: 0 <= i < |s.queue| && s.queue[i] == x && s.tags[i] <= n
  }

  ghost predicate QueueOrdered(s: Search) {
    && |s.tags| == |s.queue| && |s.ranks| == |s.result|
    && (forall i, j :: 0 <= i < j < |s.tags| ==> s.tags[i] <= s.tags[j])
    && (forall i :: 0 <= i < |s.tags| ==> s.level <= s.tags[i] <= s.level + 1)
    && (forall i, j :: 0 <= i < j < |s.ranks| ==> s.ranks[i] <= s.ranks[j])
    && (forall i :: 0 <= i < |s.ranks| ==> s.ranks[i] <= s.level + 1)
  }

  ghost predicate DepthsRight(g: Graph, target: int, s: Search) {
    forall v :: v in s.depth ==> s.depth[v] <= s.level && Distance(g, target, v, s.depth[v])
  }

  /** Everything found is within its tag; everything visited or queued was reported. */
  ghost predicate FoundRight(g: Graph, target: int, s: Search)
    requires |s.tags| == |s.queue|
  {
    && (forall i :: 0 <= i < |s.queue| ==> s.queue[i] in Within(g, target, s.tags[i]))
    && (forall i :: 0 <= i < |s.queue| ==> s.queue[i] == target || s.queue[i] in s.result)
    && (forall v :: v in s.depth ==> v == target || v in s.result)
    && (forall x :: x in s.result ==> x != target && (x in s.depth || x in s.queue))
  }

  predicate FirstAt(xs: seq<int>, i: int) {
    0 <= i < |xs| && xs[i] !in xs[..i]
  }

  /** The first time a service is reported its rank is its distance. */
  ghost predicate RanksRight(g: Graph, target: int, s: Search)
    requires |s.ranks| == |s.result|
  {
    forall i :: FirstAt(s.result, i) ==> Distance(g, target, s.result[i], s.ranks[i])
  }

  /** The dependents of every visited service outside `open` are pending. */
  ghost predicate Closed(g: Graph, target: int, s: Search, open: set<int>)
    requires |s.tags| == |s.queue|
  {
    && Pending(s, target, 0)
    && forall e :: e in g && e.1 in s.depth && e.1 !in open ==> Pending(s, e.0, s.depth[e.1] + 1)
  }

  ghost predicate Searching(g: Graph, target: int, s: Search, open: set<int>) {
    && QueueOrdered(s)
    && DepthsRight(g, target, s)
    && FoundRight(g, target, s)
    && RanksRight(g, target, s)
    && Closed(g, target, s, open)
  }

  ghost function Start(target: int): Search {
    Search(map[], [target], [0], [], [], 0)
  }

  lemma StartSearches(g: Graph, target: int)
    ensures Searching(g, target, Start(target), {})
  {
    assert Start(target).queue[0] == target && Start(target).tags[0] == 0;
  }

  /**
   A service within `n` steps is visited, queued with a tag of at most `n`, or waits behind an
   entry with a smaller tag.  Services in `open` have depth `n` or more.
   */
  lemma {:induction false} WithinIsPending(g: Graph, target: int, s: Search, open: set<int>, x: int, n: nat)
    requires |s.tags| == |s.queue| && DepthsRight(g, target, s) && Closed(g, target, s, open)
    requires forall v :: v in open && v in s.depth ==> s.depth[v] >= n
    requires x in Within(g, target, n)
    ensures Pending(s, x, n) || exists i :: 0 <= i < |s.queue| && s.tags[i] < n
    decreases n
  {
    if n > 0 {
      if x in Within(g, target, n - 1) {
        WithinIsPending(g, target, s, open, x, n - 1);
      } else {
        var e :| e in g && e.1 in Within(g, target, n - 1) && e.0 == x;
        if e.1 in s.depth {
          DistanceIsUnique(g, target, e.1, s.depth[e.1], n - 1);
        } else {
          WithinIsPending(g, target, s, open, e.1, n - 1);
        }
      }
    }
  }

  ghost function Drop(s: Search): Search
    requires s.queue != [] && s.tags != []
  {
    s.(queue := s.queue[1..], tags := s.tags[1..], level := s.tags[0])
  }

  lemma DropKeepsOrder(s: Search)
    requires QueueOrdered(s) && s.queue != []
    ensures QueueOrdered(Drop(s))
  {
  }

  lemma DropKeepsPending(s: Search, t: Search, x: int, n: nat)
    requires |s.tags| == |s.queue| > 0 && |t.tags| == |t.queue|
    requires t.queue == s.queue[1..] && t.tags == s.tags[1..]
    requires s.depth.Keys + {s.queue[0]} <= t.depth.Keys
    requires Pending(s, x, n)
    ensures Pending(t, x, n)
  {
    if x !in t.depth {
      var i :| 0 <= i < |s.queue| && s.queue[i] == x && s.tags[i] <= n;
      assert t.queue[i - 1] == x && t.tags[i - 1] <= n;
    }
  }

  /** Taking a service that was visited before changes nothing but the queue. */
  lemma SkipSearches(g: Graph, target: int, s: Search)
    requires Searching(g, target, s, {}) && s.queue != [] && s.queue[0] in s.depth
    ensures Searching(g, target, Drop(s), {})
  {
    var t := Drop(s);
    DropKeepsOrder(s);
    DropKeepsPending(s, t, target, 0);
    forall e | e in g && e.1 in t.depth ensures Pending(t, e.0, t.depth[e.1] + 1) {
      DropKeepsPending(s, t, e.0, s.depth[e.1] + 1);
    }
    forall i | 0 <= i < |t.queue|
      ensures t.queue[i] in Within(g, target, t.tags[i]) && (t.queue[i] == target || t.queue[i] in t.result)
    {
      assert t.queue[i] == s.queue[i + 1] && t.tags[i] == s.tags[i + 1];
    }
    DropKeepsFound(s, t);
  }

  lemma DropKeepsFound(s: Search, t: Search)
    requires s.queue != [] && t.queue == s.queue[1..] && s.depth.Keys + {s.queue[0]} <= t.depth.Keys
    ensures forall x :: x in s.depth || x in s.queue ==> x in t.depth || x in t.queue
  {
    forall x | x in s.queue && x !in t.depth ensures x in t.queue {
      var i :| 0 <= i < |s.queue| && s.queue[i] == x;
      assert t.queue[i - 1] == x;
    }
  }

  ghost function Visit(s: Search): Search
    requires s.queue != [] && s.tags != []
  {
    Drop(s).(depth := s.depth[s.queue[0] := s.tags[0]])
  }

  lemma HeadIsNotNearer(g: Graph, target: int, s: Search, n: nat)
    requires QueueOrdered(s) && DepthsRight(g, target, s) && Closed(g, target, s, {})
    requires s.queue != [] && s.queue[0] !in s.depth && n < s.tags[0]
    ensures s.queue[0] !in Within(g, target, n)
  {
    assert forall i :: 0 <= i < |s.queue| ==> s.tags[0] <= s.tags[i];
    hide Within, QueueOrdered, DepthsRight, Closed;
    if s.queue[0] in Within(g, target, n) {
      WithinIsPending(g, target, s, {}, s.queue[0], n);
      assert false;
    }
  }

  /** An unvisited head of the queue is tagged with its distance. */
  lemma HeadDistance(g: Graph, target: int, s: Search)
    requires QueueOrdered(s) && s.queue != [] && s.queue[0] !in s.depth
    requires DepthsRight(g, target, s) && FoundRight(g, target, s) && Closed(g, target, s, {})
    ensures Distance(g, target, s.queue[0], s.tags[0])
  {
    hide Within, DepthsRight, Closed;
    assert s.queue[0] in Within(g, target, s.tags[0]);
    hide FoundRight;
    if s.tags[0] > 0 {
      HeadIsNotNearer(g, target, s, s.tags[0] - 1);
    }
  }

  lemma VisitSearches(g: Graph, target: int, s: Search)
    requires Searching(g, target, s, {}) && s.queue != [] && s.queue[0] !in s.depth
    ensures Searching(g, target, Visit(s), {s.queue[0]})
    ensures target in Visit(s).depth
  {
    var q, t := s.queue[0], Visit(s);
    HeadDistance(g, target, s);
    if target !in s.depth {
      var i :| 0 <= i < |s.queue| && s.queue[i] == target && s.tags[i] <= 0;
      assert s.tags[0] <= s.tags[i];
    }
    DropKeepsOrder(s);
    DropKeepsPending(s, t, target, 0);
    forall e | e in g && e.1 in t.depth && e.1 != q ensures Pending(t, e.0, t.depth[e.1] + 1) {
      DropKeepsPending(s, t, e.0, s.depth[e.1] + 1);
    }
    forall i | 0 <= i < |t.queue|
      ensures t.queue[i] in Within(g, target, t.tags[i]) && (t.queue[i] == target || t.queue[i] in t.result)
    {
      assert t.queue[i] == s.queue[i + 1] && t.tags[i] == s.tags[i + 1];
    }
    DropKeepsFound(s, t);
    assert q == target || q in s.result;
  }

  /** Once level `n` is being processed, everything within `n` steps has been reported. */
  lemma LevelReported(g: Graph, target: int, s: Search, open: set<int>, x: int)
    requires Searching(g, target, s, open) && x in Within(g, target, s.level)
    requires forall v :: v in open && v in s.depth ==> s.depth[v] == s.level
    ensures x == target || x in s.result
  {
    WithinIsPending(g, target, s, open, x, s.level);
  }

  ghost function Report(s: Search, x: int): Search {
    s.(queue := s.queue + [x], tags := s.tags + [s.level + 1],
       result := s.result + [x], ranks := s.ranks + [s.level + 1])
  }

  lemma ReportKeepsPending(s: Search, x: int, y: int, n: nat)
    requires |s.tags| == |s.queue| && Pending(s, y, n)
    ensures Pending(Report(s, x), y, n)
  {
    if y !in s.depth {
      var i :| 0 <= i < |s.queue| && s.queue[i] == y && s.tags[i] <= n;
      assert Report(s, x).queue[i] == y && Report(s, x).tags[i] <= n;
    }
  }

  lemma ReportIsPending(s: Search, x: int)
    requires |s.tags| == |s.queue|
    ensures Pending(Report(s, x), x, s.level + 1)
  {
    var t := Report(s, x);
    assert t.queue[|s.queue|] == x && t.tags[|s.queue|] == s.level + 1;
  }

  lemma ReportRanks(g: Graph, target: int, s: Search, q: int, x: int)
    requires Searching(g, target, s, {q}) && q in s.depth && s.depth[q] == s.level
    requires (x, q) in g && x !in s.depth && x != target
    ensures RanksRight(g, target, Report(s, x))
    ensures x in Within(g, target, s.level + 1)
  {
    var t := Report(s, x);
    forall i | FirstAt(t.result, i) ensures Distance(g, target, t.result[i], t.ranks[i]) {
      if i < |s.result| {
        assert t.result[..i] == s.result[..i];
        assert FirstAt(s.result, i);
      } else {
        assert t.result[..i] == s.result;
        if x in Within(g, target, s.level) {
          LevelReported(g, target, s, {q}, x);
        }
      }
    }
  }

  lemma ReportCloses(g: Graph, target: int, s: Search, q: int, x: int)
    requires |s.tags| == |s.queue| && Closed(g, target, s, {q})
    ensures Closed(g, target, Report(s, x), {q})
  {
    var t := Report(s, x);
    ReportKeepsPending(s, x, target, 0);
    forall e | e in g && e.1 in t.depth && e.1 != q ensures Pending(t, e.0, t.depth[e.1] + 1) {
      ReportKeepsPending(s, x, e.0, s.depth[e.1] + 1);
    }
  }

  lemma ReportKeepsOrder(s: Search, x: int)
    requires QueueOrdered(s)
    ensures QueueOrdered(Report(s, x))
  {
  }

  lemma ReportSearches(g: Graph, target: int, s: Search, q: int, x: int)
    requires Searching(g, target, s, {q}) && q in s.depth && s.depth[q] == s.level
    requires (x, q) in g && x !in s.depth && target in s.depth
    ensures Searching(g, target, Report(s, x), {q})
    ensures Pending(Report(s, x), x, s.level + 1)
  {
    hide Closed, FoundRight, RanksRight, QueueOrdered;
    assert QueueOrdered(s);
    ReportKeepsOrder(s, x);
    ReportRanks(g, target, s, q, x);
    ReportIsPending(s, x);
    ReportCloses(g, target, s, q, x);
    ReportFound(g, target, s, x);
  }

  lemma ReportFound(g: Graph, target: int, s: Search, x: int)
    requires |s.tags| == |s.queue| && FoundRight(g, target, s) && x != target && x in Within(g, target, s.level + 1)
    ensures FoundRight(g, target, Report(s, x))
  {
    var t := Report(s, x);
    assert t.queue[|s.queue|] == x && t.result[|s.result|] == x;
    forall i | 0 <= i < |t.queue|
      ensures t.queue[i] in Within(g, target, t.tags[i]) && (t.queue[i] == target || t.queue[i] in t.result)
    {
      assert i < |s.queue| ==> t.queue[i] == s.queue[i] && t.tags[i] == s.tags[i];
    }
  }

  lemma CloseSearches(g: Graph, target: int, s: Search, q: int)
    requires Searching(g, target, s, {q}) && q in s.depth && s.depth[q] == s.level
    requires forall e :: e in g && e.1 == q ==> Pending(s, e.0, s.level + 1)
    ensures Searching(g, target, s, {})
  {
  }

  lemma FoundIsWithin(g: Graph, target: int, s: Search, x: int)
    requires Searching(g, target, s, {}) && s.queue == [] && x in s.result
    ensures x in s.depth && x in Within(g, target, s.depth[x])
  {
  }

  lemma WithinIsFound(g: Graph, target: int, s: Search, x: int, n: nat)
    requires Searching(g, target, s, {}) && s.queue == [] && x in Within(g, target, n)
    ensures x == target || x in s.result
  {
    WithinIsPending(g, target, s, {}, x, n);
  }

  /** With the queue empty, the result holds exactly the transitive dependents. */
  lemma SearchIsComplete(g: Graph, target: int, s: Search)
    requires Searching(g, target, s, {}) && s.queue == []
    ensures forall x :: x in s.result <==> x != target && DependsOn(g, x, target)
  {
    hide *;
    forall x ensures x in s.result <==> x != target && DependsOn(g, x, target) {
      if x in s.result {
        assert x != target by { SearchNeverReportsTarget(g, target, s, x); }
        FoundIsWithin(g, target, s, x);
        DependsOnIsWithin(g, x, target);
      } else if x != target && DependsOn(g, x, target) {
        DependsOnIsWithin(g, x, target);
        var n: nat :| x in Within(g, target, n);
        WithinIsFound(g, target, s, x, n);
      }
    }
  }

  lemma SearchNeverReportsTarget(g: Graph, target: int, s: Search, x: int)
    requires Searching(g, target, s, {}) && x in s.result
    ensures x != target
  {
  }

  /** First reports come in order of distance. */
  ghost predicate NearestFirst(g: Graph, target: int, xs: seq<int>) {
    forall i, j, m: nat, n: nat :: i < j && FirstAt(xs, i) && FirstAt(xs, j) ==>
      Distance(g, target, xs[i], m) && Distance(g, target, xs[j], n) ==> m <= n
  }

  lemma SearchIsNearestFirst(g: Graph, target: int, s: Search)
    requires QueueOrdered(s) && RanksRight(g, target, s)
    ensures NearestFirst(g, target, s.result)
  {
    forall i, j, m: nat, n: nat | i < j && FirstAt(s.result, i) && FirstAt(s.result, j)
      && Distance(g, target, s.result[i], m) && Distance(g, target, s.result[j], n)
      ensures m <= n
    {
      DistanceIsUnique(g, target, s.result[i], m, s.ranks[i]);
      DistanceIsUnique(g, target, s.result[j], s.ranks[j], n);
    }
  }
}
