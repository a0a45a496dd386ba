/**
 The intervals the regular expression cuts out of a text, and what cutting a text in two does
 to them.
 */
module ThinkCuts {
  import opened Options
  import opened Strings
  import opened ThinkFilter

  // ---- Texts with intervals cut out ------------------------------------------------------

  /** Half-open intervals of a text of length `n`, in order. */
  ghost predicate Ordered(cuts: seq<(int, int)>, n: int) {
    && (forall i :: 0 <= i < |cuts| ==> 0 <= cuts[i].0 <= cuts[i].1 <= n)
    && (forall i, j :: 0 <= i < j < |cuts| ==> cuts[i].1 <= cuts[j].0)
  }

  /** The text outside the cuts. */
  ghost function Outside(text: string, cuts: seq<(int, int)>): string
    requires Ordered(cuts, |text|)
    decreases |cuts|
  {
    if cuts == [] then text
    else
      var init, last := cuts[..|cuts| - 1], cuts[|cuts| - 1];
      Outside(text[..last.0], init) + text[last.1..]
  }

  ghost function Shift(cuts: seq<(int, int)>, d: int): seq<(int, int)> {
    seq(|cuts|, i requires 0 <= i < |cuts| => (cuts[i].0 + d, cuts[i].1 + d))
  }

  lemma OutsideExtend(a: string, cuts: seq<(int, int)>, b: string)
    requires Ordered(cuts, |a|)
    ensures Ordered(cuts, |a + b|) && Outside(a + b, cuts) == Outside(a, cuts) + b
  {
    if cuts != [] {
      var last := cuts[|cuts| - 1];
      assert (a + b)[..last.0] == a[..last.0] && (a + b)[last.1..] == a[last.1..] + b;
    }
  }

  lemma OrderedAppend(cuts: seq<(int, int)>, n: int, more: seq<(int, int)>, m: int)
    requires 0 <= n && 0 <= m && Ordered(cuts, n) && Ordered(more, m)
    ensures Ordered(cuts + Shift(more, n), n + m)
  {
    var all := cuts + Shift(more, n);
    forall i | 0 <= i < |all| ensures 0 <= all[i].0 <= all[i].1 <= n + m {
      assert i < |cuts| ==> all[i] == cuts[i];
      assert i >= |cuts| ==> all[i] == (more[i - |cuts|].0 + n, more[i - |cuts|].1 + n);
    }
  }

  lemma OutsideSnoc(text: string, init: seq<(int, int)>, c: (int, int))
    requires Ordered(init + [c], |text|)
    ensures 0 <= c.0 <= c.1 <= |text|
    ensures Ordered(init, c.0) && Outside(text, init + [c]) == Outside(text[..c.0], init) + text[c.1..]
  {
    var all := init + [c];
    assert all[..|init|] == init && all[|init|] == c;
    forall i | 0 <= i < |init| ensures 0 <= init[i].0 <= init[i].1 <= c.0 {
      assert all[i] == init[i];
    }
    assert forall i, j :: 0 <= i < j < |init| ==> all[i].1 <= all[j].0;
  }

  lemma ShiftSnoc(init: seq<(int, int)>, last: (int, int), d: int)
    ensures Shift(init + [last], d) == Shift(init, d) + [(last.0 + d, last.1 + d)]
  {
  }

  lemma ShiftNothing(d: int)
    ensures Shift([], d) == []
  {
  }

  lemma OutsideNothing(s: string)
    ensures Ordered([], |s|) && Outside(s, []) == s
  {
  }

  lemma OutsideConcatSnoc(a: string, cuts: seq<(int, int)>, b: string, init: seq<(int, int)>, last: (int, int))
    requires Ordered(cuts, |a|) && Ordered(init + [last], |b|) && 0 <= last.0 <= last.1 <= |b|
    requires Ordered(cuts + Shift(init + [last], |a|), |a + b|)
    requires var a', b' := a + b[..last.0], b[..last.0];
      && Ordered(init, |b'|) && Ordered(cuts + Shift(init, |a|), |a'|)
      && Outside(a', cuts + Shift(init, |a|)) == Outside(a, cuts) + Outside(b', init)
    ensures Outside(a + b, cuts + Shift(init + [last], |a|)) == Outside(a, cuts) + Outside(b, init + [last])
  {
    hide Outside, Shift, Ordered;
    var front, c := cuts + Shift(init, |a|), (last.0 + |a|, last.1 + |a|);
    ShiftSnoc(init, last, |a|);
    assert cuts + Shift(init + [last], |a|) == front + [c];
    OutsideSnoc(b, init, last);
    OutsideSnoc(a + b, front, c);
    assert (a + b)[..c.0] == a + b[..last.0] && (a + b)[c.1..] == b[last.1..];
    var x, y, z := Outside(a, cuts), Outside(b[..last.0], init), b[last.1..];
    assert (x + y) + z == x + (y + z);
  }

  lemma {:induction false} OutsideConcat(a: string, cuts: seq<(int, int)>, b: string, more: seq<(int, int)>)
    requires Ordered(cuts, |a|) && Ordered(more, |b|)
    ensures Ordered(cuts + Shift(more, |a|), |a + b|)
    ensures Outside(a + b, cuts + Shift(more, |a|)) == Outside(a, cuts) + Outside(b, more)
    decreases |more|
  {
    hide Outside, Shift, Ordered;
    OrderedAppend(cuts, |a|, more, |b|);
    if more == [] {
      OutsideNothing(b);
      assert Shift(more, |a|) == [] by { ShiftNothing(|a|); }
      assert cuts + [] == cuts;
      OutsideExtend(a, cuts, b);
    } else {
      var init, last := more[..|more| - 1], more[|more| - 1];
      assert more == init + [last];
      OutsideSnoc(b, init, last);
      OutsideConcat(a, cuts, b[..last.0], init);
      OutsideConcatSnoc(a, cuts, b, init, last);
    }
  }

  lemma OutsideOne(t: string, i: int, j: int)
    requires 0 <= i <= j <= |t|
    ensures Ordered([(i, j)], |t|) && Outside(t, [(i, j)]) == t[..i] + t[j..]
  {
    assert [(i, j)][..0] == [];
  }

  // ---- The cuts of a text ----------------------------------------------------------------

  /** The shortest block that starts at `i`. */
  ghost predicate IsCut(s: string, i: int, j: int) {
    IsBlock(s, i, j) && forall k :: i + |OPEN| <= k < j - |CLOSE| ==> !OccursAt(s, CLOSE, k)
  }

  ghost predicate AreCuts(text: string, cuts: seq<(int, int)>) {
    Ordered(cuts, |text|) && forall c :: c in cuts ==> IsCut(text, c.0, c.1)
  }

  ghost predicate StartsIn(cuts: seq<(int, int)>, i: int) {
    exists c :: c in cuts && c.0 <= i < c.1
  }

  /** Every block of the text starts inside a cut. */
  ghost predicate Covers(text: string, cuts: seq<(int, int)>) {
    forall i, j :: IsBlock(text, i, j) ==> StartsIn(cuts, i)
  }

  /** A position strictly inside a cut. */
  ghost predicate Across(cuts: seq<(int, int)>, p: int) {
    exists c :: c in cuts && c.0 < p < c.1
  }

  /** The matches of the regular expression, from left to right. */
  ghost function Cuts(s: string): seq<(int, int)>
    decreases |s|
  {
    var block := FirstBlock(s);
    if block.None? then []
    else [(block.value.0, block.value.1)] + Shift(Cuts(s[block.value.1..]), block.value.1)
  }

  lemma CutsStep(s: string)
    requires FirstBlock(s).Some?
    ensures var (i, j) := FirstBlock(s).value;
      0 <= i < j <= |s| && Cuts(s) == [(i, j)] + Shift(Cuts(s[j..]), j)
  {
  }

  lemma CutsNothing(s: string)
    requires FirstBlock(s).None?
    ensures Cuts(s) == []
  {
  }

  lemma FirstBlockIsCut(s: string)
    requires FirstBlock(s).Some?
    ensures IsCut(s, FirstBlock(s).value.0, FirstBlock(s).value.1)
  {
    var (i, j) := FirstBlock(s).value;
    forall k | i + |OPEN| <= k < j - |CLOSE| ensures !OccursAt(s, CLOSE, k) {
      assert !IsBlock(s, i, k + |CLOSE|);
    }
  }

  lemma CutInPrefix(a: string, b: string, i: int, j: int)
    requires j <= |a|
    ensures IsCut(a + b, i, j) <==> IsCut(a, i, j)
  {
    BlockInPrefix(a, b, i, j);
    forall k | i + |OPEN| <= k < j - |CLOSE| ensures OccursAt(a + b, CLOSE, k) <==> OccursAt(a, CLOSE, k) {
      OccursInPrefix(a, b, CLOSE, k);
    }
    hide IsBlock, OccursAt;
  }

  lemma CutInSuffix(a: string, b: string, i: int, j: int)
    requires |a| <= i
    ensures IsCut(a + b, i, j) <==> IsCut(b, i - |a|, j - |a|)
  {
    BlockInSuffix(a, b, i, j);
    forall k | i + |OPEN| <= k < j - |CLOSE| ensures OccursAt(a + b, CLOSE, k) <==> OccursAt(b, CLOSE, k - |a|) {
      OccursInSuffix(a, b, CLOSE, k);
    }
    forall k | i - |a| + |OPEN| <= k < j - |a| - |CLOSE|
      ensures OccursAt(b, CLOSE, k) <==> OccursAt(a + b, CLOSE, k + |a|)
    {
      OccursInSuffix(a, b, CLOSE, k + |a|);
    }
    hide IsBlock, OccursAt;
  }

  lemma ShiftedIn(cuts: seq<(int, int)>, d: int, c: (int, int))
    ensures c in Shift(cuts, d) <==> (c.0 - d, c.1 - d) in cuts
  {
    if (c.0 - d, c.1 - d) in cuts {
      var i :| 0 <= i < |cuts| && cuts[i] == (c.0 - d, c.1 - d);
      assert Shift(cuts, d)[i] == c;
    }
  }

  lemma CutBounds(s: string, cuts: seq<(int, int)>)
    requires AreCuts(s, cuts)
    ensures forall c :: c in cuts ==> 0 <= c.0 && c.1 <= |s|
    ensures forall c :: c in cuts ==> IsCut(s, c.0, c.1)
  {
  }

  lemma CutsConcat(a: string, cuts: seq<(int, int)>, b: string, more: seq<(int, int)>)
    requires AreCuts(a, cuts) && AreCuts(b, more)
    ensures AreCuts(a + b, cuts + Shift(more, |a|))
    ensures Outside(a + b, cuts + Shift(more, |a|)) == Outside(a, cuts) + Outside(b, more)
  {
    hide IsCut, Shift, Outside, Ordered, IsBlock, OccursAt;
    OutsideConcat(a, cuts, b, more);
    CutBounds(a, cuts);
    CutBounds(b, more);
    forall c | c in cuts + Shift(more, |a|) ensures IsCut(a + b, c.0, c.1) {
      if c in cuts {
        CutInPrefix(a, b, c.0, c.1);
      } else {
        ShiftedIn(more, |a|, c);
        CutInSuffix(a, b, c.0, c.1);
      }
    }
  }

  lemma OneCut(s: string, i: int, j: int)
    requires IsCut(s, i, j)
    ensures 0 <= i < j <= |s| && AreCuts(s[..j], [(i, j)]) && Outside(s[..j], [(i, j)]) == s[..i]
  {
    hide OccursAt, Outside, Ordered;
    BlockBounds(s, i, j);
    var t := s[..j];
    assert s == t + s[j..];
    CutInPrefix(t, s[j..], i, j);
    hide IsCut;
    OutsideOne(t, i, j);
    assert t[..i] + t[j..] == s[..i];
  }

  lemma ShiftedStart(front: seq<(int, int)>, cuts: seq<(int, int)>, d: int, i: int)
    ensures StartsIn(front, i) ==> StartsIn(front + Shift(cuts, d), i)
    ensures StartsIn(cuts, i - d) ==> StartsIn(front + Shift(cuts, d), i)
  {
    hide Shift;
    if StartsIn(cuts, i - d) {
      var c :| c in cuts && c.0 <= i - d < c.1;
      ShiftedIn(cuts, d, (c.0 + d, c.1 + d));
      assert (c.0 + d, c.1 + d) in front + Shift(cuts, d);
    }
  }

  /** The blocks of a text start in its first block, or after it. */
  lemma CoversStep(s: string, j: int, front: seq<(int, int)>, rest: seq<(int, int)>)
    requires 0 <= j <= |s| && Covers(s[j..], rest)
    requires forall i', j' :: IsBlock(s, i', j') && i' < j ==> StartsIn(front, i')
    ensures Covers(s, front + Shift(rest, j))
  {
    hide IsBlock, StartsIn;
    assert s == s[..j] + s[j..];
    forall i', j' | IsBlock(s, i', j') ensures StartsIn(front + Shift(rest, j), i') {
      ShiftedStart(front, rest, j, i');
      if i' >= j {
        BlockInSuffix(s[..j], s[j..], i', j');
        assert IsBlock(s[j..], i' - j, j' - j);
      }
    }
  }

  lemma StartsInFirst(s: string)
    requires FirstBlock(s).Some?
    ensures var (i, j) := FirstBlock(s).value;
      forall i', j' :: IsBlock(s, i', j') && i' < j ==> StartsIn([(i, j)], i')
  {
    var (i, j) := FirstBlock(s).value;
    assert (i, j) in [(i, j)];
  }

  lemma NothingCut(s: string)
    requires FirstBlock(s).None?
    ensures AreCuts(s, Cuts(s)) && Covers(s, Cuts(s)) && Remove(s) == Outside(s, Cuts(s))
  {
    CutsNothing(s);
    RemoveNothing(s);
    hide FirstBlock, Remove, Cuts, IsBlock, StartsIn;
    forall i, j ensures !IsBlock(s, i, j) {
      NoBlocks(s, i, j);
    }
  }

  /**
   The regular expression removes exactly its cuts: each is a block without another closing tag
   in it, and every block of the text starts inside one.  There is only one such list of cuts.
   */
  lemma {:induction false} RemoveCutsBlocks(s: string)
    ensures AreCuts(s, Cuts(s)) && Covers(s, Cuts(s)) && Remove(s) == Outside(s, Cuts(s))
    decreases |s|
  {
    hide Remove, Outside, AreCuts, IsCut, Shift, Covers, Cuts, FirstBlock, IsBlock, StartsIn, OccursAt;
    if FirstBlock(s).None? {
      NothingCut(s);
    } else {
      RemoveStep(s);
      CutsStep(s);
      FirstBlockIsCut(s);
      StartsInFirst(s);
      var (i, j) := FirstBlock(s).value;
      OneCut(s, i, j);
      RemoveCutsBlocks(s[j..]);
      assert s == s[..j] + s[j..];
      CutsConcat(s[..j], [(i, j)], s[j..], Cuts(s[j..]));
      CoversStep(s, j, [(i, j)], Cuts(s[j..]));
    }
  }

  lemma CutAtFirst(s: string, c: (int, int))
    requires FirstBlock(s).Some? && IsCut(s, c.0, c.1) && c.0 <= FirstBlock(s).value.0 < c.1
    ensures c == FirstBlock(s).value
  {
    hide FirstBlock, OccursAt;
  }

  lemma EarliestCut(cuts: seq<(int, int)>, n: int, c: (int, int))
    requires Ordered(cuts, n) && c in cuts && c.0 < c.1
    requires cuts[0].0 < cuts[0].1 && c.0 <= cuts[0].0
    ensures cuts[0] == c
  {
    assert forall k :: 0 < k < |cuts| ==> cuts[0].1 <= cuts[k].0;
  }

  /** The first block is the first of any such cuts. */
  lemma FirstCut(s: string, cuts: seq<(int, int)>)
    requires AreCuts(s, cuts) && Covers(s, cuts) && FirstBlock(s).Some?
    ensures cuts != [] && cuts[0] == FirstBlock(s).value
  {
    hide FirstBlock, OccursAt, IsBlock, IsCut, Ordered;
    var (i, j) := FirstBlock(s).value;
    var c :| c in cuts && c.0 <= i < c.1;
    CutAtFirst(s, c);
    assert cuts[0] in cuts;
    CutIsBlock(s, cuts[0].0, cuts[0].1);
    EarliestCut(cuts, |s|, c);
  }

  lemma CutIsBlock(s: string, i: int, j: int)
    requires IsCut(s, i, j)
    ensures IsBlock(s, i, j) && 0 <= i < j <= |s|
  {
  }

  lemma LaterCut(s: string, cuts: seq<(int, int)>, c: (int, int))
    requires Ordered(cuts, |s|) && cuts != [] && c in cuts[1..]
    ensures cuts[0].1 <= c.0 <= c.1 <= |s|
  {
    var k :| 0 <= k < |cuts[1..]| && cuts[1..][k] == c;
    assert cuts[k + 1] == c;
  }

  lemma ShiftedOrder(cuts: seq<(int, int)>, n: int)
    requires Ordered(cuts, n) && cuts != []
    ensures Ordered(Shift(cuts[1..], -cuts[0].1), n - cuts[0].1)
  {
    var rest := Shift(cuts[1..], -cuts[0].1);
    forall i | 0 <= i < |rest| ensures 0 <= rest[i].0 <= rest[i].1 <= n - cuts[0].1 {
      assert rest[i] == (cuts[i + 1].0 - cuts[0].1, cuts[i + 1].1 - cuts[0].1);
    }
    forall i, k | 0 <= i < k < |rest| ensures rest[i].1 <= rest[k].0 {
      assert cuts[i + 1].1 <= cuts[k + 1].0;
    }
  }

  lemma RestAreCuts(s: string, cuts: seq<(int, int)>)
    requires AreCuts(s, cuts) && cuts != []
    ensures 0 <= cuts[0].1 <= |s| && AreCuts(s[cuts[0].1..], Shift(cuts[1..], -cuts[0].1))
  {
    hide IsCut, Shift, Ordered;
    CutBounds(s, cuts);
    assert cuts[0] in cuts;
    CutIsBlock(s, cuts[0].0, cuts[0].1);
    var j := cuts[0].1;
    ShiftedOrder(cuts, |s|);
    assert s == s[..j] + s[j..];
    forall c | c in Shift(cuts[1..], -j) ensures IsCut(s[j..], c.0, c.1) {
      ShiftedIn(cuts[1..], -j, c);
      LaterCut(s, cuts, (c.0 + j, c.1 + j));
      assert (c.0 + j, c.1 + j) in cuts;
      CutInSuffix(s[..j], s[j..], c.0 + j, c.1 + j);
    }
  }

  lemma StartsInRest(cuts: seq<(int, int)>, n: int, i: int)
    requires Ordered(cuts, n) && StartsIn(cuts, i) && cuts != [] && cuts[0].1 <= i
    ensures StartsIn(Shift(cuts[1..], -cuts[0].1), i - cuts[0].1)
  {
    hide Shift, Ordered;
    var j := cuts[0].1;
    var c :| c in cuts && c.0 <= i < c.1;
    var k :| 0 <= k < |cuts| && cuts[k] == c;
    assert cuts[1..][k - 1] == c;
    ShiftedIn(cuts[1..], -j, (c.0 - j, c.1 - j));
  }

  lemma RestCovers(s: string, cuts: seq<(int, int)>)
    requires Ordered(cuts, |s|) && Covers(s, cuts) && cuts != [] && 0 <= cuts[0].1 <= |s|
    ensures Covers(s[cuts[0].1..], Shift(cuts[1..], -cuts[0].1))
  {
    hide IsBlock, Shift, StartsIn, Ordered;
    var j := cuts[0].1;
    assert s == s[..j] + s[j..];
    forall i', j' | IsBlock(s[j..], i', j') ensures StartsIn(Shift(cuts[1..], -j), i') {
      BlockBounds(s[j..], i', j');
      BlockInSuffix(s[..j], s[j..], i' + j, j' + j);
      assert IsBlock(s, i' + j, j' + j);
      StartsInRest(cuts, |s|, i' + j);
    }
  }

  lemma ShiftBack(cuts: seq<(int, int)>, j: int)
    ensures Shift(Shift(cuts, -j), j) == cuts
  {
  }

  /** The conditions leave no choice: ordered shortest blocks that cover all blocks are the cuts. */
  lemma {:induction false} CutsAreUnique(s: string, cuts: seq<(int, int)>)
    requires AreCuts(s, cuts) && Covers(s, cuts)
    ensures cuts == Cuts(s)
    decreases |s|
  {
    hide Cuts, FirstBlock, Shift, Covers, IsBlock, OccursAt, Ordered;
    if FirstBlock(s).None? {
      CutsNothing(s);
      if cuts != [] {
        assert cuts[0] in cuts;
        NoBlocks(s, cuts[0].0, cuts[0].1);
      }
    } else {
      FirstCut(s, cuts);
      CutsStep(s);
      RestAreCuts(s, cuts);
      RestCovers(s, cuts);
      var j := cuts[0].1;
      CutsAreUnique(s[j..], Shift(cuts[1..], -j));
      ShiftBack(cuts[1..], j);
      assert cuts == [cuts[0]] + cuts[1..];
    }
  }

  // ---- Cutting a text in two -------------------------------------------------------------

  lemma OpenTagChars(s: string, o: int)
    requires OccursAt(s, OPEN, o)
    ensures s[o] == '<' && s[o + 1] == 't' && forall k :: o < k < o + |OPEN| ==> s[k] != '<'
  {
    var tag := s[o..o + |OPEN|];
    assert tag[0] == '<' && tag[1] == 't';
    forall k | o < k < o + |OPEN| ensures s[k] != '<' {
      assert tag[k - o] == s[k];
    }
  }

  lemma CloseTagChars(s: string, c: int)
    requires OccursAt(s, CLOSE, c)
    ensures s[c] == '<' && s[c + 1] == '/' && forall k :: c < k < c + |CLOSE| ==> s[k] != '<'
  {
    var tag := s[c..c + |CLOSE|];
    assert tag[0] == '<' && tag[1] == '/';
    forall k | c < k < c + |CLOSE| ensures s[k] != '<' {
      assert tag[k - c] == s[k];
    }
  }

  /** An opening and a closing tag never overlap. */
  lemma TagsApart(s: string, o: int, c: int)
    requires OccursAt(s, OPEN, o) && OccursAt(s, CLOSE, c)
    ensures o + |OPEN| <= c || c + |CLOSE| <= o
  {
    OpenTagChars(s, o);
    CloseTagChars(s, c);
  }

  lemma {:induction false} RemoveShrinks(s: string)
    ensures |Remove(s)| <= |s|
    decreases |s|
  {
    if FirstBlock(s).Some? {
      RemoveStep(s);
      RemoveShrinks(s[FirstBlock(s).value.1..]);
    } else {
      RemoveNothing(s);
    }
  }

  /** What precedes the first block plays no part in it. */
  lemma FirstBlockAfter(s: string, q: nat)
    requires q <= |s| && FirstBlock(s).Some? && q <= FirstBlock(s).value.0
    ensures FirstBlock(s[q..]) == Some((FirstBlock(s).value.0 - q, FirstBlock(s).value.1 - q))
  {
    hide FirstBlock, IsBlock, OccursAt;
    var (i, j) := FirstBlock(s).value;
    assert s == s[..q] + s[q..];
    BlockInSuffix(s[..q], s[q..], i, j);
    forall i', j' | IsBlock(s[q..], i', j') ensures i - q < i' || (i - q == i' && j - q <= j') {
      BlockBounds(s[q..], i', j');
      BlockInSuffix(s[..q], s[q..], i' + q, j' + q);
    }
    FirstBlockIs(s[q..], i - q, j - q);
  }

  lemma NoBlockAfter(x: string, y: string)
    requires FirstBlock(x + y).None?
    ensures FirstBlock(x).None? && FirstBlock(y).None?
  {
    if FirstBlock(x).Some? {
      FirstBlockInPrefix(x, y);
    }
    if FirstBlock(y).Some? {
      var (i, j) := FirstBlock(y).value;
      BlockInSuffix(x, y, i + |x|, j + |x|);
      NoBlocks(x + y, i + |x|, j + |x|);
    }
  }

  /** If the first block reaches from `x` into `y`, a block of `y` that starts inside it ends with it. */
  lemma EndsTogether(x: string, y: string)
    requires FirstBlock(x + y).Some? && FirstBlock(x + y).value.0 < |x| < FirstBlock(x + y).value.1
    requires FirstBlock(y).Some? && |x| + FirstBlock(y).value.0 < FirstBlock(x + y).value.1
    ensures |x| + FirstBlock(y).value.1 == FirstBlock(x + y).value.1
  {
    hide FirstBlock, OccursAt;
    var s := x + y;
    var (a, b) := FirstBlock(s).value;
    var (i, j) := FirstBlock(y).value;
    BlockInSuffix(x, y, |x| + i, |x| + j);
    TagsApart(s, |x| + i, b - |CLOSE|);
    assert IsBlock(s, |x| + i, b) && IsBlock(s, a, |x| + j);
    BlockInSuffix(x, y, |x| + i, b);
  }

  lemma AcrossIsShorter(x: string, y: string)
    requires FirstBlock(x + y).Some? && FirstBlock(x + y).value.0 < |x| < FirstBlock(x + y).value.1
    ensures |Remove(x + y)| < |x| + |Remove(y)|
  {
    hide Remove, FirstBlock, IsBlock, OccursAt;
    var (a, b) := FirstBlock(x + y).value;
    RemoveStep(x + y);
    var q := b - |x|;
    var rest := y[q..];
    assert (x + y)[b..] == rest;
    RemoveShrinks(rest);
    if FirstBlock(y).None? {
      RemoveNothing(y);
    } else {
      var (i, j) := FirstBlock(y).value;
      RemoveStep(y);
      if i >= q {
        FirstBlockAfter(y, q);
        RemoveStep(rest);
        assert rest[j - q..] == y[j..];
      } else {
        EndsTogether(x, y);
      }
    }
  }

  lemma AcrossConcat(a: seq<(int, int)>, b: seq<(int, int)>, d: int, p: int)
    ensures Across(a + Shift(b, d), p) <==> Across(a, p) || Across(b, p - d)
  {
    hide Shift;
    forall c | c in Shift(b, d) ensures (c.0 - d, c.1 - d) in b {
      ShiftedIn(b, d, c);
    }
    if c :| c in b && c.0 < p - d < c.1 {
      ShiftedIn(b, d, (c.0 + d, c.1 + d));
      assert (c.0 + d, c.1 + d) in a + Shift(b, d);
    }
    if c :| c in a && c.0 < p < c.1 {
      assert c in a + Shift(b, d);
    }
  }

  lemma ShiftConcat(a: seq<(int, int)>, b: seq<(int, int)>, m: int, d: int)
    ensures Shift(a + Shift(b, m), d) == Shift(a, d) + Shift(b, m + d)
  {
  }

  /** The text splits at its middle: its cuts are those of the two parts. */
  ghost predicate Splits(x: string, y: string) {
    Remove(x + y) == Remove(x) + Remove(y) && Cuts(x + y) == Cuts(x) + Shift(Cuts(y), |x|)
  }

  lemma NotAcrossOne(i: int, j: int, p: int)
    requires p <= i || j <= p
    ensures !Across([(i, j)], p)
  {
  }

  lemma SplitAfterFirst(x: string, y: string)
    requires FirstBlock(x).Some?
    ensures var j := FirstBlock(x).value.1;
      && 0 < j <= |x|
      && (Across(Cuts(x + y), |x|) <==> Across(Cuts(x[j..] + y), |x[j..]|))
      && |Remove(x + y)| - |Remove(x)| == |Remove(x[j..] + y)| - |Remove(x[j..])|
      && (Splits(x[j..], y) ==> Splits(x, y))
  {
    hide FirstBlock, Remove, Cuts, Shift, Across, Splits, IsBlock, OccursAt;
    RemoveStep(x);
    FirstBlockInPrefix(x, y);
    RemoveStep(x + y);
    CutsStep(x + y);
    var (i, j) := FirstBlock(x).value;
    var u := x[j..];
    assert (x + y)[j..] == u + y && (x + y)[..i] == x[..i];
    AcrossConcat([(i, j)], Cuts(u + y), j, |x|);
    NotAcrossOne(i, j, |x|);
    if Splits(u, y) {
      SplitsStep(x, y);
    }
  }

  lemma SplitsStep(x: string, y: string)
    requires FirstBlock(x).Some? && FirstBlock(x + y) == FirstBlock(x)
    requires Splits(x[FirstBlock(x).value.1..], y)
    ensures Splits(x, y)
  {
    hide FirstBlock, Remove, Cuts, Shift, IsBlock, OccursAt;
    RemoveStep(x);
    CutsStep(x);
    RemoveStep(x + y);
    CutsStep(x + y);
    var (i, j) := FirstBlock(x).value;
    var u := x[j..];
    assert (x + y)[j..] == u + y && (x + y)[..i] == x[..i];
    ShiftConcat(Cuts(u), Cuts(y), |u|, j);
    assert x[..i] + (Remove(u) + Remove(y)) == x[..i] + Remove(u) + Remove(y);
    assert [(i, j)] + (Shift(Cuts(u), j) + Shift(Cuts(y), |x|)) == [(i, j)] + Shift(Cuts(u), j) + Shift(Cuts(y), |x|);
  }

  lemma SplitBeforeFirst(x: string, y: string)
    requires FirstBlock(x + y).Some? && FirstBlock(x).None? && |x| <= FirstBlock(x + y).value.0
    ensures Splits(x, y) && !Across(Cuts(x + y), |x|)
  {
    hide FirstBlock, Remove, Cuts, Shift, IsBlock, OccursAt, Across;
    var s := x + y;
    assert s[|x|..] == y;
    FirstBlockAfter(s, |x|);
    RemoveStep(s);
    RemoveStep(y);
    RemoveNothing(x);
    CutsNothing(x);
    CutsStep(s);
    CutsStep(y);
    var (a, b) := FirstBlock(s).value;
    var i, j := a - |x|, b - |x|;
    assert y[j..] == s[b..] && s[..a] == x + y[..i];
    assert x + (y[..i] + Remove(y[j..])) == x + y[..i] + Remove(y[j..]);
    ShiftConcat([(i, j)], Cuts(y[j..]), j, |x|);
    assert Shift([(i, j)], |x|) == [(a, b)] by { ShiftOne(i, j, |x|); }
    assert [] + Cuts(s) == Cuts(s);
    CutsAfterFirst(s, |x|);
  }

  lemma ShiftOne(i: int, j: int, d: int)
    ensures Shift([(i, j)], d) == [(i + d, j + d)]
  {
  }

  lemma CutsAfterFirst(s: string, p: nat)
    requires FirstBlock(s).Some? && p <= FirstBlock(s).value.0
    ensures !Across(Cuts(s), p)
  {
    CutsStep(s);
    RemoveCutsBlocks(s);
    hide FirstBlock, Cuts, IsCut, Outside, Covers, Ordered;
    forall c | c in Cuts(s) ensures p <= c.0 {
      OrderedFrom(Cuts(s), |s|, c);
    }
  }

  lemma OrderedFrom(cuts: seq<(int, int)>, n: int, c: (int, int))
    requires Ordered(cuts, n) && c in cuts
    ensures cuts != [] && cuts[0].0 <= c.0 && c.1 <= n
  {
    var k :| 0 <= k < |cuts| && cuts[k] == c;
    assert k > 0 ==> cuts[0].1 <= cuts[k].0;
  }

  /**
   Removing from the two parts of a text separately gives the text with its cuts removed exactly
   if no cut lies across the place where it is parted; otherwise more is left.
   */
  lemma {:induction false} PartedRemoval(x: string, y: string)
    ensures Across(Cuts(x + y), |x|) ==> |Remove(x + y)| < |Remove(x)| + |Remove(y)|
    ensures !Across(Cuts(x + y), |x|) ==> Splits(x, y)
    decreases |x|
  {
    hide FirstBlock, Remove, Cuts, Shift;
    if FirstBlock(x).Some? {
      SplitAfterFirst(x, y);
      PartedRemoval(x[FirstBlock(x).value.1..], y);
    } else {
      RemoveNothing(x);
      CutsNothing(x);
      if FirstBlock(x + y).None? {
        NoBlockAfter(x, y);
        RemoveNothing(y);
        RemoveNothing(x + y);
        CutsNothing(y);
        CutsNothing(x + y);
        ShiftNothing(|x|);
      } else {
        var (a, b) := FirstBlock(x + y).value;
        RemoveStep(x + y);
        if |x| <= a {
          SplitBeforeFirst(x, y);
        } else {
          FirstBlockReaches(x, y);
          AcrossIsShorter(x, y);
          CutsStep(x + y);
          assert (a, b) in Cuts(x + y);
        }
      }
    }
  }

  lemma FirstBlockReaches(x: string, y: string)
    requires FirstBlock(x).None? && FirstBlock(x + y).Some?
    ensures |x| < FirstBlock(x + y).value.1
  {
    var (a, b) := FirstBlock(x + y).value;
    if b <= |x| {
      BlockInPrefix(x, y, a, b);
      NoBlocks(x, a, b);
    }
  }
}
