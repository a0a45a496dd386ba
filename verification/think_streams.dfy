/**
 What streaming yields for any tokens: the text with some blocks and the buffered tail cut out,
 and exactly when the streamed and the buffered text together are what the regular expression
 leaves.
 */
module ThinkStreams {
  import opened Options
  import opened Strings
  import opened ThinkFilter
  import opened ThinkCuts

  // ---- Flushes ---------------------------------------------------------------------------

  /** The positions of the text at which the loop has nothing buffered. */
  ghost function FlushPoints(tokens: seq<string>): set<int> {
    set k: nat | k <= |tokens| && Filter(tokens[..k]).buffer == [] :: |Concat(tokens[..k])|
  }

  /** Some cut of the text has a flush strictly inside it. */
  ghost predicate Interrupted(points: set<int>, cuts: seq<(int, int)>) {
    exists p :: p in points && Across(cuts, p)
  }

  lemma FlushPointsStep(init: seq<string>, token: string)
    ensures FlushPoints(init + [token])
      == FlushPoints(init) + if Filter(init + [token]).buffer == [] then {|Concat(init + [token])|} else {}
  {
    hide Filter, Concat;
    var all := init + [token];
    assert all[..|all|] == all;
    assert forall k :: 0 <= k <= |init| ==> all[..k] == init[..k];
    forall p
      ensures p in FlushPoints(all) <==> p in FlushPoints(init) || (Filter(all).buffer == [] && p == |Concat(all)|)
    {
      if p in FlushPoints(init) {
        var k: nat :| k <= |init| && Filter(init[..k]).buffer == [] && p == |Concat(init[..k])|;
        assert all[..k] == init[..k];
      }
      if p in FlushPoints(all) {
        var k: nat :| k <= |all| && Filter(all[..k]).buffer == [] && p == |Concat(all[..k])|;
        if k <= |init| {
          assert all[..k] == init[..k];
        }
      }
    }
  }

  /** The text is `f`, which has been flushed, and the buffer; the last flush was at its end. */
  ghost predicate Flushed(tokens: seq<string>, f: string) {
    var buffer, points := Filter(tokens).buffer, FlushPoints(tokens);
    && Concat(tokens) == f + buffer && |f| in points && (forall p :: p in points ==> 0 <= p <= |f|)
    && (buffer == [] || (Contains(buffer, OPEN) && !Contains(buffer, CLOSE)))
  }

  lemma NothingFlushed()
    ensures FlushPoints([]) == {0} && Flushed([], [])
  {
    FilterOfNothing();
    var none: seq<string> := [];
    assert none[..0] == none;
    assert 0 in FlushPoints([]);
  }

  /** One token either joins the buffer, or flushes buffer and token with their cuts removed. */
  lemma TokenStep(init: seq<string>, token: string, f: string) returns (b: string, flushes: bool)
    requires Flushed(init, f)
    ensures b == Filter(init).buffer + token
    ensures !flushes ==> Flushed(init + [token], f) && FlushPoints(init + [token]) == FlushPoints(init)
    ensures !flushes ==> Concat(Filter(init + [token]).output) == Concat(Filter(init).output)
    ensures flushes ==> Flushed(init + [token], f + b) && FlushPoints(init + [token]) == FlushPoints(init) + {|f + b|}
    ensures flushes ==> Concat(Filter(init + [token]).output) == Concat(Filter(init).output) + Remove(b)
  {
    hide Filter, Remove, Contains, Concat, FlushPoints, OccursAt;
    FilterStep(init, token);
    FlushPointsStep(init, token);
    var s := Filter(init);
    b := s.buffer + token;
    assert f + s.buffer + token == f + b;
    flushes := !Contains(b, OPEN) || Contains(b, CLOSE);
    if flushes {
      if !Contains(b, CLOSE) {
        NoCloseNoBlock(b);
      }
      ConcatAppend(s.output, Remove(b));
      assert s.output + [] == s.output && Concat(s.output) + [] == Concat(s.output);
      assert f + b + [] == f + b;
    } else {
      TooShort("", OPEN);
    }
  }

  /** Nothing empty is yielded, and no token yields twice. */
  lemma {:induction false} YieldsAreNotEmpty(tokens: seq<string>)
    ensures |Filter(tokens).output| <= |tokens| && forall t :: t in Filter(tokens).output ==> t != ""
  {
    if tokens != [] {
      hide Remove, Contains;
      YieldsAreNotEmpty(tokens[..|tokens| - 1]);
    }
  }

  // ---- When streaming agrees with the whole text -----------------------------------------

  /** The streamed text is at least as long as what the regular expression leaves of `f`, and equal if uninterrupted. */
  ghost predicate Measures(output: string, points: set<int>, f: string) {
    && |output| >= |Remove(f)|
    && (output == Remove(f) <==> !Interrupted(points, Cuts(f)))
  }

  lemma InterruptedSplit(points: set<int>, x: string, y: string)
    requires Splits(x, y) && forall p :: p in points ==> p <= |x|
    ensures Interrupted(points, Cuts(x + y)) <==> Interrupted(points, Cuts(x))
  {
    RemoveCutsBlocks(y);
    hide Remove, Cuts, Outside, IsCut, Covers, Ordered, Shift;
    forall p | p in points ensures Across(Cuts(x + y), p) <==> Across(Cuts(x), p) {
      AcrossConcat(Cuts(x), Cuts(y), |x|, p);
      NotAcrossBefore(y, p - |x|);
    }
  }

  lemma NotAcrossBefore(y: string, p: int)
    requires p <= 0 || |y| <= p
    ensures !Across(Cuts(y), p)
  {
    RemoveCutsBlocks(y);
    CutBounds(y, Cuts(y));
  }

  lemma MeasuresStep(output: string, points: set<int>, f: string, y: string)
    requires Measures(output, points, f) && |f| in points && forall p :: p in points ==> p <= |f|
    ensures Measures(output + Remove(y), points, f + y)
    ensures Measures(output + Remove(y), points + {|f + y|}, f + y)
  {
    PartedRemoval(f, y);
    NotAcrossBefore(f + y, |f + y|);
    hide Remove, Cuts, Across;
    assert Interrupted(points + {|f + y|}, Cuts(f + y)) <==> Interrupted(points, Cuts(f + y));
    if Across(Cuts(f + y), |f|) {
      assert Interrupted(points, Cuts(f + y));
    } else {
      InterruptedSplit(points, f, y);
      if output + Remove(y) == Remove(f) + Remove(y) {
        assert output == (output + Remove(y))[..|Remove(f)|] == Remove(f);
      }
    }
  }

  lemma {:induction false} StreamMeasures(tokens: seq<string>) returns (f: string)
    ensures Flushed(tokens, f) && Measures(Concat(Filter(tokens).output), FlushPoints(tokens), f)
    decreases |tokens|
  {
    if tokens == [] {
      f := [];
      NothingFlushed();
      FilterOfNothing();
      NothingMeasured();
    } else {
      hide Filter, Concat, FlushPoints, Measures, Remove;
      var init, token := tokens[..|tokens| - 1], tokens[|tokens| - 1];
      assert init + [token] == tokens;
      f := StreamMeasures(init);
      var b, flushes := TokenStep(init, token, f);
      if flushes {
        MeasuresStep(Concat(Filter(init).output), FlushPoints(init), f, b);
        f := f + b;
      }
    }
  }

  lemma NothingMeasured()
    ensures Measures([], {0}, [])
  {
    EmptyText();
    NotAcrossBefore([], 0);
  }

  /**
   For all tokens: what was streamed and what is still buffered make up the text with the
   regular expression's cuts removed, if and only if no cut has a flush strictly inside it.  Then
   the streamed text alone is what the regular expression leaves if and only if nothing is buffered.
   */
  lemma StreamAgreesUnlessInterrupted(tokens: seq<string>)
    ensures var s, text := Filter(tokens), Concat(tokens);
      && (Concat(s.output) + s.buffer == Remove(text) <==> !Interrupted(FlushPoints(tokens), Cuts(text)))
      && (!Interrupted(FlushPoints(tokens), Cuts(text)) ==> (Concat(s.output) == Remove(text) <==> s.buffer == []))
      && (!Interrupted(FlushPoints(tokens), Cuts(text)) && s.buffer == [] ==>
            Strip(Concat(s.output)) == StripThinking(text))
  {
    var s := Filter(tokens);
    var f := StreamMeasures(tokens);
    hide Filter, Concat, FlushPoints, Interrupted, Remove, Cuts, Contains, Strip;
    MeasuresStep(Concat(s.output), FlushPoints(tokens), f, s.buffer);
    TooShort("", CLOSE);
    NoCloseNoBlock(s.buffer);
    if s.buffer == [] {
      assert Concat(s.output) + [] == Concat(s.output);
    }
  }

  // ---- What is missing, for any tokens ---------------------------------------------------

  ghost predicate FlushWithin(points: set<int>, i: int, j: int) {
    exists p :: p in points && i < p < j
  }

  /**
   The blocks cut out of the flushed text `f`: each is a shortest block with no flush inside it,
   and every block with no flush inside it starts in one of them.
   */
  ghost predicate CutBetweenFlushes(f: string, points: set<int>, cuts: seq<(int, int)>) {
    && AreCuts(f, cuts)
    && (forall c :: c in cuts ==> !FlushWithin(points, c.0, c.1))
    && (forall i, j :: IsBlock(f, i, j) && !FlushWithin(points, i, j) ==> StartsIn(cuts, i))
  }

  lemma ShiftBounds(b: string, d: int)
    ensures forall c :: c in Shift(Cuts(b), d) ==> d <= c.0 && c.1 <= d + |b|
  {
    RemoveCutsBlocks(b);
    CutBounds(b, Cuts(b));
    hide AreCuts, Covers, Outside, Remove, Shift, Cuts;
    forall c | c in Shift(Cuts(b), d) ensures d <= c.0 && c.1 <= d + |b| {
      ShiftedIn(Cuts(b), d, c);
    }
  }

  lemma CutUnbroken(f: string, points: set<int>, cuts: seq<(int, int)>, b: string, c: (int, int))
    requires AreCuts(f, cuts) && (forall c :: c in cuts ==> !FlushWithin(points, c.0, c.1))
    requires forall p :: p in points ==> p <= |f|
    requires c in cuts + Shift(Cuts(b), |f|)
    ensures !FlushWithin(points + {|f + b|}, c.0, c.1)
  {
    CutBounds(f, cuts);
    ShiftBounds(b, |f|);
    hide AreCuts, IsCut, Shift, Cuts;
    if c in cuts {
      assert !FlushWithin(points, c.0, c.1);
    } else {
      assert c in Shift(Cuts(b), |f|);
    }
  }

  lemma BlockStarts(f: string, points: set<int>, cuts: seq<(int, int)>, b: string, i: int, j: int)
    requires CutBetweenFlushes(f, points, cuts) && Covers(b, Cuts(b)) && |f| in points
    requires IsBlock(f + b, i, j) && !FlushWithin(points + {|f + b|}, i, j)
    ensures StartsIn(cuts + Shift(Cuts(b), |f|), i)
  {
    hide Shift, Cuts, IsBlock, StartsIn, AreCuts;
    assert |f| in points + {|f + b|};
    ShiftedStart(cuts, Cuts(b), |f|, i);
    if j <= |f| {
      BlockInPrefix(f, b, i, j);
      assert !FlushWithin(points, i, j);
    } else {
      BlockInSuffix(f, b, i, j);
      assert IsBlock(b, i - |f|, j - |f|);
    }
  }

  lemma FlushAdded(f: string, points: set<int>, cuts: seq<(int, int)>, b: string)
    requires CutBetweenFlushes(f, points, cuts) && |f| in points && forall p :: p in points ==> p <= |f|
    ensures CutBetweenFlushes(f + b, points + {|f + b|}, cuts + Shift(Cuts(b), |f|))
    ensures Outside(f + b, cuts + Shift(Cuts(b), |f|)) == Outside(f, cuts) + Remove(b)
  {
    hide AreCuts, Covers, Shift, Outside, Cuts, Remove, IsBlock, StartsIn, FlushWithin;
    RemoveCutsBlocks(b);
    CutsConcat(f, cuts, b, Cuts(b));
    var all, points' := cuts + Shift(Cuts(b), |f|), points + {|f + b|};
    forall c | c in all ensures !FlushWithin(points', c.0, c.1) {
      CutUnbroken(f, points, cuts, b, c);
    }
    forall i, j | IsBlock(f + b, i, j) && !FlushWithin(points', i, j) ensures StartsIn(all, i) {
      BlockStarts(f, points, cuts, b, i, j);
    }
  }

  lemma {:induction false} FlushedCuts(tokens: seq<string>) returns (f: string, cuts: seq<(int, int)>)
    ensures Flushed(tokens, f) && CutBetweenFlushes(f, FlushPoints(tokens), cuts)
    ensures Concat(Filter(tokens).output) == Outside(f, cuts)
    decreases |tokens|
  {
    if tokens == [] {
      f, cuts := [], [];
      NothingFlushed();
      FilterOfNothing();
      NothingCutBetween({0});
    } else {
      hide Filter, Concat, FlushPoints, CutBetweenFlushes, Remove, Outside, Cuts, Shift;
      var init, token := tokens[..|tokens| - 1], tokens[|tokens| - 1];
      assert init + [token] == tokens;
      f, cuts := FlushedCuts(init);
      var b, flushes := TokenStep(init, token, f);
      if flushes {
        FlushAdded(f, FlushPoints(init), cuts, b);
        f, cuts := f + b, cuts + Shift(Cuts(b), |f|);
      }
    }
  }

  lemma NothingCutBetween(points: set<int>)
    ensures CutBetweenFlushes([], points, []) && Outside([], []) == []
  {
    forall i, j ensures !IsBlock([], i, j) {
    }
  }

  /** The buffered text, as a cut at the end. */
  ghost function TailOf(tokens: seq<string>): (int, int) {
    (|Concat(tokens)| - |Filter(tokens).buffer|, |Concat(tokens)|)
  }

  /** Cutting `cuts` and the buffered tail out of the text leaves what was streamed. */
  ghost predicate OnlyBlocksCut(tokens: seq<string>, cuts: seq<(int, int)>) {
    var text, tail := Concat(tokens), TailOf(tokens);
    && 0 <= tail.0 && text[tail.0..] == Filter(tokens).buffer
    && CutBetweenFlushes(text[..tail.0], FlushPoints(tokens), cuts)
    && (forall c :: c in cuts ==> IsCut(text, c.0, c.1))
    && Ordered(cuts + [tail], |text|) && Concat(Filter(tokens).output) == Outside(text, cuts + [tail])
  }

  lemma TailCut(f: string, buffer: string, cuts: seq<(int, int)>)
    requires Ordered(cuts, |f|)
    ensures var tail := (|f|, |f + buffer|);
      Ordered(cuts + [tail], |f + buffer|) && Outside(f + buffer, cuts + [tail]) == Outside(f, cuts)
    ensures (f + buffer)[|f|..] == buffer
  {
    var text := f + buffer;
    OrderedAppend(cuts, |f|, [(0, |buffer|)], |buffer|);
    assert cuts + Shift([(0, |buffer|)], |f|) == cuts + [(|f|, |text|)];
    hide Outside;
    OutsideSnoc(text, cuts, (|f|, |text|));
    assert text[..|f|] == f && text[|text|..] == [] && Outside(f, cuts) + [] == Outside(f, cuts);
  }

  /**
   Whatever the tokens, the streamed text is the input with some intervals cut out, in order:
   shortest blocks that end before the next flush, and the text still buffered at the end.
   */
  lemma OnlyBlocksAreMissing(tokens: seq<string>)
    ensures exists cuts :: OnlyBlocksCut(tokens, cuts)
  {
    var f, cuts := FlushedCuts(tokens);
    var text, buffer, tail := Concat(tokens), Filter(tokens).buffer, TailOf(tokens);
    hide Filter, Contains, Concat, Outside, IsCut, Cuts, FlushPoints, FlushWithin, StartsIn, IsBlock;
    assert text[..tail.0] == f && text[tail.0..] == buffer;
    CutBounds(f, cuts);
    forall c | c in cuts ensures IsCut(text, c.0, c.1) {
      CutInPrefix(f, buffer, c.0, c.1);
    }
    TailCut(f, buffer, cuts);
    assert OnlyBlocksCut(tokens, cuts);
  }

  // ---- Tokens that keep tags whole ------------------------------------------------------

  /** A token that closes a block does not leave one open. */
  ghost predicate ClosesWhatItOpens(token: string) {
    Contains(token, CLOSE) ==>
      forall o :: OccursAt(token, OPEN, o) ==> exists c :: o + |OPEN| <= c && OccursAt(token, CLOSE, c)
  }

  /** No tag straddles a token boundary, and no token closes one block and leaves another open. */
  ghost predicate CleanTokens(tokens: seq<string>) {
    && (forall k :: 0 <= k <= |tokens| ==> NoTagAcross(Concat(tokens), |Concat(tokens[..k])|))
    && (forall t :: t in tokens ==> ClosesWhatItOpens(t))
  }

  lemma {:induction false} ClosedText(s: string)
    requires forall o :: OccursAt(s, OPEN, o) ==> exists c :: o + |OPEN| <= c && OccursAt(s, CLOSE, c)
    ensures !Unclosed(s)
    decreases |s|
  {
    if FirstBlock(s).Some? {
      var j := FirstBlock(s).value.1;
      assert s == s[..j] + s[j..];
      forall o | OccursAt(s[j..], OPEN, o) ensures exists c :: o + |OPEN| <= c && OccursAt(s[j..], CLOSE, c) {
        OccursInSuffix(s[..j], s[j..], OPEN, j + o);
        var c :| j + o + |OPEN| <= c && OccursAt(s, CLOSE, c);
        OccursInSuffix(s[..j], s[j..], CLOSE, c);
        assert o + |OPEN| <= c - j;
      }
      ClosedText(s[j..]);
    } else if Contains(s, OPEN) {
      NothingCloses(s);
    }
  }

  /** The tag that closes a buffered block lies in the token. */
  lemma ClosedByToken(buffer: string, token: string) returns (x: int)
    requires !Contains(buffer, CLOSE) && NoTagAcross(buffer + token, |buffer|) && Contains(buffer + token, CLOSE)
    ensures |buffer| <= x && OccursAt(buffer + token, CLOSE, x) && Contains(token, CLOSE)
  {
    x :| 0 <= x <= |buffer + token| && OccursAt(buffer + token, CLOSE, x);
    if x + |CLOSE| <= |buffer| {
      OccursInPrefix(buffer, token, CLOSE, x);
      OccursContains(buffer, CLOSE, x);
    }
    OccursInSuffix(buffer, token, CLOSE, x);
    OccursContains(token, CLOSE, x - |buffer|);
  }

  /** A buffered open block followed by a token that closes it is closed. */
  lemma FlushedBufferIsClosed(buffer: string, token: string)
    requires !Contains(buffer, CLOSE) && NoTagAcross(buffer + token, |buffer|) && ClosesWhatItOpens(token)
    requires Contains(buffer + token, CLOSE) || !Contains(buffer + token, OPEN)
    ensures !Unclosed(buffer + token)
  {
    hide OccursAt, Contains, Unclosed;
    var s := buffer + token;
    forall o | OccursAt(s, OPEN, o) ensures exists c :: o + |OPEN| <= c && OccursAt(s, CLOSE, c) {
      OccursBounds(s, OPEN, o);
      OccursContains(s, OPEN, o);
      var x := ClosedByToken(buffer, token);
      if |buffer| <= o {
        OccursInSuffix(buffer, token, OPEN, o);
        var c :| o - |buffer| + |OPEN| <= c && OccursAt(token, CLOSE, c);
        OccursInSuffix(buffer, token, CLOSE, |buffer| + c);
        assert o + |OPEN| <= |buffer| + c;
      } else {
        assert o + |OPEN| <= x;
      }
    }
    ClosedText(s);
  }

  lemma NoTagAcrossPrefix(a: string, b: string, p: int)
    requires NoTagAcross(a + b, p)
    ensures NoTagAcross(a, p)
  {
    forall i, tag | tag in {OPEN, CLOSE} && OccursAt(a, tag, i) ensures i + |tag| <= p || p <= i {
      OccursInPrefix(a, b, tag, i);
    }
  }

  lemma CleanPrefix(tokens: seq<string>)
    requires CleanTokens(tokens) && tokens != []
    ensures CleanTokens(tokens[..|tokens| - 1])
    ensures NoTagAcross(Concat(tokens), |Concat(tokens[..|tokens| - 1])|)
  {
    hide NoTagAcross, ClosesWhatItOpens, Concat;
    var init := tokens[..|tokens| - 1];
    assert init + [tokens[|tokens| - 1]] == tokens;
    ConcatAppend(init, tokens[|tokens| - 1]);
    forall k | 0 <= k <= |init| ensures NoTagAcross(Concat(init), |Concat(init[..k])|) {
      assert init[..k] == tokens[..k];
      assert NoTagAcross(Concat(tokens), |Concat(tokens[..k])|);
      NoTagAcrossPrefix(Concat(init), tokens[|tokens| - 1], |Concat(tokens[..k])|);
    }
  }

  /** The flushed part of the text, which the filter has dealt with for good. */
  function FlushedText(tokens: seq<string>): string
    requires |Filter(tokens).buffer| <= |Concat(tokens)|
  {
    Concat(tokens)[..|Concat(tokens)| - |Filter(tokens).buffer|]
  }

  ghost predicate Agrees(tokens: seq<string>) {
    var s, text := Filter(tokens), Concat(tokens);
    && |s.buffer| <= |text| && text == FlushedText(tokens) + s.buffer
    && !Unclosed(FlushedText(tokens)) && Concat(s.output) == Remove(FlushedText(tokens))
    && NoTagAcross(text, |FlushedText(tokens)|)
    && (s.buffer == [] || (Contains(s.buffer, OPEN) && !Contains(s.buffer, CLOSE)))
  }

  /** A cut outside all tags stays so when more text arrives, if nothing straddles its end. */
  lemma CutStays(f: string, buffer: string, token: string)
    requires NoTagAcross(f + buffer, |f|) && NoTagAcross(f + buffer + token, |f + buffer|)
    ensures NoTagAcross(f + buffer + token, |f|)
    ensures NoTagAcross(buffer + token, |buffer|)
  {
    var text := f + buffer;
    forall k, tag | tag in {OPEN, CLOSE} && OccursAt(text + token, tag, k) ensures k + |tag| <= |f| || |f| <= k {
      if k + |tag| <= |text| {
        OccursInPrefix(text, token, tag, k);
      }
    }
    assert text + token == f + (buffer + token);
    forall k, tag | tag in {OPEN, CLOSE} && OccursAt(buffer + token, tag, k)
      ensures k + |tag| <= |buffer| || |buffer| <= k
    {
      OccursInSuffix(f, buffer + token, tag, |f| + k);
    }
  }

  lemma NothingAgrees()
    ensures Agrees([])
  {
    hide Filter, Remove, Unclosed, NoTagAcross;
    EmptyText();
    NoTagAtEnd("");
    FilterOfNothing();
  }

  lemma {:induction false} CleanTokensAgree(tokens: seq<string>)
    requires CleanTokens(tokens)
    ensures Agrees(tokens)
  {
    hide Agrees, NoTagAcross, ClosesWhatItOpens, Filter;
    if tokens == [] {
      NothingAgrees();
    } else {
      var init, token := tokens[..|tokens| - 1], tokens[|tokens| - 1];
      CleanPrefix(tokens);
      CleanTokensAgree(init);
      assert token in tokens;
      AgreeStep(init, token);
      assert init + [token] == tokens;
    }
  }

  lemma AgreeStep(init: seq<string>, token: string)
    requires Agrees(init) && ClosesWhatItOpens(token) && NoTagAcross(Concat(init) + token, |Concat(init)|)
    ensures Agrees(init + [token])
  {
    hide NoTagAcross, ClosesWhatItOpens, Filter, Remove, Contains, Unclosed, Concat;
    var s, f := Filter(init), FlushedText(init);
    var b := s.buffer + token;
    FilterStep(init, token);
    assert Concat(init + [token]) == f + s.buffer + token == f + b;
    CutStays(f, s.buffer, token);
    if Contains(b, OPEN) && !Contains(b, CLOSE) {
      assert FlushedText(init + [token]) == f;
    } else {
      TooShort("", CLOSE);
      FlushedBufferIsClosed(s.buffer, token);
      RemoveConcat(f, b);
      if !Contains(b, CLOSE) {
        NoCloseNoBlock(b);
      }
      ConcatAppend(s.output, Remove(b));
      assert FlushedText(init + [token]) == f + b;
      NoTagAtEnd(f + b);
    }
  }

  lemma NoTagAtEnd(s: string)
    ensures NoTagAcross(s, |s|) && !Unclosed([])
  {
  }

  /**
   For clean tokens the streamed text is the whole text with its blocks removed, if and only
   if the text does not end inside a block.
   */
  lemma StreamAgreesUnlessUnclosed(tokens: seq<string>)
    requires CleanTokens(tokens)
    ensures !Interrupted(FlushPoints(tokens), Cuts(Concat(tokens)))
    ensures Concat(Filter(tokens).output) == Remove(Concat(tokens)) <==> !Unclosed(Concat(tokens))
    ensures !Unclosed(Concat(tokens)) ==> Strip(Concat(Filter(tokens).output)) == StripThinking(Concat(tokens))
  {
    CleanTokensAgree(tokens);
    StreamAgreesUnlessInterrupted(tokens);
    var s, f := Filter(tokens), FlushedText(tokens);
    hide Filter, Concat, FlushPoints, Interrupted, Remove, Cuts, Contains, Strip, NoTagAcross, Unclosed, FirstBlock;
    RemoveConcat(f, s.buffer);
    TooShort("", CLOSE);
    NoCloseNoBlock(s.buffer);
    RemoveNothing(s.buffer);
    TooShort("", OPEN);
  }

  lemma OpenStarts(s: string, i: int)
    requires OccursAt(s, OPEN, i)
    ensures 0 <= i < |s| - 1 && s[i] == '<' && s[i + 1] == 't'
  {
    var tag := s[i..i + |OPEN|];
    assert tag[0] == '<' && tag[1] == 't';
  }

  lemma NoOpen(s: string)
    requires forall i :: 0 <= i < |s| - 1 && s[i] == '<' ==> s[i + 1] != 't'
    ensures !Contains(s, OPEN)
  {
    hide OccursAt;
    forall i ensures !OccursAt(s, OPEN, i) {
      if OccursAt(s, OPEN, i) {
        OpenStarts(s, i);
      }
    }
  }

  const SPLIT: seq<string> := ["<th", "ink>a</think>"]

  lemma SplitBuffers()
    ensures Step(Stream([], ""), SPLIT[0]) == Stream([SPLIT[0]], "")
    ensures Step(Stream([SPLIT[0]], ""), SPLIT[1]) == Stream(SPLIT, "")
  {
    hide Contains, FirstBlock, Remove, Unclosed;
    TooShort(SPLIT[0], OPEN);
    TooShort(SPLIT[0], CLOSE);
    NoOpen(SPLIT[1]);
    NoOpenNoBlock(SPLIT[1]);
    RemoveNothing(SPLIT[1]);
    assert "" + SPLIT[0] == SPLIT[0] && "" + SPLIT[1] == SPLIT[1];
    assert [] + [SPLIT[0]] == [SPLIT[0]] && [SPLIT[0]] + [SPLIT[1]] == SPLIT;
  }

  lemma SplitIsStreamed()
    ensures Filter(SPLIT).output == SPLIT
  {
    hide Filter, Step;
    SplitBuffers();
    FilterOfNothing();
    FilterStep([], SPLIT[0]);
    FilterStep([SPLIT[0]], SPLIT[1]);
    assert [] + [SPLIT[0]] == [SPLIT[0]] && [SPLIT[0]] + [SPLIT[1]] == SPLIT;
  }

  const WHOLE := "<think>a</think>"

  lemma SplitIsWhole()
    ensures Concat(SPLIT) == WHOLE
  {
    ConcatAppend([], SPLIT[0]);
    ConcatAppend([SPLIT[0]], SPLIT[1]);
    hide Concat;
    assert [] + [SPLIT[0]] == [SPLIT[0]] && [SPLIT[0]] + [SPLIT[1]] == SPLIT;
    assert SPLIT[0] + SPLIT[1] == WHOLE;
  }

  lemma WholeIsOneBlock()
    ensures FirstBlock(WHOLE) == Some((0, |WHOLE|))
  {
    hide FirstBlock;
    assert WHOLE[0..7] == OPEN && WHOLE[8..16] == CLOSE;
    assert IsBlock(WHOLE, 0, 16);
    forall j | IsBlock(WHOLE, 0, j) ensures j >= 16 {
      CloseTagChars(WHOLE, j - |CLOSE|);
    }
  }

  lemma SplitIsABlock()
    ensures Concat(SPLIT) == WHOLE && Remove(Concat(SPLIT)) == ""
  {
    hide Concat, Remove, FirstBlock;
    SplitIsWhole();
    WholeIsOneBlock();
    RemoveStep(WHOLE);
    EmptyText();
  }

  /** A tag that straddles two tokens is streamed, although the whole text is a block there. */
  lemma StraddlingTagIsStreamed()
    ensures Concat(Filter(SPLIT).output) == Concat(SPLIT) == "<think>a</think>" && Remove(Concat(SPLIT)) == ""
  {
    SplitIsStreamed();
    SplitIsABlock();
  }
}
