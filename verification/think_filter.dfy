/**
 The planner's two ways of hiding <think> blocks: the whole-text regular expression and the
 buffering loop over streamed tokens.
 */
module ThinkFilter {
  import opened Options
  import opened Strings

  const OPEN := "<think>"
  const CLOSE := "</think>"

  /** The first occurrence of a tag at or after a position. */
  function Find(s: string, tag: string, from: nat): (r: Option<nat>)
    ensures r.Some? ==> from <= r.value && OccursAt(s, tag, r.value)
    ensures r.Some? ==> forall k :: from <= k < r.value ==> !OccursAt(s, tag, k)
    ensures r.None? ==> forall k :: from <= k ==> !OccursAt(s, tag, k)
    decreases |s| - from
  {
    if from > |s| - |tag| then None
    else if OccursAt(s, tag, from) then Some(from)
    else Find(s, tag, from + 1)
  }

  /** s[i..j] matches <think>.*?</think> with DOTALL. */
  predicate IsBlock(s: string, i: int, j: int) {
    OccursAt(s, OPEN, i) && i + |OPEN| <= j - |CLOSE| && OccursAt(s, CLOSE, j - |CLOSE|)
  }

  /** The match re.sub takes: leftmost, and the shortest one there. */
  function FirstBlock(s: string): (r: Option<(nat, nat)>)
    ensures r.Some? ==> IsBlock(s, r.value.0, r.value.1)
    ensures r.Some? ==> forall i, j :: IsBlock(s, i, j) ==> r.value.0 < i || (r.value.0 == i && r.value.1 <= j)
    ensures r.None? ==> forall i, j :: !IsBlock(s, i, j)
  {
    var open := Find(s, OPEN, 0);
    if open.None? then None
    else
      var close := Find(s, CLOSE, open.value + |OPEN|);
      if close.None? then None else Some((open.value, close.value + |CLOSE|))
  }

  /** re.sub(r"<think>.*?</think>", "", s, flags=re.DOTALL) */
  function Remove(s: string): string
    decreases |s|
  {
    var block := FirstBlock(s);
    if block.None? then s else s[..block.value.0] + Remove(s[block.value.1..])
  }

  function StripThinking(s: string): string {
    Strip(Remove(s))
  }

  /** After the last block, another one is opened and never closed. */
  predicate Unclosed(s: string)
    decreases |s|
  {
    var block := FirstBlock(s);
    if block.None? then Contains(s, OPEN) else Unclosed(s[block.value.1..])
  }

  // ---- The streaming filter --------------------------------------------------------------

  function Concat(xs: seq<string>): string {
    if xs == [] then [] else Concat(xs[..|xs| - 1]) + xs[|xs| - 1]
  }

  /** What has been yielded and what is still buffered after some tokens. */
  datatype Stream = Stream(output: seq<string>, buffer: string)

  function Step(s: Stream, token: string): Stream {
    var buffer := s.buffer + token;
    if Contains(buffer, OPEN) && !Contains(buffer, CLOSE) then s.(buffer := buffer)
    else
      var text := if Contains(buffer, CLOSE) then Remove(buffer) else buffer;
      Stream(if text == [] then s.output else s.output + [text], [])
  }

  function Filter(tokens: seq<string>): Stream {
    if tokens == [] then Stream([], []) else Step(Filter(tokens[..|tokens| - 1]), tokens[|tokens| - 1])
  }

  /** The token loop of _run_ollama_direct. */
  method StreamTokens(tokens: seq<string>) returns (output: seq<string>)
    ensures output == Filter(tokens).output
  {
    output := [];
    var buffer := "";
    for i := 0 to |tokens|
      invariant Stream(output, buffer) == Filter(tokens[..i])
    {
      assert tokens[..i + 1][..i] == tokens[..i];
      buffer := buffer + tokens[i];
      if Contains(buffer, OPEN) && !Contains(buffer, CLOSE) {
        continue;
      }
      if Contains(buffer, CLOSE) {
        buffer := Remove(buffer);
      }
      if buffer != "" {
        output := output + [buffer];
        buffer := "";
      }
    }
    assert tokens[..|tokens|] == tokens;
  }

  // ---- Occurrences under concatenation ---------------------------------------------------

  lemma OccursInPrefix(a: string, b: string, tag: string, k: int)
    requires k + |tag| <= |a|
    ensures OccursAt(a + b, tag, k) <==> OccursAt(a, tag, k)
  {
    if 0 <= k {
      assert (a + b)[k..k + |tag|] == a[k..k + |tag|];
    }
  }

  lemma OccursInSuffix(a: string, b: string, tag: string, k: int)
    requires |a| <= k
    ensures OccursAt(a + b, tag, k) <==> OccursAt(b, tag, k - |a|)
  {
    if k + |tag| <= |a + b| {
      assert (a + b)[k..k + |tag|] == b[k - |a|..k - |a| + |tag|];
    }
  }

  lemma TooShort(s: string, tag: string)
    requires |s| < |tag|
    ensures !Contains(s, tag)
  {
  }

  lemma OccursBounds(s: string, tag: string, k: int)
    requires OccursAt(s, tag, k)
    ensures 0 <= k <= |s| - |tag|
  {
  }

  lemma OccursContains(s: string, tag: string, k: int)
    requires OccursAt(s, tag, k)
    ensures Contains(s, tag)
  {
  }

  /** No tag lies across position `p`. */
  ghost predicate NoTagAcross(s: string, p: int) {
    forall k, tag :: tag in {OPEN, CLOSE} && OccursAt(s, tag, k) ==> k + |tag| <= p || p <= k
  }

  lemma FirstBlockIs(s: string, i: int, j: int)
    requires IsBlock(s, i, j)
    requires forall i', j' :: IsBlock(s, i', j') ==> i < i' || (i == i' && j <= j')
    ensures FirstBlock(s) == Some((i, j))
  {
  }

  lemma BlockInPrefix(a: string, b: string, i: int, j: int)
    requires j <= |a|
    ensures IsBlock(a + b, i, j) <==> IsBlock(a, i, j)
  {
    OccursInPrefix(a, b, CLOSE, j - |CLOSE|);
    if i + |OPEN| <= |a| {
      OccursInPrefix(a, b, OPEN, i);
    }
    hide OccursAt;
  }

  lemma BlockInSuffix(a: string, b: string, i: int, j: int)
    requires |a| <= i
    ensures IsBlock(a + b, i, j) <==> IsBlock(b, i - |a|, j - |a|)
  {
    OccursInSuffix(a, b, OPEN, i);
    if i <= j - |CLOSE| {
      OccursInSuffix(a, b, CLOSE, j - |CLOSE|);
    }
    hide OccursAt;
  }

  /** A block that starts before a later closing tag gives a block ending at that tag. */
  lemma BlockEndingAt(s: string, i: int, j: int, i': int, j': int)
    requires IsBlock(s, i, j) && IsBlock(s, i', j') && i' <= i
    ensures IsBlock(s, i', j)
  {
    hide OccursAt;
  }

  lemma FirstBlockInPrefix(a: string, b: string)
    requires FirstBlock(a).Some?
    ensures FirstBlock(a + b) == FirstBlock(a)
  {
    var (i, j) := FirstBlock(a).value;
    assert j <= |a|;
    BlockInPrefix(a, b, i, j);
    forall i', j' | IsBlock(a + b, i', j') ensures i < i' || (i == i' && j <= j') {
      if i' <= i {
        BlockEndingAt(a + b, i, j, i', j');
        BlockInPrefix(a, b, i', j);
        if j' <= j {
          BlockInPrefix(a, b, i', j');
        }
      }
    }
    FirstBlockIs(a + b, i, j);
  }

  /** Text without an opening tag does not take part in any block. */
  lemma FirstBlockInSuffix(a: string, b: string)
    requires !Contains(a, OPEN) && NoTagAcross(a + b, |a|)
    ensures FirstBlock(b).None? ==> FirstBlock(a + b).None?
    ensures FirstBlock(b).Some? ==>
      FirstBlock(a + b) == Some((|a| + FirstBlock(b).value.0, |a| + FirstBlock(b).value.1))
  {
    hide OccursAt, NoTagAcross, Contains;
    forall i, j ensures IsBlock(a + b, i, j) ==> |a| <= i && IsBlock(b, i - |a|, j - |a|) {
      if IsBlock(a + b, i, j) {
        OpenInSuffix(a, b, i);
        BlockInSuffix(a, b, i, j);
      }
    }
    if FirstBlock(b).Some? {
      var (i, j) := FirstBlock(b).value;
      BlockInSuffix(a, b, |a| + i, |a| + j);
      FirstBlockIs(a + b, |a| + i, |a| + j);
    }
  }

  lemma OpenInSuffix(a: string, b: string, i: int)
    requires !Contains(a, OPEN) && NoTagAcross(a + b, |a|) && OccursAt(a + b, OPEN, i)
    ensures |a| <= i && OccursAt(b, OPEN, i - |a|)
  {
    if i + |OPEN| <= |a| {
      OccursInPrefix(a, b, OPEN, i);
      OccursContains(a, OPEN, i);
    }
    OccursInSuffix(a, b, OPEN, i);
  }

  lemma NoTagAcrossSuffix(s: string, j: nat, p: nat)
    requires j <= p <= |s| && NoTagAcross(s, p)
    ensures NoTagAcross(s[j..], p - j)
  {
    forall k, tag | tag in {OPEN, CLOSE} && OccursAt(s[j..], tag, k) ensures k + |tag| <= p - j || p - j <= k {
      assert s == s[..j] + s[j..];
      OccursInSuffix(s[..j], s[j..], tag, j + k);
    }
  }

  lemma ContainsOpenInConcat(a: string, b: string)
    requires !Contains(a, OPEN) && NoTagAcross(a + b, |a|)
    ensures Contains(a + b, OPEN) <==> Contains(b, OPEN)
  {
    if i :| 0 <= i <= |a + b| && OccursAt(a + b, OPEN, i) {
      OpenInSuffix(a, b, i);
      OccursContains(b, OPEN, i - |a|);
    }
    if i :| 0 <= i <= |b| && OccursAt(b, OPEN, i) {
      OccursInSuffix(a, b, OPEN, |a| + i);
      OccursContains(a + b, OPEN, |a| + i);
    }
  }

  lemma BlockBounds(s: string, i: int, j: int)
    requires IsBlock(s, i, j)
    ensures 0 <= i < j <= |s|
  {
  }

  lemma RemoveStep(s: string)
    requires FirstBlock(s).Some?
    ensures var (i, j) := FirstBlock(s).value;
      0 <= i < j <= |s| && Remove(s) == s[..i] + Remove(s[j..]) && Unclosed(s) == Unclosed(s[j..])
  {
  }

  lemma RemoveNothing(s: string)
    requires FirstBlock(s).None?
    ensures Remove(s) == s && Unclosed(s) == Contains(s, OPEN)
  {
  }

  lemma NoBlocks(s: string, i: int, j: int)
    requires FirstBlock(s).None?
    ensures !IsBlock(s, i, j)
  {
  }

  lemma NothingCloses(s: string)
    requires FirstBlock(s).None?
    ensures forall o, c :: OccursAt(s, OPEN, o) && o + |OPEN| <= c ==> !OccursAt(s, CLOSE, c)
  {
    forall o, c | OccursAt(s, OPEN, o) && o + |OPEN| <= c ensures !OccursAt(s, CLOSE, c) {
      NoBlocks(s, o, c + |CLOSE|);
    }
  }

  lemma NoCloseNoBlock(s: string)
    requires !Contains(s, CLOSE)
    ensures FirstBlock(s).None? && Remove(s) == s
  {
    if FirstBlock(s).Some? {
      OccursContains(s, CLOSE, FirstBlock(s).value.1 - |CLOSE|);
    }
  }

  lemma NoOpenNoBlock(s: string)
    requires !Contains(s, OPEN)
    ensures FirstBlock(s).None?
  {
  }

  lemma EmptyText()
    ensures !Unclosed("") && Remove("") == ""
  {
  }

  lemma ConcatAppend(xs: seq<string>, x: string)
    ensures Concat(xs + [x]) == Concat(xs) + x
  {
    assert (xs + [x])[..|xs|] == xs;
  }

  lemma FilterStep(init: seq<string>, token: string)
    ensures Filter(init + [token]) == Step(Filter(init), token) && Concat(init + [token]) == Concat(init) + token
  {
    assert (init + [token])[..|init|] == init;
  }

  lemma FilterOfNothing()
    ensures Filter([]) == Stream([], []) && Concat([]) == []
  {
  }

  /** Cutting a text outside every block and tag splits the removal in two. */
  lemma {:induction false} RemoveConcat(a: string, b: string)
    requires !Unclosed(a) && NoTagAcross(a + b, |a|)
    ensures Remove(a + b) == Remove(a) + Remove(b)
    ensures Unclosed(a + b) == Unclosed(b)
    decreases |a|
  {
    hide OccursAt, NoTagAcross, Contains, FirstBlock, Remove, Unclosed, IsBlock;
    if FirstBlock(a).Some? {
      RemoveStep(a);
      var (i, j) := FirstBlock(a).value;
      FirstBlockInPrefix(a, b);
      RemoveStep(a + b);
      assert (a + b)[j..] == a[j..] + b && (a + b)[..i] == a[..i];
      NoTagAcrossSuffix(a + b, j, |a|);
      RemoveConcat(a[j..], b);
      assert a[..i] + (Remove(a[j..]) + Remove(b)) == a[..i] + Remove(a[j..]) + Remove(b);
    } else {
      RemoveNothing(a);
      FirstBlockInSuffix(a, b);
      ContainsOpenInConcat(a, b);
      if FirstBlock(b).Some? {
        RemoveStep(b);
        RemoveStep(a + b);
        var (i, j) := FirstBlock(b).value;
        assert (a + b)[..|a| + i] == a + b[..i] && (a + b)[|a| + j..] == b[j..];
        assert a + (b[..i] + Remove(b[j..])) == a + b[..i] + Remove(b[j..]);
      } else {
        RemoveNothing(b);
        RemoveNothing(a + b);
      }
    }
  }
}
