/** The Python string operations the classifier, the planner and the scanner use. */
module Strings {
  predicate OccursAt(text: string, part: string, i: int) {
    0 <= i <= |text| - |part| && text[i..i + |part|] == part
  }

  /** Python's `part in text`. */
  predicate Contains(text: string, part: string) {
    exists i :: 0 <= i <= |text| && OccursAt(text, part, i)
  }

  /** str.isspace() of one character. */
  predicate IsSpace(c: char) {
    var n := c as int;
    || 9 <= n <= 13 || 28 <= n <= 32 || n == 0x85 || n == 0xA0 || n == 0x1680
    || 0x2000 <= n <= 0x200A || n == 0x2028 || n == 0x2029 || n == 0x202F || n == 0x205F || n == 0x3000
  }

  function LeftStrip(s: string): string {
    if s != [] && IsSpace(s[0]) then LeftStrip(s[1..]) else s
  }

  function RightStrip(s: string): string {
    if s != [] && IsSpace(s[|s| - 1]) then RightStrip(s[..|s| - 1]) else s
  }

  /** str.strip() */
  function Strip(s: string): string {
    RightStrip(LeftStrip(s))
  }

  lemma {:induction false} LeftStripLast(s: string, c: char)
    requires IsSpace(c)
    ensures LeftStrip(s + [c]) == if LeftStrip(s) == [] then [] else LeftStrip(s) + [c]
  {
    if s == [] {
      assert s + [c] == [c] && [c][1..] == [];
    } else {
      assert (s + [c])[1..] == s[1..] + [c];
      if IsSpace(s[0]) {
        LeftStripLast(s[1..], c);
      }
    }
  }

  lemma StripLast(s: string, c: char)
    requires IsSpace(c)
    ensures Strip(s + [c]) == Strip(s)
  {
    LeftStripLast(s, c);
    assert (LeftStrip(s) + [c])[..|LeftStrip(s)|] == LeftStrip(s);
  }

  /** Neither end of the string is white space. */
  predicate Trimmed(s: string) {
    s != [] ==> !IsSpace(s[0]) && !IsSpace(s[|s| - 1])
  }

  lemma {:induction false} LeftStripTrims(s: string)
    ensures LeftStrip(s) != [] ==> !IsSpace(LeftStrip(s)[0])
    ensures forall c :: c in LeftStrip(s) ==> c in s
  {
    if s != [] && IsSpace(s[0]) {
      LeftStripTrims(s[1..]);
    }
  }

  lemma {:induction false} RightStripTrims(s: string)
    ensures RightStrip(s) <= s
    ensures RightStrip(s) != [] ==> !IsSpace(RightStrip(s)[|RightStrip(s)| - 1])
    ensures forall c :: c in RightStrip(s) ==> c in s
  {
    if s != [] && IsSpace(s[|s| - 1]) {
      RightStripTrims(s[..|s| - 1]);
    }
  }

  lemma StripTrims(s: string)
    ensures Trimmed(Strip(s))
    ensures forall c :: c in Strip(s) ==> c in s
  {
    LeftStripTrims(s);
    RightStripTrims(LeftStrip(s));
  }

  lemma {:induction false} LeftStripRemoves(s: string) returns (a: string)
    ensures s == a + LeftStrip(s) && forall c :: c in a ==> IsSpace(c)
  {
    if s != [] && IsSpace(s[0]) {
      a := LeftStripRemoves(s[1..]);
      a := [s[0]] + a;
    } else {
      a := [];
    }
  }

  lemma {:induction false} RightStripRemoves(s: string) returns (b: string)
    ensures s == RightStrip(s) + b && forall c :: c in b ==> IsSpace(c)
  {
    if s != [] && IsSpace(s[|s| - 1]) {
      b := RightStripRemoves(s[..|s| - 1]);
      b := b + [s[|s| - 1]];
    } else {
      b := [];
    }
  }

  /** Stripping takes white space off the two ends and nothing else. */
  lemma StripRemovesOnlySpace(s: string) returns (a: string, b: string)
    ensures s == a + Strip(s) + b && (forall c :: c in a ==> IsSpace(c)) && (forall c :: c in b ==> IsSpace(c))
  {
    a := LeftStripRemoves(s);
    b := RightStripRemoves(LeftStrip(s));
    assert a + (Strip(s) + b) == a + Strip(s) + b;
  }

  lemma TrimmedIsStripped(s: string)
    requires Trimmed(s)
    ensures Strip(s) == s
  {
  }

  // ---- split() on white space ------------------------------------------------------------

  function WordLength(s: string): (n: nat)
    ensures n <= |s|
  {
    if s == [] || IsSpace(s[0]) then 0 else 1 + WordLength(s[1..])
  }

  /** str.split() */
  function Words(s: string): seq<string> {
    if s == [] then []
    else if IsSpace(s[0]) then Words(s[1..])
    else [s[..WordLength(s)]] + Words(s[WordLength(s)..])
  }

  predicate IsWord(w: string) {
    w != [] && forall c :: c in w ==> !IsSpace(c)
  }

  lemma {:induction false} WordLengthOf(w: string, rest: string)
    requires (forall c :: c in w ==> !IsSpace(c)) && (rest == [] || IsSpace(rest[0]))
    ensures WordLength(w + rest) == |w|
  {
    if w == [] {
      assert w + rest == rest;
    } else {
      assert (w + rest)[1..] == w[1..] + rest;
      WordLengthOf(w[1..], rest);
    }
  }

  lemma FirstWord(w: string, rest: string)
    requires IsWord(w) && (rest == [] || IsSpace(rest[0]))
    ensures Words(w + rest) == [w] + Words(rest)
  {
    WordLengthOf(w, rest);
    assert (w + rest)[..|w|] == w && (w + rest)[|w|..] == rest;
    assert w[0] in w;
  }

  lemma SpaceSkipped(c: char, s: string)
    requires IsSpace(c)
    ensures Words([c] + s) == Words(s)
  {
    assert ([c] + s)[1..] == s;
  }

  lemma {:induction false} WordLengthIsWord(s: string)
    ensures forall c :: c in s[..WordLength(s)] ==> !IsSpace(c)
  {
    if s != [] && !IsSpace(s[0]) {
      WordLengthIsWord(s[1..]);
      assert s[..WordLength(s)] == [s[0]] + s[1..][..WordLength(s[1..])];
    }
  }

  lemma {:induction false} WordsAreWords(s: string)
    ensures forall w :: w in Words(s) ==> IsWord(w) && forall c :: c in w ==> c in s
  {
    if s != [] {
      if IsSpace(s[0]) {
        WordsAreWords(s[1..]);
      } else {
        WordLengthIsWord(s);
        WordsAreWords(s[WordLength(s)..]);
        assert forall c :: c in s[WordLength(s)..] ==> c in s;
      }
    }
  }
}
