/**
 RiskClassifier: the tier of a command is the highest tier of its pipe stages, for any pattern
 lists, and suggested rollbacks undo each other.
 */
module Classifier {
  import opened Options
  import opened Strings

  datatype Tier = Green | Yellow | Red

  /** A compiled pattern, as the strings its search() finds something in. */
  type Pattern = string -> bool

  datatype Patterns = Patterns(red: seq<Pattern>, green: seq<Pattern>, yellow: seq<Pattern>)

  datatype ClassifiedAction = ClassifiedAction(
    command: string, tier: Tier, rollback: Option<string>, backupNeeded: bool)

  function Rank(t: Tier): nat {
    match t
    case Green => 0
    case Yellow => 1
    case Red => 2
  }

  function Max(a: Tier, b: Tier): Tier {
    if Rank(b) > Rank(a) then b else a
  }

  predicate Hits(patterns: seq<Pattern>, command: string) {
    exists i :: 0 <= i < |patterns| && patterns[i](command)
  }

  /** One command: RED first, then GREEN; YELLOW patterns and unknown commands are YELLOW. */
  function MatchTier(p: Patterns, command: string): Tier {
    if Hits(p.red, command) then Red else if Hits(p.green, command) then Green else Yellow
  }

  // ---- Pipe stages -----------------------------------------------------------------------

  function PushFront(c: char, parts: seq<string>): (r: seq<string>)
    requires parts != []
    ensures r != []
  {
    if c == '|' then [[]] + parts else [[c] + parts[0]] + parts[1..]
  }

  /** str.split("|") */
  function Split(s: string): (parts: seq<string>)
    ensures parts != []
  {
    if s == [] then [[]] else PushFront(s[0], Split(s[1..]))
  }

  function StripAll(parts: seq<string>): (stages: seq<string>)
    ensures |stages| == |parts| && forall i :: 0 <= i < |parts| ==> stages[i] == Strip(parts[i])
  {
    if parts == [] then [] else [Strip(parts[0])] + StripAll(parts[1..])
  }

  function Stages(s: string): seq<string> {
    StripAll(Split(s))
  }

  function Highest(p: Patterns, stages: seq<string>): Tier {
    if stages == [] then Green
    else Max(Highest(p, stages[..|stages| - 1]), MatchTier(p, stages[|stages| - 1]))
  }

  /** The reference: the highest tier of any pipe stage. */
  function TierOf(p: Patterns, command: string): Tier {
    Highest(p, Stages(command))
  }

  lemma {:induction false} SplitConcat(x: string, y: string)
    ensures Split(x + "|" + y) == Split(x) + Split(y)
  {
    if x == [] {
      assert x + "|" + y == "|" + y && ("|" + y)[1..] == y;
    } else {
      assert (x + "|" + y)[1..] == x[1..] + "|" + y;
      SplitConcat(x[1..], y);
    }
  }

  lemma StagesConcat(x: string, y: string)
    ensures Stages(x + "|" + y) == Stages(x) + Stages(y)
  {
    SplitConcat(x, y);
  }

  lemma {:induction false} SplitPiecesFree(s: string)
    ensures forall i :: 0 <= i < |Split(s)| ==> '|' !in Split(s)[i]
  {
    if s != [] {
      SplitPiecesFree(s[1..]);
    }
  }

  /** Everything the patterns ever see is stripped and free of pipes. */
  lemma StagesAreClean(s: string)
    ensures forall i :: 0 <= i < |Stages(s)| ==> '|' !in Stages(s)[i] && Trimmed(Stages(s)[i])
  {
    SplitPiecesFree(s);
    forall i | 0 <= i < |Stages(s)| ensures '|' !in Stages(s)[i] && Trimmed(Stages(s)[i]) {
      StripTrims(Split(s)[i]);
    }
  }

  function PushBack(parts: seq<string>, c: char): seq<string>
    requires parts != []
  {
    parts[..|parts| - 1] + [parts[|parts| - 1] + [c]]
  }

  lemma PushBothEnds(a: char, parts: seq<string>, c: char)
    requires parts != []
    ensures PushFront(a, PushBack(parts, c)) == PushBack(PushFront(a, parts), c)
  {
    var l, r := PushFront(a, PushBack(parts, c)), PushBack(PushFront(a, parts), c);
    assert |l| == |r|;
    if a != '|' && |parts| == 1 {
      assert [a] + (parts[0] + [c]) == [a] + parts[0] + [c];
    }
    forall i | 0 <= i < |l| ensures l[i] == r[i] {
    }
  }

  lemma {:induction false} SplitLast(s: string, c: char)
    requires c != '|'
    ensures Split(s + [c]) == PushBack(Split(s), c)
  {
    if s == [] {
      assert s + [c] == [c] && [c][1..] == [] && [c] + [] == [c];
    } else {
      assert (s + [c])[1..] == s[1..] + [c];
      SplitLast(s[1..], c);
      PushBothEnds(s[0], Split(s[1..]), c);
    }
  }

  lemma {:induction false} StagesLeftStrip(s: string)
    ensures Stages(LeftStrip(s)) == Stages(s)
  {
    if s != [] && IsSpace(s[0]) {
      var rest := Split(s[1..]);
      assert ([s[0]] + rest[0])[1..] == rest[0];
      assert Strip([s[0]] + rest[0]) == Strip(rest[0]);
      assert StripAll(Split(s)) == StripAll(rest);
      StagesLeftStrip(s[1..]);
    }
  }

  lemma StagesOfPushBack(parts: seq<string>, c: char)
    requires parts != [] && IsSpace(c)
    ensures StripAll(PushBack(parts, c)) == StripAll(parts)
  {
    hide Strip, IsSpace, StripAll;
    StripLast(parts[|parts| - 1], c);
    assert forall i :: 0 <= i < |parts| - 1 ==> PushBack(parts, c)[i] == parts[i];
  }

  lemma {:induction false} StagesRightStrip(s: string)
    ensures Stages(RightStrip(s)) == Stages(s)
  {
    if s != [] && IsSpace(s[|s| - 1]) {
      var init, c := s[..|s| - 1], s[|s| - 1];
      assert s == init + [c] && c != '|';
      SplitLast(init, c);
      StagesOfPushBack(Split(init), c);
      StagesRightStrip(init);
    }
  }

  lemma StagesStrip(s: string)
    ensures Stages(Strip(s)) == Stages(s)
  {
    StagesLeftStrip(s);
    StagesRightStrip(LeftStrip(s));
  }

  lemma {:induction false} NoPipeOneStage(s: string)
    requires '|' !in s
    ensures Split(s) == [s]
  {
    if s != [] {
      NoPipeOneStage(s[1..]);
      assert Split(s) == [[s[0]] + s[1..]] && [s[0]] + s[1..] == s;
    }
  }

  // ---- The classifier --------------------------------------------------------------------

  method ClassifyPipeChain(p: Patterns, command: string) returns (tier: Tier)
    ensures tier == TierOf(p, command)
  {
    var parts := Stages(command);
    tier := Green;
    for i := 0 to |parts|
      invariant tier == Highest(p, parts[..i])
    {
      assert parts[..i + 1][..i] == parts[..i];
      var t := MatchTier(p, parts[i]);
      if Rank(t) > Rank(tier) {
        tier := t;
      }
    }
    assert parts[..|parts|] == parts;
  }

  method Classify(p: Patterns, command: string) returns (action: ClassifiedAction)
    ensures action.command == Strip(command)
    ensures action.tier == TierOf(p, command)
    ensures action.rollback == RollbackOf(command)
    ensures action.backupNeeded <==> TierOf(p, command) == Yellow
  {
    var c := Strip(command);
    StagesStrip(command);
    if '|' in c {
      var tier := ClassifyPipeChain(p, c);
      return ClassifiedAction(c, tier, None, tier == Yellow);
    }
    NoPipeOneStage(c);
    StripTrims(command);
    TrimmedIsStripped(c);
    assert Stages(c) == [c];
    var tier := MatchTier(p, c);
    HighestOfOne(p, c);
    return ClassifiedAction(c, tier, SuggestRollback(ROLLBACKS, c), tier == Yellow);
  }

  lemma HighestOfOne(p: Patterns, c: string)
    ensures Highest(p, [c]) == MatchTier(p, c)
  {
    assert [c][..0] == [];
  }

  // ---- The algebra of tiers --------------------------------------------------------------

  lemma {:induction false} HighestConcat(p: Patterns, a: seq<string>, b: seq<string>)
    ensures Highest(p, a + b) == Max(Highest(p, a), Highest(p, b))
  {
    if b == [] {
      assert a + b == a;
    } else {
      assert (a + b)[..|a + b| - 1] == a + b[..|b| - 1];
      HighestConcat(p, a, b[..|b| - 1]);
    }
  }

  /** Piping two commands together takes the higher of their tiers. */
  lemma TierOfPipe(p: Patterns, x: string, y: string)
    ensures TierOf(p, x + "|" + y) == Max(TierOf(p, x), TierOf(p, y))
  {
    StagesConcat(x, y);
    HighestConcat(p, Stages(x), Stages(y));
  }

  function Join(commands: seq<string>): string
    requires commands != []
  {
    if |commands| == 1 then commands[0] else commands[0] + "|" + Join(commands[1..])
  }

  /** The tier of a pipeline bounds the tiers of its commands and is reached by one of them. */
  lemma {:induction false} TierOfJoin(p: Patterns, commands: seq<string>)
    requires commands != []
    ensures forall c :: c in commands ==> Rank(TierOf(p, c)) <= Rank(TierOf(p, Join(commands)))
    ensures exists c :: c in commands && TierOf(p, c) == TierOf(p, Join(commands))
  {
    if |commands| > 1 {
      TierOfJoin(p, commands[1..]);
      TierOfPipe(p, commands[0], Join(commands[1..]));
      var d :| d in commands[1..] && TierOf(p, d) == TierOf(p, Join(commands[1..]));
      assert commands[0] in commands && d in commands;
      assert forall c :: c in commands <==> c == commands[0] || c in commands[1..];
    } else {
      assert commands[0] in commands;
    }
  }

  function StagesOf(commands: seq<string>): seq<string> {
    if commands == [] then [] else Stages(commands[0]) + StagesOf(commands[1..])
  }

  lemma {:induction false} StagesOfJoin(commands: seq<string>)
    requires commands != []
    ensures Stages(Join(commands)) == StagesOf(commands)
  {
    if |commands| > 1 {
      StagesConcat(commands[0], Join(commands[1..]));
      StagesOfJoin(commands[1..]);
    } else {
      assert StagesOf(commands[1..]) == [];
    }
  }

  lemma {:induction false} HighestOfSame(p: Patterns, a: seq<string>, b: seq<string>)
    requires forall s :: s in a ==> s in b
    ensures Rank(Highest(p, a)) <= Rank(Highest(p, b))
  {
    if a != [] {
      var last := a[|a| - 1];
      HighestOfSame(p, a[..|a| - 1], b);
      assert last in a;
      HighestBounds(p, b, last);
    }
  }

  lemma {:induction false} HighestBounds(p: Patterns, stages: seq<string>, s: string)
    requires s in stages
    ensures Rank(MatchTier(p, s)) <= Rank(Highest(p, stages))
  {
    if s != stages[|stages| - 1] {
      HighestBounds(p, stages[..|stages| - 1], s);
    }
  }

  /**
   Pipelines with the same stages have the same tier: reordering or repeating commands, or
   moving stages from one command to another, changes nothing.
   */
  lemma PipelineOrderIsIrrelevant(p: Patterns, a: seq<string>, b: seq<string>)
    requires a != [] && b != [] && forall s :: s in StagesOf(a) <==> s in StagesOf(b)
    ensures TierOf(p, Join(a)) == TierOf(p, Join(b))
  {
    StagesOfJoin(a);
    StagesOfJoin(b);
    hide Stages, Join, StagesOf, MatchTier, Highest;
    HighestOfSame(p, StagesOf(a), StagesOf(b));
    HighestOfSame(p, StagesOf(b), StagesOf(a));
  }

  lemma {:induction false} HighestIs(p: Patterns, stages: seq<string>)
    ensures Highest(p, stages) == Red <==> exists i :: 0 <= i < |stages| && Hits(p.red, stages[i])
    ensures Highest(p, stages) == Green <==> forall i :: 0 <= i < |stages| ==> MatchTier(p, stages[i]) == Green
  {
    if stages != [] {
      var init, n := stages[..|stages| - 1], |stages| - 1;
      HighestIs(p, init);
      assert forall i :: 0 <= i < n ==> init[i] == stages[i];
      if i :| 0 <= i < n && Hits(p.red, init[i]) {
        assert Hits(p.red, stages[i]);
      }
      if i :| 0 <= i < n && Hits(p.red, stages[i]) {
        assert Hits(p.red, init[i]);
      }
    }
  }

  /** RED means some stage hits a RED pattern; GREEN means every stage is known to be safe. */
  lemma TierMeaning(p: Patterns, command: string)
    ensures TierOf(p, command) == Red <==>
      exists i :: 0 <= i < |Stages(command)| && Hits(p.red, Stages(command)[i])
    ensures TierOf(p, command) == Green <==>
      forall i :: 0 <= i < |Stages(command)| ==>
        Hits(p.green, Stages(command)[i]) && !Hits(p.red, Stages(command)[i])
  {
    HighestIs(p, Stages(command));
    assert forall i :: 0 <= i < |Stages(command)| ==>
      (MatchTier(p, Stages(command)[i]) == Green <==>
        Hits(p.green, Stages(command)[i]) && !Hits(p.red, Stages(command)[i]));
  }

  lemma {:induction false} SameHighest(p: Patterns, q: Patterns, stages: seq<string>)
    requires forall i :: 0 <= i < |stages| ==> MatchTier(p, stages[i]) == MatchTier(q, stages[i])
    ensures Highest(p, stages) == Highest(q, stages)
  {
    if stages != [] {
      SameHighest(p, q, stages[..|stages| - 1]);
    }
  }

  lemma HitsAppended(patterns: seq<Pattern>, extra: Pattern, command: string)
    ensures Hits(patterns + [extra], command) <==> Hits(patterns, command) || extra(command)
  {
    var all := patterns + [extra];
    if i :| 0 <= i < |patterns| && patterns[i](command) {
      assert all[i](command);
    }
    if extra(command) {
      assert all[|patterns|](command);
    }
  }

  /** A RED pattern that needs a pipe to match never changes any classification. */
  lemma PipePatternIsDead(p: Patterns, dead: Pattern, command: string)
    requires forall s :: dead(s) ==> '|' in s
    ensures TierOf(p.(red := p.red + [dead]), command) == TierOf(p, command)
  {
    var q, stages := p.(red := p.red + [dead]), Stages(command);
    StagesAreClean(command);
    forall i | 0 <= i < |stages| ensures MatchTier(q, stages[i]) == MatchTier(p, stages[i]) {
      HitsAppended(p.red, dead, stages[i]);
    }
    SameHighest(q, p, stages);
  }

  // ---- Rollbacks -------------------------------------------------------------------------

  /** A rollback template: the third word of the command goes between `before` and `after`. */
  datatype Rollback = Rollback(prefix: string, before: string, after: string)

  datatype Verb = Start | Stop | Restart | Enable | Disable

  function Name(v: Verb): string {
    match v
    case Start => "start"
    case Stop => "stop"
    case Restart => "restart"
    case Enable => "enable"
    case Disable => "disable"
  }

  function Opposite(v: Verb): Verb {
    match v
    case Start => Stop
    case Stop => Start
    case Restart => Restart
    case Enable => Disable
    case Disable => Enable
  }

  function ServiceRollback(v: Verb): Rollback {
    Rollback("systemctl " + Name(v), "systemctl " + Name(Opposite(v)) + " ", "")
  }

  const ROLLBACKS: seq<Rollback> := [
    ServiceRollback(Start), ServiceRollback(Stop), ServiceRollback(Restart),
    ServiceRollback(Enable), ServiceRollback(Disable),
    Rollback("kubectl apply", "kubectl delete -f ", ""),
    Rollback("kubectl scale", "kubectl scale ", " --replicas=?")]

  function SuggestRollback(templates: seq<Rollback>, command: string): Option<string> {
    if templates == [] then None
    else if templates[0].prefix <= command && |Words(command)| >= 3
    then Some(templates[0].before + Words(command)[2] + templates[0].after)
    else SuggestRollback(templates[1..], command)
  }

  /** What classify() offers: pipe chains get no rollback. */
  function RollbackOf(command: string): Option<string> {
    var c := Strip(command);
    if '|' in c then None else SuggestRollback(ROLLBACKS, c)
  }

  lemma Templates()
    ensures |ROLLBACKS| == 7
    ensures ROLLBACKS[0] == Rollback("systemctl start", "systemctl stop ", "")
    ensures ROLLBACKS[1] == Rollback("systemctl stop", "systemctl start ", "")
    ensures ROLLBACKS[2] == Rollback("systemctl restart", "systemctl restart ", "")
    ensures ROLLBACKS[3] == Rollback("systemctl enable", "systemctl disable ", "")
    ensures ROLLBACKS[4] == Rollback("systemctl disable", "systemctl enable ", "")
    ensures ROLLBACKS[5] == Rollback("kubectl apply", "kubectl delete -f ", "")
    ensures ROLLBACKS[6] == Rollback("kubectl scale", "kubectl scale ", " --replicas=?")
  {
    assert "systemctl " + "start" == "systemctl start" && "systemctl " + "stop" == "systemctl stop";
    assert "systemctl " + "restart" == "systemctl restart" && "systemctl " + "enable" == "systemctl enable";
    assert "systemctl " + "disable" == "systemctl disable";
    assert "systemctl start" + " " == "systemctl start " && "systemctl stop" + " " == "systemctl stop ";
    assert "systemctl restart" + " " == "systemctl restart " && "systemctl enable" + " " == "systemctl enable ";
    assert "systemctl disable" + " " == "systemctl disable ";
  }

  /** Which template a command that one fits begins with: a few characters decide. */
  function Which(c: string): int
    requires |c| > 12
  {
    if c[0] == 'k' then (if c[8] == 'a' then 5 else 6)
    else if c[10] == 's' then (if c[12] == 'a' then 0 else 1)
    else if c[10] == 'r' then 2
    else if c[10] == 'e' then 3
    else 4
  }

  lemma FitsWhich(i: nat, c: string)
    requires i < 7 && ROLLBACKS[i].prefix <= c
    ensures |c| > 12 && Which(c) == i
  {
    Templates();
    var p := ROLLBACKS[i].prefix;
    assert |p| > 12 && p[0] == c[0] && p[8] == c[8] && p[10] == c[10] && p[12] == c[12];
    hide ServiceRollback, Name;
  }

  /** No two templates fit one command. */
  lemma OneTemplateFits(i: nat, j: nat, c: string)
    requires i < 7 && j < 7 && ROLLBACKS[i].prefix <= c && ROLLBACKS[j].prefix <= c
    ensures i == j
  {
    hide ROLLBACKS;
    FitsWhich(i, c);
    FitsWhich(j, c);
  }

  lemma {:induction false} NoTemplateFits(templates: seq<Rollback>, c: string)
    requires forall i :: 0 <= i < |templates| ==> !(templates[i].prefix <= c)
    ensures SuggestRollback(templates, c) == None
  {
    if templates != [] {
      NoTemplateFits(templates[1..], c);
    }
  }

  lemma {:induction false} TooFewWords(templates: seq<Rollback>, c: string)
    requires |Words(c)| < 3
    ensures SuggestRollback(templates, c) == None
  {
    if templates != [] {
      TooFewWords(templates[1..], c);
    }
  }

  lemma TemplateFits(k: nat, c: string)
    requires k < 7 == |ROLLBACKS| && ROLLBACKS[k].prefix <= c && |Words(c)| >= 3
    ensures SuggestRollback(ROLLBACKS, c) == Some(ROLLBACKS[k].before + Words(c)[2] + ROLLBACKS[k].after)
  {
    hide Words, ServiceRollback, Name, SuggestRollback;
    forall i | 0 <= i < k ensures !(ROLLBACKS[i].prefix <= c) {
      if ROLLBACKS[i].prefix <= c {
        OneTemplateFits(i, k, c);
      }
    }
    SkipTemplates(ROLLBACKS, k, c);
    FirstTemplate(ROLLBACKS[k..], c);
  }

  /** The rollback a plain command of three words or more gets: by its beginning, for its third word. */
  ghost predicate Rollbacks(c: string, word: string, rollback: Option<string>) {
    && ("systemctl start" <= c ==> rollback == Some("systemctl stop " + word))
    && ("systemctl stop" <= c ==> rollback == Some("systemctl start " + word))
    && ("systemctl restart" <= c ==> rollback == Some("systemctl restart " + word))
    && ("systemctl enable" <= c ==> rollback == Some("systemctl disable " + word))
    && ("systemctl disable" <= c ==> rollback == Some("systemctl enable " + word))
    && ("kubectl apply" <= c ==> rollback == Some("kubectl delete -f " + word))
    && ("kubectl scale" <= c ==> rollback == Some("kubectl scale " + word + " --replicas=?"))
    && (rollback.Some? ==>
          || "systemctl start" <= c || "systemctl stop" <= c || "systemctl restart" <= c || "systemctl enable" <= c
          || "systemctl disable" <= c || "kubectl apply" <= c || "kubectl scale" <= c)
  }

  /** Pipelines and commands of fewer than three words get no rollback; the rest get theirs. */
  lemma RollbackIs(command: string)
    ensures '|' in Strip(command) || |Words(Strip(command))| < 3 ==> RollbackOf(command) == None
    ensures '|' !in Strip(command) && |Words(Strip(command))| >= 3 ==>
      Rollbacks(Strip(command), Words(Strip(command))[2], RollbackOf(command))
  {
    hide Words, Strip, ServiceRollback, Name, SuggestRollback;
    Templates();
    var c := Strip(command);
    if |Words(c)| < 3 {
      TooFewWords(ROLLBACKS, c);
    } else if '|' !in c {
      RollbackFits(c);
    }
  }

  lemma RollbackFits(c: string)
    requires |Words(c)| >= 3
    ensures Rollbacks(c, Words(c)[2], SuggestRollback(ROLLBACKS, c))
  {
    Templates();
    hide Words, ServiceRollback, Name, SuggestRollback, ROLLBACKS;
    var word := Words(c)[2];
    if k :| 0 <= k < 7 && ROLLBACKS[k].prefix <= c {
      TemplateFits(k, c);
      forall i | 0 <= i < 7 && ROLLBACKS[i].prefix <= c ensures i == k {
        OneTemplateFits(i, k, c);
      }
      assert forall t: string :: t + word + "" == t + word;
      assert ROLLBACKS[0].prefix <= c ==> k == 0;
      assert ROLLBACKS[1].prefix <= c ==> k == 1;
      assert ROLLBACKS[2].prefix <= c ==> k == 2;
      assert ROLLBACKS[3].prefix <= c ==> k == 3;
      assert ROLLBACKS[4].prefix <= c ==> k == 4;
      assert ROLLBACKS[5].prefix <= c ==> k == 5;
      assert ROLLBACKS[6].prefix <= c ==> k == 6;
    } else {
      NoTemplateFits(ROLLBACKS, c);
    }
  }

  function Systemctl(v: Verb, service: string): string {
    "systemctl " + Name(v) + " " + service
  }

  lemma {:induction false} SkipTemplates(templates: seq<Rollback>, k: nat, command: string)
    requires k < |templates| && forall i :: 0 <= i < k ==> !(templates[i].prefix <= command)
    ensures SuggestRollback(templates, command) == SuggestRollback(templates[k..], command)
    decreases k
  {
    if k > 0 {
      SkipTemplates(templates[1..], k - 1, command);
      assert templates[1..][k - 1..] == templates[k..];
    }
  }

  lemma WordsOfThree(a: string, b: string, c: string)
    requires IsWord(a) && IsWord(b) && IsWord(c)
    ensures Words(a + " " + b + " " + c) == [a, b, c]
  {
    assert a + " " + b + " " + c == a + (" " + (b + (" " + c)));
    assert IsSpace(' ') && Words([]) == [] && c + [] == c;
    hide Words, IsWord, IsSpace;
    FirstWord(a, " " + (b + (" " + c)));
    SpaceSkipped(' ', b + (" " + c));
    FirstWord(b, " " + c);
    SpaceSkipped(' ', c);
    FirstWord(c, []);
  }

  lemma NameIsWord(v: Verb)
    ensures IsWord("systemctl") && IsWord(Name(v)) && '|' !in Name(v)
  {
  }

  lemma WordsOfSystemctl(v: Verb, service: string)
    requires IsWord(service)
    ensures Words(Systemctl(v, service)) == ["systemctl", Name(v), service]
  {
    hide Words, IsWord, Name;
    NameIsWord(v);
    WordsOfThree("systemctl", Name(v), service);
    assert Systemctl(v, service) == "systemctl" + " " + Name(v) + " " + service;
  }

  function TemplateIndex(v: Verb): nat {
    match v case Start => 0 case Stop => 1 case Restart => 2 case Enable => 3 case Disable => 4
  }

  lemma TemplateOf(v: Verb)
    ensures ROLLBACKS[TemplateIndex(v)] == ServiceRollback(v)
    ensures forall i :: 0 <= i < TemplateIndex(v) ==>
      exists u :: ROLLBACKS[i] == ServiceRollback(u) && TemplateIndex(u) == i
  {
    assert ROLLBACKS[0] == ServiceRollback(Start) && ROLLBACKS[1] == ServiceRollback(Stop);
    assert ROLLBACKS[2] == ServiceRollback(Restart) && ROLLBACKS[3] == ServiceRollback(Enable);
  }

  lemma NamesDiffer(u: Verb, v: Verb)
    requires u != v
    ensures |Name(u)| >= 3 && |Name(v)| >= 3 && (Name(u)[0] != Name(v)[0] || Name(u)[2] != Name(v)[2])
  {
  }

  /** No template before the verb's own fits the verb's commands. */
  lemma OtherTemplate(u: Verb, v: Verb, service: string)
    requires u != v
    ensures !(ServiceRollback(u).prefix <= Systemctl(v, service))
  {
    var prefix, s := ServiceRollback(u).prefix, Systemctl(v, service);
    NamesDiffer(u, v);
    assert |"systemctl "| == 10;
    assert prefix[10] == Name(u)[0] && prefix[12] == Name(u)[2];
    assert s[10] == Name(v)[0] && s[12] == Name(v)[2];
  }

  lemma SuggestForVerb(v: Verb, service: string)
    requires IsWord(service)
    ensures SuggestRollback(ROLLBACKS, Systemctl(v, service)) == Some(Systemctl(Opposite(v), service))
  {
    var s, k := Systemctl(v, service), TemplateIndex(v);
    WordsOfSystemctl(v, service);
    TemplateOf(v);
    OwnTemplate(v, service);
    hide Systemctl, Words, IsWord, Name;
    forall i | 0 <= i < k ensures !(ROLLBACKS[i].prefix <= s) {
      var u :| ROLLBACKS[i] == ServiceRollback(u) && TemplateIndex(u) == i;
      OtherTemplate(u, v, service);
    }
    SkipTemplates(ROLLBACKS, k, s);
    FirstTemplate(ROLLBACKS[k..], s);
  }

  lemma OwnTemplate(v: Verb, service: string)
    ensures ServiceRollback(v).prefix <= Systemctl(v, service)
    ensures ServiceRollback(v).before + service + ServiceRollback(v).after == Systemctl(Opposite(v), service)
  {
  }

  lemma FirstTemplate(templates: seq<Rollback>, s: string)
    requires templates != [] && templates[0].prefix <= s && |Words(s)| >= 3
    ensures SuggestRollback(templates, s) == Some(templates[0].before + Words(s)[2] + templates[0].after)
  {
  }

  lemma SystemctlIsPlain(v: Verb, service: string)
    requires IsWord(service) && '|' !in service
    ensures '|' !in Systemctl(v, service) && Strip(Systemctl(v, service)) == Systemctl(v, service)
  {
    var s := Systemctl(v, service);
    NameIsWord(v);
    assert s[0] == "systemctl "[0] && s[|s| - 1] == service[|service| - 1] && service[|service| - 1] in service;
    hide Name, Strip;
    TrimmedIsStripped(s);
  }

  /** For every service word the rollback of the rollback is the original command. */
  lemma RollbackUndoesItself(v: Verb, service: string)
    requires IsWord(service) && '|' !in service
    ensures RollbackOf(Systemctl(v, service)) == Some(Systemctl(Opposite(v), service))
    ensures RollbackOf(Systemctl(Opposite(v), service)) == Some(Systemctl(v, service))
  {
    SystemctlIsPlain(v, service);
    SystemctlIsPlain(Opposite(v), service);
    SuggestForVerb(v, service);
    SuggestForVerb(Opposite(v), service);
  }

  lemma {:induction false} SuggestionUsesTemplate(templates: seq<Rollback>, command: string)
    requires SuggestRollback(templates, command).Some?
    ensures |Words(command)| >= 3
    ensures exists t ::
      t in templates && t.prefix <= command
      && SuggestRollback(templates, command) == Some(t.before + Words(command)[2] + t.after)
  {
    if !(templates[0].prefix <= command && |Words(command)| >= 3) {
      SuggestionUsesTemplate(templates[1..], command);
      var t :| t in templates[1..] && t.prefix <= command
        && SuggestRollback(templates[1..], command) == Some(t.before + Words(command)[2] + t.after);
      assert t in templates;
    } else {
      assert templates[0] in templates;
    }
  }

  lemma SystemctlTemplates(t: Rollback, command: string)
    requires t in ROLLBACKS && t.prefix <= command && "systemctl " <= command
    ensures exists v :: t == ServiceRollback(v)
  {
    assert command[0] == "systemctl "[0] && command[0] == t.prefix[0];
    assert "kubectl apply"[0] == 'k' && "kubectl scale"[0] == 'k';
  }

  /**
   Whatever systemctl command a rollback was suggested for, the suggestion is a plain
   one-service command that is its own double rollback.
   */
  lemma SuggestionsUndoThemselves(command: string)
    requires "systemctl " <= Strip(command) && RollbackOf(command).Some?
    ensures var r := RollbackOf(command).value;
      RollbackOf(r).Some? && RollbackOf(RollbackOf(r).value) == Some(r)
  {
    var c := Strip(command);
    SuggestionUsesTemplate(ROLLBACKS, c);
    var t :| t in ROLLBACKS && t.prefix <= c && SuggestRollback(ROLLBACKS, c) == Some(t.before + Words(c)[2] + t.after);
    SystemctlTemplates(t, c);
    var v :| t == ServiceRollback(v);
    WordsAreWords(c);
    assert Words(c)[2] in Words(c);
    OwnTemplate(v, Words(c)[2]);
    hide Systemctl, Words, IsWord, Name;
    RollbackUndoesItself(Opposite(v), Words(c)[2]);
  }
}
