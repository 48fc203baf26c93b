/** services/cache/app/guardrails.py: an ordered list of rules is matched against a text, redacting as it
    goes, until a blocking rule matches. */
module Guardrails {
  import opened Json

  /** `applies` and `enabled` are what is left of a rule after its defaults are filled in. */
  datatype Rule = Rule(
    name: string, enabled: bool, applies: string, action: string,
    patterns: seq<string>, mask: string)

  /** The regular expression library: which patterns compile, searching, substituting everywhere. */
  datatype Engine = Engine(
    compiles: string -> bool,
    search: (string, string) -> bool,
    sub: (string, string, string) -> string)

  datatype Outcome = Outcome(blocked: Option<string>, text: string, hits: seq<Rule>)

  const CAP := 100_000

  predicate Applies(rule: Rule, direction: string) {
    rule.enabled && (rule.applies == "both" || rule.applies == if direction == "input" then "input" else "output")
  }

  predicate Matches(engine: Engine, rule: Rule, text: string) {
    exists i :: 0 <= i < |rule.patterns| && engine.compiles(rule.patterns[i]) && engine.search(rule.patterns[i], text)
  }

  function SubAll(engine: Engine, patterns: seq<string>, mask: string, text: string): string {
    if patterns == [] then text
    else
      var rest := SubAll(engine, patterns[..|patterns| - 1], mask, text);
      var p := patterns[|patterns| - 1];
      if engine.compiles(p) then engine.sub(p, mask, rest) else rest
  }

  function Rewrite(engine: Engine, rule: Rule, text: string): string {
    if rule.action == "redact" then SubAll(engine, rule.patterns, rule.mask, text) else text
  }

  // ---- what the rules mean ----------------------------------------------------------

  /** The text as it stands once the first k rules have had their say. */
  function TextAt(engine: Engine, rules: seq<Rule>, text: string, direction: string, k: nat): string
    requires k <= |rules|
    decreases k, 0
  {
    if k == 0 then text
    else
      var before := TextAt(engine, rules, text, direction, k - 1);
      if Fires(engine, rules, text, direction, k - 1) then Rewrite(engine, rules[k - 1], before) else before
  }

  /** Rule k applies and matches the text left by the rules before it. */
  predicate Fires(engine: Engine, rules: seq<Rule>, text: string, direction: string, k: nat)
    requires k < |rules|
    decreases k, 1
  {
    Applies(rules[k], direction) && Matches(engine, rules[k], TextAt(engine, rules, text, direction, k))
  }

  predicate Blocks(engine: Engine, rules: seq<Rule>, text: string, direction: string, k: nat)
    requires k < |rules|
  {
    rules[k].action == "block" && Fires(engine, rules, text, direction, k)
  }

  /** The first rule that blocks, |rules| if none does. */
  function FirstBlock(engine: Engine, rules: seq<Rule>, text: string, direction: string, from: nat): (k: nat)
    requires from <= |rules|
    ensures from <= k <= |rules|
    ensures k < |rules| ==> Blocks(engine, rules, text, direction, k)
    ensures forall j :: from <= j < k ==> !Blocks(engine, rules, text, direction, j)
    decreases |rules| - from
  {
    if from == |rules| || Blocks(engine, rules, text, direction, from) then from
    else FirstBlock(engine, rules, text, direction, from + 1)
  }

  /** The rules among the first k that fire, in order. */
  function Fired(engine: Engine, rules: seq<Rule>, text: string, direction: string, k: nat): seq<Rule>
    requires k <= |rules|
  {
    if k == 0 then []
    else Fired(engine, rules, text, direction, k - 1)
         + if Fires(engine, rules, text, direction, k - 1) then [rules[k - 1]] else []
  }

  /** evaluate_guardrails: up to the first rule that blocks every rule that fires is reported and every
      redaction made, and what lies past the cap is put back as it was. */
  function Evaluate(engine: Engine, rules: seq<Rule>, text: string, direction: string): Outcome {
    var scanned := if |text| > CAP then text[..CAP] else text;
    var remainder := if |text| > CAP then text[CAP..] else "";
    var k := FirstBlock(engine, rules, scanned, direction, 0);
    Outcome(
      if k < |rules| then Some(rules[k].name) else None,
      TextAt(engine, rules, scanned, direction, k) + remainder,
      Fired(engine, rules, scanned, direction, if k < |rules| then k + 1 else k))
  }

  // ---- the loop ------------------------------------------------------------------------

  method SearchAny(engine: Engine, rule: Rule, text: string) returns (matched: bool)
    ensures matched <==> Matches(engine, rule, text)
  {
    matched := false;
    var i := 0;
    while i < |rule.patterns| && !matched
      invariant 0 <= i <= |rule.patterns|
      invariant !matched ==> forall j :: 0 <= j < i ==>
          !(engine.compiles(rule.patterns[j]) && engine.search(rule.patterns[j], text))
      invariant matched ==> Matches(engine, rule, text)
    {
      matched := engine.compiles(rule.patterns[i]) && engine.search(rule.patterns[i], text);
      i := i + 1;
    }
  }

  method RedactAll(engine: Engine, rule: Rule, input: string) returns (text: string)
    ensures text == SubAll(engine, rule.patterns, rule.mask, input)
  {
    text := input;
    var i := 0;
    while i < |rule.patterns|
      invariant 0 <= i <= |rule.patterns|
      invariant text == SubAll(engine, rule.patterns[..i], rule.mask, input)
    {
      if engine.compiles(rule.patterns[i]) {
        text := engine.sub(rule.patterns[i], rule.mask, text);
      }
      i := i + 1;
      assert rule.patterns[..i][..i - 1] == rule.patterns[..i - 1];
    }
    assert rule.patterns[..i] == rule.patterns;
  }

  method EvaluateGuardrails(engine: Engine, rules: seq<Rule>, input: string, direction: string) returns (o: Outcome)
    ensures o == Evaluate(engine, rules, input, direction)
  {
    var remainder, text := "", input;
    if |text| > CAP {
      remainder, text := text[CAP..], text[..CAP];
    }
    ghost var scanned := text;
    var hits := [];
    var i := 0;
    while i < |rules|
      invariant 0 <= i <= |rules|
      invariant text == TextAt(engine, rules, scanned, direction, i)
      invariant hits == Fired(engine, rules, scanned, direction, i)
      invariant FirstBlock(engine, rules, scanned, direction, 0) == FirstBlock(engine, rules, scanned, direction, i)
    {
      var rule := rules[i];
      if Applies(rule, direction) {
        var matched := SearchAny(engine, rule, text);
        if matched {
          hits := hits + [rule];
          if rule.action == "block" {
            return Outcome(Some(rule.name), text + remainder, hits);
          } else if rule.action == "redact" {
            text := RedactAll(engine, rule, text);
          }
        }
      }
      i := i + 1;
    }
    return Outcome(None, text + remainder, hits);
  }

  // ---- consequences ------------------------------------------------------------------------

  lemma {:induction false} PrefixAgrees(engine: Engine, rules: seq<Rule>, more: seq<Rule>, text: string,
                                        direction: string, k: nat)
    requires k <= |rules|
    ensures TextAt(engine, rules + more, text, direction, k) == TextAt(engine, rules, text, direction, k)
    ensures Fired(engine, rules + more, text, direction, k) == Fired(engine, rules, text, direction, k)
    ensures forall j :: 0 <= j < k ==>
        Fires(engine, rules + more, text, direction, j) == Fires(engine, rules, text, direction, j)
  {
    if k > 0 { PrefixAgrees(engine, rules, more, text, direction, k - 1); }
  }

  /** Once a rule blocks, no rule behind it has any effect. */
  lemma BlockIsFinal(engine: Engine, rules: seq<Rule>, more: seq<Rule>, text: string, direction: string)
    requires Evaluate(engine, rules, text, direction).blocked.Some?
    ensures Evaluate(engine, rules + more, text, direction) == Evaluate(engine, rules, text, direction)
  {
    var scanned := if |text| > CAP then text[..CAP] else text;
    PrefixAgrees(engine, rules, more, scanned, direction, |rules|);
    var k := FirstBlock(engine, rules, scanned, direction, 0);
    var j := FirstBlock(engine, rules + more, scanned, direction, 0);
    assert Blocks(engine, rules + more, scanned, direction, k);
    assert j < k ==> Blocks(engine, rules, scanned, direction, j);
    PrefixAgrees(engine, rules, more, scanned, direction, k);
    PrefixAgrees(engine, rules, more, scanned, direction, k + 1);
  }

  /** What lies past the cap neither blocks, nor is reported, nor changes. */
  lemma PastTheCap(engine: Engine, rules: seq<Rule>, head: string, tail: string, direction: string)
    requires |head| == CAP
    ensures var o, whole := Evaluate(engine, rules, head, direction), Evaluate(engine, rules, head + tail, direction);
            whole == Outcome(o.blocked, o.text + tail, o.hits)
  {
    if tail == "" {
      assert head + tail == head;
    } else {
      assert (head + tail)[..CAP] == head && (head + tail)[CAP..] == tail;
    }
    var scanned := Evaluate(engine, rules, head, direction).text;
    assert scanned + "" == scanned;
  }

  /** A text is passed unchanged, with nothing reported, exactly when no rule that applies matches it. */
  lemma UntouchedIff(engine: Engine, rules: seq<Rule>, text: string, direction: string)
    requires |text| <= CAP
    ensures Evaluate(engine, rules, text, direction).hits == []
            <==> forall r :: r in rules ==> !(Applies(r, direction) && Matches(engine, r, text))
    ensures Evaluate(engine, rules, text, direction).hits == [] ==>
              Evaluate(engine, rules, text, direction) == Outcome(None, text, [])
  {
    var o := Evaluate(engine, rules, text, direction);
    if o.hits == [] {
      NothingFired(engine, rules, text, direction, |rules|);
      assert text + "" == text;
    } else {
      SomethingFired(engine, rules, text, direction,
                     if o.blocked.Some? then FirstBlock(engine, rules, text, direction, 0) + 1 else |rules|);
    }
  }

  lemma {:induction false} NothingFired(engine: Engine, rules: seq<Rule>, text: string, direction: string, k: nat)
    requires k <= |rules| && Fired(engine, rules, text, direction, k) == []
    ensures TextAt(engine, rules, text, direction, k) == text
    ensures forall j :: 0 <= j < k ==> !(Applies(rules[j], direction) && Matches(engine, rules[j], text))
  {
    if k > 0 { NothingFired(engine, rules, text, direction, k - 1); }
  }

  lemma {:induction false} SomethingFired(engine: Engine, rules: seq<Rule>, text: string, direction: string, k: nat)
    requires k <= |rules| && Fired(engine, rules, text, direction, k) != []
    ensures exists r :: r in rules && Applies(r, direction) && Matches(engine, r, text)
  {
    if Fired(engine, rules, text, direction, k - 1) == [] {
      NothingFired(engine, rules, text, direction, k - 1);
      assert rules[k - 1] in rules;
    } else {
      SomethingFired(engine, rules, text, direction, k - 1);
    }
  }

  // ---- one rule more ---------------------------------------------------------------------------

  /** Rules for both directions, and those for the one asked for; whatever is not input is output. */
  predicate IsFor(rule: Rule, direction: string) {
    rule.enabled
    && (rule.applies == "both" || (rule.applies == "input" && direction == "input")
        || (rule.applies == "output" && direction != "input"))
  }

  /** Some pattern of the rule is a valid one and is found in the text. */
  ghost predicate IsFound(engine: Engine, rule: Rule, text: string) {
    exists p :: p in rule.patterns && engine.compiles(p) && engine.search(p, text)
  }

  /** The stages of a redaction: each valid pattern in turn is substituted in what the ones before left. */
  ghost predicate Redacts(engine: Engine, patterns: seq<string>, mask: string, stages: seq<string>) {
    && |stages| == |patterns| + 1
    && forall i | 0 <= i < |patterns| ::
         stages[i + 1] == if engine.compiles(patterns[i]) then engine.sub(patterns[i], mask, stages[i]) else stages[i]
  }

  lemma {:induction false} SubAllStages(engine: Engine, patterns: seq<string>, mask: string, stages: seq<string>)
    requires Redacts(engine, patterns, mask, stages)
    ensures stages[|patterns|] == SubAll(engine, patterns, mask, stages[0])
    decreases |patterns|
  {
    if patterns != [] {
      var n := |patterns| - 1;
      assert Redacts(engine, patterns[..n], mask, stages[..n + 1]);
      SubAllStages(engine, patterns[..n], mask, stages[..n + 1]);
      assert stages[n + 1]
          == if engine.compiles(patterns[n]) then engine.sub(patterns[n], mask, stages[n]) else stages[n];
    }
  }

  /** A text in the part that is scanned and the part past the cap. */
  predicate IsCut(text: string, scanned: string, remainder: string) {
    text == scanned + remainder && |scanned| <= 100_000 && (remainder != "" ==> |scanned| == 100_000)
  }

  /** Without rules a text passes as it is. */
  lemma NoRules(engine: Engine, text: string, direction: string)
    ensures Evaluate(engine, [], text, direction) == Outcome(None, text, [])
  {
    if |text| > CAP { assert text[..CAP] + text[CAP..] == text; } else { assert text + "" == text; }
  }

  lemma CutAtCap(text: string, scanned: string, remainder: string)
    requires IsCut(text, scanned, remainder)
    ensures scanned == if |text| > CAP then text[..CAP] else text
    ensures remainder == if |text| > CAP then text[CAP..] else ""
  {
    if remainder == "" {
      assert text == scanned;
    } else {
      assert text[..CAP] == scanned && text[CAP..] == remainder;
    }
  }

  lemma EvaluateCut(engine: Engine, rules: seq<Rule>, text: string, direction: string, scanned: string,
                    remainder: string)
    requires IsCut(text, scanned, remainder)
    ensures var o, k := Evaluate(engine, rules, text, direction), FirstBlock(engine, rules, scanned, direction, 0);
            && o.blocked == (if k < |rules| then Some(rules[k].name) else None)
            && o.text == TextAt(engine, rules, scanned, direction, k) + remainder
            && o.hits == Fired(engine, rules, scanned, direction, if k < |rules| then k + 1 else k)
  {
    CutAtCap(text, scanned, remainder);
  }

  lemma FoundIff(engine: Engine, rule: Rule, text: string)
    ensures Matches(engine, rule, text) <==> IsFound(engine, rule, text)
  {
    if Matches(engine, rule, text) {
      var i :| 0 <= i < |rule.patterns| && engine.compiles(rule.patterns[i]) && engine.search(rule.patterns[i], text);
      assert rule.patterns[i] in rule.patterns;
    }
  }

  lemma NotBlockedYet(engine: Engine, rules: seq<Rule>, rule: Rule, text: string, direction: string)
    requires FirstBlock(engine, rules, text, direction, 0) == |rules|
    ensures var n, all := |rules|, rules + [rule];
            && FirstBlock(engine, all, text, direction, 0)
               == (if Blocks(engine, all, text, direction, n) then n else n + 1)
            && TextAt(engine, all, text, direction, n) == TextAt(engine, rules, text, direction, n)
            && Fired(engine, all, text, direction, n) == Fired(engine, rules, text, direction, n)
  {
    var n, all := |rules|, rules + [rule];
    PrefixAgrees(engine, rules, [rule], text, direction, n);
    forall j | 0 <= j < n ensures !Blocks(engine, all, text, direction, j) {
      assert !Blocks(engine, rules, text, direction, j) && all[j] == rules[j];
    }
  }

  /** What one more rule does, if none before it has blocked; `left` is what they left of the scanned part. The
      rule counts exactly when it is enabled, is for the direction, and one of its patterns is found there. */
  lemma OneMoreRule(engine: Engine, rules: seq<Rule>, rule: Rule, text: string, direction: string, scanned: string,
                    remainder: string, left: string, stages: seq<string>)
    requires IsCut(text, scanned, remainder)
    requires Evaluate(engine, rules, text, direction).blocked == None
    requires Evaluate(engine, rules, text, direction).text == left + remainder
    requires Redacts(engine, rule.patterns, rule.mask, stages) && stages[0] == left
    ensures var o, o' := Evaluate(engine, rules, text, direction), Evaluate(engine, rules + [rule], text, direction);
            var counts := IsFor(rule, direction) && IsFound(engine, rule, left);
            && (!counts ==> o' == o)
            && (counts ==> o'.hits == o.hits + [rule])
            && (counts && rule.action == "block" ==> o'.blocked == Some(rule.name) && o'.text == o.text)
            && (counts && rule.action == "redact" ==>
                  o'.blocked == None && o'.text == stages[|rule.patterns|] + remainder)
            && (counts && rule.action != "block" && rule.action != "redact" ==>
                  o'.blocked == None && o'.text == o.text)
  {
    var n, all := |rules|, rules + [rule];
    EvaluateCut(engine, rules, text, direction, scanned, remainder);
    EvaluateCut(engine, all, text, direction, scanned, remainder);
    SameHead(TextAt(engine, rules, scanned, direction, n), left, remainder);
    NotBlockedYet(engine, rules, rule, scanned, direction);
    FoundIff(engine, rule, left);
    SubAllStages(engine, rule.patterns, rule.mask, stages);
  }

  lemma SameHead(a: string, b: string, tail: string)
    requires a + tail == b + tail
    ensures a == b
  {
    assert a == (a + tail)[..|a|] && b == (b + tail)[..|b|];
  }

  /** A rule that is found takes effect on input exactly when it is enabled and for input or both, on output
      when it is enabled and for output or both; and a redacting one substitutes its pattern. */
  lemma SingleRule(engine: Engine, rule: Rule, text: string)
    requires |text| <= 100_000 && IsFound(engine, rule, text)
    ensures Evaluate(engine, [rule], text, "input").hits
            == if rule.enabled && rule.applies in {"input", "both"} then [rule] else []
    ensures Evaluate(engine, [rule], text, "output").hits
            == if rule.enabled && rule.applies in {"output", "both"} then [rule] else []
    ensures rule.enabled && rule.applies == "both" && rule.action == "redact" && |rule.patterns| == 1 ==>
              Evaluate(engine, [rule], text, "input") == Evaluate(engine, [rule], text, "output")
              == Outcome(None, engine.sub(rule.patterns[0], rule.mask, text), [rule])
  {
    var stages := StagesOf(engine, rule.patterns, rule.mask, text);
    if |rule.patterns| == 1 {
      var p :| p in rule.patterns && engine.compiles(p) && engine.search(p, text);
      assert stages[0 + 1] == engine.sub(rule.patterns[0], rule.mask, stages[0]);
    }
    RuleAlone(engine, rule, text, "input", stages);
    RuleAlone(engine, rule, text, "output", stages);
  }

  lemma RuleAlone(engine: Engine, rule: Rule, text: string, direction: string, stages: seq<string>)
    requires |text| <= 100_000 && IsFound(engine, rule, text)
    requires Redacts(engine, rule.patterns, rule.mask, stages) && stages[0] == text
    ensures var o := Evaluate(engine, [rule], text, direction);
            o.hits == (if IsFor(rule, direction) then [rule] else [])
            && (IsFor(rule, direction) && rule.action == "redact" ==>
                  o == Outcome(None, stages[|rule.patterns|], [rule]))
  {
    assert text + "" == text && [] + [rule] == [rule];
    NoRules(engine, text, direction);
    OneMoreRule(engine, [], rule, text, direction, text, "", text, stages);
    assert stages[|rule.patterns|] + "" == stages[|rule.patterns|];
  }

  lemma {:induction false} StagesOf(engine: Engine, patterns: seq<string>, mask: string, text: string)
    returns (stages: seq<string>)
    ensures Redacts(engine, patterns, mask, stages) && stages[0] == text
    decreases |patterns|
  {
    if patterns == [] {
      stages := [text];
    } else {
      var n := |patterns| - 1;
      var before := StagesOf(engine, patterns[..n], mask, text);
      var last := if engine.compiles(patterns[n]) then engine.sub(patterns[n], mask, before[n]) else before[n];
      stages := before + [last];
    }
  }
}
