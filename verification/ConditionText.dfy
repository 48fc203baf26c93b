/** Writing edge conditions and reading them back (services/workflow-worker/app/dag.py): the text of a path,
    an operator and a literal evaluates to the comparison it spells out. */
module ConditionText {
  import opened Json
  import opened Conditions

  // ---- writing --------------------------------------------------------------------------

  function OpText(op: Op): string {
    match op
    case Eq => "=="
    case Ne => "!="
    case Gt => ">"
    case Ge => ">="
    case Lt => "<"
    case Le => "<="
  }

  function DigitsOf(n: nat): string {
    if n < 10 then ['0' + n as char] else DigitsOf(n / 10) + ['0' + (n % 10) as char]
  }

  /** Literals that have a canonical text; strings in double quotes, quotes inside them and all. */
  predicate IsWritable(v: Json) {
    v.Null? || v.Bool? || v.Int? || (v.Str? && '\n' !in v.s)
  }

  function LiteralText(v: Json): string
    requires IsWritable(v)
  {
    match v
    case Null => "null"
    case Bool(b) => if b then "true" else "false"
    case Int(n) => if n < 0 then "-" + DigitsOf(-n) else DigitsOf(n)
    case Str(s) => "\"" + s + "\""
  }

  predicate IsBlank(s: string) { forall i :: 0 <= i < |s| ==> IsSpace(s[i]) }

  predicate IsPath(s: string) { s != "" && forall i :: 0 <= i < |s| ==> IsPathChar(s[i]) }

  function ClauseText(path: string, before: string, op: Op, behind: string, v: Json): string
    requires IsWritable(v)
  {
    path + (before + (OpText(op) + (behind + LiteralText(v))))
  }

  // ---- blanks ----------------------------------------------------------------------------

  lemma {:induction false} StripLeftBlank(w: string, s: string)
    requires IsBlank(w) && (s == "" || !IsSpace(s[0]))
    ensures StripLeft(w + s) == s
  {
    if w == "" {
      assert w + s == s;
    } else {
      assert (w + s)[1..] == w[1..] + s;
      StripLeftBlank(w[1..], s);
    }
  }

  lemma StripSolid(s: string)
    requires s != "" && !IsSpace(s[0]) && !IsSpace(s[|s| - 1])
    ensures Strip(s) == s
  {}

  lemma {:induction false} PathLengthOf(path: string, rest: string)
    requires forall i :: 0 <= i < |path| ==> IsPathChar(path[i])
    requires rest != "" && !IsPathChar(rest[0])
    ensures PathLength(path + rest) == |path|
  {
    if path != "" {
      assert (path + rest)[1..] == path[1..] + rest;
      PathLengthOf(path[1..], rest);
    } else {
      assert path + rest == rest;
    }
  }

  // ---- literals ------------------------------------------------------------------------------

  lemma {:induction false} IntBodyGrows(s: string, d: char)
    requires IntBody(s) && IsDigit(d)
    ensures IntBody(s + [d])
  {
    var t := s + [d];
    if |s| == 1 {
      assert t[1..] == [d];
    } else if IntBody(s[1..]) {
      IntBodyGrows(s[1..], d);
      assert t[1..] == s[1..] + [d];
    } else {
      IntBodyGrows(s[2..], d);
      assert t[2..] == s[2..] + [d];
    }
  }

  lemma {:induction false} DigitsRoundTrip(n: nat)
    ensures IntBody(DigitsOf(n)) && IntValue(DigitsOf(n)) == n
    ensures forall i :: 0 <= i < |DigitsOf(n)| ==> IsDigit(DigitsOf(n)[i])
  {
    if n >= 10 {
      DigitsRoundTrip(n / 10);
      IntBodyGrows(DigitsOf(n / 10), '0' + (n % 10) as char);
      assert DigitsOf(n)[..|DigitsOf(n)| - 1] == DigitsOf(n / 10);
    } else {
      assert DigitsOf(n)[..0] == "";
    }
  }

  lemma LowerHead(s: string)
    requires s != ""
    ensures Lower(s) != "" && (IsDigit(s[0]) || s[0] == '-' ==> Lower(s)[0] == s[0])
  {}

  /** Text that starts with a digit or a sign and ends in a digit is a number if int() takes it. */
  lemma NumberIsRead(t: string)
    requires t != "" && (IsDigit(t[0]) || t[0] == '-') && IsDigit(t[|t| - 1])
    requires ParseInt(t).Some?
    ensures ParseLiteral(t) == Int(ParseInt(t).value)
  {
    StripSolid(t);
    LowerHead(t);
  }

  lemma IntRoundTrip(n: int)
    ensures ParseLiteral(LiteralText(Int(n))) == Int(n)
  {
    var m := if n < 0 then -n else n;
    DigitsRoundTrip(m);
    if n < 0 {
      NumberIsRead("-" + DigitsOf(m));
      assert ("-" + DigitsOf(m))[1..] == DigitsOf(m);
    } else {
      NumberIsRead(DigitsOf(m));
    }
  }

  lemma StringRoundTrip(s: string)
    requires '\n' !in s
    ensures ParseLiteral(LiteralText(Str(s))) == Str(s)
  {
    var t := LiteralText(Str(s));
    StripSolid(t);
    assert t[0] == '"' && t[|t| - 1] == '"' && t[1..|t| - 1] == s;
  }

  lemma TrueIsRead()
    ensures ParseLiteral("true") == Bool(true)
  {
    StripSolid("true");
    assert Lower("true") == "true";
  }

  lemma FalseIsRead()
    ensures ParseLiteral("false") == Bool(false)
  {
    StripSolid("false");
    assert Lower("false") == "false";
  }

  lemma NullIsRead()
    ensures ParseLiteral("null") == Null
  {
    StripSolid("null");
    assert Lower("null") == "null";
  }

  /** Every writable literal is read back as it was. */
  lemma LiteralRoundTrip(v: Json)
    requires IsWritable(v)
    ensures ParseLiteral(LiteralText(v)) == v
  {
    match v
    case Int(n) => IntRoundTrip(n);
    case Str(s) => StringRoundTrip(s);
    case Bool(b) => if b { TrueIsRead(); } else { FalseIsRead(); }
    case Null => NullIsRead();
  }

  /** Its text is one line that neither starts nor ends with a blank, nor starts with an equals sign. */
  lemma LiteralIsSolid(v: Json)
    requires IsWritable(v)
    ensures var t := LiteralText(v);
            OneLine(t) && !IsSpace(t[0]) && !IsSpace(t[|t| - 1]) && t[0] != '='
  {
    if v.Int? {
      var m := if v.n < 0 then -v.n else v.n;
      DigitsRoundTrip(m);
      assert LiteralText(v)[|LiteralText(v)| - 1] == DigitsOf(m)[|DigitsOf(m)| - 1];
    }
  }

  // ---- clauses -----------------------------------------------------------------------------------

  lemma TailRoundTrip(op: Op, behind: string, lit: string)
    requires IsBlank(behind) && OneLine(lit) && !IsSpace(lit[0]) && lit[0] != '='
    ensures ParseTail(OpText(op) + (behind + lit)) == Some((op, lit))
  {
    var t := OpText(op) + (behind + lit);
    StripLeftBlank(behind, lit);
    assert (behind + lit)[0] != '=';
    if |OpText(op)| == 2 {
      assert t[2..] == behind + lit;
    } else {
      assert t[1..] == behind + lit;
    }
  }

  lemma ClauseRoundTrip(path: string, before: string, op: Op, behind: string, v: Json)
    requires IsPath(path) && IsBlank(before) && IsBlank(behind) && IsWritable(v)
    ensures ParseClause(ClauseText(path, before, op, behind, v)) == Some(Clause(path, op, LiteralText(v)))
  {
    LiteralIsSolid(v);
    var tail := OpText(op) + (behind + LiteralText(v));
    var rest := before + tail;
    var t := path + rest;
    assert rest[0] == if before == "" then tail[0] else before[0];
    PathLengthOf(path, rest);
    assert t[..|path|] == path && t[|path|..] == rest;
    StripLeftBlank(before, tail);
    TailRoundTrip(op, behind, LiteralText(v));
  }

  lemma ClauseIsSolid(path: string, before: string, op: Op, behind: string, v: Json)
    requires IsPath(path) && IsWritable(v)
    ensures var t := ClauseText(path, before, op, behind, v);
            t != "" && Strip(t) == t
  {
    LiteralIsSolid(v);
    var t, lit := ClauseText(path, before, op, behind, v), LiteralText(v);
    assert t[0] == path[0] && t[|t| - 1] == lit[|lit| - 1];
    StripSolid(t);
  }

  /** The prefix is made of path characters, so a text starts with it only if its path does. */
  lemma PrefixWithin(path: string, rest: string)
    requires rest != "" && !IsPathChar(rest[0])
    ensures StartsWith(path + rest, OUTPUTS_PREFIX) ==> StartsWith(path, OUTPUTS_PREFIX)
  {
    var t := path + rest;
    assert t[|path|] == rest[0];
    if StartsWith(t, OUTPUTS_PREFIX) {
      assert forall i :: 0 <= i < 8 ==> t[i] == OUTPUTS_PREFIX[i] && IsPathChar(t[i]);
      assert |path| >= 8;
      assert path[..8] == t[..8];
    }
  }

  lemma NoPrefix(path: string, before: string, op: Op, behind: string, v: Json)
    requires IsPath(path) && !StartsWith(path, OUTPUTS_PREFIX) && IsBlank(before) && IsWritable(v)
    ensures !StartsWith(ClauseText(path, before, op, behind, v), OUTPUTS_PREFIX)
  {
    var rest := before + (OpText(op) + (behind + LiteralText(v)));
    assert rest[0] == if before == "" then OpText(op)[0] else before[0];
    PrefixWithin(path, rest);
  }

  lemma VerdictOfClause(condition: string, path: string, op: Op, v: Json, outputs: Json)
    requires condition != "" && Strip(condition) == condition && IsWritable(v)
    requires ParseClause(DropPrefix(condition)) == Some(Clause(path, op, LiteralText(v)))
    ensures Evaluate(condition, outputs) == Compare(op, Walk(outputs, SplitDots(path)), v)
  {
    LiteralRoundTrip(v);
  }

  /** The verdict on the text of a clause is the comparison of what the path leads to with the literal. */
  lemma EvaluateRoundTrip(path: string, before: string, op: Op, behind: string, v: Json, outputs: Json)
    requires IsPath(path) && !StartsWith(path, OUTPUTS_PREFIX)
    requires IsBlank(before) && IsBlank(behind) && IsWritable(v)
    ensures Evaluate(ClauseText(path, before, op, behind, v), outputs)
            == Compare(op, Walk(outputs, SplitDots(path)), v)
  {
    ClauseIsSolid(path, before, op, behind, v);
    NoPrefix(path, before, op, behind, v);
    ClauseRoundTrip(path, before, op, behind, v);
    VerdictOfClause(ClauseText(path, before, op, behind, v), path, op, v, outputs);
  }

  lemma PrefixedText(path: string, before: string, op: Op, behind: string, v: Json)
    requires IsWritable(v)
    ensures DropPrefix(ClauseText(OUTPUTS_PREFIX + path, before, op, behind, v))
            == ClauseText(path, before, op, behind, v)
  {
    DropsPrefix(path, before + (OpText(op) + (behind + LiteralText(v))));
  }

  lemma DropsPrefix(path: string, rest: string)
    ensures DropPrefix((OUTPUTS_PREFIX + path) + rest) == path + rest
  {
    assert (OUTPUTS_PREFIX + path) + rest == OUTPUTS_PREFIX + (path + rest);
  }

  /** Behind the prefix any path is read, one that starts with the prefix itself included. */
  lemma PrefixedRoundTrip(path: string, before: string, op: Op, behind: string, v: Json, outputs: Json)
    requires IsPath(path) && IsBlank(before) && IsBlank(behind) && IsWritable(v)
    ensures Evaluate(ClauseText(OUTPUTS_PREFIX + path, before, op, behind, v), outputs)
            == Compare(op, Walk(outputs, SplitDots(path)), v)
  {
    assert forall i :: 0 <= i < 8 ==> IsPathChar(OUTPUTS_PREFIX[i]);
    ClauseIsSolid(OUTPUTS_PREFIX + path, before, op, behind, v);
    PrefixedText(path, before, op, behind, v);
    ClauseRoundTrip(path, before, op, behind, v);
    VerdictOfClause(ClauseText(OUTPUTS_PREFIX + path, before, op, behind, v), path, op, v, outputs);
  }

  lemma {:induction false} WholePath(path: string)
    requires forall i :: 0 <= i < |path| ==> IsPathChar(path[i])
    ensures PathLength(path) == |path|
  {
    if path != "" { WholePath(path[1..]); }
  }

  /** A condition that is only a path asks whether its value is true in Python's sense. */
  lemma BarePathMeaning(path: string, outputs: Json)
    requires IsPath(path) && IsPath(DropPrefix(path))
    ensures Evaluate(path, outputs) == Truthy(Walk(outputs, SplitDots(DropPrefix(path))))
  {
    StripSolid(path);
    var cond := DropPrefix(path);
    WholePath(cond);
    assert cond[|cond|..] == "";
    assert ParseClause(cond).None?;
  }

  /** An added prefix changes no verdict, whatever the condition is, unless it already starts with one. */
  lemma PrefixIsNeutral(condition: string, outputs: Json)
    requires condition != "" && Strip(condition) == condition && !StartsWith(condition, OUTPUTS_PREFIX)
    ensures Evaluate(OUTPUTS_PREFIX + condition, outputs) == Evaluate(condition, outputs)
  {
    var t := OUTPUTS_PREFIX + condition;
    SolidEnds(condition);
    assert t[0] == 'o' && t[|t| - 1] == condition[|condition| - 1];
    StripSolid(t);
    assert t[8..] == condition;
  }

  lemma {:induction false} StripRightEnd(s: string)
    ensures var t := StripRight(s); t != "" ==> !IsSpace(t[|t| - 1])
  {
    if s != "" && IsSpace(s[|s| - 1]) { StripRightEnd(s[..|s| - 1]); }
  }

  lemma SolidEnds(s: string)
    requires s != "" && Strip(s) == s
    ensures !IsSpace(s[|s| - 1])
  {
    StripRightEnd(StripLeft(s));
  }

  // ---- what the operators say ------------------------------------------------------------------------

  /** Strings are ordered: of two exactly one is less, unless they are equal. */
  lemma {:induction false} StringTrichotomy(a: string, b: string)
    ensures StringLess(a, b) || StringLess(b, a) <==> a != b
    ensures !(StringLess(a, b) && StringLess(b, a))
  {
    if a != "" && b != "" && a[0] == b[0] {
      StringTrichotomy(a[1..], b[1..]);
      assert a == [a[0]] + a[1..] && b == [b[0]] + b[1..];
    }
  }

  lemma {:induction false} StringTransitive(a: string, b: string, c: string)
    requires StringLess(a, b) && StringLess(b, c)
    ensures StringLess(a, c)
  {
    if a != "" && a[0] == b[0] && b[0] == c[0] { StringTransitive(a[1..], b[1..], c[1..]); }
  }

  /** The order of values that Python orders is transitive. */
  lemma OrderIsTransitive(a: Json, b: Json, c: Json)
    requires Compare(Lt, a, b) && Compare(Lt, b, c)
    ensures Compare(Lt, a, c)
  {
    if a.Str? { StringTransitive(a.s, b.s, c.s); }
  }

  /** Two values Python orders stand in exactly one of the three relations, and the operators are read off
      it; for two it does not order the four inequalities are false. */
  lemma OperatorsMeaning(a: Json, b: Json)
    ensures Compare(Ne, a, b) <==> !Compare(Eq, a, b)
    ensures Less(a, b).Some? ==>
              (Compare(Ge, a, b) <==> Compare(Gt, a, b) || Compare(Eq, a, b))
              && (Compare(Le, a, b) <==> Compare(Lt, a, b) || Compare(Eq, a, b))
              && (Compare(Gt, a, b) <==> !Compare(Le, a, b))
              && (Compare(Gt, a, b) <==> Compare(Lt, b, a))
    ensures Less(a, b).None? ==>
              !Compare(Gt, a, b) && !Compare(Ge, a, b) && !Compare(Lt, a, b) && !Compare(Le, a, b)
    ensures Number(a).Some? && Number(b).Some? ==>
              (Compare(Lt, a, b) <==> Number(a).value < Number(b).value)
              && (Compare(Eq, a, b) <==> Number(a).value == Number(b).value)
  {
    if a.Str? && b.Str? { StringTrichotomy(a.s, b.s); }
  }

  // ---- walking a path ------------------------------------------------------------------------------

  /** The walk as the documentation has it: null as soon as a segment is missing. */
  function WalkKeys(obj: Json, parts: seq<string>): Json
    decreases |parts|
  {
    if parts == [] then obj
    else if obj.Dict? then WalkKeys(Get(obj.entries, parts[0]), parts[1..])
    else Null
  }

  /** The value at which the dictionaries end, and the segments still to come. */
  function KeysEnd(obj: Json, parts: seq<string>): (Json, seq<string>)
    decreases |parts|
  {
    if parts == [] || !obj.Dict? then (obj, parts) else KeysEnd(Get(obj.entries, parts[0]), parts[1..])
  }

  /** A missing segment gives null exactly when the value where the dictionaries end has no attribute of
      that name, or the rest of the path leads from that attribute to null. */
  lemma {:induction false} NullOnMissingIff(obj: Json, parts: seq<string>)
    ensures var (v, rest) := KeysEnd(obj, parts);
            Walk(obj, parts) == WalkKeys(obj, parts)
            <==> rest == [] || GETATTR(v, rest[0]).None? || Walk(GETATTR(v, rest[0]).value, rest[1..]) == Null
    decreases |parts|
  {
    if parts != [] && obj.Dict? { NullOnMissingIff(Get(obj.entries, parts[0]), parts[1..]); }
  }

  lemma {:induction false} SplitAtDot(a: string, b: string)
    requires '.' !in a
    ensures SplitDots(a + "." + b) == [a] + SplitDots(b)
  {
    var s := a + "." + b;
    if a == "" {
      assert s[1..] == b;
    } else {
      assert s[1..] == a[1..] + "." + b;
      SplitAtDot(a[1..], b);
      assert a == [a[0]] + a[1..];
    }
  }

  lemma {:induction false} SplitNoDot(a: string)
    requires '.' !in a
    ensures SplitDots(a) == [a]
  {
    if a != "" {
      SplitNoDot(a[1..]);
      assert a == [a[0]] + a[1..];
    }
  }

  // ---- dictionaries within dictionaries --------------------------------------------------------------

  function JoinDots(keys: seq<string>): string {
    if keys == [] then "" else if |keys| == 1 then keys[0] else keys[0] + "." + JoinDots(keys[1..])
  }

  ghost predicate Spells(path: string, keys: seq<string>) {
    keys != [] && path == JoinDots(keys) && forall i | 0 <= i < |keys| :: '.' !in keys[i]
  }

  lemma {:induction false} SplitJoined(path: string, keys: seq<string>)
    requires Spells(path, keys)
    ensures SplitDots(path) == keys
    decreases |keys|
  {
    assert '.' !in keys[0];
    if |keys| == 1 {
      SplitNoDot(keys[0]);
    } else {
      assert forall i | 0 <= i < |keys| - 1 :: keys[1..][i] == keys[i + 1];
      SplitJoined(JoinDots(keys[1..]), keys[1..]);
      SplitAtDot(keys[0], JoinDots(keys[1..]));
    }
  }

  /** Every path is spelled by exactly the keys it is split into. */
  lemma {:induction false} SplitMeaning(path: string)
    ensures Spells(path, SplitDots(path))
    ensures forall keys :: Spells(path, keys) ==> keys == SplitDots(path)
  {
    SplitSpells(path);
    forall keys | Spells(path, keys) ensures keys == SplitDots(path) { SplitJoined(path, keys); }
  }

  lemma {:induction false} SplitSpells(path: string)
    ensures Spells(path, SplitDots(path))
  {
    if path != "" {
      SplitSpells(path[1..]);
      var rest, parts := SplitDots(path[1..]), SplitDots(path);
      assert path == [path[0]] + path[1..];
      if path[0] == '.' {
        assert parts[1..] == rest;
        assert "" + "." + JoinDots(rest) == path;
      } else {
        assert parts[0] == [path[0]] + rest[0] && parts[1..] == rest[1..];
        assert |rest| > 1 ==>
            [path[0]] + (rest[0] + "." + JoinDots(rest[1..])) == parts[0] + "." + JoinDots(parts[1..]);
      }
    }
  }

  /** From obj the keys lead to v, each of them through the first entry of its name in a dictionary. */
  ghost predicate LeadTo(obj: Json, keys: seq<string>, v: Json)
    decreases |keys|
  {
    if keys == [] then obj == v
    else obj.Dict? && exists i: nat :: IsFirst(obj.entries, i, keys[0]) && LeadTo(obj.entries[i].value, keys[1..], v)
  }

  /** From obj all keys but the last lead to a dictionary that has no entry for the last. */
  ghost predicate LeadNowhere(obj: Json, keys: seq<string>)
    decreases |keys|
  {
    keys != [] && obj.Dict?
    && if |keys| == 1 then forall i | 0 <= i < |obj.entries| :: obj.entries[i].key != keys[0]
       else exists i: nat :: IsFirst(obj.entries, i, keys[0]) && LeadNowhere(obj.entries[i].value, keys[1..])
  }

  lemma {:induction false} WalkIsLed(obj: Json, keys: seq<string>, v: Json)
    requires LeadTo(obj, keys, v)
    ensures Walk(obj, keys) == v
    decreases |keys|
  {
    if keys != [] {
      var i: nat :| IsFirst(obj.entries, i, keys[0]) && LeadTo(obj.entries[i].value, keys[1..], v);
      GetFinds(obj.entries, keys[0], i);
      WalkIsLed(obj.entries[i].value, keys[1..], v);
    }
  }

  lemma {:induction false} WalkIsLost(obj: Json, keys: seq<string>)
    requires LeadNowhere(obj, keys)
    ensures Walk(obj, keys) == Null
    decreases |keys|
  {
    if |keys| == 1 {
      GetMisses(obj.entries, keys[0]);
      assert keys[1..] == [];
    } else {
      var i: nat :| IsFirst(obj.entries, i, keys[0]) && LeadNowhere(obj.entries[i].value, keys[1..]);
      GetFinds(obj.entries, keys[0], i);
      WalkIsLost(obj.entries[i].value, keys[1..]);
    }
  }

  /** A comparison of a path through dictionaries is about the value the keys lead to, at whatever position
      they stand, and about null if the last of them is missing. */
  lemma NestedVerdict(keys: seq<string>, before: string, op: Op, behind: string, literal: Json, outputs: Json, v: Json)
    requires IsPath(JoinDots(keys)) && Spells(JoinDots(keys), keys)
    requires LeadTo(outputs, keys, v) || (LeadNowhere(outputs, keys) && v == Null)
    requires IsBlank(before) && IsBlank(behind) && IsWritable(literal)
    ensures Evaluate(ClauseText("outputs." + JoinDots(keys), before, op, behind, literal), outputs)
            == Compare(op, v, literal)
    ensures !StartsWith(JoinDots(keys), "outputs.") ==>
              Evaluate(ClauseText(JoinDots(keys), before, op, behind, literal), outputs) == Compare(op, v, literal)
  {
    NestedValue(keys, outputs, v);
    PrefixedRoundTrip(JoinDots(keys), before, op, behind, literal, outputs);
    if !StartsWith(JoinDots(keys), "outputs.") {
      EvaluateRoundTrip(JoinDots(keys), before, op, behind, literal, outputs);
    }
  }

  lemma NestedValue(keys: seq<string>, outputs: Json, v: Json)
    requires Spells(JoinDots(keys), keys)
    requires LeadTo(outputs, keys, v) || (LeadNowhere(outputs, keys) && v == Null)
    ensures Walk(outputs, SplitDots(JoinDots(keys))) == v
  {
    SplitJoined(JoinDots(keys), keys);
    if LeadTo(outputs, keys, v) { WalkIsLed(outputs, keys, v); } else { WalkIsLost(outputs, keys); }
  }

  /** And a path alone asks whether that value is one of those Python takes for true. */
  lemma NestedTruth(keys: seq<string>, outputs: Json, v: Json)
    requires IsPath(JoinDots(keys)) && Spells(JoinDots(keys), keys) && !StartsWith(JoinDots(keys), "outputs.")
    requires LeadTo(outputs, keys, v) || (LeadNowhere(outputs, keys) && v == Null)
    ensures Evaluate(JoinDots(keys), outputs) <==> !IsFalsy(v)
    ensures Evaluate("outputs." + JoinDots(keys), outputs) <==> !IsFalsy(v)
  {
    var path := JoinDots(keys);
    NestedValue(keys, outputs, v);
    TruthyMeaning(v);
    BarePathMeaning(path, outputs);
    PrefixedPath(path);
    BarePathMeaning("outputs." + path, outputs);
  }

  lemma PrefixedPath(path: string)
    requires IsPath(path)
    ensures IsPath("outputs." + path) && DropPrefix("outputs." + path) == path
  {
    assert forall i :: 0 <= i < 8 ==> IsPathChar(OUTPUTS_PREFIX[i]);
  }

  // ---- attributes -------------------------------------------------------------------------------------

  /** So an attribute of a list, a string or a number is taken for its value: `items.count` is true of an
      empty list, and `items.count == null` false, if lists have that attribute. */
  lemma AttributeIsRead(key: string, name: string, v: Json, found: Json)
    requires IsPath(key) && IsPath(name) && '.' !in key && '.' !in name && key != "outputs"
    requires !v.Dict? && GETATTR(v, name) == Some(found)
    ensures var outputs, path := Dict([Entry(key, v)]), key + "." + name;
            WalkKeys(outputs, SplitDots(path)) == Null
            && Evaluate(path, outputs) == Truthy(found)
            && (Evaluate(ClauseText(path, " ", Eq, " ", Null), outputs) <==> found == Null)
  {
    var outputs, path := Dict([Entry(key, v)]), key + "." + name;
    SplitAtDot(key, name);
    SplitNoDot(name);
    assert SplitDots(path) == [key, name] && [key, name][1..] == [name] && [name][1..] == [];
    assert Get(outputs.entries, key) == v;
    assert Walk(outputs, [key, name]) == Walk(v, [name]) == found;
    KeyIsNoPrefix(key, name);
    BarePathMeaning(path, outputs);
    EvaluateRoundTrip(path, " ", Eq, " ", Null, outputs);
  }

  lemma KeyIsNoPrefix(key: string, name: string)
    requires '.' !in key && key != "outputs"
    ensures !StartsWith(key + "." + name, OUTPUTS_PREFIX)
  {
    var path := key + "." + name;
    if StartsWith(path, OUTPUTS_PREFIX) {
      assert OUTPUTS_PREFIX == "outputs" + "." + "";
      assert path == "outputs" + "." + path[8..];
      SplitAtFirstDot(key, name, "outputs", path[8..]);
    }
  }

  lemma {:induction false} SplitAtFirstDot(a: string, b: string, c: string, d: string)
    requires '.' !in a && '.' !in c && a + "." + b == c + "." + d
    ensures a == c && b == d
  {
    SplitAtDot(a, b);
    SplitAtDot(c, d);
    assert ([a] + SplitDots(b))[0] == a && ([c] + SplitDots(d))[0] == c;
    assert b == (a + "." + b)[|a| + 1..] && d == (c + "." + d)[|c| + 1..];
  }

  /** _resolve_path */
  method ResolvePath(outputs: Json, path: string) returns (obj: Json)
    ensures obj == Walk(outputs, SplitDots(path))
    ensures forall keys, v :: Spells(path, keys) && LeadTo(outputs, keys, v) ==> obj == v
    ensures forall keys :: Spells(path, keys) && LeadNowhere(outputs, keys) ==> obj == Null
  {
    forall keys, v | Spells(path, keys) && LeadTo(outputs, keys, v) ensures Walk(outputs, SplitDots(path)) == v {
      NestedValue(keys, outputs, v);
    }
    forall keys | Spells(path, keys) && LeadNowhere(outputs, keys) ensures Walk(outputs, SplitDots(path)) == Null {
      NestedValue(keys, outputs, Null);
    }
    var parts := SplitDots(path);
    obj := outputs;
    var i := 0;
    while i < |parts|
      invariant 0 <= i <= |parts|
      invariant Walk(outputs, parts) == Walk(obj, parts[i..])
    {
      if obj.Dict? {
        obj := Get(obj.entries, parts[i]);
      } else if GETATTR(obj, parts[i]).Some? {
        obj := GETATTR(obj, parts[i]).value;
      } else {
        return Null;
      }
      i := i + 1;
    }
  }
}
