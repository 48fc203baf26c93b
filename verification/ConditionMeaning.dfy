/** What each part of the condition language stands for, character by character and value by value
    (services/workflow-worker/app/dag.py): blanks, clauses, the literals in all their spellings, and the order
    of values. */
module ConditionMeaning {
  import opened Alphabets
  import opened Json
  import opened Conditions
  import opened ConditionText

  // ---- characters -----------------------------------------------------------------------

  /** The code points Python takes for blank. */
  const BLANKS: set<int> := {
    0x9, 0xA, 0xB, 0xC, 0xD, 0x1C, 0x1D, 0x1E, 0x1F, 0x20, 0x85, 0xA0, 0x1680, 0x2000, 0x2001, 0x2002, 0x2003, 0x2004,
    0x2005, 0x2006, 0x2007, 0x2008, 0x2009, 0x200A, 0x2028, 0x2029, 0x202F, 0x205F, 0x3000}

  lemma BlankIff(c: char)
    ensures IsSpace(c) <==> c as int in BLANKS
  {}

  /** A path is made of letters, digits, underscores and dots. */
  lemma PathCharIff(c: char)
    ensures IsPathChar(c) <==> c in SMALL_LETTERS || c in CAPITALS || c in DIGITS || c == '_' || c == '.'
  {
    SmallLetterIff(c);
    CapitalIff(c);
    DigitIff(c);
  }

  // ---- blanks around a text --------------------------------------------------------------

  /** Neither end is blank. */
  predicate IsSolid(s: string) { s != "" ==> !IsSpace(s[0]) && !IsSpace(s[|s| - 1]) }

  lemma {:induction false} StripRightBlank(s: string, w: string)
    requires IsBlank(w) && (s != "" ==> !IsSpace(s[|s| - 1]))
    ensures StripRight(s + w) == s
  {
    if w == "" {
      assert s + w == s;
    } else {
      assert (s + w)[..|s + w| - 1] == s + w[..|w| - 1];
      StripRightBlank(s, w[..|w| - 1]);
    }
  }

  lemma StripMeaning(l: string, s: string, r: string)
    requires IsBlank(l) && IsBlank(r) && IsSolid(s)
    ensures Strip(l + (s + r)) == s
  {
    if s == "" {
      assert l + (s + r) == (l + r) + "";
      StripLeftBlank(l + r, "");
    } else {
      assert (s + r)[0] == s[0];
      StripLeftBlank(l, s + r);
      StripRightBlank(s, r);
    }
  }

  /** Blanks around a condition play no part in its verdict. */
  lemma BlanksAround(l: string, condition: string, r: string, outputs: Json)
    requires IsBlank(l) && IsBlank(r) && IsSolid(condition) && condition != ""
    ensures Evaluate(l + (condition + r), outputs) == Evaluate(condition, outputs)
  {
    StripMeaning(l, condition, r);
    StripSolid(condition);
  }

  lemma SolidIsKept(text: string)
    requires IsSolid(text)
    ensures Strip(text) == text
  {
    StripMeaning("", text, "");
    assert "" + (text + "") == text;
  }

  lemma BlanksAroundLiteral(l: string, text: string, r: string)
    requires IsBlank(l) && IsBlank(r) && IsSolid(text)
    ensures ParseLiteral(l + (text + r)) == ParseLiteral(text)
  {
    StripMeaning(l, text, r);
    SolidIsKept(text);
    StrippedAlike(l + (text + r), text);
  }

  lemma StrippedAlike(s: string, t: string)
    requires Strip(s) == Strip(t)
    ensures ParseLiteral(s) == ParseLiteral(t)
  {}

  /** No condition is met by all outputs; one of blanks only asks for the value under the empty key. */
  lemma NoText(condition: string, outputs: seq<Entry>, i: nat)
    requires IsBlank(condition)
    ensures condition == "" ==> Evaluate(condition, Dict(outputs))
    ensures condition != "" && IsFirst(outputs, i, "") ==>
              (Evaluate(condition, Dict(outputs)) <==> !IsFalsy(outputs[i].value))
    ensures condition != "" && (forall j | 0 <= j < |outputs| :: outputs[j].key != "") ==>
              !Evaluate(condition, Dict(outputs))
  {
    StripMeaning(condition, "", "");
    assert condition + ("" + "") == condition;
    assert Walk(Dict(outputs), [""]) == Get(outputs, "") by { assert [""][1..] == []; }
    TruthyMeaning(Get(outputs, ""));
    if IsFirst(outputs, i, "") { GetFinds(outputs, "", i); }
    if forall j | 0 <= j < |outputs| :: outputs[j].key != "" { GetMisses(outputs, ""); }
  }

  // ---- clauses ----------------------------------------------------------------------------

  /** What stands behind a short operator is read as a longer one when an equals sign and more text follow. */
  predicate IsLonger(op: Op, behind: string, literal: string) {
    (op == Gt || op == Lt) && behind == "" && literal != "" && literal[0] == '=' && !IsBlank(literal[1..])
  }

  /** The text is that path, that operator and that literal, with blanks in between. */
  ghost predicate IsClause(text: string, path: string, op: Op, literal: string) {
    IsPath(path) && OneLine(literal) && IsSolid(literal)
    && exists before, behind :: IsBlank(before) && IsBlank(behind) && !IsLonger(op, behind, literal)
         && text == path + (before + (OpText(op) + (behind + literal)))
  }

  lemma {:induction false} StripLeftSplits(s: string) returns (w: string)
    ensures IsBlank(w) && s == w + StripLeft(s) && (StripLeft(s) != "" ==> !IsSpace(StripLeft(s)[0]))
  {
    w := "";
    if s != "" && IsSpace(s[0]) {
      var v := StripLeftSplits(s[1..]);
      w := [s[0]] + v;
      assert s == [s[0]] + s[1..];
    }
  }

  lemma {:induction false} PathLengthSplits(s: string)
    ensures forall i | 0 <= i < PathLength(s) :: IsPathChar(s[i])
    ensures PathLength(s) < |s| ==> !IsPathChar(s[PathLength(s)])
  {
    if s != "" && IsPathChar(s[0]) {
      PathLengthSplits(s[1..]);
      assert forall i | 0 < i < PathLength(s) :: s[i] == s[1..][i - 1];
    }
  }

  lemma {:induction false} StripLeftOneLine(s: string)
    requires '\n' !in s
    ensures OneLine(StripLeft(s)) <==> !IsBlank(s)
  {
    if s != "" {
      if IsSpace(s[0]) { StripLeftOneLine(s[1..]); }
      assert IsBlank(s) <==> IsSpace(s[0]) && IsBlank(s[1..]);
    }
  }

  lemma TailOf(op: Op, behind: string, literal: string)
    requires IsBlank(behind) && OneLine(literal) && !IsSpace(literal[0]) && !IsLonger(op, behind, literal)
    ensures ParseTail(OpText(op) + (behind + literal)) == Some((op, literal))
  {
    var t := OpText(op) + (behind + literal);
    StripLeftBlank(behind, literal);
    if op == Gt || op == Lt {
      assert t[1..] == behind + literal;
      if behind == "" && literal[0] == '=' {
        assert t[2..] == literal[1..];
        StripLeftOneLine(literal[1..]);
      } else {
        assert t[1] != '=';
      }
    } else {
      assert t[2..] == behind + literal;
    }
  }

  lemma TailHead(tail: string, op: Op, literal: string)
    requires ParseTail(tail) == Some((op, literal))
    ensures var k := |OpText(op)|;
            k <= |tail| && tail[..k] == OpText(op) && literal == StripLeft(tail[k..]) && OneLine(literal)
            && (k == 1 && |tail| >= 2 && tail[1] == '=' ==> !OneLine(StripLeft(tail[2..])))
  {}

  lemma TailSplits(tail: string, op: Op, literal: string) returns (behind: string)
    requires ParseTail(tail) == Some((op, literal))
    ensures IsBlank(behind) && tail == OpText(op) + (behind + literal) && OneLine(literal) && !IsSpace(literal[0])
    ensures !IsLonger(op, behind, literal)
  {
    var k := |OpText(op)|;
    TailHead(tail, op, literal);
    assert tail == tail[..k] + tail[k..];
    behind := StripLeftSplits(tail[k..]);
    if IsLonger(op, behind, literal) { NeverLonger(tail, literal); }
  }

  lemma NeverLonger(tail: string, literal: string)
    requires |tail| >= 2 && OneLine(literal) && literal[0] == '=' && tail[1..] == literal
    requires tail[1] == '=' ==> !OneLine(StripLeft(tail[2..]))
    ensures IsBlank(literal[1..])
  {
    assert tail[2..] == literal[1..] && tail[1] == literal[0];
    StripLeftOneLine(literal[1..]);
  }

  lemma ClauseOf(text: string, path: string, op: Op, literal: string)
    requires IsClause(text, path, op, literal)
    ensures ParseClause(text) == Some(Clause(path, op, literal))
  {
    var before, behind :| IsBlank(before) && IsBlank(behind) && !IsLonger(op, behind, literal)
      && text == path + (before + (OpText(op) + (behind + literal)));
    var tail := OpText(op) + (behind + literal);
    var rest := before + tail;
    assert rest[0] == if before == "" then OpText(op)[0] else before[0];
    PathLengthOf(path, rest);
    assert text[..|path|] == path && text[|path|..] == rest;
    StripLeftBlank(before, tail);
    TailOf(op, behind, literal);
  }

  lemma ClauseParts(text: string, path: string, op: Op, literal: string)
    requires ParseClause(text) == Some(Clause(path, op, literal))
    ensures PathLength(text) > 0 && path == text[..PathLength(text)]
    ensures ParseTail(StripLeft(text[PathLength(text)..])) == Some((op, literal))
  {}

  lemma ClauseSplits(text: string, path: string, op: Op, literal: string)
    requires IsSolid(text) && ParseClause(text) == Some(Clause(path, op, literal))
    ensures IsClause(text, path, op, literal)
  {
    ClauseParts(text, path, op, literal);
    ClauseFrom(text, path, op, literal, PathLength(text));
  }

  lemma ClauseFrom(text: string, path: string, op: Op, literal: string, k: nat)
    requires IsSolid(text) && 0 < k == PathLength(text) && path == text[..k]
    requires ParseTail(StripLeft(text[k..])) == Some((op, literal))
    ensures IsClause(text, path, op, literal)
  {
    var rest := text[k..];
    var tail := StripLeft(rest);
    assert text == path + rest;
    assert IsPath(path) by { PathLengthSplits(text); }
    var before := StripLeftSplits(rest);
    var behind := TailSplits(tail, op, literal);
    Assemble(text, path, before, op, behind, literal, rest, tail);
  }

  lemma Assemble(text: string, path: string, before: string, op: Op, behind: string, literal: string, rest: string,
                 tail: string)
    requires text == path + rest && rest == before + tail && tail == OpText(op) + (behind + literal)
    requires IsPath(path) && IsBlank(before) && IsBlank(behind) && !IsLonger(op, behind, literal)
    requires OneLine(literal) && !IsSpace(literal[0]) && IsSolid(text)
    ensures IsClause(text, path, op, literal)
  {
    assert text[|text| - 1] == literal[|literal| - 1];
  }

  /** The parts of a clause are told from its text: there is at most one way to take it apart. */
  lemma ClauseIff(text: string, path: string, op: Op, literal: string)
    requires IsSolid(text)
    ensures ParseClause(text) == Some(Clause(path, op, literal)) <==> IsClause(text, path, op, literal)
  {
    if ParseClause(text) == Some(Clause(path, op, literal)) { ClauseSplits(text, path, op, literal); }
    if IsClause(text, path, op, literal) { ClauseOf(text, path, op, literal); }
  }

  /** The verdict on any text: a clause compares, everything else is a path whose value is to be true. */
  lemma VerdictMeaning(condition: string, outputs: Json)
    requires condition != "" && IsSolid(condition) && !StartsWith(condition, "outputs.")
    ensures forall path, op, literal :: IsClause(condition, path, op, literal) ==>
              Evaluate(condition, outputs) == Compare(op, Walk(outputs, SplitDots(path)), ParseLiteral(literal))
    ensures (forall path, op, literal :: !IsClause(condition, path, op, literal)) ==>
              (Evaluate(condition, outputs) <==> !IsFalsy(Walk(outputs, SplitDots(condition))))
  {
    StripSolid(condition);
    TruthyMeaning(Walk(outputs, SplitDots(condition)));
    forall path, op, literal | IsClause(condition, path, op, literal)
      ensures ParseClause(condition) == Some(Clause(path, op, literal))
    {
      ClauseIff(condition, path, op, literal);
    }
    if ParseClause(condition).Some? {
      var Clause(path, op, literal) := ParseClause(condition).value;
      ClauseSplits(condition, path, op, literal);
    }
  }

  // ---- numbers ---------------------------------------------------------------------------------

  /** Digits and underscores, no underscore at either end or beside another. */
  predicate IsDigitGroups(s: string) {
    && s != "" && IsDigit(s[0]) && IsDigit(s[|s| - 1])
    && (forall i | 0 <= i < |s| :: IsDigit(s[i]) || s[i] == '_')
    && (forall i | 0 < i < |s| :: IsDigit(s[i - 1]) || IsDigit(s[i]))
  }

  lemma {:induction false} GroupsAreBody(s: string)
    requires IsDigitGroups(s)
    ensures IntBody(s)
    decreases |s|
  {
    if |s| > 1 {
      var k := if IsDigit(s[1]) then 1 else 2;
      assert IsDigit(s[k - 1]) || IsDigit(s[k]);
      assert s[k..][|s[k..]| - 1] == s[|s| - 1];
      assert forall i | 0 <= i < |s| - k :: s[k..][i] == s[k + i];
      GroupsAreBody(s[k..]);
    }
  }

  lemma {:induction false} BodyIsGroups(s: string)
    requires IntBody(s)
    ensures IsDigitGroups(s)
    decreases |s|
  {
    if |s| > 1 {
      var k := if IntBody(s[1..]) then 1 else 2;
      BodyIsGroups(s[k..]);
      assert s[k..][|s[k..]| - 1] == s[|s| - 1];
      forall i | k < i < |s| ensures IsDigit(s[i - 1]) || IsDigit(s[i]) {
        assert s[i - 1] == s[k..][i - 1 - k] && s[i] == s[k..][i - k];
      }
      forall i | k <= i < |s| ensures IsDigit(s[i]) || s[i] == '_' { assert s[i] == s[k..][i - k]; }
    }
  }

  /** The digits of a text without its underscores. */
  function Bare(s: string): string {
    if s == "" then "" else Bare(s[..|s| - 1]) + if s[|s| - 1] == '_' then "" else [s[|s| - 1]]
  }

  /** The decimal digits of n; none for zero. */
  function Digits(n: nat): string {
    if n == 0 then "" else Digits(n / 10) + ["0123456789"[n % 10]]
  }

  function Zeros(k: nat): string { seq(k, _ => '0') }

  /** s writes n: in groups or not, with or without leading zeros; nothing at all writes zero. */
  ghost predicate Writes(s: string, n: nat) {
    (s == "" || IsDigitGroups(s)) && exists k: nat :: Bare(s) == Zeros(k) + Digits(n)
  }

  lemma DigitOf(d: nat)
    requires d < 10
    ensures IsDigit("0123456789"[d]) && ("0123456789"[d] - '0') as int == d
  {}

  lemma {:induction false} ZerosMeanNothing(k: nat)
    ensures IntValue(Zeros(k)) == 0
  {
    if k > 0 {
      assert Zeros(k)[..k - 1] == Zeros(k - 1);
      ZerosMeanNothing(k - 1);
    }
  }

  lemma {:induction false} DigitsMean(k: nat, n: nat)
    ensures IntValue(Zeros(k) + Digits(n)) == n
  {
    var s := Zeros(k) + Digits(n);
    if n == 0 {
      assert s == Zeros(k);
      ZerosMeanNothing(k);
    } else {
      DigitOf(n % 10);
      assert s[|s| - 1] == "0123456789"[n % 10];
      assert s[..|s| - 1] == Zeros(k) + Digits(n / 10);
      DigitsMean(k, n / 10);
    }
  }

  lemma {:induction false} BareMeansTheSame(s: string)
    requires forall i | 0 <= i < |s| :: IsDigit(s[i]) || s[i] == '_'
    ensures IntValue(s) == IntValue(Bare(s)) && DigitCount(s) == |Bare(s)|
  {
    if s != "" {
      var init := s[..|s| - 1];
      var last := s[|s| - 1];
      BareMeansTheSame(init);
      if last == '_' {
        assert Bare(s) == Bare(init);
      } else {
        assert Bare(s)[..|Bare(s)| - 1] == Bare(init) && Bare(s)[|Bare(s)| - 1] == last;
      }
    }
  }

  lemma WrittenValue(s: string, n: nat)
    requires Writes(s, n)
    ensures DigitPart(s) && (s != "" ==> IntBody(s)) && IntValue(s) == n && DigitCount(s) == |Bare(s)|
  {
    if s != "" { GroupsAreBody(s); }
    BareMeansTheSame(s);
    var k: nat :| Bare(s) == Zeros(k) + Digits(n);
    DigitsMean(k, n);
  }

  /** A text that may begin with a sign. */
  predicate IsSigned(text: string, sign: string, s: string) {
    text == sign + s && (sign == "" || sign == "+" || sign == "-")
  }

  /** What starts like a number and ends in a digit or a dot is neither quoted nor a keyword. */
  lemma NumberOrWord(t: string)
    requires t != "" && (IsDigit(t[0]) || t[0] == '-' || t[0] == '+' || t[0] == '.')
    requires IsDigit(t[|t| - 1]) || t[|t| - 1] == '.'
    ensures ParseLiteral(t) == if ParseInt(t).Some? then Int(ParseInt(t).value)
                               else if ParseDecimal(t).Some? then Float(ParseDecimal(t).value) else Str(t)
  {
    StripSolid(t);
    LowerStarts(t);
  }

  lemma LowerStarts(t: string)
    requires t != "" && !('A' <= t[0] <= 'Z')
    ensures Lower(t) != "" && Lower(t)[0] == t[0]
  {}

  /** Whole numbers, with a sign or without, however their digits are written. */
  lemma IntegerIsRead(text: string, sign: string, s: string, n: nat)
    requires IsSigned(text, sign, s) && s != "" && Writes(s, n)
    ensures ParseLiteral(text) == Int(if sign == "-" then 0 - n as int else n as int)
  {
    SignedEnds(text, sign, s);
    SignedInteger(text, sign, s, n);
    NumberOrWord(text);
  }

  lemma SignedInteger(text: string, sign: string, s: string, n: nat)
    requires IsSigned(text, sign, s) && s != "" && Writes(s, n)
    ensures ParseInt(text) == Some(if sign == "-" then 0 - n as int else n as int)
  {
    SignedEnds(text, sign, s);
    WrittenValue(s, n);
  }

  predicate IsInteger(text: string) {
    text != "" && (IsDigitGroups(text) || ((text[0] == '-' || text[0] == '+') && IsDigitGroups(text[1..])))
  }

  lemma SignedBody(text: string)
    requires ParseInt(text).Some?
    ensures IsInteger(text)
  {
    if IntBody(text) {
      BodyIsGroups(text);
    } else {
      BodyIsGroups(text[1..]);
    }
  }

  function TenPower(k: nat): nat { if k == 0 then 1 else 10 * TenPower(k - 1) }

  lemma {:induction false} TenPowers(k: nat)
    ensures TenPower(k) as real == TenTo(k) && TenPower(k) > 0
  {
    if k > 0 { TenPowers(k - 1); }
  }

  lemma {:induction false} FirstDotAt(a: string, b: string)
    requires '.' !in a
    ensures FirstDot(a + ("." + b)) == |a|
  {
    if a == "" {
      assert a + ("." + b) == "." + b;
    } else {
      assert (a + ("." + b))[1..] == a[1..] + ("." + b);
      FirstDotAt(a[1..], b);
    }
  }

  lemma NoDotInside(s: string)
    requires s == "" || IsDigitGroups(s)
    ensures '.' !in s
  {}

  /** m is x and y times ten to the power of minus k. */
  ghost predicate IsFraction(m: real, x: nat, y: nat, k: nat) {
    m * TenPower(k) as real == x as real * TenPower(k) as real + y as real
  }

  lemma FractionIs(f: real, m: real, x: nat, y: nat, k: nat)
    requires TenPower(k) > 0 && f == x as real + y as real / TenPower(k) as real && IsFraction(m, x, y, k)
    ensures f == m
  {
    SameQuotient(m, x as real, y as real, TenPower(k) as real);
  }

  lemma SameQuotient(m: real, x: real, y: real, p: real)
    requires p > 0.0 && m * p == x * p + y
    ensures x + y / p == m
  {
    assert (m - x) * p == y;
  }

  lemma FractionOf(a: string, b: string, x: nat, y: nat, m: real)
    requires Writes(a, x) && Writes(b, y) && (a != "" || b != "") && IsFraction(m, x, y, |Bare(b)|)
    ensures ParseFraction(a + ("." + b)) == Some(m)
  {
    WrittenValue(a, x);
    NoDotInside(a);
    FirstDotAt(a, b);
    SplitsAtDot(a + ("." + b), a, b);
    WrittenValue(b, y);
    FractionAt(a + ("." + b), a, b);
    TenPowers(|Bare(b)|);
    PartsValue(a, b, x, y, TenPower(|Bare(b)|) as real);
    FractionIs(FractionValue(a, b), m, x, y, |Bare(b)|);
  }

  /** In this form for any power of ten. */
  lemma PartsValue(a: string, b: string, x: int, y: int, p: real)
    requires IntValue(a) == x && IntValue(b) == y && TenTo(DigitCount(b)) == p > 0.0
    ensures FractionValue(a, b) == x as real + y as real / p
  {}

  lemma FractionAt(t: string, a: string, b: string)
    requires FirstDot(t) == |a| && |t| == |a| + 1 + |b| && t[..|a|] == a && t[|a| + 1..] == b
    requires DigitPart(a) && DigitPart(b) && (a != "" || b != "")
    ensures ParseFraction(t) == Some(FractionValue(a, b))
  {}

  lemma SplitsAtDot(t: string, a: string, b: string)
    requires t == a + ("." + b)
    ensures |t| == |a| + 1 + |b| && t[..|a|] == a && t[|a|] == '.' && t[|a| + 1..] == b
  {}

  /** A character of no integer. */
  predicate IsForeign(c: char) { c == '.' || c == 'e' || c == 'E' }

  lemma NoInt(t: string, i: nat)
    requires i < |t| && IsForeign(t[i])
    ensures ParseInt(t).None?
  {
    var rest := t[1..];
    assert i > 0 ==> rest[i - 1] == t[i];
    if ParseInt(t).Some? { SignedBody(t); }
  }

  /** Decimal fractions: digits, a dot and digits, of which one side may be empty. */
  lemma DecimalIsRead(text: string, sign: string, a: string, b: string, x: nat, y: nat, m: real)
    requires IsSigned(text, sign, a + ("." + b)) && Writes(a, x) && Writes(b, y) && (a != "" || b != "")
    requires IsFraction(m, x, y, |Bare(b)|)
    ensures ParseLiteral(text) == Float(if sign == "-" then -m else m)
  {
    FractionOf(a, b, x, y, m);
    NoMark(a + ("." + b), a, b);
    DecimalEnds(a + ("." + b), a, b);
    SignedFraction(text, sign, a + ("." + b), |a|, m);
  }

  lemma DecimalEnds(t: string, a: string, b: string)
    requires t == a + ("." + b) && (a == "" || IsDigitGroups(a)) && (b == "" || IsDigitGroups(b))
    ensures |a| < |t| && t[|a|] == '.'
    ensures (IsDigit(t[0]) || t[0] == '.') && (IsDigit(t[|t| - 1]) || t[|t| - 1] == '.')
  {
    assert t[0] == if a != "" then a[0] else '.';
    assert t[|t| - 1] == if b != "" then b[|b| - 1] else '.';
  }

  lemma {:induction false} NoMarkAt(t: string)
    requires forall i | 0 <= i < |t| :: t[i] != 'e' && t[i] != 'E'
    ensures FirstMark(t) == |t|
  {
    if t != "" {
      assert forall i | 0 <= i < |t| - 1 :: t[1..][i] == t[i + 1];
      NoMarkAt(t[1..]);
    }
  }

  lemma NoMark(t: string, a: string, b: string)
    requires t == a + ("." + b) && (a == "" || IsDigitGroups(a)) && (b == "" || IsDigitGroups(b))
    ensures FirstMark(t) == |t|
  {
    forall i | 0 <= i < |t| ensures t[i] != 'e' && t[i] != 'E' {
      assert t[i] == if i < |a| then a[i] else if i == |a| then '.' else b[i - |a| - 1];
    }
    NoMarkAt(t);
  }

  lemma SignedFraction(text: string, sign: string, t: string, i: nat, m: real)
    requires IsSigned(text, sign, t) && i < |t| && IsForeign(t[i]) && ParseReal(t) == Some(m)
    requires (IsDigit(t[0]) || t[0] == '.') && (IsDigit(t[|t| - 1]) || t[|t| - 1] == '.')
    ensures ParseLiteral(text) == Float(if sign == "-" then -m else m)
  {
    SignedEnds(text, sign, t);
    SignedDecimal(text, sign, t, i, m);
    NumberOrWord(text);
  }

  lemma SignedEnds(text: string, sign: string, t: string)
    requires IsSigned(text, sign, t) && t != ""
    ensures text != "" && text[|text| - 1] == t[|t| - 1]
    ensures text[0] == (if sign == "" then t[0] else sign[0]) && (sign == "" ==> text == t)
    ensures sign != "" ==> text[1..] == t
  {}

  lemma SignedDecimal(text: string, sign: string, t: string, i: nat, m: real)
    requires IsSigned(text, sign, t) && i < |t| && IsForeign(t[i]) && ParseReal(t) == Some(m)
    requires IsDigit(t[0]) || t[0] == '.'
    ensures ParseInt(text).None? && ParseDecimal(text) == Some(if sign == "-" then -m else m)
  {
    SignedEnds(text, sign, t);
    if sign == "" {
      NoInt(text, i);
    } else {
      assert text[1 + i] == t[i];
      NoInt(text, 1 + i);
    }
  }

  // ---- with an exponent ----------------------------------------------------------------------

  /** Unsigned numbers before an exponent: digits, with a dot or without. */
  ghost predicate IsMantissa(t: string, m: real) {
    (exists n: nat :: t != "" && Writes(t, n) && n as real == m)
    || exists a, b, x: nat, y: nat :: t == a + ("." + b) && Writes(a, x) && Writes(b, y) && (a != "" || b != "")
                                      && IsFraction(m, x, y, |Bare(b)|)
  }

  /** v is m times ten to the power of z, or of minus z. */
  ghost predicate IsScaled(v: real, m: real, minus: bool, z: nat) {
    if minus then v * TenPower(z) as real == m else v == m * TenPower(z) as real
  }

  /** What a mantissa is made of: neither an exponent's mark nor a blank, a digit or a dot at either end. */
  predicate IsMantissaText(t: string) {
    t != "" && (IsDigit(t[0]) || t[0] == '.')
    && forall i | 0 <= i < |t| :: IsDigit(t[i]) || t[i] == '_' || t[i] == '.'
  }

  lemma FractionText(t: string, a: string, b: string)
    requires t == a + ("." + b) && (a == "" || IsDigitGroups(a)) && (b == "" || IsDigitGroups(b))
    ensures IsMantissaText(t)
  {
    forall i | 0 <= i < |t| ensures IsDigit(t[i]) || t[i] == '_' || t[i] == '.' {
      assert t[i] == if i < |a| then a[i] else if i == |a| then '.' else b[i - |a| - 1];
    }
    assert t[0] == if a != "" then a[0] else '.';
  }

  lemma DotIsNoBody(t: string)
    requires '.' in t
    ensures !IntBody(t)
  {
    if IntBody(t) { BodyIsGroups(t); }
  }

  lemma MantissaIsRead(t: string, m: real)
    requires IsMantissa(t, m)
    ensures ParseMantissa(t) == Some(m) && IsMantissaText(t)
  {
    if n: nat :| t != "" && Writes(t, n) && n as real == m {
      WrittenValue(t, n);
    } else {
      var a, b, x: nat, y: nat :| t == a + ("." + b) && Writes(a, x) && Writes(b, y) && (a != "" || b != "")
                                  && IsFraction(m, x, y, |Bare(b)|);
      FractionOf(a, b, x, y, m);
      assert t[|a|] == '.';
      DotIsNoBody(t);
      FractionText(t, a, b);
    }
  }

  lemma {:induction false} MarkAt(t: string, mark: char, rest: string)
    requires forall i | 0 <= i < |t| :: t[i] != 'e' && t[i] != 'E'
    requires mark == 'e' || mark == 'E'
    ensures FirstMark(t + ([mark] + rest)) == |t|
  {
    if t == "" {
      assert t + ([mark] + rest) == [mark] + rest;
    } else {
      assert (t + ([mark] + rest))[1..] == t[1..] + ([mark] + rest);
      assert forall i | 0 <= i < |t| - 1 :: t[1..][i] == t[i + 1];
      MarkAt(t[1..], mark, rest);
    }
  }

  lemma ScaledIs(v: real, m: real, minus: bool, z: nat)
    requires IsScaled(v, m, minus, z)
    ensures Scaled(m, if minus then 0 - z as int else z as int) == v
  {
    TenPowers(z);
    if minus && z > 0 { Undone(v, m, TenTo(z)); }
  }

  lemma Undone(v: real, m: real, p: real)
    requires p > 0.0 && v * p == m
    ensures m / p == v
  {}

  lemma RealOf(t: string, k: nat, m: real, e: int)
    requires FirstMark(t) == k < |t| && ParseMantissa(t[..k]) == Some(m) && ParseInt(t[k + 1..]) == Some(e)
    ensures ParseReal(t) == Some(Scaled(m, e))
  {}

  /** Numbers with an exponent: a mantissa, its mark, and a whole number with or without a sign. */
  lemma ScientificIsRead(text: string, sign: string, mantissa: string, mark: char, exponent: string, plus: string,
                         c: string, z: nat, m: real, v: real)
    requires IsSigned(text, sign, mantissa + ([mark] + exponent)) && IsMantissa(mantissa, m)
    requires (mark == 'e' || mark == 'E') && IsSigned(exponent, plus, c) && c != "" && Writes(c, z)
    requires IsScaled(v, m, plus == "-", z)
    ensures ParseLiteral(text) == Float(if sign == "-" then -v else v)
  {
    var t := mantissa + ([mark] + exponent);
    MantissaIsRead(mantissa, m);
    SignedInteger(exponent, plus, c, z);
    SignedEnds(exponent, plus, c);
    WrittenValue(c, z);
    ScaledIs(v, m, plus == "-", z);
    ScientificReal(t, mantissa, mark, exponent, m, if plus == "-" then 0 - z as int else z as int);
    ScientificEnds(t, mantissa, mark, exponent);
    SignedFraction(text, sign, t, |mantissa|, v);
  }

  lemma ScientificReal(t: string, mantissa: string, mark: char, exponent: string, m: real, e: int)
    requires t == mantissa + ([mark] + exponent) && (mark == 'e' || mark == 'E') && IsMantissaText(mantissa)
    requires ParseMantissa(mantissa) == Some(m) && ParseInt(exponent) == Some(e)
    ensures ParseReal(t) == Some(Scaled(m, e))
  {
    MarkAt(mantissa, mark, exponent);
    assert t[..|mantissa|] == mantissa && t[|mantissa| + 1..] == exponent;
    RealOf(t, |mantissa|, m, e);
  }

  lemma ScientificEnds(t: string, mantissa: string, mark: char, exponent: string)
    requires t == mantissa + ([mark] + exponent) && mantissa != "" && exponent != ""
    ensures |mantissa| < |t| && t[|mantissa|] == mark && t[0] == mantissa[0]
    ensures t[|t| - 1] == exponent[|exponent| - 1]
  {}

  predicate IsFractionText(s: string, a: string, b: string) {
    s == a + ("." + b) && (a == "" || IsDigitGroups(a)) && (b == "" || IsDigitGroups(b)) && (a != "" || b != "")
  }

  /** A fraction, or a mantissa and an exponent, behind a sign or without one. */
  ghost predicate IsDecimal(text: string) {
    exists sign, s :: IsSigned(text, sign, s) && ((exists a, b :: IsFractionText(s, a, b)) || IsScientific(s))
  }

  ghost predicate IsScientific(s: string) {
    exists mantissa, mark, exponent :: IsScientificText(s, mantissa, mark, exponent)
  }

  ghost predicate IsScientificText(s: string, mantissa: string, mark: char, exponent: string) {
    s == mantissa + ([mark] + exponent) && (mark == 'e' || mark == 'E') && IsInteger(exponent)
    && (IsDigitGroups(mantissa) || exists a, b :: IsFractionText(mantissa, a, b))
  }

  lemma {:induction false} FirstDotSplits(s: string)
    ensures '.' !in s[..FirstDot(s)] && (FirstDot(s) < |s| ==> s[FirstDot(s)] == '.')
  {
    if s != "" && s[0] != '.' {
      FirstDotSplits(s[1..]);
      assert s[..FirstDot(s)] == [s[0]] + s[1..][..FirstDot(s[1..])];
    }
  }

  lemma FractionForm(s: string)
    requires ParseFraction(s).Some?
    ensures exists a, b :: IsFractionText(s, a, b)
  {
    var k := FirstDot(s);
    FirstDotSplits(s);
    var a, b := s[..k], s[k + 1..];
    assert s == s[..k] + ([s[k]] + s[k + 1..]);
    if a != "" { BodyIsGroups(a); }
    if b != "" { BodyIsGroups(b); }
    assert IsFractionText(s, a, b);
  }

  lemma {:induction false} MarkSplits(s: string)
    ensures FirstMark(s) < |s| ==> s[FirstMark(s)] == 'e' || s[FirstMark(s)] == 'E'
  {
    if s != "" && s[0] != 'e' && s[0] != 'E' { MarkSplits(s[1..]); }
  }

  lemma RealForm(s: string)
    requires ParseReal(s).Some?
    ensures (exists a, b :: IsFractionText(s, a, b)) || IsScientific(s)
  {
    var k := FirstMark(s);
    if k == |s| {
      FractionForm(s);
    } else {
      MarkSplits(s);
      ScientificForm(s, s[..k], s[k], s[k + 1..]);
    }
  }

  lemma ScientificForm(s: string, mantissa: string, mark: char, exponent: string)
    requires |s| == |mantissa| + 1 + |exponent| && s[..|mantissa|] == mantissa && s[|mantissa|] == mark
    requires s[|mantissa| + 1..] == exponent && (mark == 'e' || mark == 'E')
    requires ParseMantissa(mantissa).Some? && ParseInt(exponent).Some?
    ensures IsScientific(s)
  {
    assert s == mantissa + ([mark] + exponent);
    SignedBody(exponent);
    if IntBody(mantissa) { BodyIsGroups(mantissa); } else { FractionForm(mantissa); }
    assert IsScientificText(s, mantissa, mark, exponent);
  }

  lemma DecimalForm(text: string)
    requires ParseDecimal(text).Some?
    ensures IsDecimal(text)
  {
    var sign := if text != "" && (text[0] == '-' || text[0] == '+') then [text[0]] else "";
    var s := text[|sign|..];
    RealForm(s);
    assert IsSigned(text, sign, s);
  }

  // ---- words ------------------------------------------------------------------------------------

  /** The word in small letters, capitals, or any mixture. */
  predicate IsSpelt(text: string, small: string, capital: string)
    requires |small| == |capital|
  {
    |text| == |small| && forall i | 0 <= i < |text| :: text[i] == small[i] || text[i] == capital[i]
  }

  lemma {:induction false} LowerIff(text: string, small: string, capital: string)
    requires |small| == |capital|
    requires forall i | 0 <= i < |small| :: 'a' <= small[i] <= 'z' && capital[i] == small[i] - 'a' + 'A'
    ensures Lower(text) == small <==> IsSpelt(text, small, capital)
  {
    if text != "" && small != "" {
      LowerIff(text[1..], small[1..], capital[1..]);
      assert Lower(text)[1..] == Lower(text[1..]);
      assert small == [small[0]] + small[1..];
      if IsSpelt(text[1..], small[1..], capital[1..]) && (text[0] == small[0] || text[0] == capital[0]) {
        assert forall i | 0 < i < |text| :: text[i] == text[1..][i - 1] && small[i] == small[1..][i - 1]
                                            && capital[i] == capital[1..][i - 1];
      }
      if IsSpelt(text, small, capital) {
        assert forall i | 0 <= i < |text| - 1 :: text[1..][i] == text[i + 1] && small[1..][i] == small[i + 1]
                                                 && capital[1..][i] == capital[i + 1];
      }
    }
  }

  predicate IsKeyword(text: string) {
    IsSpelt(text, "true", "TRUE") || IsSpelt(text, "false", "FALSE")
    || IsSpelt(text, "null", "NULL") || IsSpelt(text, "none", "NONE")
  }

  predicate IsQuoted(text: string) {
    text != "" && ((text[0] == '"' && text[|text| - 1] == '"') || (text[0] == '\'' && text[|text| - 1] == '\''))
  }

  lemma Lowered(text: string)
    ensures Lower(text) == "true" <==> IsSpelt(text, "true", "TRUE")
    ensures Lower(text) == "false" <==> IsSpelt(text, "false", "FALSE")
    ensures Lower(text) == "null" <==> IsSpelt(text, "null", "NULL")
    ensures Lower(text) == "none" <==> IsSpelt(text, "none", "NONE")
  {
    LowerIff(text, "true", "TRUE");
    LowerIff(text, "false", "FALSE");
    LowerIff(text, "null", "NULL");
    LowerIff(text, "none", "NONE");
  }

  /** Text in quotes of either kind is what stands between them; a lone quote is no text. */
  lemma QuotedIsRead(quote: char, s: string)
    requires quote == '"' || quote == '\''
    ensures ParseLiteral([quote] + (s + [quote])) == Str(s)
    ensures ParseLiteral([quote]) == Str("")
  {
    var t := [quote] + (s + [quote]);
    SolidIsKept(t);
    SolidIsKept([quote]);
    assert t[1..|t| - 1] == s;
  }

  /** The keywords are read in small letters, capitals and any mixture, and nothing else gives their values. */
  lemma KeywordsIff(text: string)
    requires IsSolid(text)
    ensures ParseLiteral(text) == Bool(true) <==> IsSpelt(text, "true", "TRUE")
    ensures ParseLiteral(text) == Bool(false) <==> IsSpelt(text, "false", "FALSE")
    ensures ParseLiteral(text) == Null <==> IsSpelt(text, "null", "NULL") || IsSpelt(text, "none", "NONE")
  {
    SolidIsKept(text);
    Lowered(text);
  }

  /** The words float() knows: what they stand for is no real number. */
  predicate IsNonFinite(text: string) {
    IsSpelt(text, "inf", "INF") || IsSpelt(text, "infinity", "INFINITY") || IsSpelt(text, "nan", "NAN")
  }

  predicate IsPlainText(text: string) {
    (forall i | 0 <= i < |text| :: text[i] < '\U{80}')
    && !IsNonFinite(text) && (text != "" && (text[0] == '+' || text[0] == '-') ==> !IsNonFinite(text[1..]))
  }

  /** Integers and decimals are read from numerals only, and whatever ASCII text is no numeral, keyword or quotation
      is taken as it stands. */
  lemma OtherText(text: string)
    requires IsSolid(text) && IsPlainText(text)
    ensures ParseLiteral(text).Int? ==> IsInteger(text)
    ensures ParseLiteral(text).Float? ==> IsDecimal(text)
    ensures !IsQuoted(text) && !IsKeyword(text) && !IsInteger(text) && !IsDecimal(text) ==>
              ParseLiteral(text) == Str(text)
  {
    SolidIsKept(text);
    Lowered(text);
    if ParseInt(text).Some? { SignedBody(text); }
    if ParseDecimal(text).Some? { DecimalForm(text); }
  }

  // ---- the order of values ---------------------------------------------------------------------------

  /** v counts as the number x; true counts as one and false as none. */
  ghost predicate CountsAs(v: Json, x: real) {
    v == Float(x) || (v == Bool(true) && x == 1.0) || (v == Bool(false) && x == 0.0)
    || exists n: int :: v == Int(n) && n as real == x
  }

  lemma NumbersCompare(a: Json, b: Json, x: real, y: real)
    requires CountsAs(a, x) && CountsAs(b, y)
    ensures Compare(Eq, a, b) <==> x == y
    ensures Compare(Ne, a, b) <==> x != y
    ensures Compare(Gt, a, b) <==> x > y
    ensures Compare(Ge, a, b) <==> x >= y
    ensures Compare(Lt, a, b) <==> x < y
    ensures Compare(Le, a, b) <==> x <= y
  {}

  /** a comes before b in the dictionary: the first difference is in its favour, or it ends there. */
  ghost predicate ComesBefore(a: string, b: string) {
    exists k: nat :: k <= |a| && k < |b| && a[..k] == b[..k] && (k == |a| || a[k] < b[k])
  }

  lemma {:induction false} StringLessIff(a: string, b: string)
    ensures StringLess(a, b) <==> ComesBefore(a, b)
  {
    if a == "" || b == "" || a[0] != b[0] {
      if StringLess(a, b) { assert a[..0] == b[..0]; }
      if ComesBefore(a, b) {
        var k: nat :| k <= |a| && k < |b| && a[..k] == b[..k] && (k == |a| || a[k] < b[k]);
        assert k > 0 ==> a[..k][0] == b[..k][0];
      }
    } else {
      StringLessIff(a[1..], b[1..]);
      if ComesBefore(a[1..], b[1..]) {
        var k: nat :| k <= |a[1..]| && k < |b[1..]| && a[1..][..k] == b[1..][..k]
                     && (k == |a[1..]| || a[1..][k] < b[1..][k]);
        assert a[..k + 1] == [a[0]] + a[1..][..k] && b[..k + 1] == [b[0]] + b[1..][..k];
        assert ComesBefore(a, b);
      }
      if ComesBefore(a, b) {
        var k: nat :| k <= |a| && k < |b| && a[..k] == b[..k] && (k == |a| || a[k] < b[k]);
        assert k > 0;
        assert a[1..][..k - 1] == a[..k][1..] && b[1..][..k - 1] == b[..k][1..];
        assert ComesBefore(a[1..], b[1..]);
      }
    }
  }

  lemma StringsCompare(a: string, b: string)
    ensures Compare(Eq, Str(a), Str(b)) <==> a == b
    ensures Compare(Ne, Str(a), Str(b)) <==> a != b
    ensures Compare(Lt, Str(a), Str(b)) <==> ComesBefore(a, b)
    ensures Compare(Gt, Str(a), Str(b)) <==> ComesBefore(b, a)
    ensures Compare(Le, Str(a), Str(b)) <==> a == b || ComesBefore(a, b)
    ensures Compare(Ge, Str(a), Str(b)) <==> a == b || ComesBefore(b, a)
  {
    StringLessIff(a, b);
    StringLessIff(b, a);
    StringTrichotomy(a, b);
  }

  predicate IsNumber(v: Json) { v.Int? || v.Float? || v.Bool? }

  /** Values of other kinds, or of different ones, are equal only if they are the same, and never ordered. */
  lemma OthersCompare(a: Json, b: Json)
    requires !(IsNumber(a) && IsNumber(b)) && !(a.Str? && b.Str?)
    ensures Compare(Eq, a, b) <==> a == b
    ensures Compare(Ne, a, b) <==> a != b
    ensures !Compare(Lt, a, b) && !Compare(Gt, a, b) && !Compare(Le, a, b) && !Compare(Ge, a, b)
  {}

  // ---- whole comparisons --------------------------------------------------------------------------------

  /** The path of these keys leads to v, which is null if the last of them is missing. */
  ghost predicate Holds(outputs: Json, keys: seq<string>, v: Json) {
    IsPath(JoinDots(keys)) && Spells(JoinDots(keys), keys)
    && (LeadTo(outputs, keys, v) || (LeadNowhere(outputs, keys) && v == Null))
  }

  function Comparison(path: string, before: string, op: Op, behind: string, literal: string): string {
    path + (before + (OpText(op) + (behind + literal)))
  }

  lemma ComparisonIsClause(path: string, before: string, op: Op, behind: string, literal: string)
    requires IsPath(path) && IsBlank(before) && IsBlank(behind)
    requires OneLine(literal) && IsSolid(literal) && !IsLonger(op, behind, literal)
    ensures var t := Comparison(path, before, op, behind, literal);
            IsClause(t, path, op, literal) && t != "" && IsSolid(t)
            && (StartsWith(t, "outputs.") ==> StartsWith(path, "outputs."))
  {
    var t, rest := Comparison(path, before, op, behind, literal), before + (OpText(op) + (behind + literal));
    assert rest[0] == if before == "" then OpText(op)[0] else before[0];
    assert t[0] == path[0] && t[|t| - 1] == literal[|literal| - 1];
    PrefixWithin(path, rest);
  }

  lemma VerdictOf(t: string, path: string, op: Op, literal: string, outputs: Json)
    requires t != "" && IsSolid(t) && IsClause(t, path, op, literal)
    ensures Evaluate("outputs." + t, outputs) == Compare(op, Walk(outputs, SplitDots(path)), ParseLiteral(literal))
    ensures !StartsWith(t, "outputs.") ==>
              Evaluate(t, outputs) == Compare(op, Walk(outputs, SplitDots(path)), ParseLiteral(literal))
  {
    ClauseOf(t, path, op, literal);
    PrefixedSolid(t);
    StripSolid(t);
    ParsedVerdict("outputs." + t, path, op, literal, outputs);
    if !StartsWith(t, "outputs.") { ParsedVerdict(t, path, op, literal, outputs); }
  }

  lemma PrefixedSolid(t: string)
    requires t != "" && IsSolid(t)
    ensures Strip("outputs." + t) == "outputs." + t && DropPrefix("outputs." + t) == t
  {
    var prefixed := "outputs." + t;
    assert prefixed[0] == 'o' && prefixed[|prefixed| - 1] == t[|t| - 1] && prefixed[8..] == t;
    StripSolid(prefixed);
  }

  lemma ParsedVerdict(condition: string, path: string, op: Op, literal: string, outputs: Json)
    requires condition != "" && Strip(condition) == condition
    requires ParseClause(DropPrefix(condition)) == Some(Clause(path, op, literal))
    ensures Evaluate(condition, outputs) == Compare(op, Walk(outputs, SplitDots(path)), ParseLiteral(literal))
  {}

  /** A comparison of a path with any literal compares the value that the keys lead to with the value that the
      literal stands for. */
  lemma ComparisonVerdict(keys: seq<string>, before: string, op: Op, behind: string, literal: string, outputs: Json,
                          v: Json)
    requires Holds(outputs, keys, v) && IsBlank(before) && IsBlank(behind)
    requires OneLine(literal) && IsSolid(literal) && !IsLonger(op, behind, literal)
    ensures var t := Comparison(JoinDots(keys), before, op, behind, literal);
            (Evaluate("outputs." + t, outputs) == Compare(op, v, ParseLiteral(literal)))
            && (!StartsWith(JoinDots(keys), "outputs.") ==>
                  Evaluate(t, outputs) == Compare(op, v, ParseLiteral(literal)))
  {
    NestedValue(keys, outputs, v);
    ComparisonIsClause(JoinDots(keys), before, op, behind, literal);
    VerdictOf(Comparison(JoinDots(keys), before, op, behind, literal), JoinDots(keys), op, literal, outputs);
  }

  predicate IsOperator(symbol: string) {
    symbol == "==" || symbol == "!=" || symbol == ">" || symbol == ">=" || symbol == "<" || symbol == "<="
  }

  /** x stands in the relation to y that the symbol denotes. */
  predicate Relates(symbol: string, x: real, y: real) {
    (symbol == "==" && x == y) || (symbol == "!=" && x != y) || (symbol == ">" && x > y) || (symbol == ">=" && x >= y)
    || (symbol == "<" && x < y) || (symbol == "<=" && x <= y)
  }

  lemma OperatorOf(symbol: string, a: Json, b: Json, x: real, y: real) returns (op: Op)
    requires IsOperator(symbol) && CountsAs(a, x) && CountsAs(b, y)
    ensures OpText(op) == symbol && (Compare(op, a, b) <==> Relates(symbol, x, y))
  {
    NumbersCompare(a, b, x, y);
    op := if symbol == "==" then Eq else if symbol == "!=" then Ne else if symbol == ">" then Gt
          else if symbol == ">=" then Ge else if symbol == "<" then Lt else Le;
  }

  /** With a number on either side the six operators are the six relations of numbers. */
  lemma NumberVerdict(keys: seq<string>, before: string, symbol: string, behind: string, literal: string, outputs: Json,
                      v: Json, x: real, y: real)
    requires Holds(outputs, keys, v) && CountsAs(v, x) && IsBlank(before) && IsBlank(behind) && IsOperator(symbol)
    requires OneLine(literal) && IsSolid(literal) && literal[0] != '=' && CountsAs(ParseLiteral(literal), y)
    ensures Evaluate("outputs." + (JoinDots(keys) + (before + (symbol + (behind + literal)))), outputs)
            <==> Relates(symbol, x, y)
  {
    var op := OperatorOf(symbol, v, ParseLiteral(literal), x, y);
    ComparisonVerdict(keys, before, op, behind, literal, outputs, v);
  }

  /** So with decimal fractions: `outputs.score > 0.8` asks whether the score exceeds eight tenths. */
  lemma DecimalVerdict(keys: seq<string>, before: string, symbol: string, behind: string, sign: string, a: string,
                       b: string, x: nat, y: nat, m: real, outputs: Json, v: Json, n: real)
    requires Holds(outputs, keys, v) && CountsAs(v, n) && IsBlank(before) && IsBlank(behind) && IsOperator(symbol)
    requires sign == "" || sign == "+" || sign == "-"
    requires Writes(a, x) && Writes(b, y) && (a != "" || b != "") && IsFraction(m, x, y, |Bare(b)|)
    ensures var literal := sign + (a + ("." + b));
            Evaluate("outputs." + (JoinDots(keys) + (before + (symbol + (behind + literal)))), outputs)
            <==> Relates(symbol, n, if sign == "-" then -m else m)
  {
    var literal := sign + (a + ("." + b));
    DecimalIsRead(literal, sign, a, b, x, y, m);
    DecimalIsSolid(sign, a, b);
    NumberVerdict(keys, before, symbol, behind, literal, outputs, v, n, if sign == "-" then -m else m);
  }

  lemma DecimalIsSolid(sign: string, a: string, b: string)
    requires sign == "" || sign == "+" || sign == "-"
    requires (a == "" || IsDigitGroups(a)) && (b == "" || IsDigitGroups(b)) && (a != "" || b != "")
    ensures var literal := sign + (a + ("." + b));
            OneLine(literal) && IsSolid(literal) && literal[0] != '='
  {
    var literal := sign + (a + ("." + b));
    assert literal[0] == if sign != "" then sign[0] else if a != "" then a[0] else '.';
    assert literal[|literal| - 1] == if b != "" then b[|b| - 1] else '.';
  }
}
