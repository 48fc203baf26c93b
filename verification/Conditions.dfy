/** The edge-condition language of the workflow DAG (services/workflow-worker/app/dag.py). */
module Conditions {
  import opened Json

  datatype Op = Eq | Ne | Gt | Ge | Lt | Le

  predicate IsSpace(c: char) {
    c == ' ' || '\t' <= c <= '\r' || '\U{1c}' <= c <= '\U{1f}' || c == '\U{85}' || c == '\U{a0}' ||
    c == '\U{1680}' || '\U{2000}' <= c <= '\U{200a}' || c == '\U{2028}' || c == '\U{2029}' ||
    c == '\U{202f}' || c == '\U{205f}' || c == '\U{3000}'
  }

  predicate IsDigit(c: char) { '0' <= c <= '9' }

  /** The characters of a path: the ASCII part of \w, and the dot. */
  predicate IsPathChar(c: char) {
    'a' <= c <= 'z' || 'A' <= c <= 'Z' || IsDigit(c) || c == '_' || c == '.'
  }

  function StripLeft(s: string): string {
    if s != "" && IsSpace(s[0]) then StripLeft(s[1..]) else s
  }

  function StripRight(s: string): string {
    if s != "" && IsSpace(s[|s| - 1]) then StripRight(s[..|s| - 1]) else s
  }

  function Strip(s: string): string { StripRight(StripLeft(s)) }

  /** str.split("."): always at least one part. */
  function SplitDots(path: string): (parts: seq<string>)
    ensures parts != []
  {
    if path == "" then [""]
    else
      var rest := SplitDots(path[1..]);
      if path[0] == '.' then [""] + rest else [[path[0]] + rest[0]] + rest[1..]
  }

  /** getattr where hasattr: what the interpreter finds under a name on a value that is no dictionary. Nothing
      is assumed about it. */
  const GETATTR: (Json, string) -> Option<Json>

  /** What walking `parts` from `obj` yields: keys of dictionaries, attributes of everything else. */
  function Walk(obj: Json, parts: seq<string>): Json
    decreases |parts|
  {
    if parts == [] then obj
    else if obj.Dict? then Walk(Get(obj.entries, parts[0]), parts[1..])
    else
      match GETATTR(obj, parts[0])
      case Some(v) => Walk(v, parts[1..])
      case None => Null
  }

  function PathLength(s: string): (k: nat)
    ensures k <= |s|
  {
    if s != "" && IsPathChar(s[0]) then 1 + PathLength(s[1..]) else 0
  }

  predicate StartsWith(s: string, prefix: string) { prefix <= s }

  predicate EndsWith(s: string, c: char) { s != "" && s[|s| - 1] == c }

  function Lower(s: string): string {
    if s == "" then ""
    else [if 'A' <= s[0] <= 'Z' then s[0] - 'A' + 'a' else s[0]] + Lower(s[1..])
  }

  // ---- numbers ----------------------------------------------------------

  /** Digits with single underscores between them, as int() reads them. */
  predicate IntBody(s: string) {
    s != "" && IsDigit(s[0]) &&
    (|s| == 1 || IntBody(s[1..]) || (|s| >= 3 && s[1] == '_' && IntBody(s[2..])))
  }

  function IntValue(s: string): int {
    if s == "" then 0
    else if IsDigit(s[|s| - 1]) then IntValue(s[..|s| - 1]) * 10 + (s[|s| - 1] - '0') as int
    else IntValue(s[..|s| - 1])
  }

  function ParseInt(s: string): Option<int> {
    if s != "" && s[0] == '-' && IntBody(s[1..]) then Some(-IntValue(s[1..]))
    else if s != "" && s[0] == '+' && IntBody(s[1..]) then Some(IntValue(s[1..]))
    else if IntBody(s) then Some(IntValue(s))
    else None
  }

  function DigitCount(s: string): nat {
    if s == "" then 0 else DigitCount(s[..|s| - 1]) + if IsDigit(s[|s| - 1]) then 1 else 0
  }

  function TenTo(k: nat): real { if k == 0 then 1.0 else 10.0 * TenTo(k - 1) }

  lemma TenToPositive(k: nat)
    ensures TenTo(k) > 0.0
  {}

  /** Where the first dot stands, |s| if there is none. */
  function FirstDot(s: string): (k: nat)
    ensures k <= |s|
  {
    if s == "" || s[0] == '.' then 0 else 1 + FirstDot(s[1..])
  }

  predicate DigitPart(s: string) { s == "" || IntBody(s) }

  /** Unsigned decimal fractions: digits, a dot, digits, with a digit on at least one side. */
  function ParseFraction(s: string): Option<real> {
    var k := FirstDot(s);
    if k < |s| && DigitPart(s[..k]) && DigitPart(s[k + 1..]) && |s| >= 2 then Some(FractionValue(s[..k], s[k + 1..]))
    else None
  }

  /** The number with these digits before the dot and those behind it. */
  function FractionValue(whole: string, places: string): real {
    TenToPositive(DigitCount(places));
    IntValue(whole) as real + IntValue(places) as real / TenTo(DigitCount(places))
  }

  /** Where the exponent is marked, |s| if there is none. */
  function FirstMark(s: string): (k: nat)
    ensures k <= |s|
  {
    if s == "" || s[0] == 'e' || s[0] == 'E' then 0 else 1 + FirstMark(s[1..])
  }

  /** m times ten to the power of e. */
  function Scaled(m: real, e: int): real {
    if e >= 0 then m * TenTo(e)
    else
      TenToPositive(-e);
      m / TenTo(-e)
  }

  function ParseMantissa(s: string): Option<real> {
    if IntBody(s) then Some(IntValue(s) as real) else ParseFraction(s)
  }

  /** Unsigned numbers as float() reads them, but for whole numbers, which int() has taken before. */
  function ParseReal(s: string): Option<real> {
    var k := FirstMark(s);
    if k == |s| then ParseFraction(s)
    else
      match (ParseMantissa(s[..k]), ParseInt(s[k + 1..]))
      case (Some(m), Some(e)) => Some(Scaled(m, e))
      case _ => None
  }

  function ParseDecimal(s: string): Option<real> {
    if s != "" && s[0] == '-' then
      match ParseReal(s[1..]) case Some(r) => Some(-r) case None => None
    else if s != "" && s[0] == '+' then ParseReal(s[1..])
    else ParseReal(s)
  }

  /** _parse_literal: the tests in the order the source makes them. */
  function ParseLiteral(text: string): Json {
    var raw := Strip(text);
    if StartsWith(raw, "\"") && EndsWith(raw, '"') then Str(Inner(raw))
    else if StartsWith(raw, "'") && EndsWith(raw, '\'') then Str(Inner(raw))
    else if Lower(raw) == "true" then Bool(true)
    else if Lower(raw) == "false" then Bool(false)
    else if Lower(raw) == "null" || Lower(raw) == "none" then Null
    else match ParseInt(raw)
         case Some(n) => Int(n)
         case None =>
           match ParseDecimal(raw)
           case Some(r) => Float(r)
           case None => Str(raw)
  }

  /** raw[1:-1], which is empty for a lone quote. */
  function Inner(raw: string): string {
    if |raw| < 2 then "" else raw[1..|raw| - 1]
  }

  // ---- comparison -------------------------------------------------------

  /** Python's numeric value: booleans count as 0 and 1. */
  function Number(v: Json): Option<real> {
    match v
    case Bool(b) => Some(if b then 1.0 else 0.0)
    case Int(n) => Some(n as real)
    case Float(r) => Some(r)
    case _ => None
  }

  predicate StringLess(a: string, b: string) {
    b != "" && (a == "" || a[0] < b[0] || (a[0] == b[0] && StringLess(a[1..], b[1..])))
  }

  predicate Equal(a: Json, b: Json) {
    match (Number(a), Number(b))
    case (Some(x), Some(y)) => x == y
    case _ => a == b
  }

  /** a < b where Python orders the two; None where it raises TypeError. */
  function Less(a: Json, b: Json): Option<bool> {
    match (Number(a), Number(b))
    case (Some(x), Some(y)) => Some(x < y)
    case _ => if a.Str? && b.Str? then Some(StringLess(a.s, b.s)) else None
  }

  /** The verdict of `actual op literal`; an ordering of unordered types is false. */
  predicate Compare(op: Op, actual: Json, literal: Json) {
    match op
    case Eq => Equal(actual, literal)
    case Ne => !Equal(actual, literal)
    case Gt => Less(literal, actual) == Some(true)
    case Lt => Less(actual, literal) == Some(true)
    case Ge => Less(actual, literal) == Some(false)
    case Le => Less(literal, actual) == Some(false)
  }

  // ---- the condition itself ---------------------------------------------

  datatype Clause = Clause(path: string, op: Op, literal: string)

  predicate OneLine(s: string) { s != "" && '\n' !in s }

  /** The operator at the head of `s` together with the literal text behind it. */
  function ParseTail(s: string): Option<(Op, string)> {
    var lit := if |s| >= 2 then StripLeft(s[2..]) else "";
    var short := if |s| >= 1 then StripLeft(s[1..]) else "";
    if StartsWith(s, "==") && OneLine(lit) then Some((Eq, lit))
    else if StartsWith(s, "!=") && OneLine(lit) then Some((Ne, lit))
    else if StartsWith(s, ">=") && OneLine(lit) then Some((Ge, lit))
    else if StartsWith(s, "<=") && OneLine(lit) then Some((Le, lit))
    else if StartsWith(s, ">") && OneLine(short) then Some((Gt, short))
    else if StartsWith(s, "<") && OneLine(short) then Some((Lt, short))
    else None
  }

  /** The match of the condition pattern: path, operator, literal. */
  function ParseClause(cond: string): Option<Clause> {
    var k := PathLength(cond);
    if k == 0 then None
    else match ParseTail(StripLeft(cond[k..]))
         case Some((op, lit)) => Some(Clause(cond[..k], op, lit))
         case None => None
  }

  const OUTPUTS_PREFIX := "outputs."

  function DropPrefix(cond: string): string {
    if StartsWith(cond, OUTPUTS_PREFIX) then cond[|OUTPUTS_PREFIX|..] else cond
  }

  predicate EvaluateText(cond: string, outputs: Json) {
    match ParseClause(cond)
    case Some(clause) =>
      Compare(clause.op, Walk(outputs, SplitDots(clause.path)), ParseLiteral(clause.literal))
    case None => Truthy(Walk(outputs, SplitDots(cond)))
  }

  /** evaluate_condition: no text means an unconditional edge. */
  predicate Evaluate(condition: string, outputs: Json) {
    condition == "" || EvaluateText(DropPrefix(Strip(condition)), outputs)
  }
}
