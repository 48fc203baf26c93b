/** Token accounting of a streamed response, services/cache/app/router.py: every chunk is passed on while
    a bounded tail of the bytes is kept, and the usage is read from that tail when the stream ends. */
module StreamTail {
  import opened Basics

  type Text = seq<nat>  // code points

  const LIMIT := 8192
  const KEPT := 4096

  // ---- the tail -------------------------------------------------------------------

  function Flatten(chunks: seq<seq<Byte>>): seq<Byte> {
    if chunks == [] then [] else Flatten(chunks[..|chunks| - 1]) + chunks[|chunks| - 1]
  }

  function Extend(tail: seq<Byte>, chunk: seq<Byte>): seq<Byte> {
    var longer := tail + chunk;
    if |longer| > LIMIT then longer[|longer| - KEPT..] else longer
  }

  function TailOf(chunks: seq<seq<Byte>>): seq<Byte> {
    if chunks == [] then [] else Extend(TailOf(chunks[..|chunks| - 1]), chunks[|chunks| - 1])
  }

  predicate IsSuffix(t: seq<Byte>, s: seq<Byte>) { |t| <= |s| && s[|s| - |t|..] == t }

  lemma SuffixOfSuffix(t: seq<Byte>, s: seq<Byte>, chunk: seq<Byte>, from: nat)
    requires IsSuffix(t, s) && from <= |t + chunk|
    ensures IsSuffix((t + chunk)[from..], s + chunk)
  {
    assert s == s[..|s| - |t|] + t;
    assert s + chunk == s[..|s| - |t|] + (t + chunk);
  }

  /** However the stream is cut into chunks, the tail is a suffix of it: all of it up to the first LIMIT
      bytes, never fewer than KEPT bytes of a longer one, never more than LIMIT. */
  lemma {:induction false} TailBounds(chunks: seq<seq<Byte>>)
    ensures IsSuffix(TailOf(chunks), Flatten(chunks))
    ensures |TailOf(chunks)| <= LIMIT
    ensures |TailOf(chunks)| >= if |Flatten(chunks)| < KEPT then |Flatten(chunks)| else KEPT
    ensures |Flatten(chunks)| <= LIMIT ==> TailOf(chunks) == Flatten(chunks)
  {
    if chunks != [] {
      var n := |chunks| - 1;
      TailBounds(chunks[..n]);
      var longer := TailOf(chunks[..n]) + chunks[n];
      var from := if |longer| > LIMIT then |longer| - KEPT else 0;
      SuffixOfSuffix(TailOf(chunks[..n]), Flatten(chunks[..n]), chunks[n], from);
      assert longer[0..] == longer;
    }
  }

  // ---- bytes.decode("utf-8", errors="ignore") --------------------------------------------

  function At(b: seq<Byte>, i: nat): Byte { if i < |b| then b[i] else 0 }

  predicate Continues(x: Byte) { 0x80 <= x < 0xC0 }

  /** The second byte a three- or four-byte sequence may have after its first. */
  predicate SecondFits(first: Byte, second: Byte) {
    Continues(second)
    && (first == 0xE0 ==> second >= 0xA0) && (first == 0xED ==> second < 0xA0)
    && (first == 0xF0 ==> second >= 0x90) && (first == 0xF4 ==> second < 0x90)
  }

  /** The length of the well-formed sequence at the front, 0 if there is none. */
  function SequenceLength(b: seq<Byte>): (k: nat)
    requires b != []
    ensures k <= |b| && k <= 4
  {
    var first := b[0];
    if first < 0x80 then 1
    else if 0xC2 <= first < 0xE0 && Continues(At(b, 1)) then 2
    else if 0xE0 <= first < 0xF0 && SecondFits(first, At(b, 1)) && Continues(At(b, 2)) then 3
    else if 0xF0 <= first < 0xF5 && SecondFits(first, At(b, 1)) && Continues(At(b, 2)) && Continues(At(b, 3)) then 4
    else 0
  }

  /** The bits of a well-formed sequence without the marks of its bytes. */
  function CodePoint(b: seq<Byte>): nat
    requires b != [] && SequenceLength(b) > 0
  {
    var k, first := SequenceLength(b), b[0] as int;
    if k == 1 then first
    else if k == 2 then (first - 0xC0) * 64 + (b[1] - 0x80)
    else if k == 3 then ((first - 0xE0) * 64 + (b[1] - 0x80)) * 64 + (b[2] - 0x80)
    else (((first - 0xF0) * 64 + (b[1] - 0x80)) * 64 + (b[2] - 0x80)) * 64 + (b[3] - 0x80)
  }

  /** How many bytes the decoder takes at once. */
  function Advance(b: seq<Byte>): (k: nat)
    requires b != []
    ensures 0 < k <= |b|
  {
    if SequenceLength(b) == 0 then 1 else SequenceLength(b)
  }

  /** What it makes of them. */
  function First(b: seq<Byte>): Text
    requires b != []
  {
    if SequenceLength(b) == 0 then [] else [CodePoint(b)]
  }

  /** What is not part of a well-formed sequence is dropped. Dropping byte by byte is enough: the other bytes
      of a broken sequence are continuation bytes, and none of them starts a sequence. */
  function Decode(b: seq<Byte>): Text {
    if b == [] then [] else First(b) + Decode(b[Advance(b)..])
  }

  /** a, unless empty, ends in the byte c. */
  predicate EndsIn(a: seq<Byte>, c: Byte) { a == [] || a[|a| - 1] == c }

  lemma SequenceWithin(a: seq<Byte>, b: seq<Byte>)
    requires a != [] && a[|a| - 1] < 0x80
    ensures SequenceLength(a + b) == SequenceLength(a)
    ensures SequenceLength(a) == |a| ==> |a| == 1
  {
    var s := a + b;
    assert forall i: nat :: i < |a| ==> At(s, i) == At(a, i);
    assert !Continues(a[|a| - 1]);
  }

  lemma FirstWithin(a: seq<Byte>, b: seq<Byte>)
    requires a != [] && SequenceLength(a + b) == SequenceLength(a)
    ensures First(a + b) == First(a) && Advance(a + b) == Advance(a)
  {
    assert SequenceLength(a) > 0 ==> CodePoint(a + b) == CodePoint(a);
  }

  lemma DecodeUnfold(b: seq<Byte>, k: nat, rest: seq<Byte>)
    requires b != [] && k == Advance(b) && rest == b[k..]
    ensures Decode(b) == First(b) + Decode(rest)
  {}

  lemma Glue(first: Text, rest: Text, d: Text, all: Text, some: Text)
    requires all == first + (rest + d) && some == first + rest
    ensures all == some + d
  {}

  lemma SliceOfSum(a: seq<Byte>, b: seq<Byte>, k: nat)
    requires k <= |a|
    ensures (a + b)[k..] == a[k..] + b
  {}

  /** What is taken at once is the same with b behind, and the rest may be cut: then so may the whole. */
  lemma DecodeStep(a: seq<Byte>, b: seq<Byte>, rest: seq<Byte>)
    requires a != [] && SequenceLength(a + b) == SequenceLength(a) && rest == a[Advance(a)..]
    requires Decode(rest + b) == Decode(rest) + Decode(b)
    ensures Decode(a + b) == Decode(a) + Decode(b)
  {
    FirstWithin(a, b);
    SliceOfSum(a, b, Advance(a));
    DecodeUnfold(a + b, Advance(a), rest + b);
    DecodeUnfold(a, Advance(a), rest);
    Glue(First(a), Decode(rest), Decode(b), Decode(a + b), Decode(a));
  }

  lemma DecodeNothing(a: seq<Byte>, b: seq<Byte>)
    requires a == []
    ensures Decode(a + b) == Decode(a) + Decode(b)
  {
    assert a + b == b;
    assert Decode(a) == [];
    assert [] + Decode(b) == Decode(b);
  }

  /** It is decoded to itself. */
  lemma {:induction false} EndIsDecoded(a: seq<Byte>, c: Byte)
    requires a != [] && a[|a| - 1] == c && c < 0x80
    ensures Decode(a) != [] && Decode(a)[|Decode(a)| - 1] == c
    decreases |a|
  {
    SequenceWithin(a, []);
    assert a + [] == a;
    if Advance(a) == |a| {
      assert Decode(a[|a|..]) == [];
    } else {
      EndIsDecoded(a[Advance(a)..], c);
    }
  }

  /** An ASCII byte ends whatever came before it: decoding may be cut behind it. */
  lemma {:induction false} DecodeBehind(a: seq<Byte>, b: seq<Byte>, c: Byte)
    requires EndsIn(a, c) && c < 0x80
    ensures Decode(a + b) == Decode(a) + Decode(b)
    decreases |a|
  {
    if a == [] {
      DecodeNothing(a, b);
    } else {
      var rest := a[Advance(a)..];
      SequenceWithin(a, b);
      DecodeBehind(rest, b, c);
      DecodeStep(a, b, rest);
    }
  }

  lemma SequenceBefore(a: seq<Byte>, b: seq<Byte>)
    requires a != [] && (b == [] || !Continues(b[0]))
    ensures SequenceLength(a + b) == SequenceLength(a)
  {
    var s := a + b;
    assert forall i: nat :: i < |a| ==> At(s, i) == At(a, i);
    assert !Continues(At(s, |a|)) && !Continues(At(a, |a|));
  }

  /** A byte that continues nothing starts anew: decoding may be cut before it. */
  lemma {:induction false} DecodeBefore(a: seq<Byte>, b: seq<Byte>)
    requires b == [] || !Continues(b[0])
    ensures Decode(a + b) == Decode(a) + Decode(b)
    decreases |a|
  {
    if a == [] {
      DecodeNothing(a, b);
    } else {
      var rest := a[Advance(a)..];
      SequenceBefore(a, b);
      DecodeBefore(rest, b);
      DecodeStep(a, b, rest);
    }
  }

  /** No character straddles the cut between a and b. */
  predicate IsSafeCut(a: seq<Byte>, b: seq<Byte>) {
    b == [] || !Continues(b[0]) || a == [] || a[|a| - 1] < 0x80
  }

  lemma DecodeCut(a: seq<Byte>, b: seq<Byte>)
    requires IsSafeCut(a, b)
    ensures Decode(a + b) == Decode(a) + Decode(b)
  {
    if b == [] || !Continues(b[0]) {
      DecodeBefore(a, b);
    } else if a == [] {
      assert a + b == b;
    } else {
      DecodeBehind(a, b, a[|a| - 1]);
    }
  }

  lemma SequenceContinues(a: seq<Byte>, i: nat)
    requires a != [] && 0 < i < SequenceLength(a)
    ensures Continues(a[i])
  {
    assert At(a, i) == a[i];
  }

  lemma {:induction false} ContinuationsDropped(a: seq<Byte>, k: nat)
    requires k <= |a| && forall i :: 0 <= i < k ==> Continues(a[i])
    ensures Decode(a) == Decode(a[k..])
  {
    if k == 0 {
      assert a[0..] == a;
    } else {
      assert SequenceLength(a) == 0;
      ContinuationsDropped(a[1..], k - 1);
      assert a[1..][k - 1..] == a[k..];
    }
  }

  predicate IsTail(t: Text, s: Text) { |t| <= |s| && s[|s| - |t|..] == t }

  /** A cut within a character loses that character. */
  lemma CutWithin(a: seq<Byte>, i: nat)
    requires a != [] && 0 < i < Advance(a)
    ensures Decode(a[i..]) == Decode(a[Advance(a)..])
  {
    var step := Advance(a);
    forall j | 0 <= j < step - i ensures Continues(a[i..][j]) { SequenceContinues(a, i + j); }
    ContinuationsDropped(a[i..], step - i);
    assert a[i..][step - i..] == a[step..];
  }

  lemma TailOfSum(t: Text, a: Text, b: Text)
    requires IsTail(t, b)
    ensures IsTail(t, a + b)
  {}

  /** Wherever bytes are cut off in front, what is left decodes to the end of the text. */
  lemma {:induction false} SuffixDecode(a: seq<Byte>, i: nat)
    requires i <= |a|
    ensures IsTail(Decode(a[i..]), Decode(a))
    decreases |a|
  {
    if i == 0 {
      assert a[0..] == a;
    } else {
      var step := Advance(a);
      if i < step {
        CutWithin(a, i);
      } else {
        SuffixDecode(a[step..], i - step);
        assert a[step..][i - step..] == a[i..];
      }
      TailOfSum(Decode(a[i..]), First(a), Decode(a[step..]));
    }
  }

  predicate IsScalar(c: nat) { c < 0x11_0000 && !(0xD800 <= c < 0xE000) }

  /** The UTF-8 form of a code point. */
  function EncodeChar(c: nat): (b: seq<Byte>)
    requires IsScalar(c)
    ensures b != []
  {
    if c < 0x80 then [c]
    else if c < 0x800 then [0xC0 + c / 64, 0x80 + c % 64]
    else if c < 0x1_0000 then [0xE0 + c / 4096, 0x80 + c / 64 % 64, 0x80 + c % 64]
    else [0xF0 + c / 0x4_0000, 0x80 + c / 4096 % 64, 0x80 + c / 64 % 64, 0x80 + c % 64]
  }

  function Encode(text: Text): seq<Byte>
    requires forall c :: c in text ==> IsScalar(c)
  {
    if text == [] then [] else EncodeChar(text[0]) + Encode(text[1..])
  }

  lemma TwoBytes(a: Byte, b: Byte, rest: seq<Byte>)
    requires 0xC2 <= a < 0xE0 && Continues(b)
    ensures SequenceLength([a, b] + rest) == 2
  {
    assert At([a, b] + rest, 1) == b;
  }

  lemma ThreeBytes(a: Byte, b: Byte, c: Byte, rest: seq<Byte>)
    requires 0xE0 <= a < 0xF0 && SecondFits(a, b) && Continues(c)
    ensures SequenceLength([a, b, c] + rest) == 3
  {
    assert At([a, b, c] + rest, 1) == b && At([a, b, c] + rest, 2) == c;
  }

  lemma FourBytes(a: Byte, b: Byte, c: Byte, d: Byte, rest: seq<Byte>)
    requires 0xF0 <= a < 0xF5 && SecondFits(a, b) && Continues(c) && Continues(d)
    ensures SequenceLength([a, b, c, d] + rest) == 4
  {
    assert At([a, b, c, d] + rest, 1) == b && At([a, b, c, d] + rest, 2) == c && At([a, b, c, d] + rest, 3) == d;
  }

  lemma CharLength(c: nat, rest: seq<Byte>)
    requires IsScalar(c)
    ensures SequenceLength(EncodeChar(c) + rest) == |EncodeChar(c)|
  {
    if c < 0x80 {
    } else if c < 0x800 {
      TwoBytes(0xC0 + c / 64, 0x80 + c % 64, rest);
    } else if c < 0x1_0000 {
      ThreeBytes(0xE0 + c / 4096, 0x80 + c / 64 % 64, 0x80 + c % 64, rest);
    } else {
      FourBytes(0xF0 + c / 0x4_0000, 0x80 + c / 4096 % 64, 0x80 + c / 64 % 64, 0x80 + c % 64, rest);
    }
  }

  /** Six bits at a time. */
  lemma Sextets(c: nat)
    ensures c == c / 64 * 64 + c % 64
    ensures c / 64 == c / 4096 * 64 + c / 64 % 64
    ensures c / 4096 == c / 0x4_0000 * 64 + c / 4096 % 64
  {
    assert c / 64 / 64 == c / 4096 && c / 4096 / 64 == c / 0x4_0000;
  }

  lemma CharValue(c: nat, rest: seq<Byte>)
    requires IsScalar(c)
    ensures First(EncodeChar(c) + rest) == [c]
  {
    CharLength(c, rest);
    Sextets(c);
  }

  /** Well-formed text is decoded without loss. */
  lemma {:induction false} DecodeRoundTrip(text: Text)
    requires forall c :: c in text ==> IsScalar(c)
    ensures Decode(Encode(text)) == text
  {
    if text != [] {
      var b, rest := EncodeChar(text[0]), Encode(text[1..]);
      CharLength(text[0], rest);
      CharValue(text[0], rest);
      DecodeRoundTrip(text[1..]);
      assert (b + rest)[|b|..] == rest;
    }
  }

  // ---- str.splitlines -------------------------------------------------------------------------

  predicate IsLineBreak(c: nat) {
    0x0A <= c <= 0x0D || 0x1C <= c <= 0x1E || c == 0x85 || c == 0x2028 || c == 0x2029
  }

  /** The first line break at or behind position i, or the end. */
  function BreakFrom(text: Text, i: nat): (e: nat)
    requires i <= |text|
    ensures i <= e <= |text|
    ensures e < |text| ==> IsLineBreak(text[e])
    ensures forall j :: i <= j < e ==> !IsLineBreak(text[j])
    decreases |text| - i
  {
    if i == |text| || IsLineBreak(text[i]) then i else BreakFrom(text, i + 1)
  }

  function LineEnd(text: Text): (e: nat)
    ensures e <= |text|
  {
    BreakFrom(text, 0)
  }

  /** A carriage return and the line feed behind it are one break. */
  function BreakLength(text: Text, e: nat): (k: nat)
    requires e < |text|
    ensures 1 <= k <= |text| - e
  {
    if text[e] == 0x0D && e + 1 < |text| && text[e + 1] == 0x0A then 2 else 1
  }

  function SplitLines(text: Text): seq<Text>
    decreases |text|
  {
    var e := LineEnd(text);
    if text == [] then []
    else if e == |text| then [text]
    else [text[..e]] + SplitLines(text[e + BreakLength(text, e)..])
  }

  lemma {:induction false} BreakWithin(a: Text, b: Text, i: nat)
    requires i <= |a| && BreakFrom(a, i) < |a|
    ensures BreakFrom(a + b, i) == BreakFrom(a, i)
    decreases |a| - i
  {
    if i < |a| && !IsLineBreak(a[i]) { BreakWithin(a, b, i + 1); }
  }

  /** The first line, and where the next one starts. */
  lemma FirstLine(text: Text, e: nat, k: nat)
    requires e == LineEnd(text) < |text| && k == e + BreakLength(text, e)
    ensures SplitLines(text) == [text[..e]] + SplitLines(text[k..])
  {}

  /** A line starts where a ends and b begins. */
  predicate IsLineStart(a: Text, b: Text) {
    a == [] || (IsLineBreak(a[|a| - 1]) && !(a[|a| - 1] == 0x0D && b != [] && b[0] == 0x0A))
  }

  lemma SameBreakLength(a: Text, b: Text, e: nat)
    requires e < |a| && IsLineStart(a, b)
    ensures BreakLength(a + b, e) == BreakLength(a, e)
  {}

  lemma Slices(a: Text, b: Text, e: nat, k: nat)
    requires e <= |a| && k <= |a|
    ensures (a + b)[..e] == a[..e] && (a + b)[k..] == a[k..] + b
  {}

  lemma EndsBeforeLast(a: Text)
    requires a != [] && IsLineBreak(a[|a| - 1])
    ensures LineEnd(a) < |a|
  {}

  lemma FirstLineBehind(a: Text, b: Text) returns (e: nat, k: nat)
    requires a != [] && IsLineStart(a, b)
    ensures e < k <= |a|
    ensures SplitLines(a) == [a[..e]] + SplitLines(a[k..])
    ensures SplitLines(a + b) == [a[..e]] + SplitLines(a[k..] + b)
  {
    EndsBeforeLast(a);
    e := LineEnd(a);
    k := e + BreakLength(a, e);
    FirstLine(a, e, k);
    BreakWithin(a, b, 0);
    SameBreakLength(a, b, e);
    FirstLine(a + b, e, k);
    Slices(a, b, e, k);
  }

  lemma Regroup(line: Text, x: seq<Text>, y: seq<Text>)
    ensures [line] + (x + y) == [line] + x + y
  {}

  /** At the start of a line splitting may be cut, whatever character broke the line before. */
  lemma {:induction false} SplitBehind(a: Text, b: Text)
    requires IsLineStart(a, b)
    ensures SplitLines(a + b) == SplitLines(a) + SplitLines(b)
    decreases |a|
  {
    if a == [] {
      assert a + b == b;
    } else {
      var e, k := FirstLineBehind(a, b);
      var rest := a[k..];
      SplitBehind(rest, b);
      Regroup(a[..e], SplitLines(rest), SplitLines(b));
    }
  }

  predicate IsLine(line: Text) { forall i :: 0 <= i < |line| ==> !IsLineBreak(line[i]) }

  function JoinLines(lines: seq<Text>): Text {
    if lines == [] then [] else lines[0] + [0x0A] + JoinLines(lines[1..])
  }

  lemma OneLine(line: Text)
    requires IsLine(line)
    ensures SplitLines(line + [0x0A]) == [line]
  {
    var text := line + [0x0A];
    assert LineEnd(text) == |line| by {
      assert text[|line|] == 0x0A;
      assert forall i :: 0 <= i < |line| ==> text[i] == line[i];
    }
    FirstLine(text, |line|, |line| + 1);
    assert text[..|line|] == line && text[|line| + 1..] == [];
  }

  /** Lines that are joined with newlines are split into the same lines. */
  lemma {:induction false} LinesRoundTrip(lines: seq<Text>)
    requires forall l :: l in lines ==> IsLine(l)
    ensures SplitLines(JoinLines(lines)) == lines
  {
    if lines != [] {
      LinesRoundTrip(lines[1..]);
      OneLine(lines[0]);
      SplitBehind(lines[0] + [0x0A], JoinLines(lines[1..]));
      assert lines == [lines[0]] + lines[1..];
    }
  }

  // ---- the usage ----------------------------------------------------------------------------------

  const PREFIX: Text := [0x64, 0x61, 0x74, 0x61, 0x3A, 0x20]  // "data: "

  /** Prompt and completion tokens. */
  type Usage = (int, int)

  const NONE: Usage := (0, 0)

  /** What one line reports. `read` stands for the rest of the line being stripped and taken as JSON; blank
      lines, [DONE], malformed JSON and missing usage all read as NONE. */
  function LineUsage(line: Text, read: Text -> Usage): Usage {
    if PREFIX <= line then read(line[6..]) else NONE
  }

  /** The last line that reports anything. */
  function LastUsage(lines: seq<Text>, read: Text -> Usage): Usage {
    if lines == [] then NONE
    else
      var last := LineUsage(lines[|lines| - 1], read);
      if last != NONE then last else LastUsage(lines[..|lines| - 1], read)
  }

  /** _parse_sse_usage_openai */
  function Parse(b: seq<Byte>, read: Text -> Usage): Usage {
    LastUsage(SplitLines(Decode(b)), read)
  }

  lemma {:induction false} LastUsageBehind(a: seq<Text>, b: seq<Text>, read: Text -> Usage)
    ensures LastUsage(a + b, read) == if LastUsage(b, read) != NONE then LastUsage(b, read) else LastUsage(a, read)
  {
    if b == [] {
      assert a + b == a;
    } else {
      var n := |b| - 1;
      assert (a + b)[..|a + b| - 1] == a + b[..n];
      LastUsageBehind(a, b[..n], read);
    }
  }

  method ParseUsage(b: seq<Byte>, read: Text -> Usage) returns (usage: Usage)
    ensures usage == Parse(b, read)
  {
    var lines := SplitLines(Decode(b));
    var i := |lines|;
    assert lines[..i] == lines;
    while i > 0
      invariant 0 <= i <= |lines|
      invariant LastUsage(lines, read) == LastUsage(lines[..i], read)
    {
      i := i - 1;
      assert lines[..i + 1][..i] == lines[..i];
      if PREFIX <= lines[i] {
        usage := read(lines[i][6..]);
        if usage != NONE {
          return;
        }
      }
    }
    usage := NONE;
  }

  /** _tracked_stream: everything is passed on, and the usage is that of the tail. */
  method TrackedStream(chunks: seq<seq<Byte>>, read: Text -> Usage) returns (passed: seq<seq<Byte>>, usage: Usage)
    ensures passed == chunks
    ensures usage == Parse(TailOf(chunks), read)
  {
    var tail := [];
    passed := [];
    var i := 0;
    while i < |chunks|
      invariant 0 <= i <= |chunks|
      invariant passed == chunks[..i]
      invariant tail == TailOf(chunks[..i])
    {
      passed := passed + [chunks[i]];
      tail := tail + chunks[i];
      if |tail| > LIMIT {
        tail := tail[|tail| - KEPT..];
      }
      i := i + 1;
      assert chunks[..i][..i - 1] == chunks[..i - 1];
    }
    assert chunks[..i] == chunks;
    usage := ParseUsage(tail, read);
  }

  // ---- the tail stands for the stream -----------------------------------------------------------------

  /** b begins a line behind a. */
  predicate StartsLine(a: seq<Byte>, b: seq<Byte>) {
    IsSafeCut(a, b) && IsLineStart(Decode(a), Decode(b))
  }

  /** Lines from a line start on are read the same whatever precedes them. */
  lemma ParseBehind(a: seq<Byte>, b: seq<Byte>, read: Text -> Usage)
    requires StartsLine(a, b)
    ensures Parse(a + b, read) == if Parse(b, read) != NONE then Parse(b, read) else Parse(a, read)
  {
    DecodeCut(a, b);
    SplitBehind(Decode(a), Decode(b));
    LastUsageBehind(SplitLines(Decode(a)), SplitLines(Decode(b)), read);
  }

  /** A line start stays one when bytes are cut off in front. */
  lemma LineStartKept(a: seq<Byte>, b: seq<Byte>, i: nat)
    requires StartsLine(a, b) && i <= |a|
    ensures StartsLine(a[i..], b)
  {
    SuffixDecode(a, i);
    var h, whole := Decode(a[i..]), Decode(a);
    assert h != [] ==> h[|h| - 1] == whole[|whole| - 1];
  }

  lemma SuffixSplit(tail: seq<Byte>, a: seq<Byte>, b: seq<Byte>)
    requires IsSuffix(tail, a + b) && |b| <= |tail|
    ensures tail == a[|a| + |b| - |tail|..] + b
  {
    assert a + b == a[..|a| + |b| - |tail|] + (a[|a| + |b| - |tail|..] + b);
  }

  /** What is left of a in a tail of a + b when b lies wholly in it: whole lines, but for the first. */
  function Head(tail: seq<Byte>, a: seq<Byte>, b: seq<Byte>): seq<Byte>
    requires |b| <= |tail| <= |a| + |b|
  {
    a[|a| + |b| - |tail|..]
  }

  lemma HeadStarts(tail: seq<Byte>, a: seq<Byte>, b: seq<Byte>)
    requires |b| <= |tail| <= |a| + |b| && StartsLine(a, b)
    ensures StartsLine(Head(tail, a, b), b)
  {
    LineStartKept(a, b, |a| + |b| - |tail|);
  }

  lemma ParseTail(tail: seq<Byte>, a: seq<Byte>, b: seq<Byte>, read: Text -> Usage)
    requires IsSuffix(tail, a + b) && StartsLine(a, b) && |b| <= |tail|
    ensures Parse(tail, read) == if Parse(b, read) != NONE then Parse(b, read) else Parse(Head(tail, a, b), read)
  {
    var head := Head(tail, a, b);
    assert tail == head + b by { SuffixSplit(tail, a, b); }
    HeadStarts(tail, a, b);
    ParseBehind(head, b, read);
  }

  /** Cut the stream at the start of any line within the tail. The tail yields the usage of the stream exactly
      when the lines from there on report usage, or the lines before do so alike in the tail, where the first
      is broken, and in the stream. */
  lemma TailAgreesIff(chunks: seq<seq<Byte>>, a: seq<Byte>, b: seq<Byte>, read: Text -> Usage)
    requires Flatten(chunks) == a + b && StartsLine(a, b) && |b| <= |TailOf(chunks)|
    ensures |TailOf(chunks)| <= |a| + |b|
    ensures Parse(TailOf(chunks), read) == Parse(Flatten(chunks), read)
            <==> Parse(b, read) != NONE || Parse(Head(TailOf(chunks), a, b), read) == Parse(a, read)
    ensures Parse(b, read) != NONE ==> Parse(TailOf(chunks), read) == Parse(b, read)
  {
    TailBounds(chunks);
    ParseTail(TailOf(chunks), a, b, read);
    ParseBehind(a, b, read);
  }

  /** When the last lines of a stream, from some line start on, report usage and fit the bytes kept, then
      the tail yields the usage of the whole stream, for every chunking. */
  lemma TailUsageIsStreamUsage(chunks: seq<seq<Byte>>, a: seq<Byte>, b: seq<Byte>, read: Text -> Usage)
    requires Flatten(chunks) == a + b
    requires StartsLine(a, b) && Parse(b, read) != NONE
    requires |b| <= |TailOf(chunks)| || |b| <= KEPT
    ensures Parse(TailOf(chunks), read) == Parse(Flatten(chunks), read) == Parse(b, read)
  {
    TailBounds(chunks);
    TailAgreesIff(chunks, a, b, read);
    ParseBehind(a, b, read);
  }

  /** A stream that never exceeds the limit is accounted for exactly. */
  lemma ShortStreamUsage(chunks: seq<seq<Byte>>, read: Text -> Usage)
    requires |Flatten(chunks)| <= LIMIT
    ensures Parse(TailOf(chunks), read) == Parse(Flatten(chunks), read)
  {
    TailBounds(chunks);
  }

  // ---- and where it does not ------------------------------------------------------------------------------

  /** The bytes hold no line break. */
  predicate IsUnbroken(line: seq<Byte>) { IsLine(Decode(line)) }

  /** Nothing, or a line break and what is behind it. */
  predicate EndsLine(c: seq<Byte>) {
    c == [] || (!Continues(c[0]) && Decode(c) != [] && IsLineBreak(Decode(c)[0]))
  }

  lemma OneOfLines(line: Text, read: Text -> Usage)
    ensures LastUsage([line], read) == LineUsage(line, read)
  {
    assert [line][..0] == [];
    assert LastUsage([], read) == NONE;
  }

  lemma EndAtBreak(t: Text, d: Text)
    requires IsLine(t) && d != [] && IsLineBreak(d[0])
    ensures LineEnd(t + d) == |t| && BreakLength(t + d, |t|) == BreakLength(d, 0)
  {
    var text := t + d;
    assert text[|t|] == d[0] && (|d| > 1 ==> text[|t| + 1] == d[1]);
    assert forall i :: 0 <= i < |t| ==> text[i] == t[i];
  }

  lemma SplitAtBreak(t: Text, d: Text)
    requires IsLine(t) && d != [] && IsLineBreak(d[0])
    ensures SplitLines(t + d) == [t] + SplitLines(d[BreakLength(d, 0)..])
  {
    var k := BreakLength(d, 0);
    EndAtBreak(t, d);
    FirstLine(t + d, |t|, |t| + k);
    assert (t + d)[..|t|] == t && (t + d)[|t| + k..] == d[k..];
  }

  lemma LineThen(t: Text, d: Text, read: Text -> Usage)
    requires IsLine(t) && (d == [] || IsLineBreak(d[0])) && LastUsage(SplitLines(d), read) == NONE
    ensures LastUsage(SplitLines(t + d), read) == LineUsage(t, read)
  {
    OneOfLines(t, read);
    if d == [] {
      assert t + d == t && LineEnd(t) == |t|;
    } else {
      var rest := SplitLines(d[BreakLength(d, 0)..]);
      SplitAtBreak(t, d);
      SplitAtBreak([], d);
      assert [] + d == d;
      LastUsageBehind([t], rest, read);
      LastUsageBehind([[]], rest, read);
    }
  }

  /** An unbroken line, with lines behind it that report nothing, reports what it reports. */
  lemma ParseLine(line: seq<Byte>, c: seq<Byte>, read: Text -> Usage)
    requires IsUnbroken(line) && EndsLine(c) && Parse(c, read) == NONE
    ensures Parse(line + c, read) == LineUsage(Decode(line), read)
  {
    DecodeBefore(line, c);
    LineThen(Decode(line), Decode(c), read);
  }

  lemma CutIsUnbroken(line: seq<Byte>, i: nat)
    requires IsUnbroken(line) && i <= |line|
    ensures IsUnbroken(line[i..])
  {
    SuffixDecode(line, i);
    var t, whole := Decode(line[i..]), Decode(line);
    assert forall j :: 0 <= j < |t| ==> t[j] == whole[|whole| - |t| + j];
  }

  lemma TailWithin(tail: seq<Byte>, a: seq<Byte>, line: seq<Byte>, c: seq<Byte>)
    requires IsSuffix(tail, a + (line + c)) && |c| <= |tail| <= |line| + |c|
    ensures tail == line[|line| + |c| - |tail|..] + c
  {
    var i := |line| + |c| - |tail|;
    assert a + (line + c) == (a + line[..i]) + (line[i..] + c);
  }

  lemma ParseBrokenLine(tail: seq<Byte>, a: seq<Byte>, line: seq<Byte>, c: seq<Byte>, read: Text -> Usage)
    requires IsSuffix(tail, a + (line + c)) && |c| <= |tail| <= |line| + |c|
    requires IsUnbroken(line) && EndsLine(c) && Parse(c, read) == NONE
    ensures Parse(tail, read) == LineUsage(Decode(line[|line| + |c| - |tail|..]), read)
  {
    var i := |line| + |c| - |tail|;
    assert tail == line[i..] + c by { TailWithin(tail, a, line, c); }
    assert IsUnbroken(line[i..]) by { CutIsUnbroken(line, i); }
    ParseLine(line[i..], c, read);
  }

  lemma ParseWholeLine(a: seq<Byte>, line: seq<Byte>, c: seq<Byte>, read: Text -> Usage)
    requires StartsLine(a, line + c) && IsUnbroken(line) && EndsLine(c) && Parse(c, read) == NONE
    ensures Parse(a + (line + c), read)
            == if LineUsage(Decode(line), read) != NONE then LineUsage(Decode(line), read) else Parse(a, read)
  {
    assert Parse(line + c, read) == LineUsage(Decode(line), read) by { ParseLine(line, c, read); }
    ParseBehind(a, line + c, read);
  }

  /** The tail begins within a line of the stream, and the lines behind that report nothing. */
  predicate CutsLine(chunks: seq<seq<Byte>>, a: seq<Byte>, line: seq<Byte>, c: seq<Byte>, read: Text -> Usage) {
    Flatten(chunks) == a + (line + c) && StartsLine(a, line + c)
    && IsUnbroken(line) && EndsLine(c) && Parse(c, read) == NONE
    && |c| <= |TailOf(chunks)| <= |line| + |c|
  }

  /** What is left of that line. */
  function Broken(chunks: seq<seq<Byte>>, line: seq<Byte>, c: seq<Byte>): Text
    requires |c| <= |TailOf(chunks)| <= |line| + |c|
  {
    Decode(line[|line| + |c| - |TailOf(chunks)|..])
  }

  /** Then the tail gives what is left of the line, read as a line of its own, where the stream gives the line, or
      if that reports nothing, the lines before it. */
  lemma LineCutByTail(chunks: seq<seq<Byte>>, a: seq<Byte>, line: seq<Byte>, c: seq<Byte>, read: Text -> Usage)
    requires CutsLine(chunks, a, line, c, read)
    ensures Parse(TailOf(chunks), read) == LineUsage(Broken(chunks, line, c), read)
    ensures Parse(Flatten(chunks), read)
            == if LineUsage(Decode(line), read) != NONE then LineUsage(Decode(line), read) else Parse(a, read)
  {
    assert IsSuffix(TailOf(chunks), a + (line + c)) by { TailBounds(chunks); }
    ParseBrokenLine(TailOf(chunks), a, line, c, read);
    ParseWholeLine(a, line, c, read);
  }

  /** So a usage line that is longer than what is kept of it is missed, whatever its JSON, the lines before it and
      the chunks, unless it holds the prefix just where the tail begins. */
  lemma LongUsageLineIsMissed(chunks: seq<seq<Byte>>, a: seq<Byte>, line: seq<Byte>, c: seq<Byte>,
                              read: Text -> Usage)
    requires CutsLine(chunks, a, line, c, read) && LineUsage(Decode(line), read) != NONE
    requires !(PREFIX <= Broken(chunks, line, c))
    ensures Parse(TailOf(chunks), read) == NONE
    ensures Parse(Flatten(chunks), read) == LineUsage(Decode(line), read)
  {
    LineCutByTail(chunks, a, line, c, read);
  }

  lemma MentionIsRead(line: Text, rest: Text, read: Text -> Usage)
    requires line == PREFIX + rest
    ensures LineUsage(line, read) == read(rest)
  {
    assert line[6..] == rest;
  }

  /** And within a line that itself reports nothing, a mention of usage that begins just where the tail does is
      taken for a usage line, where the stream has what the lines before report. */
  lemma MentionedUsageIsCounted(chunks: seq<seq<Byte>>, a: seq<Byte>, line: seq<Byte>, c: seq<Byte>, rest: Text,
                                read: Text -> Usage)
    requires CutsLine(chunks, a, line, c, read) && LineUsage(Decode(line), read) == NONE
    requires Broken(chunks, line, c) == PREFIX + rest && read(rest) != NONE
    ensures Parse(TailOf(chunks), read) == read(rest) && Parse(Flatten(chunks), read) == Parse(a, read)
  {
    LineCutByTail(chunks, a, line, c, read);
    MentionIsRead(Broken(chunks, line, c), rest, read);
  }
}
