/** How the tail of a stream is cut, decoded and read line by line, told in bytes and code points
    (services/cache/app/router.py). */
module StreamText {
  import opened Basics
  import opened StreamTail

  // ---- the cut ----------------------------------------------------------------------------

  /** A chunk that takes the tail past 8192 bytes leaves the last 4096; every other is kept whole. */
  lemma TailLength(chunks: seq<seq<Byte>>, chunk: seq<Byte>)
    ensures |TailOf([])| == 0
    ensures |TailOf(chunks + [chunk])|
            == if |TailOf(chunks)| + |chunk| > 8192 then 4096 else |TailOf(chunks)| + |chunk|
    ensures IsSuffix(TailOf(chunks + [chunk]), Flatten(chunks + [chunk]))
  {
    assert (chunks + [chunk])[..|chunks|] == chunks;
    TailBounds(chunks + [chunk]);
  }

  // ---- the text ------------------------------------------------------------------------------

  lemma TwoByteForm(a: int, b: int, c: nat)
    requires 0xC2 <= a < 0xE0 && 0x80 <= b < 0xC0 && c == (a - 0xC0) * 64 + (b - 0x80)
    ensures 0x80 <= c < 0x800 && c / 64 == a - 0xC0 && c % 64 == b - 0x80
  {}

  lemma ThreeByteForm(a: int, b: int, d: int, c: nat)
    requires 0xE0 <= a < 0xF0 && 0x80 <= b < 0xC0 && 0x80 <= d < 0xC0
    requires (a == 0xE0 ==> b >= 0xA0) && (a == 0xED ==> b < 0xA0)
    requires c == ((a - 0xE0) * 64 + (b - 0x80)) * 64 + (d - 0x80)
    ensures 0x800 <= c < 0x1_0000 && IsScalar(c)
    ensures c / 4096 == a - 0xE0 && c / 64 % 64 == b - 0x80 && c % 64 == d - 0x80
  {
    var high := (a - 0xE0) * 64 + (b - 0x80);
    assert c / 64 == high && c % 64 == d - 0x80;
    assert c / 4096 == high / 64;
  }

  lemma FourByteForm(a: int, b: int, d: int, e: int, c: nat)
    requires 0xF0 <= a < 0xF5 && 0x80 <= b < 0xC0 && 0x80 <= d < 0xC0 && 0x80 <= e < 0xC0
    requires (a == 0xF0 ==> b >= 0x90) && (a == 0xF4 ==> b < 0x90)
    requires c == (((a - 0xF0) * 64 + (b - 0x80)) * 64 + (d - 0x80)) * 64 + (e - 0x80)
    ensures 0x1_0000 <= c < 0x11_0000
    ensures c / 0x4_0000 == a - 0xF0 && c / 4096 % 64 == b - 0x80 && c / 64 % 64 == d - 0x80 && c % 64 == e - 0x80
  {
    var high := (a - 0xF0) * 64 + (b - 0x80);
    var middle := high * 64 + (d - 0x80);
    assert c / 64 == middle && c % 64 == e - 0x80;
    assert c / 4096 == middle / 64 == high && middle % 64 == d - 0x80;
    assert c / 0x4_0000 == high / 64;
  }

  lemma SequenceIsChar(b: seq<Byte>)
    requires b != [] && SequenceLength(b) > 0
    ensures IsScalar(CodePoint(b)) && EncodeChar(CodePoint(b)) == b[..SequenceLength(b)]
  {
    var k, c := SequenceLength(b), CodePoint(b);
    if k == 2 {
      TwoByteForm(b[0], b[1], c);
    } else if k == 3 {
      ThreeByteForm(b[0], b[1], b[2], c);
    } else if k == 4 {
      FourByteForm(b[0], b[1], b[2], b[3], c);
    }
  }

  /** The bytes begin with the UTF-8 form of that code point. */
  predicate BeginsWith(b: seq<Byte>, c: nat) { IsScalar(c) && EncodeChar(c) <= b }

  /** Where a character begins it is decoded, and goes on behind it. */
  lemma CharIsDecoded(b: seq<Byte>, c: nat)
    requires BeginsWith(b, c)
    ensures Decode(b) == [c] + Decode(b[|EncodeChar(c)|..])
  {
    var rest := b[|EncodeChar(c)|..];
    assert b == EncodeChar(c) + rest;
    CharLength(c, rest);
    CharValue(c, rest);
  }

  /** A byte at which none begins is dropped. */
  lemma OtherByteIsDropped(b: seq<Byte>)
    requires b != [] && forall c :: !BeginsWith(b, c)
    ensures Decode(b) == Decode(b[1..])
  {
    if SequenceLength(b) > 0 {
      SequenceIsChar(b);
      assert BeginsWith(b, CodePoint(b));
    }
  }

  /** One character of each length, from the examples of section 7 of RFC 3629. */
  lemma Utf8Examples()
    ensures EncodeChar(0x41) == [0x41] && EncodeChar(0x391) == [0xCE, 0x91]
    ensures EncodeChar(0x2262) == [0xE2, 0x89, 0xA2] && EncodeChar(0x2_33B4) == [0xF0, 0xA3, 0x8E, 0xB4]
  {}

  // ---- the lines ------------------------------------------------------------------------------

  /** The characters at which Python breaks lines. */
  const BREAKS: set<nat> := {0x0A, 0x0B, 0x0C, 0x0D, 0x1C, 0x1D, 0x1E, 0x85, 0x2028, 0x2029}

  predicate HoldsNoBreak(line: Text) { forall i | 0 <= i < |line| :: line[i] !in BREAKS }

  /** A line ends at each of them; a carriage return takes a line feed behind it along; and what stands behind the
      last break is a line unless it is empty. */
  lemma LineMeaning(line: Text, c: nat, rest: Text)
    requires HoldsNoBreak(line)
    ensures SplitLines(line) == if line == [] then [] else [line]
    ensures c in BREAKS && !(c == 0x0D && rest != [] && rest[0] == 0x0A) ==>
              SplitLines(line + ([c] + rest)) == [line] + SplitLines(rest)
    ensures SplitLines(line + ([0x0D, 0x0A] + rest)) == [line] + SplitLines(rest)
  {
    assert IsLine(line) && LineEnd(line) == |line|;
    if c in BREAKS && !(c == 0x0D && rest != [] && rest[0] == 0x0A) { BreakIsTaken(line, [c], rest); }
    BreakIsTaken(line, [0x0D, 0x0A], rest);
  }

  lemma BreakIsTaken(line: Text, taken: Text, rest: Text)
    requires IsLine(line) && taken != [] && IsLineBreak(taken[0]) && BreakLength(taken + rest, 0) == |taken|
    ensures SplitLines(line + (taken + rest)) == [line] + SplitLines(rest)
  {
    SplitAtBreak(line, taken + rest);
    assert (taken + rest)[|taken|..] == rest;
  }

  function Codes(s: string): Text { seq(|s|, i requires 0 <= i < |s| => s[i] as nat) }

  /** Lines that begin with `data: ` are read behind that, and no others are. */
  lemma DataLines(line: Text, rest: Text, read: Text -> Usage)
    ensures LineUsage(Codes("data: ") + rest, read) == read(rest)
    ensures (forall t :: line != Codes("data: ") + t) ==> LineUsage(line, read) == (0, 0)
  {
    assert Codes("data: ") == PREFIX;
    assert (PREFIX + rest)[6..] == rest;
    if PREFIX <= line { assert line == Codes("data: ") + line[6..]; }
  }

  /** The usage is that of the last line that reports any. */
  lemma LastReportCounts(before: seq<Text>, line: Text, behind: seq<Text>, read: Text -> Usage)
    requires forall i | 0 <= i < |behind| :: LineUsage(behind[i], read) == (0, 0)
    ensures LastUsage([], read) == (0, 0)
    ensures LineUsage(line, read) != (0, 0) ==> LastUsage(before + ([line] + behind), read) == LineUsage(line, read)
    ensures LineUsage(line, read) == (0, 0) ==> LastUsage(before + ([line] + behind), read) == LastUsage(before, read)
  {
    Silent(behind, read);
    OneOfLines(line, read);
    LastUsageBehind([line], behind, read);
    LastUsageBehind(before, [line] + behind, read);
  }

  lemma {:induction false} Silent(lines: seq<Text>, read: Text -> Usage)
    requires forall i | 0 <= i < |lines| :: LineUsage(lines[i], read) == (0, 0)
    ensures LastUsage(lines, read) == (0, 0)
  {
    if lines != [] { Silent(lines[..|lines| - 1], read); }
  }
}
