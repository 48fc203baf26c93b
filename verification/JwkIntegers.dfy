/** RSA key integers as JWK text: printed by services/admin/app/identity_signing.py, parsed by
    services/identity/app/main.py. Base64url is section 5 of RFC 4648 without padding; the integer form
    is Base64urlUInt of section 2 of RFC 7518. */
module JwkIntegers {
  import opened Basics
  import opened Json

  // ---- integers and octets ---------------------------------------------------

  function Power(base: nat, k: nat): nat { if k == 0 then 1 else base * Power(base, k - 1) }

  /** int.bit_length */
  function BitLength(n: nat): nat { if n == 0 then 0 else 1 + BitLength(n / 2) }

  function ByteLength(n: nat): nat { (BitLength(n) + 7) / 8 }

  function BigEndian(n: nat, length: nat): (b: seq<Byte>)
    ensures |b| == length
  {
    if length == 0 then [] else BigEndian(n / 256, length - 1) + [n % 256]
  }

  /** int.to_bytes(length, "big"): an overflow is an error. */
  function ToBytes(n: nat, length: nat): Option<seq<Byte>> {
    if n < Power(256, length) then Some(BigEndian(n, length)) else None
  }

  /** int.from_bytes(b, "big") */
  function FromBytes(b: seq<Byte>): nat {
    if b == [] then 0 else FromBytes(b[..|b| - 1]) * 256 + b[|b| - 1]
  }

  lemma {:induction false} BytesRoundTrip(n: nat, length: nat)
    requires n < Power(256, length)
    ensures FromBytes(BigEndian(n, length)) == n
  {
    if length > 0 {
      assert n / 256 < Power(256, length - 1);
      BytesRoundTrip(n / 256, length - 1);
      assert BigEndian(n, length)[..length - 1] == BigEndian(n / 256, length - 1);
    }
  }

  /** n has BitLength(n) bits: it lies below that power of two, and not below the one before. */
  lemma {:induction false} BitLengthBounds(n: nat)
    ensures n < Power(2, BitLength(n))
    ensures n > 0 ==> Power(2, BitLength(n) - 1) <= n
  {
    if n > 0 {
      BitLengthBounds(n / 2);
      if n / 2 > 0 {
        assert Power(2, BitLength(n) - 1) == 2 * Power(2, BitLength(n / 2) - 1);
      }
    }
  }

  lemma {:induction false} PowerOfBytes(k: nat)
    ensures Power(256, k) == Power(2, 8 * k)
  {
    if k > 0 {
      PowerOfBytes(k - 1);
      var j := 8 * (k - 1);
      assert Power(2, j + 2) == 4 * Power(2, j);
      assert Power(2, j + 4) == 4 * Power(2, j + 2);
      assert Power(2, j + 6) == 4 * Power(2, j + 4);
      assert Power(2, j + 8) == 4 * Power(2, j + 6);
    }
  }

  lemma {:induction false} PowerMonotone(a: nat, b: nat)
    requires a <= b
    ensures Power(2, a) <= Power(2, b)
    decreases b
  {
    if a < b { PowerMonotone(a, b - 1); }
  }

  /** ByteLength octets hold n, and no fewer do. */
  lemma ByteLengthIsMinimal(n: nat)
    ensures n < Power(256, ByteLength(n))
    ensures n > 0 ==> Power(256, ByteLength(n) - 1) <= n
  {
    BitLengthBounds(n);
    OctetsOfBits(BitLength(n), ByteLength(n));
  }

  lemma OctetsOfBits(bits: nat, octets: nat)
    requires octets == (bits + 7) / 8
    ensures Power(2, bits) <= Power(256, octets)
    ensures bits > 0 ==> octets > 0 && Power(256, octets - 1) <= Power(2, bits - 1)
  {
    PowerOfBytes(octets);
    PowerMonotone(bits, 8 * octets);
    if bits > 0 {
      PowerOfBytes(octets - 1);
      PowerMonotone(8 * (octets - 1), bits - 1);
    }
  }

  // ---- the base64url alphabet --------------------------------------------------

  type Sextet = x: int | 0 <= x < 64

  function CharOf(v: Sextet): char {
    if v < 26 then 'A' + v as char
    else if v < 52 then 'a' + (v - 26) as char
    else if v < 62 then '0' + (v - 52) as char
    else if v == 62 then '-'
    else '_'
  }

  function ValueOf(c: char): Option<Sextet> {
    if 'A' <= c <= 'Z' then Some((c - 'A') as int)
    else if 'a' <= c <= 'z' then Some((c - 'a') as int + 26)
    else if '0' <= c <= '9' then Some((c - '0') as int + 52)
    else if c == '-' then Some(62)
    else if c == '_' then Some(63)
    else None
  }

  lemma CharRoundTrip(v: Sextet)
    ensures ValueOf(CharOf(v)) == Some(v) && CharOf(v) != '='
  {}

  // ---- base64 with padding --------------------------------------------------------

  function First(a: Byte): Sextet { a / 4 }

  function Second(a: Byte, b: Byte): Sextet { a % 4 * 16 + b / 16 }

  function Third(b: Byte, c: Byte): Sextet { b % 16 * 4 + c / 64 }

  function Fourth(c: Byte): Sextet { c % 64 }

  /** Up to three octets as four characters. */
  function EncodeGroup(b: seq<Byte>): (s: string)
    requires 1 <= |b| <= 3
    ensures |s| == 4
  {
    if |b| == 1 then [CharOf(First(b[0])), CharOf(Second(b[0], 0)), '=', '=']
    else if |b| == 2 then [CharOf(First(b[0])), CharOf(Second(b[0], b[1])), CharOf(Third(b[1], 0)), '=']
    else [CharOf(First(b[0])), CharOf(Second(b[0], b[1])), CharOf(Third(b[1], b[2])), CharOf(Fourth(b[2]))]
  }

  /** urlsafe_b64encode */
  function Encode(b: seq<Byte>): string {
    if b == [] then ""
    else if |b| <= 3 then EncodeGroup(b)
    else EncodeGroup(b[..3]) + Encode(b[3..])
  }

  function ByteOne(v: Sextet, w: Sextet): Byte { v * 4 + w / 16 }

  function ByteTwo(v: Sextet, w: Sextet): Byte { v % 16 * 16 + w / 4 }

  function ByteThree(v: Sextet, w: Sextet): Byte { v % 4 * 64 + w }

  /** One group of four characters; `=` may only fill up the last group. */
  function DecodeGroup(s: string, last: bool): Option<seq<Byte>>
    requires |s| == 4
  {
    match (ValueOf(s[0]), ValueOf(s[1]), ValueOf(s[2]), ValueOf(s[3]))
    case (Some(v), Some(w), Some(x), Some(y)) => Some([ByteOne(v, w), ByteTwo(w, x), ByteThree(x, y)])
    case (Some(v), Some(w), Some(x), None) =>
      if last && s[3] == '=' then Some([ByteOne(v, w), ByteTwo(w, x)]) else None
    case (Some(v), Some(w), None, None) =>
      if last && s[2] == '=' && s[3] == '=' then Some([ByteOne(v, w)]) else None
    case _ => None
  }

  /** urlsafe_b64decode on text over the alphabet and `=`; anything malformed is an error. */
  function Decode(s: string): Option<seq<Byte>> {
    if s == "" then Some([])
    else if |s| < 4 then None
    else
      match (DecodeGroup(s[..4], |s| == 4), Decode(s[4..]))
      case (Some(head), Some(rest)) => Some(head + rest)
      case _ => None
  }

  lemma GroupRoundTrip(a: Byte, b: Byte, c: Byte)
    ensures ByteOne(First(a), Second(a, b)) == a
    ensures ByteTwo(Second(a, b), Third(b, c)) == b
    ensures ByteThree(Third(b, c), Fourth(c)) == c
  {}

  lemma FullGroup(s: string, last: bool, v: Sextet, w: Sextet, x: Sextet, y: Sextet)
    requires |s| == 4
    requires ValueOf(s[0]) == Some(v) && ValueOf(s[1]) == Some(w)
    requires ValueOf(s[2]) == Some(x) && ValueOf(s[3]) == Some(y)
    ensures DecodeGroup(s, last) == Some([ByteOne(v, w), ByteTwo(w, x), ByteThree(x, y)])
  {}

  lemma FilledGroup(s: string, v: Sextet, w: Sextet)
    requires |s| == 4 && ValueOf(s[0]) == Some(v) && ValueOf(s[1]) == Some(w) && s[3] == '='
    ensures s[2] == '=' ==> DecodeGroup(s, true) == Some([ByteOne(v, w)])
    ensures forall x :: ValueOf(s[2]) == Some(x) ==> DecodeGroup(s, true) == Some([ByteOne(v, w), ByteTwo(w, x)])
  {}

  lemma FullGroupDecodes(a: Byte, b: Byte, c: Byte, last: bool)
    ensures DecodeGroup(EncodeGroup([a, b, c]), last) == Some([a, b, c])
  {
    var v, w, x, y := First(a), Second(a, b), Third(b, c), Fourth(c);
    CharRoundTrip(v);
    CharRoundTrip(w);
    CharRoundTrip(x);
    CharRoundTrip(y);
    FullGroup([CharOf(v), CharOf(w), CharOf(x), CharOf(y)], last, v, w, x, y);
    GroupRoundTrip(a, b, c);
  }

  lemma FilledGroupDecodes(a: Byte, b: Byte)
    ensures DecodeGroup(EncodeGroup([a]), true) == Some([a])
    ensures DecodeGroup(EncodeGroup([a, b]), true) == Some([a, b])
  {
    CharRoundTrip(First(a));
    CharRoundTrip(Second(a, 0));
    CharRoundTrip(Second(a, b));
    CharRoundTrip(Third(b, 0));
    FilledGroup(EncodeGroup([a]), First(a), Second(a, 0));
    FilledGroup(EncodeGroup([a, b]), First(a), Second(a, b));
    GroupRoundTrip(a, 0, 0);
    GroupRoundTrip(a, b, 0);
  }

  lemma GroupDecodes(b: seq<Byte>, last: bool)
    requires 1 <= |b| <= 3
    requires last || |b| == 3
    ensures DecodeGroup(EncodeGroup(b), last) == Some(b)
  {
    if |b| == 1 {
      assert b == [b[0]];
      FilledGroupDecodes(b[0], 0);
    } else if |b| == 2 {
      assert b == [b[0], b[1]];
      FilledGroupDecodes(b[0], b[1]);
    } else {
      assert b == [b[0], b[1], b[2]];
      FullGroupDecodes(b[0], b[1], b[2], last);
    }
  }

  lemma DecodeLast(s: string, b: seq<Byte>)
    requires |s| == 4 && DecodeGroup(s, true) == Some(b)
    ensures Decode(s) == Some(b)
  {
    assert s[..4] == s && s[4..] == "";
    assert Decode("") == Some([]) && b + [] == b;
  }

  lemma DecodeMore(head: string, rest: string, b: seq<Byte>, c: seq<Byte>)
    requires |head| == 4 && rest != ""
    requires DecodeGroup(head, false) == Some(b) && Decode(rest) == Some(c)
    ensures Decode(head + rest) == Some(b + c)
  {
    assert (head + rest)[..4] == head && (head + rest)[4..] == rest;
  }

  lemma {:induction false} Base64RoundTrip(b: seq<Byte>)
    ensures Decode(Encode(b)) == Some(b)
    ensures b != [] ==> Encode(b) != ""
  {
    if b == [] {
    } else if |b| <= 3 {
      GroupDecodes(b, true);
      DecodeLast(EncodeGroup(b), b);
    } else {
      GroupDecodes(b[..3], false);
      Base64RoundTrip(b[3..]);
      DecodeMore(EncodeGroup(b[..3]), Encode(b[3..]), b[..3], b[3..]);
      assert b == b[..3] + b[3..];
    }
  }

  // ---- without padding ---------------------------------------------------------------

  /** rstrip("=") */
  function StripPadding(s: string): string {
    if s != "" && s[|s| - 1] == '=' then StripPadding(s[..|s| - 1]) else s
  }

  function Repeat(c: char, k: nat): string { seq(k, _ => c) }

  /** s + "=" * (-len(s) % 4) */
  function AddPadding(s: string): string { s + Repeat('=', -|s| % 4) }

  /** Stripping reaches only as far as the last character that is not a fill character. */
  lemma {:induction false} StripBehind(s: string, t: string)
    requires StripPadding(t) != ""
    ensures StripPadding(s + t) == s + StripPadding(t)
  {
    if t[|t| - 1] == '=' {
      assert (s + t)[..|s + t| - 1] == s + t[..|t| - 1];
      StripBehind(s, t[..|t| - 1]);
    }
  }

  /** The last group loses its fill characters and nothing else, and the length tells how many. */
  lemma GroupPadding(b: seq<Byte>)
    requires 1 <= |b| <= 3
    ensures StripPadding(EncodeGroup(b)) == EncodeGroup(b)[..|b| + 1]
    ensures AddPadding(EncodeGroup(b)[..|b| + 1]) == EncodeGroup(b)
  {
    var s := EncodeGroup(b);
    if |b| == 1 {
      CharRoundTrip(Second(b[0], 0));
      assert s[..3][..2] == s[..2] && StripPadding(s[..3]) == s[..2];
    } else if |b| == 2 {
      CharRoundTrip(Third(b[1], 0));
      assert StripPadding(s[..3]) == s[..3];
    } else {
      CharRoundTrip(Fourth(b[2]));
      assert s[..4] == s;
    }
  }

  lemma PaddingBehind(head: string, t: string)
    requires |head| == 4
    ensures AddPadding(head + t) == head + AddPadding(t)
  {
    assert -|head + t| % 4 == -|t| % 4;
  }

  /** The parser puts back exactly as many fill characters as the printer took away. */
  lemma {:induction false} PaddingRestored(b: seq<Byte>)
    ensures AddPadding(StripPadding(Encode(b))) == Encode(b)
    ensures b != [] ==> StripPadding(Encode(b)) != ""
  {
    if b == [] {
    } else if |b| <= 3 {
      GroupPadding(b);
    } else {
      PaddingRestored(b[3..]);
      StripBehind(EncodeGroup(b[..3]), Encode(b[3..]));
      PaddingBehind(EncodeGroup(b[..3]), StripPadding(Encode(b[3..])));
    }
  }

  // ---- the two services -----------------------------------------------------------------

  /** _b64url of the admin service. */
  function PrintInteger(n: nat, length: nat): Option<string> {
    match ToBytes(n, length)
    case Some(b) => Some(StripPadding(Encode(b)))
    case None => None
  }

  /** _decode_b64url of the identity service. */
  function ParseInteger(s: string): Option<nat> {
    match Decode(AddPadding(s))
    case Some(b) => Some(FromBytes(b))
    case None => None
  }

  datatype Jwk = Jwk(n: string, e: string)

  const EXPONENT_BYTES := 3

  /** public_key_to_jwk: the modulus in as many octets as it needs, the exponent always in three. */
  function PublicKeyToJwk(n: nat, e: nat): Option<Jwk> {
    match (PrintInteger(n, ByteLength(n)), PrintInteger(e, EXPONENT_BYTES))
    case (Some(nText), Some(eText)) => Some(Jwk(nText, eText))
    case _ => None
  }

  /** Whatever the printer prints, the parser reads back as the same integer. */
  lemma IntegerRoundTrip(n: nat, length: nat)
    ensures PrintInteger(n, length).Some? <==> n < Power(256, length)
    ensures n < Power(256, length) ==> ParseInteger(PrintInteger(n, length).value) == Some(n)
  {
    if n < Power(256, length) {
      var b := BigEndian(n, length);
      PaddingRestored(b);
      Base64RoundTrip(b);
      BytesRoundTrip(n, length);
    }
  }

  /** A public key survives the trip between the services exactly when its exponent fits three octets;
      for a larger exponent the printer raises instead. */
  lemma {:induction false} KeyRoundTripIff(n: nat, e: nat)
    ensures PublicKeyToJwk(n, e).Some? <==> e < 0x100_0000
    ensures e < 0x100_0000 ==>
      var jwk := PublicKeyToJwk(n, e).value;
      ParseInteger(jwk.n) == Some(n) && ParseInteger(jwk.e) == Some(e)
  {
    ByteLengthIsMinimal(n);
    IntegerRoundTrip(n, ByteLength(n));
    IntegerRoundTrip(e, EXPONENT_BYTES);
    assert Power(256, 3) == 256 * (256 * (256 * Power(256, 0)));
  }

  lemma {:induction false} LeadingOctet(n: nat, length: nat)
    requires length > 0 && n < Power(256, length)
    ensures BigEndian(n, length)[0] == 0 <==> n < Power(256, length - 1)
  {
    if length > 1 {
      assert n / 256 < Power(256, length - 1);
      LeadingOctet(n / 256, length - 1);
      assert n / 256 < Power(256, length - 2) <==> n < Power(256, length - 1);
    }
  }

  /** Base64urlUInt asks for the fewest octets: the modulus always meets that, the exponent only from
      2^16 upwards. */
  lemma MinimalOctetsIff(n: nat, e: nat)
    requires n > 0 && e < 0x100_0000
    ensures BigEndian(n, ByteLength(n))[0] != 0
    ensures BigEndian(e, EXPONENT_BYTES)[0] != 0 <==> e >= 0x1_0000
  {
    ByteLengthIsMinimal(n);
    assert Power(256, 3) == 256 * (256 * (256 * Power(256, 0))) && Power(256, 2) == 256 * (256 * Power(256, 0));
    LeadingOctet(n, ByteLength(n));
    LeadingOctet(e, EXPONENT_BYTES);
  }

  // ---- digit by digit ------------------------------------------------------------------------

  lemma {:induction false} PowerAdds(base: nat, j: nat, k: nat)
    ensures Power(base, j + k) == Power(base, j) * Power(base, k)
  {
    if k == 0 {
      assert Power(base, j) * 1 == Power(base, j);
    } else {
      PowerAdds(base, j, k - 1);
      assert Power(base, j + k) == base * Power(base, j + (k - 1));
      assert base * (Power(base, j) * Power(base, k - 1)) == Power(base, j) * (base * Power(base, k - 1));
    }
  }

  /** Octets are digits to the base 256, the most significant first. */
  lemma {:induction false} OctetsMean(a: seq<Byte>, b: seq<Byte>)
    ensures FromBytes([]) == 0 && (|b| == 1 ==> FromBytes(b) == b[0])
    ensures FromBytes(a + b) == FromBytes(a) * Power(256, |b|) + FromBytes(b)
  {
    if b == [] {
      assert a + b == a;
    } else {
      var init, last := b[..|b| - 1], b[|b| - 1];
      assert (a + b)[..|a + b| - 1] == a + init;
      OctetsMean(a, init);
      Shifted(FromBytes(a), Power(256, |init|), FromBytes(init), last);
    }
  }

  lemma Shifted(x: nat, p: nat, y: nat, d: nat)
    ensures (x * p + y) * 256 + d == x * (256 * p) + (y * 256 + d)
  {
    assert (x * p) * 256 == x * (256 * p);
  }

  const CAPITALS_TEXT := "ABCDEFGHI" + "JKLMNOPQR" + "STUVWXYZ"
  const SMALL_TEXT := "abcdefghi" + "jklmnopqr" + "stuvwxyz"
  const ALPHABET := CAPITALS_TEXT + SMALL_TEXT + "0123456789" + "-_"

  lemma CapitalAt(v: nat)
    requires v < 26
    ensures CAPITALS_TEXT[v] == 'A' + v as char
  {
    if v < 9 {
      assert CAPITALS_TEXT[v] == "ABCDEFGHI"[v];
    } else if v < 18 {
      assert CAPITALS_TEXT[v] == "JKLMNOPQR"[v - 9];
    } else {
      assert CAPITALS_TEXT[v] == "STUVWXYZ"[v - 18];
    }
  }

  lemma SmallAt(v: nat)
    requires v < 26
    ensures SMALL_TEXT[v] == 'a' + v as char
  {
    if v < 9 {
      assert SMALL_TEXT[v] == "abcdefghi"[v];
    } else if v < 18 {
      assert SMALL_TEXT[v] == "jklmnopqr"[v - 9];
    } else {
      assert SMALL_TEXT[v] == "stuvwxyz"[v - 18];
    }
  }

  /** The alphabet of section 5 of RFC 4648. */
  lemma AlphabetIs(v: Sextet)
    ensures |ALPHABET| == 64 && CharOf(v) == ALPHABET[v]
  {
    if v < 26 {
      CapitalAt(v);
    } else if v < 52 {
      SmallAt(v - 26);
    } else if v < 62 {
      assert ALPHABET[v] == "0123456789"[v - 52];
    }
  }

  lemma ThreeOctets(a: Byte, b: Byte, c: Byte, v: Sextet, w: Sextet, x: Sextet, y: Sextet)
    requires ((v * 64 + w) * 64 + x) * 64 + y == (a * 256 + b) * 256 + c
    ensures v == First(a) && w == Second(a, b) && x == Third(b, c) && y == Fourth(c)
  {}

  lemma TwoOctets(a: Byte, b: Byte, v: Sextet, w: Sextet, x: Sextet)
    requires (v * 64 + w) * 64 + x == (a * 256 + b) * 4
    ensures v == First(a) && w == Second(a, b) && x == Third(b, 0)
  {}

  /** Three octets are four digits to the base 64; of one or two octets the bits that are missing are zero, and
      fill characters stand for the rest. */
  lemma GroupMeaning(a: Byte, b: Byte, c: Byte, v: Sextet, w: Sextet, x: Sextet, y: Sextet)
    ensures ((v * 64 + w) * 64 + x) * 64 + y == (a * 256 + b) * 256 + c ==>
              Encode([a, b, c]) == [CharOf(v), CharOf(w), CharOf(x), CharOf(y)]
    ensures (v * 64 + w) * 64 + x == (a * 256 + b) * 4 ==> Encode([a, b]) == [CharOf(v), CharOf(w), CharOf(x), '=']
    ensures v * 64 + w == a * 16 ==> Encode([a]) == [CharOf(v), CharOf(w), '=', '=']
  {
    if ((v * 64 + w) * 64 + x) * 64 + y == (a * 256 + b) * 256 + c {
      ThreeOctets(a, b, c, v, w, x, y);
      GroupOfThree(a, b, c);
    }
    if (v * 64 + w) * 64 + x == (a * 256 + b) * 4 {
      TwoOctets(a, b, v, w, x);
      GroupOfTwo(a, b);
    }
    if v * 64 + w == a * 16 { GroupOfOne(a); }
  }

  lemma GroupOfThree(a: Byte, b: Byte, c: Byte)
    ensures Encode([a, b, c]) == [CharOf(First(a)), CharOf(Second(a, b)), CharOf(Third(b, c)), CharOf(Fourth(c))]
  {}

  lemma GroupOfTwo(a: Byte, b: Byte)
    ensures Encode([a, b]) == [CharOf(First(a)), CharOf(Second(a, b)), CharOf(Third(b, 0)), '=']
  {}

  lemma GroupOfOne(a: Byte)
    ensures Encode([a]) == [CharOf(First(a)), CharOf(Second(a, 0)), '=', '=']
  {}

  /** Groups are encoded one by one. */
  lemma EncodeHead(group: seq<Byte>, rest: seq<Byte>)
    requires |group| == 3
    ensures Encode([]) == "" && Encode(group + rest) == Encode(group) + Encode(rest)
  {
    if rest == [] {
      assert group + rest == group;
    } else {
      assert (group + rest)[..3] == group && (group + rest)[3..] == rest;
    }
  }

  predicate InAlphabet(s: string) { forall i | 0 <= i < |s| :: ValueOf(s[i]).Some? }

  lemma GroupInAlphabet(b: seq<Byte>)
    requires 1 <= |b| <= 3
    ensures InAlphabet(EncodeGroup(b)[..|b| + 1])
  {
    CharRoundTrip(First(b[0]));
    if |b| == 1 {
      CharRoundTrip(Second(b[0], 0));
    } else {
      CharRoundTrip(Second(b[0], b[1]));
      CharRoundTrip(Third(b[1], if |b| == 2 then 0 else b[2]));
      if |b| == 3 { CharRoundTrip(Fourth(b[2])); }
    }
  }

  lemma {:induction false} StrippedInAlphabet(b: seq<Byte>)
    ensures InAlphabet(StripPadding(Encode(b)))
  {
    if 0 < |b| <= 3 {
      GroupPadding(b);
      GroupInAlphabet(b);
    } else if |b| > 3 {
      StrippedInAlphabet(b[3..]);
      PaddingRestored(b[3..]);
      StripBehind(EncodeGroup(b[..3]), Encode(b[3..]));
      GroupInAlphabet(b[..3]);
      assert EncodeGroup(b[..3])[..4] == EncodeGroup(b[..3]);
    }
  }

  /** No fill character is printed: the text of an integer consists of the alphabet only. */
  lemma NoFillIsPrinted(n: nat, length: nat)
    ensures PrintInteger(n, length).Some? ==>
              InAlphabet(PrintInteger(n, length).value) && '=' !in PrintInteger(n, length).value
  {
    StrippedInAlphabet(BigEndian(n, length));
  }

  /** Where text is decoded, only its last two characters may be fill characters. */
  lemma {:induction false} NoFillInside(s: string, i: nat)
    requires i < |s| - 2 && Decode(s).Some?
    ensures s[i] != '='
    decreases |s|
  {
    DecodeSplits(s);
    if i < 4 {
      GroupHoldsNoFill(s[..4], |s| == 4, i);
    } else {
      NoFillInside(s[4..], i - 4);
    }
  }

  lemma DecodeSplits(s: string)
    requires s != "" && Decode(s).Some?
    ensures |s| >= 4 && DecodeGroup(s[..4], |s| == 4).Some? && Decode(s[4..]).Some?
  {}

  lemma GroupHoldsNoFill(s: string, last: bool, i: nat)
    requires |s| == 4 && i < 4 && DecodeGroup(s, last).Some? && (i < 2 || !last)
    ensures s[i] != '='
  {}

  /** Text over the alphabet of a length that no encoding has is refused. */
  lemma OddLengthIsRefused(s: string)
    requires |s| % 4 == 1 && InAlphabet(s)
    ensures ParseInteger(s).None?
  {
    var t := AddPadding(s);
    assert |t| == |s| + 3 && t[|s|] == '=';
    if Decode(t).Some? { NoFillInside(t, |s|); }
  }

  lemma ValueIsRight(c: char)
    ensures ValueOf(c).Some? <==> c in ALPHABET
  {
    if ValueOf(c).Some? {
      var v := ValueOf(c).value;
      AlphabetIs(v);
      assert CharOf(v) == c;
    }
    if c in ALPHABET {
      var v: Sextet :| ALPHABET[v] == c;
      AlphabetIs(v);
      CharRoundTrip(v);
    }
  }
}
