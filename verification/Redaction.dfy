/** Leftmost-greedy replacement by a regular expression of the form `prefix class{min,}`, its two uses in
    the workflow worker (services/workflow-worker/app/main.py and sanitizer.py), and the proof that it
    leaves no match behind. */
module Redaction {
  import opened Alphabets
  import opened Json

  /** prefix followed by at least `min` characters of a class, as many as there are. */
  datatype Pattern = Pattern(prefix: string, cls: char -> bool, min: nat)

  predicate IsWordOrDash(c: char) {
    'A' <= c <= 'Z' || 'a' <= c <= 'z' || '0' <= c <= '9' || c == '_' || c == '-'
  }

  const SECRET := Pattern("aigw_run_", IsWordOrDash, 20)
  const SECRET_MASK := "[REDACTED]"

  const MENTION := Pattern("@", IsWordOrDash, 1)
  const MENTION_MASK := "(mention redacted)"

  /** How many characters at the head of s belong to the class. */
  function RunLength(p: Pattern, s: string): (k: nat)
    ensures k <= |s|
  {
    if s != "" && p.cls(s[0]) then 1 + RunLength(p, s[1..]) else 0
  }

  predicate MatchesHead(p: Pattern, s: string) {
    p.prefix <= s && RunLength(p, s[|p.prefix|..]) >= p.min
  }

  function MatchLength(p: Pattern, s: string): (k: nat)
    requires MatchesHead(p, s)
    ensures k <= |s|
  {
    |p.prefix| + RunLength(p, s[|p.prefix|..])
  }

  /** re.sub: scan from the left, replace a match where one begins, otherwise copy a character. */
  function Sub(p: Pattern, mask: string, s: string): string
    requires p.prefix != ""
    decreases |s|
  {
    if s == "" then ""
    else if MatchesHead(p, s) then mask + Sub(p, mask, s[MatchLength(p, s)..])
    else [s[0]] + Sub(p, mask, s[1..])
  }

  /** No match begins anywhere in s. */
  ghost predicate Clean(p: Pattern, s: string) {
    forall i | 0 <= i <= |s| :: !MatchesHead(p, s[i..])
  }

  /** The characters a match can consist of. */
  predicate InAlphabet(p: Pattern, c: char) { p.cls(c) || c in p.prefix }

  /** A text that no match can enter from the left, and in which none can begin. */
  predicate Inert(p: Pattern, mask: string) {
    p.prefix != "" && mask != "" && !InAlphabet(p, mask[0]) && p.prefix[0] !in mask
  }

  // ---- matches are contiguous ------------------------------------------------

  lemma {:induction false} RunPrefix(p: Pattern, s: string, t: string, k: nat)
    requires k <= |s| && k <= |t| && s[..k] == t[..k]
    ensures RunLength(p, s) >= k ==> RunLength(p, t) >= k
  {
    if k > 0 && RunLength(p, s) >= k {
      assert s[0] == s[..k][0] && t[0] == t[..k][0];
      assert s[1..][..k - 1] == s[..k][1..] && t[1..][..k - 1] == t[..k][1..];
      RunPrefix(p, s[1..], t[1..], k - 1);
    }
  }

  /** Whether a match begins at the head depends on its first |prefix| + min characters only. */
  lemma HeadPrefix(p: Pattern, s: string, t: string)
    requires MatchesHead(p, s)
    requires |p.prefix| + p.min <= |t| && t[..|p.prefix| + p.min] == s[..|p.prefix| + p.min]
    ensures MatchesHead(p, t)
  {
    var k := |p.prefix|;
    assert t[..k] == t[..k + p.min][..k] && s[..k] == s[..k + p.min][..k];
    assert t[k..][..p.min] == t[..k + p.min][k..] && s[k..][..p.min] == s[..k + p.min][k..];
    RunPrefix(p, s[k..], t[k..], p.min);
  }

  lemma {:induction false} RunInClass(p: Pattern, s: string, i: nat)
    requires i < RunLength(p, s)
    ensures p.cls(s[i])
  {
    if i > 0 { RunInClass(p, s[1..], i - 1); }
  }

  lemma MatchInAlphabet(p: Pattern, s: string, i: nat)
    requires MatchesHead(p, s) && i < |p.prefix| + p.min
    ensures InAlphabet(p, s[i])
  {
    if i >= |p.prefix| {
      RunInClass(p, s[|p.prefix|..], i - |p.prefix|);
    } else {
      assert s[i] == p.prefix[i];
    }
  }

  lemma HeadChar(p: Pattern, s: string)
    requires p.prefix != ""
    ensures MatchesHead(p, s) ==> s != "" && s[0] == p.prefix[0]
  {
    if MatchesHead(p, s) { assert s[0] == p.prefix[0]; }
  }

  /** Clean texts split by an inert text stay clean. */
  lemma CleanJoin(p: Pattern, a: string, mask: string, b: string)
    requires Inert(p, mask) && Clean(p, a) && Clean(p, b)
    ensures Clean(p, a + mask + b)
  {
    var whole := a + mask + b;
    forall i | 0 <= i <= |whole| ensures !MatchesHead(p, whole[i..]) {
      if |a| <= i < |a| + |mask| {
        assert whole[i..][0] == mask[i - |a|];
        HeadChar(p, whole[i..]);
      } else if i >= |a| + |mask| {
        assert whole[i..] == b[i - |a| - |mask|..];
      } else if MatchesHead(p, whole[i..]) {
        MatchStopsAt(p, whole[i..], |a| - i);
        assert whole[i..][..|p.prefix| + p.min] == a[i..][..|p.prefix| + p.min];
        HeadPrefix(p, whole[i..], a[i..]);
      }
    }
  }

  /** A character outside the alphabet ends every match before it. */
  lemma MatchStopsAt(p: Pattern, s: string, k: nat)
    requires MatchesHead(p, s) && k < |s| && !InAlphabet(p, s[k])
    ensures |p.prefix| + p.min <= k
  {
    if k < |p.prefix| + p.min { MatchInAlphabet(p, s, k); }
  }

  lemma EmptyClean(p: Pattern)
    requires p.prefix != ""
    ensures Clean(p, "")
  {
    HeadChar(p, "");
  }

  lemma CleanTail(p: Pattern, s: string, k: nat)
    requires Clean(p, s) && k <= |s|
    ensures Clean(p, s[k..])
  {
    forall i | 0 <= i <= |s[k..]| ensures !MatchesHead(p, s[k..][i..]) {
      assert s[k..][i..] == s[k + i..];
    }
  }

  lemma CleanTake(p: Pattern, s: string, k: nat)
    requires Clean(p, s) && k <= |s|
    ensures Clean(p, s[..k])
  {
    forall i | 0 <= i <= k ensures !MatchesHead(p, s[..k][i..]) {
      if MatchesHead(p, s[..k][i..]) {
        assert s[i..][..|p.prefix| + p.min] == s[..k][i..][..|p.prefix| + p.min];
        HeadPrefix(p, s[..k][i..], s[i..]);
      }
    }
  }

  // ---- replacement leaves nothing behind ---------------------------------------

  /** As far as the output stays inside the alphabet it is a copy of the input. */
  lemma {:induction false} SubCopies(p: Pattern, mask: string, s: string, k: nat)
    requires Inert(p, mask) && k <= |Sub(p, mask, s)|
    requires forall i | 0 <= i < k :: InAlphabet(p, Sub(p, mask, s)[i])
    ensures k <= |s| && s[..k] == Sub(p, mask, s)[..k]
    decreases k
  {
    if k > 0 {
      var r := Sub(p, mask, s);
      assert r[0] != mask[0];
      assert s != "" && !MatchesHead(p, s);
      var rest := Sub(p, mask, s[1..]);
      assert r == [s[0]] + rest;
      assert forall i | 0 <= i < k - 1 :: rest[i] == r[i + 1];
      SubCopies(p, mask, s[1..], k - 1);
      assert s[..k] == [s[0]] + s[1..][..k - 1];
    }
  }

  /** The output of the scan contains no match, not even one that arises across a replacement. */
  lemma {:induction false} SubIsClean(p: Pattern, mask: string, s: string)
    requires Inert(p, mask)
    ensures Clean(p, Sub(p, mask, s))
    decreases |s|
  {
    var r := Sub(p, mask, s);
    if s == "" {
      EmptyClean(p);
    } else if MatchesHead(p, s) {
      var rest := Sub(p, mask, s[MatchLength(p, s)..]);
      SubIsClean(p, mask, s[MatchLength(p, s)..]);
      EmptyClean(p);
      CleanJoin(p, "", mask, rest);
      assert "" + mask + rest == r;
    } else {
      var rest := Sub(p, mask, s[1..]);
      SubIsClean(p, mask, s[1..]);
      forall i | 0 <= i <= |r| ensures !MatchesHead(p, r[i..]) {
        if i > 0 {
          assert r[i..] == rest[i - 1..];
        } else if MatchesHead(p, r[0..]) {
          assert r[0..] == r;
          var k := |p.prefix| + p.min;
          forall j | 0 <= j < k ensures InAlphabet(p, r[j]) { MatchInAlphabet(p, r, j); }
          SubCopies(p, mask, s, k);
          HeadPrefix(p, r, s);
        }
      }
    }
  }

  /** A clean text is left alone. */
  lemma {:induction false} SubOfClean(p: Pattern, mask: string, s: string)
    requires p.prefix != "" && Clean(p, s)
    ensures Sub(p, mask, s) == s
    decreases |s|
  {
    if s != "" {
      assert s[0..] == s;
      CleanTail(p, s, 1);
      SubOfClean(p, mask, s[1..]);
    }
  }

  /** The leftmost match of s begins at i. */
  ghost predicate FirstMatch(p: Pattern, s: string, i: nat) {
    i <= |s| && MatchesHead(p, s[i..]) && forall j | 0 <= j < i :: !MatchesHead(p, s[j..])
  }

  lemma FirstMatchTail(p: Pattern, s: string, i: nat)
    requires FirstMatch(p, s, i) && i > 0
    ensures FirstMatch(p, s[1..], i - 1) && !MatchesHead(p, s) && s[1..][i - 1..] == s[i..]
  {
    assert s[0..] == s;
    forall j | 0 <= j < i - 1 ensures !MatchesHead(p, s[1..][j..]) {
      assert s[1..][j..] == s[j + 1..];
    }
  }

  /** The law of the scan: what precedes the first match is kept, that match, taken as long as
      possible, becomes the mask, and the scan goes on behind it. */
  lemma {:induction false} SubAtFirstMatch(p: Pattern, mask: string, s: string, i: nat)
    requires p.prefix != "" && FirstMatch(p, s, i)
    ensures Sub(p, mask, s) == s[..i] + mask + Sub(p, mask, s[i..][MatchLength(p, s[i..])..])
    decreases i
  {
    if i == 0 {
      assert s[0..] == s;
      HeadChar(p, s);
      assert s[..0] + mask == mask;
    } else {
      FirstMatchTail(p, s, i);
      SubAtFirstMatch(p, mask, s[1..], i - 1);
      var gap := s[1..][..i - 1];
      assert s[..i] == [s[0]] + gap;
      SubSkips(p, mask, s, gap, Sub(p, mask, s[i..][MatchLength(p, s[i..])..]));
    }
  }

  lemma SubSkips(p: Pattern, mask: string, s: string, gap: string, rest: string)
    requires p.prefix != "" && s != "" && !MatchesHead(p, s)
    requires Sub(p, mask, s[1..]) == gap + mask + rest
    ensures Sub(p, mask, s) == ([s[0]] + gap) + mask + rest
  {
    assert [s[0]] + (gap + mask + rest) == ([s[0]] + gap) + mask + rest;
  }

  lemma MasksAreInert()
    ensures Inert(SECRET, SECRET_MASK) && Inert(MENTION, MENTION_MASK)
  {
    assert 'a' !in SECRET_MASK && '[' !in SECRET.prefix;
  }

  // ---- _redact_outputs ------------------------------------------------------------

  function RedactString(s: string): string { Sub(SECRET, SECRET_MASK, s) }

  function RedactValue(v: Json): Json
    decreases v, 0
  {
    match v
    case Str(s) => Str(RedactString(s))
    case Dict(entries) => Dict(RedactEntries(entries))
    case List(items) => List(RedactItems(items))
    case _ => v
  }

  function RedactEntries(entries: seq<Entry>): seq<Entry>
    decreases entries, 1
  {
    if entries == [] then []
    else [Entry(entries[0].key, RedactValue(entries[0].value))] + RedactEntries(entries[1..])
  }

  function RedactItems(items: seq<Json>): seq<Json>
    decreases items, 1
  {
    if items == [] then [] else [RedactValue(items[0])] + RedactItems(items[1..])
  }

  /** Every string leaf of v satisfies `good`; dictionary keys are not leaves. */
  ghost predicate AllStrings(v: Json, good: string -> bool)
    decreases v
  {
    match v
    case Str(s) => good(s)
    case Dict(entries) => forall i | 0 <= i < |entries| :: AllStrings(entries[i].value, good)
    case List(items) => forall i | 0 <= i < |items| :: AllStrings(items[i], good)
    case _ => true
  }

  ghost function CleanOf(p: Pattern): string -> bool { s => Clean(p, s) }

  /** No string leaf of the redacted outputs contains a run key. */
  lemma {:induction false} RedactedIsClean(v: Json)
    ensures AllStrings(RedactValue(v), CleanOf(SECRET))
    decreases v, 0
  {
    match v
    case Str(s) => MasksAreInert(); SubIsClean(SECRET, SECRET_MASK, s);
    case Dict(entries) => RedactedEntriesClean(entries);
    case List(items) => RedactedItemsClean(items);
    case _ =>
  }

  lemma {:induction false} RedactedEntriesClean(entries: seq<Entry>)
    ensures forall i | 0 <= i < |RedactEntries(entries)| :: AllStrings(RedactEntries(entries)[i].value, CleanOf(SECRET))
    decreases entries, 1
  {
    if entries != [] {
      RedactedIsClean(entries[0].value);
      RedactedEntriesClean(entries[1..]);
    }
  }

  lemma {:induction false} RedactedItemsClean(items: seq<Json>)
    ensures forall i | 0 <= i < |RedactItems(items)| :: AllStrings(RedactItems(items)[i], CleanOf(SECRET))
    decreases items, 1
  {
    if items != [] {
      RedactedIsClean(items[0]);
      RedactedItemsClean(items[1..]);
    }
  }

  /** Outputs without a run key pass unchanged, keys, order and shape included. */
  lemma {:induction false} RedactionIsConservative(v: Json)
    requires AllStrings(v, CleanOf(SECRET))
    ensures RedactValue(v) == v
    decreases v, 0
  {
    match v
    case Str(s) => SubOfClean(SECRET, SECRET_MASK, s);
    case Dict(entries) => ConservativeEntries(entries);
    case List(items) => ConservativeItems(items);
    case _ =>
  }

  lemma {:induction false} ConservativeEntries(entries: seq<Entry>)
    requires forall i | 0 <= i < |entries| :: AllStrings(entries[i].value, CleanOf(SECRET))
    ensures RedactEntries(entries) == entries
    decreases entries, 1
  {
    if entries != [] {
      RedactionIsConservative(entries[0].value);
      assert forall i | 0 <= i < |entries[1..]| :: entries[1..][i] == entries[i + 1];
      ConservativeEntries(entries[1..]);
    }
  }

  lemma {:induction false} ConservativeItems(items: seq<Json>)
    requires forall i | 0 <= i < |items| :: AllStrings(items[i], CleanOf(SECRET))
    ensures RedactItems(items) == items
    decreases items, 1
  {
    if items != [] {
      RedactionIsConservative(items[0]);
      assert forall i | 0 <= i < |items[1..]| :: items[1..][i] == items[i + 1];
      ConservativeItems(items[1..]);
    }
  }

  // ---- what is taken out, character by character --------------------------------------------------

  /** The characters of a run key behind its prefix, and of a mention behind the at sign. */
  predicate IsNameChar(c: char) { c in SMALL_LETTERS || c in CAPITALS || c in DIGITS || c == '_' || c == '-' }

  lemma NameCharIff(c: char)
    ensures IsWordOrDash(c) <==> IsNameChar(c)
  {
    SmallLetterIff(c);
    CapitalIff(c);
    DigitIff(c);
  }

  predicate AreNameChars(s: string) { forall i | 0 <= i < |s| :: IsNameChar(s[i]) }

  lemma {:induction false} RunIff(p: Pattern, s: string, k: nat)
    requires p.cls == IsWordOrDash && k <= |s|
    ensures RunLength(p, s) >= k <==> AreNameChars(s[..k])
  {
    if k > 0 {
      NameCharIff(s[0]);
      RunIff(p, s[1..], k - 1);
      assert s[..k] == [s[0]] + s[1..][..k - 1];
      JoinedNameChars(s[0], s[1..][..k - 1]);
    }
  }

  lemma JoinedNameChars(c: char, s: string)
    ensures AreNameChars([c] + s) <==> IsNameChar(c) && AreNameChars(s)
  {
    var t := [c] + s;
    assert forall i | 0 <= i < |s| :: s[i] == t[i + 1];
    if AreNameChars(t) {
      assert IsNameChar(t[0]);
      forall i | 0 <= i < |s| ensures IsNameChar(s[i]) { assert IsNameChar(t[i + 1]); }
    }
  }

  /** A run key begins at i: the prefix and at least twenty characters. */
  predicate KeyAt(s: string, i: nat) {
    i + 29 <= |s| && s[i..i + 9] == "aigw_run_" && AreNameChars(s[i + 9..i + 29])
  }

  /** A mention begins at i: an at sign and at least one character. */
  predicate MentionAt(s: string, i: nat) { i + 2 <= |s| && s[i] == '@' && IsNameChar(s[i + 1]) }

  lemma KeyMatchIff(s: string, i: nat)
    requires i <= |s|
    ensures MatchesHead(SECRET, s[i..]) <==> KeyAt(s, i)
  {
    var t := s[i..];
    if |t| >= 9 {
      assert t[..9] == s[i..i + 9];
      if |t| >= 29 {
        RunIff(SECRET, t[9..], 20);
        assert t[9..][..20] == s[i + 9..i + 29];
      }
    }
  }

  lemma MentionMatchIff(s: string, i: nat)
    requires i <= |s|
    ensures MatchesHead(MENTION, s[i..]) <==> MentionAt(s, i)
  {
    var t := s[i..];
    if |t| >= 2 {
      RunIff(MENTION, t[1..], 1);
      assert t[1..][..1] == [s[i + 1]];
    }
  }

  /** To be clean is to hold no run key, or no mention, at any place. */
  lemma CleanIff(s: string)
    ensures Clean(SECRET, s) <==> forall i: nat :: !KeyAt(s, i)
    ensures Clean(MENTION, s) <==> forall i: nat :: !MentionAt(s, i)
  {
    forall i | 0 <= i <= |s|
      ensures MatchesHead(SECRET, s[i..]) <==> KeyAt(s, i)
      ensures MatchesHead(MENTION, s[i..]) <==> MentionAt(s, i)
    {
      KeyMatchIff(s, i);
      MentionMatchIff(s, i);
    }
  }

  lemma {:induction false} RunStops(p: Pattern, run: string, rest: string)
    requires forall i | 0 <= i < |run| :: p.cls(run[i])
    requires rest != "" ==> !p.cls(rest[0])
    ensures RunLength(p, run + rest) == |run|
  {
    if run == "" {
      assert run + rest == rest;
    } else {
      assert (run + rest)[1..] == run[1..] + rest;
      RunStops(p, run[1..], rest);
    }
  }

  lemma MatchIs(p: Pattern, run: string, rest: string)
    requires |run| >= p.min && forall i | 0 <= i < |run| :: p.cls(run[i])
    requires rest != "" ==> !p.cls(rest[0])
    ensures var found := p.prefix + (run + rest);
            MatchesHead(p, found) && found[MatchLength(p, found)..] == rest
  {
    var found := p.prefix + (run + rest);
    assert found[|p.prefix|..] == run + rest;
    RunStops(p, run, rest);
  }

  lemma SubTakesOut(p: Pattern, mask: string, a: string, run: string, rest: string)
    requires p.prefix != "" && |run| >= p.min && forall i | 0 <= i < |run| :: p.cls(run[i])
    requires rest != "" ==> !p.cls(rest[0])
    requires forall j | 0 <= j < |a| :: !MatchesHead(p, (a + (p.prefix + (run + rest)))[j..])
    ensures Sub(p, mask, a + (p.prefix + (run + rest))) == a + mask + Sub(p, mask, rest)
  {
    var s, found := a + (p.prefix + (run + rest)), p.prefix + (run + rest);
    assert s[|a|..] == found && s[..|a|] == a;
    MatchIs(p, run, rest);
    SubAtFirstMatch(p, mask, s, |a|);
  }

  /** A run key with all its characters becomes the mask; what stands before it is kept, and so is what the
      scan leaves of the rest. */
  lemma KeyIsMasked(a: string, key: string, rest: string)
    requires |key| >= 20 && AreNameChars(key) && (rest != "" ==> !IsNameChar(rest[0]))
    requires forall j | 0 <= j < |a| :: !KeyAt(a + ("aigw_run_" + (key + rest)), j)
    ensures RedactString(a + ("aigw_run_" + (key + rest))) == a + "[REDACTED]" + RedactString(rest)
  {
    var s := a + ("aigw_run_" + (key + rest));
    forall c: char ensures IsWordOrDash(c) <==> IsNameChar(c) { NameCharIff(c); }
    forall j | 0 <= j < |a| ensures !MatchesHead(SECRET, s[j..]) { KeyMatchIff(s, j); }
    SubTakesOut(SECRET, "[REDACTED]", a, key, rest);
  }

  /** And a mention likewise. */
  lemma MentionIsMasked(a: string, name: string, rest: string)
    requires name != "" && AreNameChars(name) && (rest != "" ==> !IsNameChar(rest[0]))
    requires forall j | 0 <= j < |a| :: !MentionAt(a + ("@" + (name + rest)), j)
    ensures Sub(MENTION, MENTION_MASK, a + ("@" + (name + rest)))
            == a + "(mention redacted)" + Sub(MENTION, MENTION_MASK, rest)
  {
    var s := a + ("@" + (name + rest));
    forall c: char ensures IsWordOrDash(c) <==> IsNameChar(c) { NameCharIff(c); }
    forall j | 0 <= j < |a| ensures !MatchesHead(MENTION, s[j..]) { MentionMatchIff(s, j); }
    SubTakesOut(MENTION, "(mention redacted)", a, name, rest);
  }

  /** r is v with every string leaf rewritten and nothing else changed. */
  ghost predicate IsMasked(v: Json, r: Json)
    decreases v
  {
    match v
    case Str(s) => r == Str(RedactString(s))
    case Dict(entries) =>
      r.Dict? && |r.entries| == |entries|
      && forall i | 0 <= i < |entries| ::
           r.entries[i].key == entries[i].key && IsMasked(entries[i].value, r.entries[i].value)
    case List(items) =>
      r.List? && |r.items| == |items| && forall i | 0 <= i < |items| :: IsMasked(items[i], r.items[i])
    case _ => r == v
  }

  lemma {:induction false} RedactionMasks(v: Json)
    ensures IsMasked(v, RedactValue(v))
    decreases v, 0
  {
    match v
    case Dict(entries) => EntriesMasked(entries);
    case List(items) => ItemsMasked(items);
    case _ =>
  }

  lemma {:induction false} EntriesMasked(entries: seq<Entry>)
    ensures var r := RedactEntries(entries);
            |r| == |entries| && forall i | 0 <= i < |entries| ::
              r[i].key == entries[i].key && IsMasked(entries[i].value, r[i].value)
    decreases entries, 1
  {
    if entries != [] {
      RedactionMasks(entries[0].value);
      EntriesMasked(entries[1..]);
    }
  }

  lemma {:induction false} ItemsMasked(items: seq<Json>)
    ensures |RedactItems(items)| == |items| && forall i | 0 <= i < |items| :: IsMasked(items[i], RedactItems(items)[i])
    decreases items, 1
  {
    if items != [] {
      RedactionMasks(items[0]);
      ItemsMasked(items[1..]);
    }
  }
}
