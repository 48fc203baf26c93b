/** The sanitizer for agent inputs (services/workflow-worker/app/sanitizer.py): mentions and angle
    brackets are taken out of every string, long strings are cut, and only the first hundred dictionary
    keys survive. */
module Sanitizer {
  import opened Json
  import opened Redaction

  const MAX_STRING_CHARS := 50_000
  const MAX_KEYS := 100
  const MAX_JSON_BYTES := 1_048_576
  const TRUNCATED := " [truncated]"

  /** value.replace(c, sub) */
  function Replace(c: char, sub: string, s: string): string {
    if s == "" then "" else (if s[0] == c then sub else [s[0]]) + Replace(c, sub, s[1..])
  }

  function EscapeAngles(s: string): string { Replace('>', "&gt;", Replace('<', "&lt;", s)) }

  function Truncate(s: string): string {
    if |s| > MAX_STRING_CHARS then s[..MAX_STRING_CHARS] + TRUNCATED else s
  }

  function SanitizeString(s: string): string { Truncate(EscapeAngles(Sub(MENTION, MENTION_MASK, s))) }

  /** Free of mentions and of angle brackets. */
  ghost predicate Harmless(s: string) { Clean(MENTION, s) && '<' !in s && '>' !in s }

  // ---- strings ---------------------------------------------------------------

  /** Until the first replacement the output is a copy of the input. */
  lemma {:induction false} ReplaceCopies(c: char, sub: string, s: string, k: nat)
    requires sub != "" && k <= |Replace(c, sub, s)| && forall i | 0 <= i < k :: Replace(c, sub, s)[i] != sub[0]
    ensures k <= |s| && s[..k] == Replace(c, sub, s)[..k]
  {
    if k > 0 {
      var r, rest := Replace(c, sub, s), Replace(c, sub, s[1..]);
      assert r[0] != sub[0];
      assert r == [s[0]] + rest;
      assert forall i | 0 <= i < k - 1 :: rest[i] == r[i + 1];
      ReplaceCopies(c, sub, s[1..], k - 1);
      assert s[..k] == [s[0]] + s[1..][..k - 1];
    }
  }

  lemma {:induction false} ReplaceChars(c: char, sub: string, s: string, x: char)
    requires x !in sub && (x == c || x !in s)
    ensures x !in Replace(c, sub, s)
  {
    if s != "" { ReplaceChars(c, sub, s[1..], x); }
  }

  lemma {:induction false} ReplaceAbsent(c: char, sub: string, s: string)
    requires c !in s
    ensures Replace(c, sub, s) == s
  {
    if s != "" { ReplaceAbsent(c, sub, s[1..]); }
  }

  /** Putting an inert text in place of a character creates no match. */
  lemma {:induction false} ReplaceKeepsClean(p: Pattern, c: char, sub: string, s: string)
    requires Inert(p, sub) && Clean(p, s)
    ensures Clean(p, Replace(c, sub, s))
  {
    var r := Replace(c, sub, s);
    if s != "" {
      var rest := Replace(c, sub, s[1..]);
      CleanTail(p, s, 1);
      ReplaceKeepsClean(p, c, sub, s[1..]);
      if s[0] == c {
        EmptyClean(p);
        CleanJoin(p, "", sub, rest);
        assert "" + sub + rest == r;
      } else {
        forall i | 0 <= i <= |r| ensures !MatchesHead(p, r[i..]) {
          if i > 0 {
            assert r[i..] == rest[i - 1..];
          } else {
            assert r[0..] == r && s[0..] == s;
            ReplaceHead(p, c, sub, s);
          }
        }
      }
    }
  }

  lemma ReplaceHead(p: Pattern, c: char, sub: string, s: string)
    requires Inert(p, sub) && !MatchesHead(p, s)
    ensures !MatchesHead(p, Replace(c, sub, s))
  {
    var r, k := Replace(c, sub, s), |p.prefix| + p.min;
    if MatchesHead(p, r) {
      forall j | 0 <= j < k ensures InAlphabet(p, r[j]) { MatchInAlphabet(p, r, j); }
      ReplaceCopies(c, sub, s, k);
      HeadPrefix(p, r, s);
    }
  }

  lemma EntitiesAreInert()
    ensures Inert(MENTION, "&lt;") && Inert(MENTION, "&gt;") && Inert(MENTION, TRUNCATED)
  {}

  lemma EscapedIsHarmless(s: string)
    requires Clean(MENTION, s)
    ensures Harmless(EscapeAngles(s))
  {
    EntitiesAreInert();
    var half := Replace('<', "&lt;", s);
    ReplaceKeepsClean(MENTION, '<', "&lt;", s);
    ReplaceKeepsClean(MENTION, '>', "&gt;", half);
    ReplaceChars('<', "&lt;", s, '<');
    ReplaceChars('>', "&gt;", half, '<');
    ReplaceChars('>', "&gt;", half, '>');
  }

  lemma TruncatedIsHarmless(s: string)
    requires Harmless(s)
    ensures Harmless(Truncate(s))
  {
    if |s| > MAX_STRING_CHARS {
      EntitiesAreInert();
      CleanTake(MENTION, s, MAX_STRING_CHARS);
      EmptyClean(MENTION);
      CleanJoin(MENTION, s[..MAX_STRING_CHARS], TRUNCATED, "");
      assert s[..MAX_STRING_CHARS] + TRUNCATED + "" == Truncate(s);
    }
  }

  /** No sanitized string contains a mention or an angle bracket, cut or not, and its length is bounded. */
  lemma SanitizedIsHarmless(s: string)
    ensures Harmless(SanitizeString(s))
    ensures |SanitizeString(s)| <= 50_012
  {
    MasksAreInert();
    SubIsClean(MENTION, MENTION_MASK, s);
    EscapedIsHarmless(Sub(MENTION, MENTION_MASK, s));
    TruncatedIsHarmless(EscapeAngles(Sub(MENTION, MENTION_MASK, s)));
  }

  lemma {:induction false} ReplaceJoins(c: char, sub: string, a: string, b: string)
    ensures Replace(c, sub, a + b) == Replace(c, sub, a) + Replace(c, sub, b)
  {
    if a == "" {
      assert "" + b == b;
    } else {
      assert (a + b)[1..] == a[1..] + b;
      ReplaceJoins(c, sub, a[1..], b);
    }
  }

  lemma ReplaceOne(c: char, sub: string, x: char)
    ensures Replace(c, sub, [x]) == if x == c then sub else [x]
  {
    assert [x][1..] == "";
  }

  lemma EscapeJoins(a: string, b: string)
    ensures EscapeAngles(a + b) == EscapeAngles(a) + EscapeAngles(b)
  {
    ReplaceJoins('<', "&lt;", a, b);
    ReplaceJoins('>', "&gt;", Replace('<', "&lt;", a), Replace('<', "&lt;", b));
  }

  /** Angle brackets become the entities that stand for them, each its own, and every other character stays. */
  lemma EscapeMeaning(a: string, b: string, c: char)
    ensures EscapeAngles("") == "" && EscapeAngles(a + b) == EscapeAngles(a) + EscapeAngles(b)
    ensures EscapeAngles([c]) == if c == '<' then "&lt;" else if c == '>' then "&gt;" else [c]
  {
    EscapeJoins(a, b);
    ReplaceOne('<', "&lt;", c);
    if c == '<' { ReplaceAbsent('>', "&gt;", "&lt;"); } else { ReplaceOne('>', "&gt;", c); }
  }

  /** A string without a mention is escaped, and cut behind its first fifty thousand characters. */
  lemma SanitizeMeaning(s: string)
    requires forall i: nat :: !MentionAt(s, i)
    ensures |EscapeAngles(s)| <= 50_000 ==> SanitizeString(s) == EscapeAngles(s)
    ensures |EscapeAngles(s)| > 50_000 ==> SanitizeString(s) == EscapeAngles(s)[..50_000] + " [truncated]"
  {
    CleanIff(s);
    SubOfClean(MENTION, MENTION_MASK, s);
  }

  /** Mentions are masked before that. */
  lemma MentionsGoFirst(a: string, name: string, rest: string)
    requires name != "" && AreNameChars(name) && (rest != "" ==> !IsNameChar(rest[0]))
    requires forall j | 0 <= j < |a| :: !MentionAt(a + ("@" + (name + rest)), j)
    ensures SanitizeString(a + ("@" + (name + rest)))
            == Truncate(EscapeAngles(a + "(mention redacted)" + Sub(MENTION, MENTION_MASK, rest)))
  {
    MentionIsMasked(a, name, rest);
  }

  /** A harmless string is only ever cut. */
  lemma HarmlessIsKept(s: string)
    requires Harmless(s)
    ensures SanitizeString(s) == Truncate(s)
  {
    SubOfClean(MENTION, MENTION_MASK, s);
    ReplaceAbsent('<', "&lt;", s);
    ReplaceAbsent('>', "&gt;", s);
  }

  /** Sanitizing twice is sanitizing once, for every string, truncated ones included. */
  lemma SanitizeStringIdempotent(s: string)
    ensures SanitizeString(SanitizeString(s)) == SanitizeString(s)
  {
    SanitizedIsHarmless(s);
    var v := EscapeAngles(Sub(MENTION, MENTION_MASK, s));
    HarmlessIsKept(Truncate(v));
    assert |v| > MAX_STRING_CHARS ==> (v[..MAX_STRING_CHARS] + TRUNCATED)[..MAX_STRING_CHARS] == v[..MAX_STRING_CHARS];
  }

  // ---- nested values -----------------------------------------------------------

  /** _sanitize_value with the key counter threaded through: the value, and the counter afterwards. */
  function Sanitize(v: Json, count: nat): (Json, nat)
    decreases v, 0
  {
    match v
    case Str(s) => (Str(SanitizeString(s)), count)
    case Dict(entries) => var (kept, after) := SanitizeEntries(entries, count); (Dict(kept), after)
    case List(items) => var (kept, after) := SanitizeItems(items, count); (List(kept), after)
    case _ => (v, count)
  }

  function SanitizeEntries(entries: seq<Entry>, count: nat): (seq<Entry>, nat)
    decreases entries, 1
  {
    if entries == [] then ([], count)
    else if count + 1 > MAX_KEYS then ([], count + 1)
    else
      var (value, next) := Sanitize(entries[0].value, count + 1);
      var (rest, after) := SanitizeEntries(entries[1..], next);
      ([Entry(entries[0].key, value)] + rest, after)
  }

  function SanitizeItems(items: seq<Json>, count: nat): (seq<Json>, nat)
    decreases items, 1
  {
    if items == [] then ([], count)
    else
      var (item, next) := Sanitize(items[0], count);
      var (rest, after) := SanitizeItems(items[1..], next);
      ([item] + rest, after)
  }

  lemma EntriesStep(entries: seq<Entry>, i: nat, count: nat, kept: seq<Entry>)
    requires i < |entries|
    ensures count + 1 > MAX_KEYS ==>
              SanitizeEntries(entries[i..], count).1 == count + 1
              && kept + SanitizeEntries(entries[i..], count).0 == kept
    ensures count + 1 <= MAX_KEYS ==>
              var (value, next) := Sanitize(entries[i].value, count + 1);
              var (rest, after) := SanitizeEntries(entries[i + 1..], next);
              SanitizeEntries(entries[i..], count).1 == after
              && kept + SanitizeEntries(entries[i..], count).0 == kept + [Entry(entries[i].key, value)] + rest
  {
    assert entries[i..][0] == entries[i] && entries[i..][1..] == entries[i + 1..];
    if count + 1 <= MAX_KEYS {
      var (value, next) := Sanitize(entries[i].value, count + 1);
      var rest := SanitizeEntries(entries[i + 1..], next).0;
      assert kept + ([Entry(entries[i].key, value)] + rest) == kept + [Entry(entries[i].key, value)] + rest;
    }
  }

  /** The one-element list that the recursion shares. */
  class KeyCount {
    var n: nat

    constructor ()
      ensures n == 0
    {
      n := 0;
    }

    method SanitizeValue(v: Json) returns (result: Json)
      modifies this
      ensures (result, n) == Sanitize(v, old(n))
      decreases v, 0
    {
      match v
      case Str(s) => result := Str(SanitizeString(s));
      case Dict(entries) =>
        var kept := SanitizeDict(entries);
        result := Dict(kept);
      case List(items) =>
        var kept := SanitizeList(items);
        result := List(kept);
      case _ => result := v;
    }

    method SanitizeDict(entries: seq<Entry>) returns (kept: seq<Entry>)
      modifies this
      ensures (kept, n) == SanitizeEntries(entries, old(n))
      decreases entries, 1
    {
      kept := [];
      var i := 0;
      assert entries[0..] == entries;
      while i < |entries|
        invariant 0 <= i <= |entries|
        invariant SanitizeEntries(entries, old(n)).0 == kept + SanitizeEntries(entries[i..], n).0
        invariant SanitizeEntries(entries, old(n)).1 == SanitizeEntries(entries[i..], n).1
      {
        EntriesStep(entries, i, n, kept);
        if n + 1 > MAX_KEYS {
          n := n + 1;
          return;
        }
        n := n + 1;
        var value := SanitizeValue(entries[i].value);
        kept := kept + [Entry(entries[i].key, value)];
        i := i + 1;
      }
      assert kept + [] == kept;
    }

    method SanitizeList(items: seq<Json>) returns (kept: seq<Json>)
      modifies this
      ensures (kept, n) == SanitizeItems(items, old(n))
      decreases items, 1
    {
      kept := [];
      var i := 0;
      assert items[0..] == items;
      while i < |items|
        invariant 0 <= i <= |items|
        invariant SanitizeItems(items, old(n)).0 == kept + SanitizeItems(items[i..], n).0
        invariant SanitizeItems(items, old(n)).1 == SanitizeItems(items[i..], n).1
      {
        assert items[i..][1..] == items[i + 1..];
        var item := SanitizeValue(items[i]);
        kept := kept + [item];
        i := i + 1;
      }
      assert kept + [] == kept;
    }
  }

  // ---- which keys survive --------------------------------------------------------

  datatype Step = Key(key: string) | Index(i: nat)

  /** The paths of all dictionary keys below `at`, parents before children, in order. */
  function Paths(v: Json, at: seq<Step>): seq<seq<Step>>
    decreases v, 0
  {
    match v
    case Dict(entries) => EntryPaths(entries, at)
    case List(items) => ItemPaths(items, at, 0)
    case _ => []
  }

  function EntryPaths(entries: seq<Entry>, at: seq<Step>): seq<seq<Step>>
    decreases entries, 1
  {
    if entries == [] then []
    else
      var here := at + [Key(entries[0].key)];
      [here] + Paths(entries[0].value, here) + EntryPaths(entries[1..], at)
  }

  function ItemPaths(items: seq<Json>, at: seq<Step>, i: nat): seq<seq<Step>>
    decreases items, 1
  {
    if items == [] then []
    else Paths(items[0], at + [Index(i)]) + ItemPaths(items[1..], at, i + 1)
  }

  /** How many more keys a counter lets through. */
  function Budget(count: nat): nat { if count < MAX_KEYS then MAX_KEYS - count else 0 }

  function Take<T>(s: seq<T>, k: nat): seq<T> { if k < |s| then s[..k] else s }

  function Left(paths: nat, budget: nat): nat { if paths < budget then budget - paths else 0 }

  lemma TakeJoin<T>(a: seq<T>, b: seq<T>, k: nat)
    ensures Take(a, k) + Take(b, Left(|a|, k)) == Take(a + b, k)
  {}

  /** From any counter value the keys kept are the first ones in pre-order, as many as the budget
      allows, and the counter ends with what is left of the budget. */
  lemma {:induction false} KeepsFirstKeys(v: Json, count: nat, at: seq<Step>)
    ensures var (kept, after) := Sanitize(v, count);
      Paths(kept, at) == Take(Paths(v, at), Budget(count)) && Budget(after) == Left(|Paths(v, at)|, Budget(count))
    decreases v, 0
  {
    match v
    case Dict(entries) => KeepsFirstEntries(entries, count, at);
    case List(items) => KeepsFirstItems(items, count, at, 0);
    case _ =>
  }

  /** The budget spent on a key, on what is below it, and on the keys behind it. */
  lemma TakeThree(here: seq<Step>, inner: seq<seq<Step>>, outer: seq<seq<Step>>, count: nat)
    requires count + 1 <= MAX_KEYS
    ensures Take([here] + inner + outer, Budget(count))
            == [here] + Take(inner, Budget(count + 1)) + Take(outer, Left(|inner|, Budget(count + 1)))
    ensures Left(|[here] + inner + outer|, Budget(count)) == Left(|outer|, Left(|inner|, Budget(count + 1)))
  {
    TakeJoin(inner, outer, Budget(count + 1));
    TakeJoin([here], inner + outer, Budget(count));
    assert [here] + inner + outer == [here] + (inner + outer);
    assert [here] + Take(inner, Budget(count + 1)) + Take(outer, Left(|inner|, Budget(count + 1))) ==
           [here] + (Take(inner, Budget(count + 1)) + Take(outer, Left(|inner|, Budget(count + 1))));
  }

  lemma {:induction false} KeepsFirstEntries(entries: seq<Entry>, count: nat, at: seq<Step>)
    ensures var (kept, after) := SanitizeEntries(entries, count);
      EntryPaths(kept, at) == Take(EntryPaths(entries, at), Budget(count)) &&
      Budget(after) == Left(|EntryPaths(entries, at)|, Budget(count))
    decreases entries, 1
  {
    if entries != [] && count + 1 <= MAX_KEYS {
      var here := at + [Key(entries[0].key)];
      var (value, next) := Sanitize(entries[0].value, count + 1);
      var (rest, after) := SanitizeEntries(entries[1..], next);
      KeepsFirstKeys(entries[0].value, count + 1, here);
      KeepsFirstEntries(entries[1..], next, at);
      var kept := [Entry(entries[0].key, value)] + rest;
      assert kept[1..] == rest;
      TakeThree(here, Paths(entries[0].value, here), EntryPaths(entries[1..], at), count);
    }
  }

  lemma {:induction false} KeepsFirstItems(items: seq<Json>, count: nat, at: seq<Step>, i: nat)
    ensures var (kept, after) := SanitizeItems(items, count);
      ItemPaths(kept, at, i) == Take(ItemPaths(items, at, i), Budget(count)) &&
      Budget(after) == Left(|ItemPaths(items, at, i)|, Budget(count))
    decreases items, 1
  {
    if items != [] {
      var (item, next) := Sanitize(items[0], count);
      var (rest, after) := SanitizeItems(items[1..], next);
      KeepsFirstKeys(items[0], count, at + [Index(i)]);
      KeepsFirstItems(items[1..], next, at, i + 1);
      assert ([item] + rest)[1..] == rest;
      TakeJoin(Paths(items[0], at + [Index(i)]), ItemPaths(items[1..], at, i + 1), Budget(count));
    }
  }

  /** A fresh sanitizer keeps exactly the first hundred dictionary keys of a value in pre-order. */
  lemma KeepsFirstHundred(v: Json)
    ensures var before, behind := Paths(v, []), Paths(Sanitize(v, 0).0, []);
            behind == if |before| <= 100 then before else before[..100]
  {
    KeepsFirstKeys(v, 0, []);
  }

  // ---- what becomes of the rest ----------------------------------------------------

  /** `kept` is `v` with strings sanitized and trailing dictionary entries dropped; lists keep their
      length and scalars their value. */
  ghost predicate Trimmed(v: Json, kept: Json)
    decreases v
  {
    match v
    case Str(s) => kept == Str(SanitizeString(s))
    case Dict(entries) =>
      kept.Dict? && |kept.entries| <= |entries| &&
      forall i | 0 <= i < |kept.entries| ::
        kept.entries[i].key == entries[i].key && Trimmed(entries[i].value, kept.entries[i].value)
    case List(items) =>
      kept.List? && |kept.items| == |items| && forall i | 0 <= i < |items| :: Trimmed(items[i], kept.items[i])
    case _ => kept == v
  }

  lemma {:induction false} SanitizeTrims(v: Json, count: nat)
    ensures Trimmed(v, Sanitize(v, count).0)
    decreases v, 0
  {
    match v
    case Dict(entries) => SanitizeTrimsEntries(entries, count);
    case List(items) => SanitizeTrimsItems(items, count);
    case _ =>
  }

  lemma {:induction false} SanitizeTrimsEntries(entries: seq<Entry>, count: nat)
    ensures var kept := SanitizeEntries(entries, count).0;
      |kept| <= |entries| &&
      forall i | 0 <= i < |kept| :: kept[i].key == entries[i].key && Trimmed(entries[i].value, kept[i].value)
    decreases entries, 1
  {
    if entries != [] && count + 1 <= MAX_KEYS {
      SanitizeTrims(entries[0].value, count + 1);
      SanitizeTrimsEntries(entries[1..], Sanitize(entries[0].value, count + 1).1);
    }
  }

  lemma {:induction false} SanitizeTrimsItems(items: seq<Json>, count: nat)
    ensures var kept := SanitizeItems(items, count).0;
      |kept| == |items| && forall i | 0 <= i < |items| :: Trimmed(items[i], kept[i])
    decreases items, 1
  {
    if items != [] {
      SanitizeTrims(items[0], count);
      SanitizeTrimsItems(items[1..], Sanitize(items[0], count).1);
    }
  }

  ghost const HARMLESS: string -> bool := s => Harmless(s)

  lemma {:induction false} TrimmedIsHarmless(v: Json, kept: Json)
    requires Trimmed(v, kept)
    ensures AllStrings(kept, HARMLESS)
    decreases v
  {
    match v
    case Str(s) => SanitizedIsHarmless(s);
    case Dict(entries) =>
      forall i | 0 <= i < |kept.entries| ensures AllStrings(kept.entries[i].value, HARMLESS) {
        TrimmedIsHarmless(entries[i].value, kept.entries[i].value);
      }
    case List(items) =>
      forall i | 0 <= i < |kept.items| ensures AllStrings(kept.items[i], HARMLESS) {
        TrimmedIsHarmless(items[i], kept.items[i]);
      }
    case _ =>
  }

  // ---- sanitize_inputs ---------------------------------------------------------------

  predicate IsScalar(v: Json) { !v.List? && !v.Dict? }

  function ScalarEntries(entries: seq<Entry>): seq<Entry> {
    if entries == [] then []
    else (if IsScalar(entries[0].value) then [entries[0]] else []) + ScalarEntries(entries[1..])
  }

  /** sanitize_inputs on a dictionary; `size` is the length of its JSON text in bytes. */
  function SanitizeInputs(inputs: seq<Entry>, size: seq<Entry> -> nat): seq<Entry> {
    var kept := SanitizeEntries(inputs, 0).0;
    if size(kept) > MAX_JSON_BYTES then ScalarEntries(kept) else kept
  }

  lemma {:induction false} ScalarEntriesMeaning(entries: seq<Entry>, e: Entry)
    ensures e in ScalarEntries(entries) <==> e in entries && IsScalar(e.value)
  {
    if entries != [] { ScalarEntriesMeaning(entries[1..], e); }
  }

  lemma {:induction false} EntriesWithinBudget(entries: seq<Entry>, count: nat)
    ensures var (kept, after) := SanitizeEntries(entries, count);
            |kept| <= Budget(count) && after >= count
    decreases entries, 1
  {
    if entries != [] && count + 1 <= MAX_KEYS {
      CountGrows(entries[0].value, count + 1);
      EntriesWithinBudget(entries[1..], Sanitize(entries[0].value, count + 1).1);
    }
  }

  lemma {:induction false} CountGrows(v: Json, count: nat)
    ensures Sanitize(v, count).1 >= count
    decreases v, 0
  {
    match v
    case Dict(entries) => EntriesWithinBudget(entries, count);
    case List(items) => CountGrowsItems(items, count);
    case _ =>
  }

  lemma {:induction false} CountGrowsItems(items: seq<Json>, count: nat)
    ensures SanitizeItems(items, count).1 >= count
    decreases items, 1
  {
    if items != [] {
      CountGrows(items[0], count);
      CountGrowsItems(items[1..], Sanitize(items[0], count).1);
    }
  }

  lemma {:induction false} ScalarEntriesShrink(entries: seq<Entry>)
    ensures |ScalarEntries(entries)| <= |entries|
  {
    if entries != [] { ScalarEntriesShrink(entries[1..]); }
  }

  /** The scalar entries keep their order. */
  lemma {:induction false} ScalarEntriesJoin(a: seq<Entry>, b: seq<Entry>)
    ensures ScalarEntries(a + b) == ScalarEntries(a) + ScalarEntries(b)
  {
    if a == [] {
      assert a + b == b;
      assert [] + ScalarEntries(b) == ScalarEntries(b);
    } else {
      var first := if IsScalar(a[0].value) then [a[0]] else [];
      assert (a + b)[1..] == a[1..] + b;
      ScalarEntriesJoin(a[1..], b);
      assert first + (ScalarEntries(a[1..]) + ScalarEntries(b)) == (first + ScalarEntries(a[1..])) + ScalarEntries(b);
    }
  }

  /** Whatever its size, the result holds at most a hundred keys at the top, every one of them a key of
      the input, and only harmless strings; an oversized result has no nested value left. */
  lemma {:induction false} SanitizedInputsAreSafe(inputs: seq<Entry>, size: seq<Entry> -> nat)
    ensures var out := SanitizeInputs(inputs, size);
      && |out| <= 100
      && (forall e | e in out :: AllStrings(e.value, HARMLESS))
      && (forall e | e in out :: exists i :: 0 <= i < |inputs| && inputs[i].key == e.key
                                             && Trimmed(inputs[i].value, e.value))
      && (size(SanitizeEntries(inputs, 0).0) > 1_048_576 ==>
            forall e :: e in out <==> e in SanitizeEntries(inputs, 0).0 && !e.value.List? && !e.value.Dict?)
      && (size(SanitizeEntries(inputs, 0).0) <= 1_048_576 ==> out == SanitizeEntries(inputs, 0).0)
  {
    var kept := SanitizeEntries(inputs, 0).0;
    SanitizeTrimsEntries(inputs, 0);
    EntriesWithinBudget(inputs, 0);
    ScalarEntriesShrink(kept);
    forall e { ScalarEntriesMeaning(kept, e); }
    forall e | e in SanitizeInputs(inputs, size)
      ensures AllStrings(e.value, HARMLESS)
      ensures exists i :: 0 <= i < |inputs| && inputs[i].key == e.key && Trimmed(inputs[i].value, e.value)
      ensures size(kept) > MAX_JSON_BYTES ==> IsScalar(e.value)
    {
      ScalarEntriesMeaning(kept, e);
      var i :| 0 <= i < |kept| && kept[i] == e;
      TrimmedIsHarmless(inputs[i].value, e.value);
    }
  }
}
