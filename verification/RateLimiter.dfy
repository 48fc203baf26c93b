/** The fixed-window rate limiter of services/auth/app/rate_limiter.py: an INCR and an EXPIRE .. NX in
    one transaction. Time is an integer number of seconds; a key is gone from the instant it expires. */
module RateLimiter {
  import opened Basics
  import opened Json
  import opened ColonKeys

  const WINDOW := 60

  // ---- the key store -----------------------------------------------------------

  datatype Counter = Counter(count: int, expires: Option<int>)

  type Keys = map<string, Counter>

  /** f"ratelimit:{team}:{model}" */
  function KeyOf(team: string, model: string): string { "ratelimit:" + team + ":" + model }

  predicate IsLive(keys: Keys, key: string, now: int) {
    key in keys && (keys[key].expires.Some? ==> now < keys[key].expires.value)
  }

  function Incr(keys: Keys, key: string, now: int): (r: Keys)
    ensures key in r
  {
    if IsLive(keys, key, now) then keys[key := keys[key].(count := keys[key].count + 1)]
    else keys[key := Counter(1, None)]
  }

  function ExpireNx(keys: Keys, key: string, at: int): (r: Keys)
    requires key in keys
    ensures key in r
  {
    if keys[key].expires.None? then keys[key := keys[key].(expires := Some(at))] else keys
  }

  function Hit(keys: Keys, key: string, now: int): (r: Keys)
    ensures key in r
  {
    ExpireNx(Incr(keys, key, now), key, now + WINDOW)
  }

  class Limiter {
    var keys: Keys

    constructor ()
      ensures keys == map[]
    {
      keys := map[];
    }

    /** check_rate_limit; a refused request is the 429. It has been counted all the same. */
    method Check(team: string, model: string, now: int, limit: int) returns (admitted: bool)
      modifies this
      ensures keys == Hit(old(keys), KeyOf(team, model), now)
      ensures admitted <==> keys[KeyOf(team, model)].count <= limit
      ensures var key := "ratelimit:" + team + ":" + model;
              var live := key in old(keys) && (old(keys)[key].expires.None? || now < old(keys)[key].expires.value);
              var count := if live then old(keys)[key].count + 1 else 1;
              var expires := if live && old(keys)[key].expires.Some? then old(keys)[key].expires else Some(now + 60);
              keys == old(keys)[key := Counter(count, expires)] && (admitted <==> count <= limit)
    {
      var key := KeyOf(team, model);
      if key in keys && keys[key].expires.Some? && keys[key].expires.value <= now {
        keys := keys - {key};
      }
      var count := if key in keys then keys[key].count + 1 else 1;
      keys := keys[key := Counter(count, if key in keys then keys[key].expires else None)];
      if keys[key].expires.None? {
        keys := keys[key := Counter(count, Some(now + WINDOW))];
      }
      admitted := count <= limit;
    }
  }

  // ---- whole runs ------------------------------------------------------------------

  datatype Call = Call(key: string, at: int)

  function After(calls: seq<Call>): Keys {
    if calls == [] then map[]
    else
      var last := calls[|calls| - 1];
      Hit(After(calls[..|calls| - 1]), last.key, last.at)
  }

  /** What the last call of the run is told. */
  predicate LastAdmitted(calls: seq<Call>, limit: int)
    requires calls != []
  {
    After(calls)[calls[|calls| - 1].key].count <= limit
  }

  // ---- windows, told from the arrival times alone --------------------------------------

  /** The arrival times on one key. */
  function TimesOn(calls: seq<Call>, key: string): seq<int> {
    if calls == [] then []
    else
      var last := calls[|calls| - 1];
      TimesOn(calls[..|calls| - 1], key) + if last.key == key then [last.at] else []
  }

  /** The position of the call that opened the window of the last call. */
  function Opening(times: seq<int>): (w: nat)
    requires times != []
    ensures w < |times|
  {
    var n := |times| - 1;
    if n == 0 then 0
    else
      var w := Opening(times[..n]);
      if times[n] >= times[w] + WINDOW then n else w
  }

  function Start(times: seq<int>, i: nat): (w: nat)
    requires i < |times|
    ensures w <= i
  {
    Opening(times[..i + 1])
  }

  /** Call i is among the first `limit` of its window. */
  predicate Passes(times: seq<int>, i: nat, limit: int)
    requires i < |times|
  {
    i - Start(times, i) < limit
  }

  predicate Sorted(times: seq<int>) {
    forall i, j :: 0 <= i < j < |times| ==> times[i] <= times[j]
  }

  /** The stored counter is the position in the window, and its expiry the window's end: other keys,
      and requests refused, change neither. */
  lemma {:induction false} CounterMeaning(calls: seq<Call>, key: string)
    ensures var times := TimesOn(calls, key);
            key in After(calls) <==> times != []
    ensures var times := TimesOn(calls, key);
            times != [] ==>
              After(calls)[key] == Counter(|times| - Opening(times), Some(times[Opening(times)] + WINDOW))
  {
    if calls != [] {
      var n := |calls| - 1;
      CounterMeaning(calls[..n], key);
      var times := TimesOn(calls, key);
      if calls[n].key == key {
        assert times[..|times| - 1] == TimesOn(calls[..n], key);
      } else {
        assert times == TimesOn(calls[..n], key);
      }
    }
  }

  /** Each window admits exactly its first `limit` requests. */
  lemma WindowAdmitsItsFirst(calls: seq<Call>, limit: int)
    requires calls != []
    ensures var times := TimesOn(calls, calls[|calls| - 1].key);
            times != [] && (LastAdmitted(calls, limit) <==> Passes(times, |times| - 1, limit))
  {
    var key := calls[|calls| - 1].key;
    CounterMeaning(calls, key);
    var times := TimesOn(calls, key);
    assert times[..|times|] == times;
  }

  lemma StartStep(times: seq<int>, i: nat)
    requires 0 < i < |times|
    ensures Start(times, i) == if times[i] >= times[Start(times, i - 1)] + WINDOW then i else Start(times, i - 1)
  {
    assert times[..i + 1][..i] == times[..i];
  }

  /** Two windows of a key start at least a window's length apart, whatever came in between; and the later
      one starts after every call of the earlier one. */
  lemma {:induction false} StartsApart(times: seq<int>, i: nat, j: nat)
    requires i <= j < |times|
    ensures Start(times, i) != Start(times, j) ==>
              i < Start(times, j) && times[Start(times, j)] >= times[Start(times, i)] + WINDOW
    decreases j
  {
    if i < j {
      StartStep(times, j);
      StartsApart(times, i, j - 1);
    }
  }

  // ---- the load in any sixty seconds ------------------------------------------------------

  predicate Within(at: int, from: int) { from <= at < from + WINDOW }

  /** How many calls on a key were admitted in the half-open interval of one window's length. */
  function AdmittedWithin(calls: seq<Call>, key: string, limit: int, from: int): nat {
    if calls == [] then 0
    else
      var last := calls[|calls| - 1];
      AdmittedWithin(calls[..|calls| - 1], key, limit, from)
      + if last.key == key && Within(last.at, from) && LastAdmitted(calls, limit) then 1 else 0
  }

  function PassingWithin(times: seq<int>, limit: int, from: int): set<nat> {
    set i: nat | i < |times| && Within(times[i], from) && Passes(times, i, limit)
  }

  lemma PassingGrows(times: seq<int>, at: int, limit: int, from: int)
    ensures var longer := times + [at];
            PassingWithin(longer, limit, from) == PassingWithin(times, limit, from)
            + if Within(at, from) && Passes(longer, |times|, limit) then {|times|} else {}
  {
    var longer := times + [at];
    forall i: nat | i < |times|
      ensures Passes(longer, i, limit) <==> Passes(times, i, limit)
    {
      assert longer[..i + 1] == times[..i + 1];
    }
  }

  lemma {:induction false} AdmittedArePassing(calls: seq<Call>, key: string, limit: int, from: int)
    ensures AdmittedWithin(calls, key, limit, from) == |PassingWithin(TimesOn(calls, key), limit, from)|
  {
    if calls == [] {
      assert PassingWithin([], limit, from) == {};
    } else {
      var n := |calls| - 1;
      var last, before := calls[n], TimesOn(calls[..n], key);
      AdmittedArePassing(calls[..n], key, limit, from);
      WindowAdmitsItsFirst(calls, limit);
      if last.key == key {
        PassingGrows(before, last.at, limit, from);
      } else {
        assert TimesOn(calls, key) == before;
      }
    }
  }

  function Range(from: nat, size: nat): (s: set<nat>)
    ensures |s| == size
    ensures forall i: nat :: i in s <==> from <= i < from + size
  {
    if size == 0 then {} else Range(from, size - 1) + {from + size - 1}
  }

  /** Calls of one window: no more than the limit. */
  lemma OneWindow(times: seq<int>, limit: int, from: int, w: nat)
    requires limit >= 0
    requires forall i :: i in PassingWithin(times, limit, from) ==> Start(times, i) == w
    ensures |PassingWithin(times, limit, from)| <= limit
  {
    SubsetSize(PassingWithin(times, limit, from), Range(w, limit));
  }

  /** With calls i and j of two windows in the interval, a further call in it belongs to one of them. */
  lemma OnlyTwoWindows(times: seq<int>, from: int, i: nat, j: nat, k: nat)
    requires Sorted(times) && i < j < |times| && k < |times|
    requires Within(times[i], from) && Within(times[j], from) && Within(times[k], from)
    requires Start(times, i) != Start(times, j)
    ensures Start(times, k) == Start(times, i) || Start(times, k) == Start(times, j)
  {
    StartsApart(times, i, j);
    if k <= i {
      StartsApart(times, k, i);
      StartsApart(times, k, j);
    } else if k <= j {
      StartsApart(times, i, k);
      StartsApart(times, k, j);
    } else {
      StartsApart(times, i, k);
      StartsApart(times, j, k);
    }
  }

  /** Calls of two windows i and j: those of the first cannot include its opening call, so that one less
      than twice the limit fit. */
  lemma TwoWindows(times: seq<int>, limit: int, from: int, i: nat, j: nat)
    requires limit >= 1 && Sorted(times)
    requires i < j && i in PassingWithin(times, limit, from) && j in PassingWithin(times, limit, from)
    requires Start(times, i) != Start(times, j)
    ensures |PassingWithin(times, limit, from)| <= 2 * limit - 1
  {
    var v, w := Start(times, i), Start(times, j);
    StartsApart(times, i, j);
    assert times[v] < from;
    var both := Range(v + 1, limit - 1) + Range(w, limit);
    forall k | k in PassingWithin(times, limit, from)
      ensures k in both
    {
      OnlyTwoWindows(times, from, i, j, k);
      assert Start(times, k) <= k;
    }
    SubsetSize(PassingWithin(times, limit, from), both);
  }

  lemma PassingBounded(times: seq<int>, limit: int, from: int)
    requires limit >= 1 && Sorted(times)
    ensures |PassingWithin(times, limit, from)| <= 2 * limit - 1
  {
    var s := PassingWithin(times, limit, from);
    if i, j :| i in s && j in s && i < j && Start(times, i) != Start(times, j) {
      TwoWindows(times, limit, from, i, j);
    } else if s != {} {
      var w :| w in s;
      OneWindow(times, limit, from, Start(times, w));
    }
  }

  predicate InOrder(calls: seq<Call>) {
    forall i, j :: 0 <= i < j < |calls| ==> calls[i].at <= calls[j].at
  }

  lemma {:induction false} TimesSorted(calls: seq<Call>, key: string)
    requires InOrder(calls)
    ensures Sorted(TimesOn(calls, key))
    ensures forall t :: t in TimesOn(calls, key) ==> calls != [] && t <= calls[|calls| - 1].at
  {
    if calls != [] {
      var n := |calls| - 1;
      TimesSorted(calls[..n], key);
      var before := TimesOn(calls[..n], key);
      assert forall i :: 0 <= i < |before| ==> before[i] in before;
    }
  }

  /** No sixty seconds, wherever they start, admit more than one less than twice the limit. */
  lemma AdmissionsBounded(calls: seq<Call>, key: string, limit: int, from: int)
    requires InOrder(calls)
    ensures limit >= 1 ==> AdmittedWithin(calls, key, limit, from) <= 2 * limit - 1
    ensures limit < 1 ==> AdmittedWithin(calls, key, limit, from) == 0
  {
    var times := TimesOn(calls, key);
    AdmittedArePassing(calls, key, limit, from);
    TimesSorted(calls, key);
    if limit >= 1 {
      PassingBounded(times, limit, from);
    } else {
      assert PassingWithin(times, limit, from) == {};
    }
  }

  // ---- the bound is reached ------------------------------------------------------------------

  /** One call that opens a window, the rest of its allowance at the very end, then a full window. */
  function Burst(limit: nat): seq<int> { [0] + seq(limit, _ => 59) + seq(limit, _ => 60) }

  lemma {:induction false} BurstStart(limit: nat, i: nat)
    requires i < |Burst(limit)|
    ensures Start(Burst(limit), i) == if i <= limit then 0 else limit + 1
  {
    if i > 0 {
      StartStep(Burst(limit), i);
      BurstStart(limit, i - 1);
    }
  }

  lemma BurstPasses(limit: nat, i: nat)
    requires i < |Burst(limit)|
    ensures Within(Burst(limit)[i], 1) && Passes(Burst(limit), i, limit)
            <==> 1 <= i < limit || limit + 1 <= i < limit + 1 + limit
  {
    BurstStart(limit, i);
  }

  lemma BurstSorted(limit: nat)
    ensures Sorted(Burst(limit))
  {}

  lemma UnionSize(s: set<nat>, t: set<nat>)
    requires s !! t
    ensures |s + t| == |s| + |t|
  {}

  lemma BurstLoad(limit: int)
    requires limit >= 1
    ensures |PassingWithin(Burst(limit), limit, 1)| == 2 * limit - 1
  {
    var passing := PassingWithin(Burst(limit), limit, 1);
    var early, late := Range(1, limit - 1), Range(limit + 1, limit);
    forall i: nat
      ensures i in passing <==> i in early || i in late
    {
      if i < |Burst(limit)| { BurstPasses(limit, i); }
    }
    assert passing == early + late;
    UnionSize(early, late);
  }

  function CallsAt(key: string, times: seq<int>): seq<Call> {
    seq(|times|, i requires 0 <= i < |times| => Call(key, times[i]))
  }

  lemma {:induction false} TimesOfCalls(key: string, times: seq<int>)
    ensures TimesOn(CallsAt(key, times), key) == times
  {
    if times != [] {
      var n := |times| - 1;
      TimesOfCalls(key, times[..n]);
      assert CallsAt(key, times)[..n] == CallsAt(key, times[..n]);
    }
  }

  /** For every key and limit there is a run in which sixty seconds admit exactly as many. */
  lemma BoundIsReached(key: string, limit: int)
    requires limit >= 1
    ensures InOrder(CallsAt(key, Burst(limit)))
    ensures AdmittedWithin(CallsAt(key, Burst(limit)), key, limit, 1) == 2 * limit - 1
  {
    BurstSorted(limit);
    BurstLoad(limit);
    TimesOfCalls(key, Burst(limit));
    AdmittedArePassing(CallsAt(key, Burst(limit)), key, limit, 1);
  }

  // ---- whose requests share a counter ------------------------------------------------------------


  /** Teams whose identifiers hold no colon never share a counter. */
  lemma KeysAreSeparate(team: string, model: string, team': string, model': string)
    requires ':' !in team && ':' !in team'
    ensures KeyOf(team, model) == KeyOf(team', model') <==> team == team' && model == model'
  {
    if KeyOf(team, model) == KeyOf(team', model') {
      assert team + ":" + model == KeyOf(team, model)[10..];
      assert team' + ":" + model' == KeyOf(team', model')[10..];
      SplitAtFirst(team, model, team', model');
    }
  }
}
