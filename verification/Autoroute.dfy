/** Feedback routing of services/cache/app/autoroute.py: counters in per-minute buckets that expire, summed
    over the last five minutes, scored, and used to choose a model. Time is in whole seconds; numbers are
    reals. */
module Autoroute {
  import opened Json

  datatype Metric = Requests | Hits | Latency | Errors

  datatype Key = Key(model: string, metric: Metric, minute: int)

  datatype Bucket = Bucket(value: real, expires: int)

  type Buckets = map<Key, Bucket>

  const WINDOW := 5
  const BUCKET_TTL := 360
  const EXPLORATION := 0.5

  /** One finished request. */
  datatype Event = Event(model: string, latency: real, hit: bool, error: bool, at: int)

  function Minute(at: int): int { at / 60 }

  // ---- recording -----------------------------------------------------------------------

  predicate IsLive(buckets: Buckets, key: Key, now: int) { key in buckets && now < buckets[key].expires }

  /** INCR or INCRBYFLOAT, then EXPIRE. */
  function Bump(buckets: Buckets, key: Key, amount: real, now: int): Buckets {
    buckets[key := Bucket((if IsLive(buckets, key, now) then buckets[key].value else 0.0) + amount, now + BUCKET_TTL)]
  }

  /** What an event adds to a metric; None when it leaves the bucket alone. */
  function Adds(e: Event, metric: Metric): Option<real> {
    match metric
    case Requests => Some(1.0)
    case Hits => if e.hit then Some(1.0) else None
    case Latency => Some(e.latency)
    case Errors => if e.error then Some(1.0) else None
  }

  function BumpFor(buckets: Buckets, e: Event, metric: Metric): Buckets {
    match Adds(e, metric)
    case Some(amount) => Bump(buckets, Key(e.model, metric, Minute(e.at)), amount, e.at)
    case None => buckets
  }

  function Record(buckets: Buckets, e: Event): Buckets {
    BumpFor(BumpFor(BumpFor(BumpFor(buckets, e, Requests), e, Hits), e, Latency), e, Errors)
  }

  function After(log: seq<Event>): Buckets {
    if log == [] then map[] else Record(After(log[..|log| - 1]), log[|log| - 1])
  }

  // ---- reading ---------------------------------------------------------------------------

  function ValueAt(buckets: Buckets, key: Key, now: int): real {
    if IsLive(buckets, key, now) then buckets[key].value else 0.0
  }

  /** The sum over the newest `k` minutes. */
  function SumNewest(buckets: Buckets, model: string, metric: Metric, now: int, k: nat): real {
    if k == 0 then 0.0
    else SumNewest(buckets, model, metric, now, k - 1)
         + ValueAt(buckets, Key(model, metric, Minute(now) - (k - 1)), now)
  }

  /** _sum_buckets */
  function SumBuckets(buckets: Buckets, model: string, metric: Metric, now: int): real {
    SumNewest(buckets, model, metric, now, WINDOW)
  }

  // ---- the event log ------------------------------------------------------------------------

  function Amount(e: Event, metric: Metric): real {
    match Adds(e, metric)
    case Some(amount) => amount
    case None => 0.0
  }

  /** The total over the events of a model in the minutes from .. to. */
  function Total(log: seq<Event>, model: string, metric: Metric, from: int, upTo: int): real {
    if log == [] then 0.0
    else
      var e := log[|log| - 1];
      Total(log[..|log| - 1], model, metric, from, upTo)
      + if e.model == model && from <= Minute(e.at) <= upTo then Amount(e, metric) else 0.0
  }

  lemma BumpForOther(buckets: Buckets, e: Event, metric: Metric, key: Key)
    requires key.metric != metric || key.model != e.model || key.minute != Minute(e.at)
    ensures key in BumpFor(buckets, e, metric) <==> key in buckets
    ensures key in buckets ==> BumpFor(buckets, e, metric)[key] == buckets[key]
  {}

  /** Recording touches a bucket just as bumping it for its own metric does. */
  lemma RecordAt(buckets: Buckets, e: Event, key: Key)
    ensures key in Record(buckets, e) <==> key in BumpFor(buckets, e, key.metric)
    ensures key in Record(buckets, e) ==> Record(buckets, e)[key] == BumpFor(buckets, e, key.metric)[key]
  {
    var b1 := BumpFor(buckets, e, Requests);
    var b2 := BumpFor(b1, e, Hits);
    var b3 := BumpFor(b2, e, Latency);
    if key.metric != Requests { BumpForOther(buckets, e, Requests, key); }
    if key.metric != Hits { BumpForOther(b1, e, Hits, key); }
    if key.metric != Latency { BumpForOther(b2, e, Latency, key); }
    if key.metric != Errors { BumpForOther(b3, e, Errors, key); }
  }

  /** The bucket an event counts in is still alive when it is bumped. */
  lemma BumpForOwn(buckets: Buckets, e: Event, metric: Metric)
    requires var key := Key(e.model, metric, Minute(e.at));
             key in buckets ==> buckets[key].expires >= 60 * key.minute + BUCKET_TTL
    ensures var key := Key(e.model, metric, Minute(e.at));
            var after := BumpFor(buckets, e, metric);
            var before := if key in buckets then buckets[key].value else 0.0;
            (key in after ==> after[key].value == before + Amount(e, metric)
                              && after[key].expires >= 60 * key.minute + BUCKET_TTL)
            && (key !in after ==> before + Amount(e, metric) == 0.0)
  {}

  /** A bucket holds the total of its minute, and lives for five minutes past the end of that minute. */
  lemma {:induction false} BucketMeaning(log: seq<Event>, key: Key)
    ensures key in After(log) ==> After(log)[key].value == Total(log, key.model, key.metric, key.minute, key.minute)
    ensures key in After(log) ==> After(log)[key].expires >= 60 * key.minute + BUCKET_TTL
    ensures key !in After(log) ==> Total(log, key.model, key.metric, key.minute, key.minute) == 0.0
  {
    if log != [] {
      var n := |log| - 1;
      var before := After(log[..n]);
      BucketMeaning(log[..n], key);
      RecordAt(before, log[n], key);
      if key.model == log[n].model && key.minute == Minute(log[n].at) {
        BumpForOwn(before, log[n], key.metric);
      } else {
        BumpForOther(before, log[n], key.metric, key);
      }
    }
  }

  lemma {:induction false} TotalSplits(log: seq<Event>, model: string, metric: Metric, from: int, middle: int,
                                       upTo: int)
    requires from <= middle <= upTo
    ensures Total(log, model, metric, from, upTo)
            == Total(log, model, metric, from, middle - 1) + Total(log, model, metric, middle, upTo)
  {
    if log != [] { TotalSplits(log[..|log| - 1], model, metric, from, middle, upTo); }
  }

  lemma {:induction false} NewestMeaning(log: seq<Event>, model: string, metric: Metric, now: int, k: nat)
    requires k <= WINDOW
    ensures SumNewest(After(log), model, metric, now, k) == Total(log, model, metric, Minute(now) - k + 1, Minute(now))
  {
    if k == 0 {
      EmptyTotal(log, model, metric, Minute(now) + 1, Minute(now));
    } else {
      var minute := Minute(now) - (k - 1);
      NewestMeaning(log, model, metric, now, k - 1);
      BucketMeaning(log, Key(model, metric, minute));
      if k == 1 {
        EmptyTotal(log, model, metric, minute + 1, Minute(now));
      } else {
        TotalSplits(log, model, metric, minute, minute + 1, Minute(now));
      }
    }
  }

  lemma {:induction false} EmptyTotal(log: seq<Event>, model: string, metric: Metric, from: int, upTo: int)
    requires upTo < from
    ensures Total(log, model, metric, from, upTo) == 0.0
  {
    if log != [] { EmptyTotal(log[..|log| - 1], model, metric, from, upTo); }
  }

  /** At every instant the buckets sum to the events of the current minute and the four before it: no
      bucket of the window has expired. */
  lemma BucketsRefineLog(log: seq<Event>, model: string, metric: Metric, now: int)
    ensures SumBuckets(After(log), model, metric, now) == Total(log, model, metric, Minute(now) - 4, Minute(now))
  {
    NewestMeaning(log, model, metric, now, WINDOW);
  }

  // ---- the totals, from the events ----------------------------------------------------------------

  /** The event is of this model and in the current minute or one of the four before it. */
  predicate IsRecent(e: Event, model: string, now: int) { e.model == model && now / 60 - 4 <= e.at / 60 <= now / 60 }

  ghost function Recent(log: seq<Event>, model: string, now: int): set<int> {
    set i | 0 <= i < |log| && IsRecent(log[i], model, now)
  }

  ghost function RecentHits(log: seq<Event>, model: string, now: int): set<int> {
    set i | 0 <= i < |log| && IsRecent(log[i], model, now) && log[i].hit
  }

  ghost function RecentErrors(log: seq<Event>, model: string, now: int): set<int> {
    set i | 0 <= i < |log| && IsRecent(log[i], model, now) && log[i].error
  }

  /** The latencies of recent events, added up. */
  function RecentLatency(log: seq<Event>, model: string, now: int): real {
    if log == [] then 0.0
    else (if IsRecent(log[0], model, now) then log[0].latency else 0.0) + RecentLatency(log[1..], model, now)
  }

  lemma {:induction false} LatencyBehind(log: seq<Event>, e: Event, model: string, now: int)
    ensures RecentLatency(log + [e], model, now)
            == RecentLatency(log, model, now) + if IsRecent(e, model, now) then e.latency else 0.0
  {
    if log == [] {
      assert [e][1..] == [] && [] + [e] == [e];
    } else {
      assert (log + [e])[1..] == log[1..] + [e];
      LatencyBehind(log[1..], e, model, now);
    }
  }

  lemma CountGrows(before: set<int>, after: set<int>, n: int, grows: bool)
    requires n !in before && after == if grows then before + {n} else before
    ensures |after| == |before| + if grows then 1 else 0
  {}

  lemma RecentGrows(before: seq<Event>, e: Event, model: string, now: int)
    ensures |Recent(before + [e], model, now)|
            == |Recent(before, model, now)| + if IsRecent(e, model, now) then 1 else 0
  {
    var log, counted := before + [e], Recent(before, model, now);
    assert forall i | 0 <= i < |before| :: log[i] == before[i];
    CountGrows(counted, Recent(log, model, now), |before|, IsRecent(e, model, now));
  }

  lemma HitsGrow(before: seq<Event>, e: Event, model: string, now: int)
    ensures |RecentHits(before + [e], model, now)|
            == |RecentHits(before, model, now)| + if IsRecent(e, model, now) && e.hit then 1 else 0
  {
    var log, counted := before + [e], RecentHits(before, model, now);
    assert forall i | 0 <= i < |before| :: log[i] == before[i];
    CountGrows(counted, RecentHits(log, model, now), |before|, IsRecent(e, model, now) && e.hit);
  }

  lemma ErrorsGrow(before: seq<Event>, e: Event, model: string, now: int)
    ensures |RecentErrors(before + [e], model, now)|
            == |RecentErrors(before, model, now)| + if IsRecent(e, model, now) && e.error then 1 else 0
  {
    var log, counted := before + [e], RecentErrors(before, model, now);
    assert forall i | 0 <= i < |before| :: log[i] == before[i];
    CountGrows(counted, RecentErrors(log, model, now), |before|, IsRecent(e, model, now) && e.error);
  }

  lemma {:induction false} TotalsAre(log: seq<Event>, model: string, now: int)
    ensures var from, upTo := Minute(now) - 4, Minute(now);
            && Total(log, model, Requests, from, upTo) == |Recent(log, model, now)| as real
            && Total(log, model, Hits, from, upTo) == |RecentHits(log, model, now)| as real
            && Total(log, model, Errors, from, upTo) == |RecentErrors(log, model, now)| as real
            && Total(log, model, Latency, from, upTo) == RecentLatency(log, model, now)
  {
    if log != [] {
      var n := |log| - 1;
      var before, e := log[..n], log[n];
      TotalsAre(before, model, now);
      assert log == before + [e];
      LatencyBehind(before, e, model, now);
      RecentGrows(before, e, model, now);
      HitsGrow(before, e, model, now);
      ErrorsGrow(before, e, model, now);
    }
  }

  /** At every instant the sums read from the buckets are the number of requests of the model in the five
      minutes, of those that hit, of those that failed, and the sum of their latencies. */
  lemma SumsCountEvents(log: seq<Event>, model: string, now: int)
    ensures SumBuckets(After(log), model, Requests, now) == |Recent(log, model, now)| as real
    ensures SumBuckets(After(log), model, Hits, now) == |RecentHits(log, model, now)| as real
    ensures SumBuckets(After(log), model, Errors, now) == |RecentErrors(log, model, now)| as real
    ensures SumBuckets(After(log), model, Latency, now) == RecentLatency(log, model, now)
  {
    TotalsAre(log, model, now);
    BucketsRefineLog(log, model, Requests, now);
    BucketsRefineLog(log, model, Hits, now);
    BucketsRefineLog(log, model, Errors, now);
    BucketsRefineLog(log, model, Latency, now);
  }

  /** A bucket is kept for six minutes after the last request of its minute. */
  lemma BucketLives(log: seq<Event>, e: Event, now: int)
    ensures IsLive(After(log + [e]), Key(e.model, Requests, e.at / 60), now) <==> now < e.at + 360
  {
    AfterGrows(log, e);
    RecordAt(After(log), e, Key(e.model, Requests, Minute(e.at)));
  }

  // ---- the score ----------------------------------------------------------------------------------

  function Score(requests: real, hits: real, latency: real, errors: real): real
    requires requests > 0.0 && latency >= 0.0
  {
    AboveZero(latency, requests);
    hits / requests * 0.4 + 1.0 / (latency / requests / 1000.0 + 1.0) * 0.4 + (1.0 - errors / requests) * 0.2
  }

  lemma AboveZero(a: real, b: real)
    requires a >= 0.0 && b > 0.0
    ensures a / b >= 0.0
  {}

  lemma QuotientMonotone(a: real, b: real, c: real)
    requires a <= b && c > 0.0
    ensures a / c <= b / c
  {
    assert b / c - a / c == (b - a) / c;
    AboveZero(b - a, c);
  }

  lemma InverseAntitone(a: real, b: real)
    requires 0.0 < a <= b
    ensures 0.0 < 1.0 / b <= 1.0 / a
  {
    assert 1.0 / a - 1.0 / b == (b - a) / (a * b);
    AboveZero(b - a, a * b);
  }

  lemma LatencyTerm(requests: real, latency: real, latency': real)
    requires requests > 0.0 && 0.0 <= latency <= latency'
    ensures latency / requests >= 0.0 && latency' / requests >= 0.0
    ensures 0.0 < 1.0 / (latency' / requests / 1000.0 + 1.0) <= 1.0 / (latency / requests / 1000.0 + 1.0) <= 1.0
  {
    AboveZero(latency, requests);
    QuotientMonotone(latency, latency', requests);
    var a, b := latency / requests / 1000.0 + 1.0, latency' / requests / 1000.0 + 1.0;
    InverseAntitone(a, b);
    InverseAntitone(1.0, a);
  }

  lemma ScoreBounds(requests: real, hits: real, latency: real, errors: real)
    requires requests > 0.0 && latency >= 0.0 && 0.0 <= hits <= requests && 0.0 <= errors <= requests
    ensures 0.0 < Score(requests, hits, latency, errors) <= 1.0
  {
    LatencyTerm(requests, latency, latency);
    AboveZero(hits, requests);
    AboveZero(errors, requests);
    QuotientMonotone(hits, requests, requests);
    QuotientMonotone(errors, requests, requests);
  }

  /** More hits, fewer errors and less time never lower a score. */
  lemma ScoreMonotone(requests: real, hits: real, latency: real, errors: real, hits': real, latency': real,
                      errors': real)
    requires requests > 0.0 && 0.0 <= latency' <= latency && hits <= hits' && errors' <= errors
    ensures Score(requests, hits, latency, errors) <= Score(requests, hits', latency', errors')
  {
    LatencyTerm(requests, latency', latency);
    QuotientMonotone(hits, hits', requests);
    QuotientMonotone(errors', errors, requests);
  }

  predicate HasLatencies(log: seq<Event>) { forall e :: e in log ==> e.latency >= 0.0 }

  lemma {:induction false} TotalBounds(log: seq<Event>, model: string, from: int, upTo: int)
    requires HasLatencies(log)
    ensures 0.0 <= Total(log, model, Hits, from, upTo) <= Total(log, model, Requests, from, upTo)
    ensures 0.0 <= Total(log, model, Errors, from, upTo) <= Total(log, model, Requests, from, upTo)
    ensures 0.0 <= Total(log, model, Latency, from, upTo)
  {
    if log != [] { TotalBounds(log[..|log| - 1], model, from, upTo); }
  }

  /** What a model is worth on the evidence of a log. */
  function Worth(log: seq<Event>, model: string, now: int): (w: real)
    requires HasLatencies(log)
    ensures 0.0 <= w <= 1.0
  {
    var from, upTo := Minute(now) - 4, Minute(now);
    TotalBounds(log, model, from, upTo);
    var requests := Total(log, model, Requests, from, upTo);
    if requests == 0.0 then EXPLORATION
    else
      ScoreBounds(requests, Total(log, model, Hits, from, upTo), Total(log, model, Latency, from, upTo),
                  Total(log, model, Errors, from, upTo));
      Score(requests, Total(log, model, Hits, from, upTo), Total(log, model, Latency, from, upTo),
            Total(log, model, Errors, from, upTo))
  }

  /** What that is: one half without requests, and otherwise four tenths of the hit rate, four tenths for speed,
      and two tenths of the share of requests that did not fail. */
  lemma WorthMeaning(log: seq<Event>, model: string, now: int, r: real, h: real, l: real, e: real)
    requires HasLatencies(log)
    requires r == |Recent(log, model, now)| as real && l == RecentLatency(log, model, now)
    requires h == |RecentHits(log, model, now)| as real && e == |RecentErrors(log, model, now)| as real
    ensures r == 0.0 ==> Worth(log, model, now) == 0.5
    ensures r != 0.0 ==> l / r / 1000.0 + 1.0 > 0.0
    ensures r != 0.0 ==>
              Worth(log, model, now)
              == 0.4 * (h / r) + 0.4 * (1.0 / (l / r / 1000.0 + 1.0)) + 0.2 * (1.0 - e / r)
  {
    TotalsAre(log, model, now);
    TotalBounds(log, model, Minute(now) - 4, Minute(now));
    if r != 0.0 { AboveZero(l, r); }
  }

  // ---- the service ------------------------------------------------------------------------------------

  /** The score as it is computed from the buckets; what has no requests in the window is to be explored. */
  function BucketScore(buckets: Buckets, model: string, now: int): real
    requires SumBuckets(buckets, model, Requests, now) >= 0.0 && SumBuckets(buckets, model, Latency, now) >= 0.0
  {
    var requests := SumBuckets(buckets, model, Requests, now);
    if requests == 0.0 then EXPLORATION
    else Score(requests, SumBuckets(buckets, model, Hits, now), SumBuckets(buckets, model, Latency, now),
               SumBuckets(buckets, model, Errors, now))
  }

  lemma BucketScoreIsWorth(log: seq<Event>, model: string, now: int)
    requires HasLatencies(log)
    ensures SumBuckets(After(log), model, Requests, now) >= 0.0 && SumBuckets(After(log), model, Latency, now) >= 0.0
    ensures BucketScore(After(log), model, now) == Worth(log, model, now)
  {
    BucketsRefineLog(log, model, Requests, now);
    BucketsRefineLog(log, model, Hits, now);
    BucketsRefineLog(log, model, Latency, now);
    BucketsRefineLog(log, model, Errors, now);
    TotalBounds(log, model, Minute(now) - 4, Minute(now));
  }

  lemma RecordIs(b0: Buckets, b1: Buckets, b2: Buckets, b3: Buckets, b4: Buckets, e: Event)
    requires b1 == BumpFor(b0, e, Requests) && b2 == BumpFor(b1, e, Hits)
    requires b3 == BumpFor(b2, e, Latency) && b4 == BumpFor(b3, e, Errors)
    ensures b4 == Record(b0, e)
  {}

  lemma AfterGrows(log: seq<Event>, e: Event)
    ensures After(log + [e]) == Record(After(log), e)
  {
    assert (log + [e])[..|log|] == log;
  }

  /** The models some live request bucket belongs to. */
  function Tracked(buckets: Buckets, now: int): set<string> {
    set key | key in buckets && key.metric == Requests && IsLive(buckets, key, now) :: key.model
  }

  lemma {:induction false} UntrackedSum(buckets: Buckets, model: string, now: int, k: nat)
    requires model !in Tracked(buckets, now)
    ensures SumNewest(buckets, model, Requests, now, k) == 0.0
  {
    if k > 0 { UntrackedSum(buckets, model, now, k - 1); }
  }

  function ScoreIn(scores: map<string, real>, model: string): real {
    if model in scores then scores[model] else EXPLORATION
  }

  function Eligible(candidates: seq<string>, complex: seq<string>): seq<string> {
    if candidates == [] then []
    else
      var last := candidates[|candidates| - 1];
      Eligible(candidates[..|candidates| - 1], complex) + if last in complex then [last] else []
  }

  lemma {:induction false} EligibleMeaning(candidates: seq<string>, complex: seq<string>, m: string)
    ensures m in Eligible(candidates, complex) <==> m in candidates && m in complex
  {
    if candidates != [] {
      var n := |candidates| - 1;
      EligibleMeaning(candidates[..n], complex, m);
      assert candidates == candidates[..n] + [candidates[n]];
    }
  }

  const COMPLEX_INTENTS := {"code_generation", "debugging", "refactoring", "testing"}

  class Router {
    var buckets: Buckets
    ghost var log: seq<Event>

    ghost predicate Valid()
      reads this
    {
      buckets == After(log) && HasLatencies(log)
    }

    constructor ()
      ensures Valid() && log == []
    {
      buckets, log := map[], [];
    }

    method RecordRequest(model: string, latency: real, hit: bool, error: bool, now: int)
      requires Valid() && latency >= 0.0
      modifies this
      ensures Valid() && log == old(log) + [Event(model, latency, hit, error, now)]
    {
      ghost var e := Event(model, latency, hit, error, now);
      var minute := Minute(now);
      ghost var b0 := buckets;
      buckets := Bump(buckets, Key(model, Requests, minute), 1.0, now);
      ghost var b1 := buckets;
      assert b1 == BumpFor(b0, e, Requests);
      if hit {
        buckets := Bump(buckets, Key(model, Hits, minute), 1.0, now);
      }
      ghost var b2 := buckets;
      assert b2 == BumpFor(b1, e, Hits);
      buckets := Bump(buckets, Key(model, Latency, minute), latency, now);
      ghost var b3 := buckets;
      assert b3 == BumpFor(b2, e, Latency);
      if error {
        buckets := Bump(buckets, Key(model, Errors, minute), 1.0, now);
      }
      assert buckets == BumpFor(b3, e, Errors);
      RecordIs(b0, b1, b2, b3, buckets, e);
      log := log + [e];
      AfterGrows(old(log), e);
    }

    /** get_model_scores: a model without a score counts as one to explore, so that every model is scored
        on the evidence of the log. */
    method GetModelScores(now: int) returns (scores: map<string, real>)
      requires Valid()
      ensures forall m :: ScoreIn(scores, m) == Worth(log, m, now)
    {
      scores := map[];
      var names := Tracked(buckets, now);
      while names != {}
        invariant names <= Tracked(buckets, now)
        invariant scores.Keys == Tracked(buckets, now) - names
        invariant forall m :: m in scores ==> scores[m] == Worth(log, m, now)
        decreases |names|
      {
        var m :| m in names;
        BucketScoreIsWorth(log, m, now);
        scores := scores[m := BucketScore(buckets, m, now)];
        names := names - {m};
      }
      forall m | m !in scores
        ensures Worth(log, m, now) == EXPLORATION
      {
        UntrackedSum(buckets, m, now, WINDOW);
        BucketScoreIsWorth(log, m, now);
      }
    }

    /** select_best_model: the first of the best; no candidates is an error. */
    method SelectBestModel(candidates: seq<string>, now: int) returns (best: Option<string>)
      requires Valid()
      ensures best.None? <==> candidates == []
      ensures best.Some? ==>
                exists i :: 0 <= i < |candidates| && best.value == candidates[i]
                  && (forall j :: 0 <= j < |candidates| ==>
                      Worth(log, candidates[j], now) <= Worth(log, best.value, now))
                  && forall j :: 0 <= j < i ==> Worth(log, candidates[j], now) < Worth(log, best.value, now)
    {
      if candidates == [] {
        return None;
      }
      var scores := GetModelScores(now);
      var i, n := 0, 1;
      while n < |candidates|
        invariant 0 <= i < n <= |candidates|
        invariant forall j :: 0 <= j < n ==> ScoreIn(scores, candidates[j]) <= ScoreIn(scores, candidates[i])
        invariant forall j :: 0 <= j < i ==> ScoreIn(scores, candidates[j]) < ScoreIn(scores, candidates[i])
      {
        if ScoreIn(scores, candidates[n]) > ScoreIn(scores, candidates[i]) {
          i := n;
        }
        n := n + 1;
      }
      assert forall j :: 0 <= j < |candidates| ==> ScoreIn(scores, candidates[j]) == Worth(log, candidates[j], now);
      best := Some(candidates[i]);
    }

    /** select_model_for_intent: a demanding intent gets a complex model when a candidate is one, and of
        those allowed the best. */
    method SelectModelForIntent(intent: string, candidates: seq<string>, complex: seq<string>, now: int)
      returns (best: Option<string>)
      requires Valid()
      ensures best.None? <==> candidates == []
      ensures best.Some? ==> best.value in candidates
      ensures var demanding := {"code_generation", "debugging", "refactoring", "testing"};
              var restricted := intent in demanding && exists m :: m in candidates && m in complex;
              best.Some? ==>
                (restricted ==> best.value in complex)
                && forall m :: m in candidates && (restricted ==> m in complex) ==>
                     Worth(log, m, now) <= Worth(log, best.value, now)
    {
      var eligible := candidates;
      forall m: string { EligibleMeaning(candidates, complex, m); }
      if intent in COMPLEX_INTENTS && complex != [] {
        eligible := Eligible(candidates, complex);
        if eligible == [] {
          eligible := candidates;
        } else {
          assert eligible[0] in eligible;
        }
      }
      best := SelectBestModel(eligible, now);
    }
  }

  /** The latency term without its nested fractions. */
  lemma LatencyShare(requests: real, latency: real, g: real)
    requires requests > 0.0 && latency >= 0.0
    requires latency / requests >= 0.0 && g == 1.0 / (latency / requests / 1000.0 + 1.0)
    ensures g * (latency + 1000.0 * requests) == 1000.0 * requests
  {
    var a := latency / requests;
    var b := a / 1000.0 + 1.0;
    assert a * requests == latency;
    assert g * b == 1.0;
    Regroup(g, b, requests);
    assert b * (1000.0 * requests) == latency + 1000.0 * requests;
  }

  lemma Regroup(g: real, b: real, r: real)
    requires g * b == 1.0
    ensures g * (b * (1000.0 * r)) == 1000.0 * r
  {
    assert g * (b * (1000.0 * r)) == (g * b) * (1000.0 * r);
  }

  /** A score times five requests and their total delay. */
  lemma ScaledScore(r: real, h: real, e: real, d: real, x: real, y: real, g: real)
    requires x * r == h && y * r == e && g * d == 1000.0 * r
    ensures 5.0 * (r * d) * (x * 0.4 + g * 0.4 + (1.0 - y) * 0.2)
            == 2.0 * (h * d) + 2000.0 * (r * r) + r * d - e * d
  {
    var rd := r * d;
    assert rd * x == h * d by { assert rd * x == (x * r) * d; }
    assert rd * y == e * d by { assert rd * y == (y * r) * d; }
    assert rd * g == 1000.0 * (r * r) by { assert rd * g == r * (g * d); }
    assert 5.0 * rd * (x * 0.4 + g * 0.4 + (1.0 - y) * 0.2)
        == 2.0 * (rd * x) + 2.0 * (rd * g) + rd - rd * y;
  }

  lemma ScaleIff(p: real, s: real)
    requires p > 0.0
    ensures p * s <= p <==> s <= 1.0
  {
    assert p * s - p == p * (s - 1.0);
  }

  lemma PositiveProduct(a: real, b: real)
    requires a > 0.0 && b > 0.0
    ensures a * b > 0.0
  {}

  predicate Balanced(r: real, h: real, l: real, e: real) {
    var d := l + 1000.0 * r;
    2.0 * (h * d) + 2000.0 * (r * r) <= 4.0 * (r * d) + e * d
  }

  /** Of any four numbers that are read, the score is at most one exactly under this condition, which at
      latency zero is 2 hits <= 2 requests + errors. */
  lemma ScoreAtMostOneIff(r: real, h: real, l: real, e: real)
    requires r > 0.0 && l >= 0.0
    ensures Score(r, h, l, e) <= 1.0 <==> Balanced(r, h, l, e)
    ensures l == 0.0 ==> (Balanced(r, h, l, e) <==> 2.0 * h <= 2.0 * r + e)
  {
    AboveZero(l, r);
    var d := l + 1000.0 * r;
    var x, y, g := h / r, e / r, 1.0 / (l / r / 1000.0 + 1.0);
    LatencyShare(r, l, g);
    ScaledScore(r, h, e, d, x, y, g);
    PositiveProduct(r, d);
    ScaleIff(5.0 * (r * d), Score(r, h, l, e));
    if l == 0.0 { BalancedAtZero(r, h, e); }
  }

  lemma BalancedAtZero(r: real, h: real, e: real)
    requires r > 0.0
    ensures Balanced(r, h, 0.0, e) <==> 2.0 * h <= 2.0 * r + e
  {
    var slack := 2.0 * r + e - 2.0 * h;
    var d := 1000.0 * r;
    assert 4.0 * (r * d) + e * d - 2.0 * (h * d) - 2000.0 * (r * r) == slack * d;
    SignOfProduct(slack, d);
  }

  lemma SignOfProduct(a: real, b: real)
    requires b > 0.0
    ensures a * b >= 0.0 <==> a >= 0.0
  {}

  /** What a read of the buckets finds once the first k events have been recorded. */
  function ReadAt(log: seq<Event>, k: nat, model: string, metric: Metric, now: int): real
    requires k <= |log|
  {
    SumBuckets(After(log[..k]), model, metric, now)
  }

  /** The four reads of a model, made in this order at times and positions of the log of their own, give a
      score of at most one exactly when the totals they find are balanced; and reads of one position at one
      time always are. */
  lemma TornScoreIff(log: seq<Event>, model: string, k: seq<nat>, at: seq<int>)
    requires HasLatencies(log) && |k| == 4 && |at| == 4 && k[0] <= k[1] <= k[2] <= k[3] <= |log|
    requires ReadAt(log, k[0], model, Requests, at[0]) > 0.0
    ensures var r, h := ReadAt(log, k[0], model, Requests, at[0]), ReadAt(log, k[1], model, Hits, at[1]);
            var l, e := ReadAt(log, k[2], model, Latency, at[2]), ReadAt(log, k[3], model, Errors, at[3]);
            l >= 0.0
            && (Score(r, h, l, e) <= 1.0 <==> Balanced(r, h, l, e))
            && (k[0] == k[3] && at[0] == at[1] == at[2] == at[3] ==> Balanced(r, h, l, e))
  {
    var r, h := ReadAt(log, k[0], model, Requests, at[0]), ReadAt(log, k[1], model, Hits, at[1]);
    var l, e := ReadAt(log, k[2], model, Latency, at[2]), ReadAt(log, k[3], model, Errors, at[3]);
    ReadsAreTotals(log, k[2], model, at[2]);
    ReadsAreTotals(log, k[0], model, at[0]);
    ScoreAtMostOneIff(r, h, l, e);
    if k[0] == k[3] && at[0] == at[1] == at[2] == at[3] { ScoreBounds(r, h, l, e); }
  }

  lemma ReadsAreTotals(log: seq<Event>, k: nat, model: string, now: int)
    requires HasLatencies(log) && k <= |log|
    ensures ReadAt(log, k, model, Latency, now) >= 0.0
    ensures 0.0 <= ReadAt(log, k, model, Hits, now) <= ReadAt(log, k, model, Requests, now)
    ensures 0.0 <= ReadAt(log, k, model, Errors, now) <= ReadAt(log, k, model, Requests, now)
  {
    BucketsRefineLog(log[..k], model, Requests, now);
    BucketsRefineLog(log[..k], model, Hits, now);
    BucketsRefineLog(log[..k], model, Latency, now);
    BucketsRefineLog(log[..k], model, Errors, now);
    TotalBounds(log[..k], model, Minute(now) - 4, Minute(now));
  }

  lemma SumOfTwo(e: Event, metric: Metric)
    requires e.at == 0
    ensures SumBuckets(After([e]), e.model, metric, 0) == Amount(e, metric)
    ensures SumBuckets(After([e, e]), e.model, metric, 0) == 2.0 * Amount(e, metric)
  {
    assert [e][..0] == [] && [e, e][..1] == [e];
    assert Total([e][..0], e.model, metric, -4, 0) == 0.0;
    BucketsRefineLog([e], e.model, metric, 0);
    BucketsRefineLog([e, e], e.model, metric, 0);
  }

  /** The reads of one model are four, and a request recorded in between may be missing from the first and
      present in the others: then the score can exceed one. */
  lemma TornReadExceedsOne()
    ensures var e := Event("m", 0.0, true, false, 0);
            var before, behind := After([e]), After([e, e]);
            var requests := SumBuckets(before, "m", Requests, 0);
            requests > 0.0 && SumBuckets(behind, "m", Latency, 0) == 0.0
            && Score(requests, SumBuckets(behind, "m", Hits, 0), 0.0, SumBuckets(behind, "m", Errors, 0)) > 1.0
  {
    var e := Event("m", 0.0, true, false, 0);
    SumOfTwo(e, Requests);
    SumOfTwo(e, Hits);
    SumOfTwo(e, Latency);
    SumOfTwo(e, Errors);
  }
}
