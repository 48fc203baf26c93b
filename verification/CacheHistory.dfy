/** Runs of the response cache: requests in flight at the same time, each held between two awaits of
    _handle_chat_completions (services/cache/app/router.py), over the shared stores. */
module CacheHistory {
  import opened Json
  import opened ColonKeys
  import opened ResponseCache
  import opened Guardrails

  // ---- states --------------------------------------------------------------------------

  /** Where a request waits. */
  datatype Flight =
    | AtExact(request: Request)
    | AtSemantic(request: Request)
    | AtUpstream(request: Request, embedding: Option<Vector>)
    | AtExactStore(request: Request, embedding: Option<Vector>, value: Response)
    | AtSemanticStore(request: Request, at: Vector, value: Response)

  /** How a request was answered. A miss that is not streamed keeps what the provider replied. */
  datatype Record =
    | Refused(request: Request)
    | ExactHit(request: Request, value: Response)
    | SemanticHit(request: Request, at: Vector, value: Response)
    | Miss(request: Request, embedding: Option<Vector>, status: int, reply: Response)
    | StreamedMiss(request: Request)
    | Unavailable(request: Request)

  datatype World = World(
    now: int, exact: Exact, rows: seq<Row>, circuit: Circuit,
    flights: map<nat, Flight>, log: seq<Record>)

  const START := World(0, map[], [], Circuit(0, None), map[], [])

  datatype Reply = Reply(status: int, response: Response)

  /** One atomic step. `up` is false when the store call raises; an embedding of None stands for any
      exception on the semantic path; a reply of None for a provider that cannot be reached. */
  datatype Event =
    | Arrive(id: nat, request: Request)
    | LookExact(id: nat, up: bool)
    | LookSemantic(id: nat, embedding: Option<Vector>)
    | Answer(id: nat, reply: Option<Reply>)
    | StoreExact(id: nat, up: bool)
    | StoreSemantic(id: nat, up: bool, jitter: int)
    | Abandon(id: nat)
    | Evict(key: string)
    | Prune(row: nat)
    | Reset
    | Tick(seconds: nat)

  // ---- steps -----------------------------------------------------------------------------

  function Key(env: Env, request: Request): string {
    ExactKey(env, Redacted(env, request), request.team, request.project)
  }

  /** What the client gets for a miss, and what is stored. */
  function Delivered(env: Env, request: Request, reply: Reply): Response {
    if reply.status == 200 then reply.response.(choices := FilterChoices(env, request.rules, reply.response.choices))
    else reply.response
  }

  predicate IsStorable(env: Env, request: Request, reply: Reply) {
    reply.status == 200 && !Bypasses(env, request) && !AnyWithheld(env, request.rules, reply.response.choices)
  }

  function Go(w: World, id: nat, flight: Flight): World { w.(flights := w.flights[id := flight]) }

  function Done(w: World, id: nat): World { w.(flights := w.flights - {id}) }

  function Log(w: World, record: Record): World { w.(log := w.log + [record]) }

  function Arriving(env: Env, w: World, id: nat, request: Request): World {
    if id in w.flights then w
    else if IsRefused(env, request) then Log(w, Refused(request))
    else Go(w, id, if Bypasses(env, request) then AtUpstream(request, None) else AtExact(request))
  }

  function LookingExact(env: Env, w: World, id: nat, request: Request, up: bool): World {
    var found := if up then ExactGet(w.exact, Key(env, request), w.now) else None;
    if found.Some? && !found.value.bare then Done(Log(w, ExactHit(request, found.value)), id)
    else Go(w, id, AtSemantic(request))
  }

  function LookingSemantic(env: Env, w: World, id: nat, request: Request, embedding: Option<Vector>): World {
    match embedding
    case None => Go(w.(circuit := RecordFailure(w.circuit, w.now)), id, AtUpstream(request, None))
    case Some(at) =>
      var found := SemanticGet(env, w.rows, w.circuit, at, request.policy.threshold, request.team, request.project,
                               w.now);
      if found.Some? && !found.value.bare then Done(Log(w, SemanticHit(request, at, found.value)), id)
      else Go(w, id, AtUpstream(request, embedding))
  }

  function Answering(env: Env, w: World, id: nat, request: Request, embedding: Option<Vector>,
                     reply: Option<Reply>): World
  {
    if request.body.stream then Done(Log(w, StreamedMiss(request)), id)
    else
      match reply
      case None => Done(Log(w, Unavailable(request)), id)
      case Some(r) =>
        var logged := Log(w, Miss(request, embedding, r.status, r.response));
        if IsStorable(env, request, r) then Go(logged, id, AtExactStore(request, embedding, Delivered(env, request, r)))
        else Done(logged, id)
  }

  function StoringExact(env: Env, w: World, id: nat, f: Flight, up: bool): World
    requires f.AtExactStore?
  {
    var stored :=
      if up then w.(exact := ExactSet(w.exact, Key(env, f.request), f.value, f.request.policy.ttl, w.now)) else w;
    if f.embedding.Some? then Go(stored, id, AtSemanticStore(f.request, f.embedding.value, f.value))
    else Done(stored, id)
  }

  function StoringSemantic(w: World, id: nat, f: Flight, up: bool, jitter: int): World
    requires f.AtSemanticStore?
  {
    var rows := SemanticSet(w.rows, w.circuit, f.at, f.value, f.request.policy.ttl, jitter, f.request.team,
                            f.request.project, w.now);
    Done(if up then w.(rows := rows) else w, id)
  }

  /** An event that does not fit the state of its request does nothing. */
  function Apply(env: Env, w: World, e: Event): World {
    match e
    case Arrive(id, request) => Arriving(env, w, id, request)
    case LookExact(id, up) =>
      if id in w.flights && w.flights[id].AtExact? then LookingExact(env, w, id, w.flights[id].request, up) else w
    case LookSemantic(id, embedding) =>
      if id in w.flights && w.flights[id].AtSemantic? then
        LookingSemantic(env, w, id, w.flights[id].request, embedding)
      else w
    case Answer(id, reply) =>
      if id in w.flights && w.flights[id].AtUpstream?
      then Answering(env, w, id, w.flights[id].request, w.flights[id].embedding, reply) else w
    case StoreExact(id, up) =>
      if id in w.flights && w.flights[id].AtExactStore? then StoringExact(env, w, id, w.flights[id], up) else w
    case StoreSemantic(id, up, jitter) =>
      if id in w.flights && w.flights[id].AtSemanticStore? then StoringSemantic(w, id, w.flights[id], up, jitter) else w
    case Abandon(id) => Done(w, id)
    case Evict(key) => w.(exact := w.exact - {key})
    case Prune(i) => if i < |w.rows| then w.(rows := w.rows[..i] + w.rows[i + 1..]) else w
    case Reset => w.(circuit := Circuit(0, None))
    case Tick(seconds) => w.(now := w.now + seconds)
  }

  function Run(env: Env, events: seq<Event>): World {
    if events == [] then START else Apply(env, Run(env, events[..|events| - 1]), events[|events| - 1])
  }

  // ---- where a stored response comes from ---------------------------------------------------

  /** A miss that was not streamed, not withheld and not bypassing the cache, and what it delivered. */
  predicate IsSource(env: Env, m: Record, value: Response) {
    m.Miss? && !m.request.body.stream
    && IsStorable(env, m.request, Reply(m.status, m.reply))
    && value == Delivered(env, m.request, Reply(m.status, m.reply))
  }

  predicate ExactFrom(env: Env, log: seq<Record>, key: string, value: Response) {
    exists m :: m in log && IsSource(env, m, value) && Key(env, m.request) == key
  }

  predicate SemanticFrom(env: Env, log: seq<Record>, team: string, project: string, at: Vector, value: Response) {
    exists m :: m in log && IsSource(env, m, value) && m.embedding == Some(at)
                && m.request.team == team && m.request.project == project
  }

  predicate ExactOk(env: Env, exact: Exact, log: seq<Record>) {
    forall k :: k in exact ==> ExactFrom(env, log, k, exact[k].value)
  }

  predicate RowOk(env: Env, row: Row, log: seq<Record>) {
    SemanticFrom(env, log, row.team, row.project, row.embedding, row.value)
  }

  predicate RowsOk(env: Env, rows: seq<Row>, log: seq<Record>) {
    forall r :: r in rows ==> RowOk(env, r, log)
  }

  predicate FlightOk(env: Env, f: Flight, log: seq<Record>) {
    match f
    case AtExact(request) => !Bypasses(env, request)
    case AtSemantic(request) => !Bypasses(env, request)
    case AtUpstream(_, _) => true
    case AtExactStore(request, embedding, value) =>
      exists m :: m in log && IsSource(env, m, value) && m.request == request && m.embedding == embedding
    case AtSemanticStore(request, at, value) =>
      exists m :: m in log && IsSource(env, m, value) && m.request == request && m.embedding == Some(at)
  }

  predicate FlightsOk(env: Env, flights: map<nat, Flight>, log: seq<Record>) {
    forall id :: id in flights ==> FlightOk(env, flights[id], log)
  }

  // ---- the answers ------------------------------------------------------------------------------

  /** A record is justified by the records before it. */
  predicate IsExplained(env: Env, before: seq<Record>, r: Record) {
    match r
    case ExactHit(request, value) =>
      !Bypasses(env, request) && !value.bare && ExactFrom(env, before, Key(env, request), value)
    case SemanticHit(request, at, value) =>
      !Bypasses(env, request) && !value.bare
      && exists m :: m in before && IsSource(env, m, value)
                     && m.request.team == request.team && m.request.project == request.project
                     && m.embedding.Some? && env.similarity(m.embedding.value, at) >= request.policy.threshold
    case _ => true
  }

  predicate LogOk(env: Env, log: seq<Record>) {
    forall i :: 0 <= i < |log| ==> IsExplained(env, log[..i], log[i])
  }

  predicate Inv(env: Env, w: World) {
    ExactOk(env, w.exact, w.log) && RowsOk(env, w.rows, w.log) && FlightsOk(env, w.flights, w.log) && LogOk(env, w.log)
  }

  lemma LogGrows(env: Env, w: World, r: Record)
    requires Inv(env, w) && IsExplained(env, w.log, r)
    ensures Inv(env, Log(w, r))
  {
    var log := w.log + [r];
    assert forall m :: m in w.log ==> m in log;
    assert ExactOk(env, w.exact, log);
    assert RowsOk(env, w.rows, log) by {
      assert forall row :: row in w.rows ==> RowOk(env, row, w.log);
    }
    assert FlightsOk(env, w.flights, log) by {
      assert forall id :: id in w.flights ==> FlightOk(env, w.flights[id], w.log);
    }
    forall i | 0 <= i < |log|
      ensures IsExplained(env, log[..i], log[i])
    {
      assert log[..i] == w.log[..i];
    }
  }

  lemma ArrivingKeeps(env: Env, w: World, id: nat, request: Request)
    requires Inv(env, w)
    ensures Inv(env, Arriving(env, w, id, request))
  {
    if id !in w.flights && IsRefused(env, request) { LogGrows(env, w, Refused(request)); }
  }

  lemma LookingExactKeeps(env: Env, w: World, id: nat, up: bool)
    requires Inv(env, w) && id in w.flights && w.flights[id].AtExact?
    ensures Inv(env, LookingExact(env, w, id, w.flights[id].request, up))
  {
    var request := w.flights[id].request;
    assert FlightOk(env, w.flights[id], w.log);
    var found := if up then ExactGet(w.exact, Key(env, request), w.now) else None;
    if found.Some? && !found.value.bare { LogGrows(env, w, ExactHit(request, found.value)); }
  }

  lemma LookingSemanticKeeps(env: Env, w: World, id: nat, embedding: Option<Vector>)
    requires Inv(env, w) && id in w.flights && w.flights[id].AtSemantic?
    ensures Inv(env, LookingSemantic(env, w, id, w.flights[id].request, embedding))
  {
    var request := w.flights[id].request;
    assert FlightOk(env, w.flights[id], w.log);
    if embedding.Some? {
      var at := embedding.value;
      var found := SemanticGet(env, w.rows, w.circuit, at, request.policy.threshold, request.team, request.project,
                               w.now);
      if found.Some? && !found.value.bare {
        NearestMeaning(env, w.rows, at, request.team, request.project, w.now);
        var row := Nearest(env, w.rows, at, request.team, request.project, w.now).value;
        assert RowOk(env, row, w.log);
        assert env.similarity(row.embedding, at) >= request.policy.threshold;
        LogGrows(env, w, SemanticHit(request, at, found.value));
      }
    }
  }

  lemma AnsweringKeeps(env: Env, w: World, id: nat, reply: Option<Reply>)
    requires Inv(env, w) && id in w.flights && w.flights[id].AtUpstream?
    ensures Inv(env, Answering(env, w, id, w.flights[id].request, w.flights[id].embedding, reply))
  {
    var request, embedding := w.flights[id].request, w.flights[id].embedding;
    if request.body.stream {
      LogGrows(env, w, StreamedMiss(request));
    } else if reply.None? {
      LogGrows(env, w, Unavailable(request));
    } else {
      var r := reply.value;
      var m := Miss(request, embedding, r.status, r.response);
      LogGrows(env, w, m);
      if IsStorable(env, request, r) {
        assert m in w.log + [m] && IsSource(env, m, Delivered(env, request, r));
      }
    }
  }

  lemma StoringExactKeeps(env: Env, w: World, id: nat, up: bool)
    requires Inv(env, w) && id in w.flights && w.flights[id].AtExactStore?
    ensures Inv(env, StoringExact(env, w, id, w.flights[id], up))
  {
    assert FlightOk(env, w.flights[id], w.log);
    StoredIsOk(env, w, w.flights[id]);
    var w' := StoringExact(env, w, id, w.flights[id], up);
    assert FlightsOk(env, w'.flights, w.log);
  }

  lemma StoredIsOk(env: Env, w: World, f: Flight)
    requires ExactOk(env, w.exact, w.log) && f.AtExactStore? && FlightOk(env, f, w.log)
    ensures ExactOk(env, ExactSet(w.exact, Key(env, f.request), f.value, f.request.policy.ttl, w.now), w.log)
  {}

  lemma StoringSemanticKeeps(env: Env, w: World, id: nat, up: bool, jitter: int)
    requires Inv(env, w) && id in w.flights && w.flights[id].AtSemanticStore?
    ensures Inv(env, StoringSemantic(w, id, w.flights[id], up, jitter))
  {
    var f := w.flights[id];
    assert FlightOk(env, f, w.log);
    var w' := StoringSemantic(w, id, f, up, jitter);
    forall row | row in w'.rows
      ensures RowOk(env, row, w.log)
    {
      if row !in w.rows {
        assert row.team == f.request.team && row.project == f.request.project;
        assert row.embedding == f.at && row.value == f.value;
      }
    }
  }

  lemma PruneKeeps(env: Env, w: World, i: nat)
    requires Inv(env, w)
    ensures Inv(env, Apply(env, w, Prune(i)))
  {
    if i < |w.rows| { assert forall r :: r in w.rows[..i] + w.rows[i + 1..] ==> r in w.rows; }
  }

  lemma StepKeeps(env: Env, w: World, e: Event)
    requires Inv(env, w)
    ensures Inv(env, Apply(env, w, e))
  {
    match e
    case Arrive(id, request) => ArrivingKeeps(env, w, id, request);
    case LookExact(id, up) => if id in w.flights && w.flights[id].AtExact? { LookingExactKeeps(env, w, id, up); }
    case LookSemantic(id, embedding) =>
      if id in w.flights && w.flights[id].AtSemantic? { LookingSemanticKeeps(env, w, id, embedding); }
    case Answer(id, reply) => if id in w.flights && w.flights[id].AtUpstream? { AnsweringKeeps(env, w, id, reply); }
    case StoreExact(id, up) => if id in w.flights && w.flights[id].AtExactStore? { StoringExactKeeps(env, w, id, up); }
    case StoreSemantic(id, up, jitter) =>
      if id in w.flights && w.flights[id].AtSemanticStore? { StoringSemanticKeeps(env, w, id, up, jitter); }
    case Prune(i) => PruneKeeps(env, w, i);
    case _ =>
  }

  /** In every run the stores hold nothing but what earlier misses delivered. */
  lemma {:induction false} RunKeepsInv(env: Env, events: seq<Event>)
    ensures Inv(env, Run(env, events))
  {
    if events != [] {
      RunKeepsInv(env, events[..|events| - 1]);
      StepKeeps(env, Run(env, events[..|events| - 1]), events[|events| - 1]);
    }
  }

  /** Every hit of every run, whatever is in flight at the same time, repeats what an earlier miss of the
      run delivered. */
  lemma {:induction false} HitsAreExplained(env: Env, events: seq<Event>)
    ensures LogOk(env, Run(env, events).log)
  {
    RunKeepsInv(env, events);
  }

  /** How a request is answered fits what it asks for, and whether it is refused or looks in no store. */
  ghost predicate IsFitting(r: Record, refused: Request -> bool, bypasses: Request -> bool) {
    (r.Refused? <==> refused(r.request))
    && (r.ExactHit? || r.SemanticHit? ==> !bypasses(r.request))
    && (r.StreamedMiss? ==> r.request.body.stream)
    && (r.Miss? || r.Unavailable? ==> !r.request.body.stream)
  }

  ghost predicate IsUnderway(f: Flight, refused: Request -> bool, bypasses: Request -> bool) {
    !refused(f.request) && (f.AtExact? || f.AtSemantic? ==> !bypasses(f.request))
  }

  ghost predicate Fits(w: World, refused: Request -> bool, bypasses: Request -> bool) {
    (forall id :: id in w.flights ==> IsUnderway(w.flights[id], refused, bypasses))
    && forall i :: 0 <= i < |w.log| ==> IsFitting(w.log[i], refused, bypasses)
  }

  lemma FitsGoing(w: World, id: nat, f: Flight, refused: Request -> bool, bypasses: Request -> bool)
    requires Fits(w, refused, bypasses) && IsUnderway(f, refused, bypasses)
    ensures Fits(Go(w, id, f), refused, bypasses)
  {}

  lemma FitsLogging(w: World, id: nat, r: Record, refused: Request -> bool, bypasses: Request -> bool)
    requires Fits(w, refused, bypasses) && IsFitting(r, refused, bypasses)
    ensures Fits(Log(w, r), refused, bypasses) && Fits(Done(Log(w, r), id), refused, bypasses)
  {}

  lemma FitsLookingExact(env: Env, w: World, id: nat, up: bool, refused: Request -> bool, bypasses: Request -> bool)
    requires Fits(w, refused, bypasses) && id in w.flights && w.flights[id].AtExact?
    ensures Fits(LookingExact(env, w, id, w.flights[id].request, up), refused, bypasses)
  {
    var request := w.flights[id].request;
    assert IsUnderway(w.flights[id], refused, bypasses);
    var found := if up then ExactGet(w.exact, Key(env, request), w.now) else None;
    if found.Some? && !found.value.bare {
      FitsLogging(w, id, ExactHit(request, found.value), refused, bypasses);
    } else {
      FitsGoing(w, id, AtSemantic(request), refused, bypasses);
    }
  }

  lemma FitsLookingSemantic(env: Env, w: World, id: nat, embedding: Option<Vector>, refused: Request -> bool,
                            bypasses: Request -> bool)
    requires Fits(w, refused, bypasses) && id in w.flights && w.flights[id].AtSemantic?
    ensures Fits(LookingSemantic(env, w, id, w.flights[id].request, embedding), refused, bypasses)
  {
    var request := w.flights[id].request;
    assert IsUnderway(w.flights[id], refused, bypasses);
    FitsGoing(w, id, AtUpstream(request, embedding), refused, bypasses);
    if embedding.Some? {
      var found := SemanticGet(env, w.rows, w.circuit, embedding.value, request.policy.threshold, request.team,
                               request.project, w.now);
      if found.Some? { FitsLogging(w, id, SemanticHit(request, embedding.value, found.value), refused, bypasses); }
    } else {
      FitsGoing(w.(circuit := RecordFailure(w.circuit, w.now)), id, AtUpstream(request, None), refused, bypasses);
    }
  }

  lemma FitsAnswering(env: Env, w: World, id: nat, reply: Option<Reply>, refused: Request -> bool,
                      bypasses: Request -> bool)
    requires Fits(w, refused, bypasses) && id in w.flights && w.flights[id].AtUpstream?
    ensures Fits(Answering(env, w, id, w.flights[id].request, w.flights[id].embedding, reply), refused, bypasses)
  {
    var request, embedding := w.flights[id].request, w.flights[id].embedding;
    assert IsUnderway(w.flights[id], refused, bypasses);
    if request.body.stream {
      FitsLogging(w, id, StreamedMiss(request), refused, bypasses);
    } else if reply.None? {
      FitsLogging(w, id, Unavailable(request), refused, bypasses);
    } else {
      var m := Miss(request, embedding, reply.value.status, reply.value.response);
      FitsLogging(w, id, m, refused, bypasses);
      FitsGoing(Log(w, m), id, AtExactStore(request, embedding, Delivered(env, request, reply.value)), refused,
                bypasses);
    }
  }

  lemma FitsStoring(env: Env, w: World, id: nat, up: bool, jitter: int, refused: Request -> bool,
                    bypasses: Request -> bool)
    requires Fits(w, refused, bypasses) && id in w.flights
    ensures w.flights[id].AtExactStore? ==> Fits(StoringExact(env, w, id, w.flights[id], up), refused, bypasses)
    ensures w.flights[id].AtSemanticStore? ==>
              Fits(StoringSemantic(w, id, w.flights[id], up, jitter), refused, bypasses)
  {
    var f := w.flights[id];
    assert IsUnderway(f, refused, bypasses);
    if f.AtExactStore? && f.embedding.Some? {
      var stored :=
        if up then w.(exact := ExactSet(w.exact, Key(env, f.request), f.value, f.request.policy.ttl, w.now)) else w;
      FitsGoing(stored, id, AtSemanticStore(f.request, f.embedding.value, f.value), refused, bypasses);
    }
  }

  lemma FitsArriving(env: Env, w: World, id: nat, request: Request, refused: Request -> bool, bypasses: Request -> bool)
    requires Fits(w, refused, bypasses)
    requires refused(request) == IsRefused(env, request) && bypasses(request) == Bypasses(env, request)
    ensures Fits(Arriving(env, w, id, request), refused, bypasses)
  {
    if refused(request) {
      FitsLogging(w, id, Refused(request), refused, bypasses);
    } else {
      FitsGoing(w, id, if bypasses(request) then AtUpstream(request, None) else AtExact(request), refused, bypasses);
    }
  }

  lemma FitsStep(env: Env, w: World, e: Event, refused: Request -> bool, bypasses: Request -> bool)
    requires Fits(w, refused, bypasses)
    requires e.Arrive? ==>
               refused(e.request) == IsRefused(env, e.request) && bypasses(e.request) == Bypasses(env, e.request)
    ensures Fits(Apply(env, w, e), refused, bypasses)
  {
    match e
    case Arrive(id, request) => FitsArriving(env, w, id, request, refused, bypasses);
    case LookExact(id, up) =>
      if id in w.flights && w.flights[id].AtExact? { FitsLookingExact(env, w, id, up, refused, bypasses); }
    case LookSemantic(id, embedding) =>
      if id in w.flights && w.flights[id].AtSemantic? {
        FitsLookingSemantic(env, w, id, embedding, refused, bypasses);
      }
    case Answer(id, reply) =>
      if id in w.flights && w.flights[id].AtUpstream? { FitsAnswering(env, w, id, reply, refused, bypasses); }
    case StoreExact(id, up) => if id in w.flights { FitsStoring(env, w, id, up, 0, refused, bypasses); }
    case StoreSemantic(id, up, jitter) => if id in w.flights { FitsStoring(env, w, id, up, jitter, refused, bypasses); }
    case _ =>
  }

  /** In every run exactly the requests to be refused are refused, those that are to look in no store get no
      answer from one, and a miss is streamed just when that was asked for. */
  lemma {:induction false} AnswersFit(env: Env, events: seq<Event>)
    ensures Fits(Run(env, events), r => IsRefused(env, r), r => Bypasses(env, r))
  {
    var refused, bypasses := (r: Request) => IsRefused(env, r), (r: Request) => Bypasses(env, r);
    AllFit(env, events, refused, bypasses);
    assert Fits(Run(env, events), refused, bypasses);
  }

  lemma {:induction false} AllFit(env: Env, events: seq<Event>, refused: Request -> bool, bypasses: Request -> bool)
    requires forall r :: refused(r) == IsRefused(env, r) && bypasses(r) == Bypasses(env, r)
    ensures Fits(Run(env, events), refused, bypasses)
  {
    if events != [] {
      AllFit(env, events[..|events| - 1], refused, bypasses);
      FitsStep(env, Run(env, events[..|events| - 1]), events[|events| - 1], refused, bypasses);
    }
  }

  // ---- what an exact hit repeats --------------------------------------------------------------

  /** Hexadecimal digests hold no colon. */
  ghost predicate IsColonFree(env: Env) { forall b :: ':' !in env.digest(b) }

  ghost predicate IsInjective(env: Env) { forall b, c :: env.digest(b) == env.digest(c) ==> b == c }

  /** Two requests share an exact key just when they share the namespace string and the digest. */
  lemma KeysEqualIff(env: Env, r: Request, q: Request)
    requires IsColonFree(env)
    ensures Key(env, r) == Key(env, q)
            <==> Namespace(r.team, r.project) == Namespace(q.team, q.project)
                 && env.digest(Redacted(env, r)) == env.digest(Redacted(env, q))
  {
    if Key(env, r) == Key(env, q) {
      SplitAtLast("exact:" + Namespace(r.team, r.project), env.digest(Redacted(env, r)),
                  "exact:" + Namespace(q.team, q.project), env.digest(Redacted(env, q)));
      assert Namespace(r.team, r.project) == ("exact:" + Namespace(r.team, r.project))[6..];
      assert Namespace(q.team, q.project) == ("exact:" + Namespace(q.team, q.project))[6..];
    }
  }

  /** Namespaces are apart for teams without a colon in their identifiers. */
  lemma NamespacesEqualIff(team: string, project: string, team': string, project': string)
    requires ':' !in team && ':' !in team'
    ensures Namespace(team, project) == Namespace(team', project') <==> team == team' && project == project'
  {
    if Namespace(team, project) == Namespace(team', project') { SplitAtFirst(team, project, team', project'); }
  }

  /** The hypothesis is needed for that, although it costs nothing: team identifiers are UUIDs
      (services/admin/app/models/team.py). */
  lemma NamespacesMayCollide()
    ensures Namespace("a", "b:c") == Namespace("a:b", "c")
  {}

  /** The miss m delivered what the hit delivers, to the same body in the same namespace. */
  predicate Repeats(env: Env, m: Record, hit: Record)
    requires hit.ExactHit?
  {
    IsSource(env, m, hit.value) && Redacted(env, m.request) == Redacted(env, hit.request)
    && Namespace(m.request.team, m.request.project) == Namespace(hit.request.team, hit.request.project)
  }

  /** An exact hit repeats an earlier miss of the same namespace and the same redacted body; so a streaming
      request never gets one. */
  lemma ExactHitMeaning(env: Env, events: seq<Event>, log: seq<Record>, i: nat)
    requires IsColonFree(env) && IsInjective(env)
    requires log == Run(env, events).log && i < |log| && log[i].ExactHit?
    ensures exists j :: 0 <= j < i && Repeats(env, log[j], log[i])
    ensures !log[i].request.body.stream
  {
    HitsAreExplained(env, events);
    var hit := log[i];
    assert IsExplained(env, log[..i], hit);
    var m :| m in log[..i] && IsSource(env, m, hit.value) && Key(env, m.request) == Key(env, hit.request);
    var j :| 0 <= j < i && log[..i][j] == m;
    KeysEqualIff(env, m.request, hit.request);
    assert Repeats(env, log[j], hit);
    assert Redacted(env, m.request).stream == m.request.body.stream;
    assert Redacted(env, hit.request).stream == hit.request.body.stream;
  }

  // ---- and when it comes -------------------------------------------------------------------------

  /** The steps a request takes behind the exact lookup, with no other in between. */
  function Rest(env: Env, w: World, id: nat, embedding: Option<Vector>, reply: Reply, jitter: int): World {
    var w1 := Apply(env, w, LookSemantic(id, embedding));
    var w2 := Apply(env, w1, Answer(id, Some(reply)));
    var w3 := Apply(env, w2, StoreExact(id, true));
    Apply(env, w3, StoreSemantic(id, true, jitter))
  }

  /** A request served from beginning to end. */
  function Serve(env: Env, w: World, id: nat, request: Request, embedding: Option<Vector>, reply: Reply,
                 jitter: int): World
  {
    Rest(env, Apply(env, Apply(env, w, Arrive(id, request)), LookExact(id, true)), id, embedding, reply, jitter)
  }

  predicate IsEligible(env: Env, request: Request) { !IsRefused(env, request) && !Bypasses(env, request) }

  lemma UpToExact(env: Env, w: World, id: nat, request: Request)
    requires id !in w.flights && IsEligible(env, request)
    ensures var found := ExactGet(w.exact, Key(env, request), w.now);
            Apply(env, Apply(env, w, Arrive(id, request)), LookExact(id, true))
            == if found.Some? && !found.value.bare then Log(w, ExactHit(request, found.value))
               else Go(w, id, AtSemantic(request))
  {
    assert w.flights[id := AtExact(request)] - {id} == w.flights;
    assert w.flights[id := AtExact(request)][id := AtSemantic(request)] == w.flights[id := AtSemantic(request)];
  }

  /** Who has been answered takes no more steps. */
  lemma RestIdles(env: Env, w: World, id: nat, embedding: Option<Vector>, reply: Reply, jitter: int)
    requires id !in w.flights
    ensures Rest(env, w, id, embedding, reply, jitter) == w
  {}

  lemma PastSemantic(env: Env, w: World, id: nat, request: Request, embedding: Option<Vector>)
    requires id in w.flights && w.flights[id] == AtSemantic(request)
    ensures var w' := Apply(env, w, LookSemantic(id, embedding));
            w'.now == w.now && w'.exact == w.exact && w'.flights - {id} == w.flights - {id}
            && if id in w'.flights then w'.flights[id] == AtUpstream(request, embedding) && w'.log == w.log
               else |w'.log| == |w.log| + 1 && w'.log[..|w.log|] == w.log && w'.log[|w.log|].SemanticHit?
  {}

  lemma PastAnswer(env: Env, w: World, id: nat, request: Request, embedding: Option<Vector>, reply: Reply)
    requires id in w.flights && w.flights[id] == AtUpstream(request, embedding)
    ensures var w' := Apply(env, w, Answer(id, Some(reply)));
            |w'.log| == |w.log| + 1 && !w'.log[|w.log|].ExactHit?
            && w'.now == w.now && w'.exact == w.exact && w'.flights - {id} == w.flights - {id}
            && (!request.body.stream && IsStorable(env, request, reply) ==>
                  id in w'.flights
                    && w'.flights[id] == AtExactStore(request, embedding, Delivered(env, request, reply)))
            && (id in w'.flights ==> w'.flights[id].AtExactStore?)
  {}

  lemma PastStores(env: Env, w: World, id: nat, jitter: int)
    ensures var w' := Apply(env, Apply(env, w, StoreExact(id, true)), StoreSemantic(id, true, jitter));
            w'.log == w.log && w'.now == w.now
            && (id in w.flights && w.flights[id].AtExactStore? ==>
                  var f := w.flights[id];
                  w'.flights == w.flights - {id}
                  && w'.exact == ExactSet(w.exact, Key(env, f.request), f.value, f.request.policy.ttl, w.now))
  {
    if id in w.flights && w.flights[id].AtExactStore? && w.flights[id].embedding.Some? {
      var f := w.flights[id];
      assert w.flights[id := AtSemanticStore(f.request, f.embedding.value, f.value)] - {id} == w.flights - {id};
    }
  }

  /** Once a miss has been served its delivery is in the exact store. */
  lemma MissIsStored(env: Env, w: World, id: nat, request: Request, embedding: Option<Vector>, reply: Reply,
                     jitter: int)
    requires id !in w.flights && IsEligible(env, request) && !request.body.stream
    requires IsStorable(env, request, reply)
    requires Serve(env, w, id, request, embedding, reply, jitter).log
             == w.log + [Miss(request, embedding, reply.status, reply.response)]
    ensures var w' := Serve(env, w, id, request, embedding, reply, jitter);
            w'.now == w.now && w'.flights == w.flights
            && w'.exact == ExactSet(w.exact, Key(env, request), Delivered(env, request, reply), request.policy.ttl,
                                    w.now)
  {
    var w1 := Apply(env, Apply(env, w, Arrive(id, request)), LookExact(id, true));
    var missed := Miss(request, embedding, reply.status, reply.response);
    var log := Serve(env, w, id, request, embedding, reply, jitter).log;
    assert log[|w.log|] == missed;
    UpToExact(env, w, id, request);
    if id !in w1.flights {
      RestIdles(env, w1, id, embedding, reply, jitter);
      assert false;
    }
    var w2 := Apply(env, w1, LookSemantic(id, embedding));
    PastSemantic(env, w1, id, request, embedding);
    var w3 := Apply(env, w2, Answer(id, Some(reply)));
    PastStores(env, w3, id, jitter);
    assert id in w2.flights;
    PastAnswer(env, w2, id, request, embedding, reply);
    assert w.flights[id := AtSemantic(request)] - {id} == w.flights;
  }

  /** A request is an exact hit just when the store has something for it that Python takes for true. */
  lemma HitIff(env: Env, w: World, id: nat, request: Request, embedding: Option<Vector>, reply: Reply, jitter: int)
    requires id !in w.flights && IsEligible(env, request)
    ensures var found := ExactGet(w.exact, Key(env, request), w.now);
            var log := Serve(env, w, id, request, embedding, reply, jitter).log;
            |log| == |w.log| + 1
            && (log[|w.log|].ExactHit? <==> found.Some? && !found.value.bare)
            && (log[|w.log|].ExactHit? ==> log[|w.log|] == ExactHit(request, found.value))
  {
    var w1 := Apply(env, Apply(env, w, Arrive(id, request)), LookExact(id, true));
    UpToExact(env, w, id, request);
    if id !in w1.flights {
      RestIdles(env, w1, id, embedding, reply, jitter);
    } else {
      var w2 := Apply(env, w1, LookSemantic(id, embedding));
      PastSemantic(env, w1, id, request, embedding);
      PastStores(env, Apply(env, w2, Answer(id, Some(reply))), id, jitter);
      if id in w2.flights { PastAnswer(env, w2, id, request, embedding, reply); }
    }
  }

  /** What has just been stored under the key of a request is hit while it lasts. */
  lemma StoredIsHit(env: Env, w: World, before: Exact, value: Response, ttl: int, wait: nat, id: nat, request: Request,
                    embedding: Option<Vector>, reply: Reply, jitter: int)
    requires id !in w.flights && IsEligible(env, request) && ttl > 0
    requires w.exact == ExactSet(before, Key(env, request), value, ttl, w.now)
    ensures var log := Serve(env, Apply(env, w, Tick(wait)), id, request, embedding, reply, jitter).log;
            |log| == |w.log| + 1
            && (log[|w.log|] == ExactHit(request, value) <==> wait < ttl && !value.bare)
  {
    var later := Apply(env, w, Tick(wait));
    assert ExactGet(later.exact, Key(env, request), later.now) == if wait < ttl then Some(value) else None;
    HitIff(env, later, id, request, embedding, reply, jitter);
  }

  /** After a miss a second request with the same key is an exact hit, and gets what the first was given,
      just while the time to live lasts; whatever output rules apply to the second by then. */
  lemma SecondRequestHitsIff(env: Env, w: World, a: nat, first: Request, embedding: Option<Vector>, reply: Reply,
                             jitter: int, wait: nat, b: nat, second: Request, embedding': Option<Vector>,
                             reply': Reply, jitter': int)
    requires a !in w.flights && b !in w.flights && IsEligible(env, first) && IsEligible(env, second)
    requires !first.body.stream && IsStorable(env, first, reply) && first.policy.ttl > 0
    requires Key(env, second) == Key(env, first)
    requires Serve(env, w, a, first, embedding, reply, jitter).log
             == w.log + [Miss(first, embedding, reply.status, reply.response)]
    ensures var later := Apply(env, Serve(env, w, a, first, embedding, reply, jitter), Tick(wait));
            var log := Serve(env, later, b, second, embedding', reply', jitter').log;
            var value := Delivered(env, first, reply);
            |log| == |w.log| + 2
            && (log[|w.log| + 1] == ExactHit(second, value) <==> wait < first.policy.ttl && !value.bare)
  {
    MissIsStored(env, w, a, first, embedding, reply, jitter);
    StoredIsHit(env, Serve(env, w, a, first, embedding, reply, jitter), w.exact, Delivered(env, first, reply),
                first.policy.ttl, wait, b, second, embedding', reply', jitter');
  }
}
