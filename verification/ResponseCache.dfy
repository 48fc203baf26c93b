/** The two-level response cache behind /v1/chat/completions: the exact store of
    services/cache/app/exact.py, the nearest-neighbour store of services/cache/app/semantic.py, and the
    decisions of _handle_chat_completions in services/cache/app/router.py. */
module ResponseCache {
  import opened Json
  import opened Guardrails

  // ---- requests and responses ----------------------------------------------------------

  datatype Part = TextPart(text: string) | OtherPart(value: Json)

  datatype Content = Plain(text: string) | Parts(parts: seq<Part>) | NoText(value: Json)

  datatype Message = Message(role: string, content: Content)

  datatype Body = Body(model: string, stream: bool, messages: seq<Message>, rest: Json)

  datatype Choice = Choice(content: Option<string>, rest: Json)

  /** A response object. `bare` when it has no keys at all, which Python takes for false. */
  datatype Response = Response(bare: bool, choices: seq<Choice>, rest: Json)

  type Vector = seq<real>

  datatype Policy = Policy(ttl: int, threshold: real, optOut: bool, turnLimit: int)

  datatype Request = Request(team: string, project: string, body: Body, rules: seq<Rule>, policy: Policy)

  /** What is outside the model: the digest of a body, the similarity of two embeddings, the expressions
      that recognise personal data, and the regular expression library. */
  datatype Env = Env(
    digest: Body -> string,
    similarity: (Vector, Vector) -> real,
    personal: string -> bool,
    engine: Engine)

  // ---- the exact store ---------------------------------------------------------------------

  datatype Slot = Slot(value: Response, expires: int)

  type Exact = map<string, Slot>

  /** cache_namespace */
  function Namespace(team: string, project: string): string { team + ":" + project }

  /** _key */
  function ExactKey(env: Env, body: Body, team: string, project: string): string {
    "exact:" + Namespace(team, project) + ":" + env.digest(body)
  }

  lemma KeyText(env: Env, body: Body, team: string, project: string)
    ensures ExactKey(env, body, team, project) == "exact:" + team + ":" + project + ":" + env.digest(body)
  {
    assert "exact:" + (team + ":" + project) == "exact:" + team + ":" + project;
  }

  function ExactGet(exact: Exact, key: string, now: int): Option<Response> {
    if key in exact && now < exact[key].expires then Some(exact[key].value) else None
  }

  /** SETEX refuses a time to live that is not positive. */
  function ExactSet(exact: Exact, key: string, value: Response, ttl: int, now: int): Exact {
    if ttl > 0 then exact[key := Slot(value, now + ttl)] else exact
  }

  // ---- the semantic store ---------------------------------------------------------------------

  datatype Row = Row(team: string, project: string, embedding: Vector, value: Response, expires: int)

  predicate IsCandidate(row: Row, team: string, project: string, now: int) {
    row.team == team && row.project == project && now < row.expires
  }

  /** The nearest live row of the namespace; of equally near ones the first. */
  function Nearest(env: Env, rows: seq<Row>, at: Vector, team: string, project: string, now: int): Option<Row> {
    if rows == [] then None
    else
      var n := |rows| - 1;
      var best := Nearest(env, rows[..n], at, team, project, now);
      if !IsCandidate(rows[n], team, project, now) then best
      else if best.Some? && env.similarity(best.value.embedding, at) >= env.similarity(rows[n].embedding, at) then best
      else Some(rows[n])
  }

  lemma {:induction false} NearestMeaning(env: Env, rows: seq<Row>, at: Vector, team: string, project: string, now: int)
    ensures var best := Nearest(env, rows, at, team, project, now);
            best.None? <==> forall r :: r in rows && r.team == team && r.project == project ==> r.expires <= now
    ensures var best := Nearest(env, rows, at, team, project, now);
            best.Some? ==>
              best.value in rows && best.value.team == team && best.value.project == project
              && now < best.value.expires
              && forall r :: r in rows && r.team == team && r.project == project && now < r.expires ==>
                   env.similarity(r.embedding, at) <= env.similarity(best.value.embedding, at)
  {
    if rows != [] {
      var n := |rows| - 1;
      NearestMeaning(env, rows[..n], at, team, project, now);
      assert forall r :: r in rows <==> r in rows[..n] || r == rows[n];
      assert rows[n] in rows;
    }
  }

  const FAILURE_LIMIT := 5
  const COOLDOWN := 120

  datatype Circuit = Circuit(failures: nat, openUntil: Option<int>)

  predicate IsOpen(circuit: Circuit, now: int) { circuit.openUntil.Some? && now < circuit.openUntil.value }

  function RecordFailure(circuit: Circuit, now: int): Circuit {
    Circuit(circuit.failures + 1,
            if circuit.failures + 1 >= FAILURE_LIMIT then Some(now + COOLDOWN) else circuit.openUntil)
  }

  /** The circuit after embedding failures at these times. */
  function Failing(times: seq<int>): Circuit {
    if times == [] then Circuit(0, None) else RecordFailure(Failing(times[..|times| - 1]), times[|times| - 1])
  }

  /** The circuit is open for two minutes from the fifth failure on, and from every later one: the count is
      not taken back when the circuit closes. */
  lemma {:induction false} CircuitOpenIff(times: seq<int>, now: int)
    ensures Failing(times).failures == |times|
    ensures IsOpen(Failing(times), now) <==> |times| >= 5 && now < times[|times| - 1] + 120
  {
    if times != [] { CircuitOpenIff(times[..|times| - 1], now); }
  }

  function SemanticGet(env: Env, rows: seq<Row>, circuit: Circuit, at: Vector, threshold: real,
                       team: string, project: string, now: int): Option<Response>
  {
    if IsOpen(circuit, now) then None
    else
      match Nearest(env, rows, at, team, project, now)
      case Some(row) => if env.similarity(row.embedding, at) >= threshold then Some(row.value) else None
      case None => None
  }

  /** `jitter` is drawn from a tenth of the time to live either way. */
  function SemanticSet(rows: seq<Row>, circuit: Circuit, at: Vector, value: Response, ttl: int, jitter: int,
                       team: string, project: string, now: int): seq<Row>
  {
    if IsOpen(circuit, now) then rows
    else rows + [Row(team, project, at, value, now + if ttl + jitter > 1 then ttl + jitter else 1)]
  }

  class Stores {
    var exact: Exact
    var rows: seq<Row>
    var circuit: Circuit

    constructor ()
      ensures exact == map[] && rows == [] && circuit == Circuit(0, None)
    {
      exact, rows, circuit := map[], [], Circuit(0, None);
    }

    method GetExact(env: Env, body: Body, team: string, project: string, now: int) returns (r: Option<Response>)
      ensures r == ExactGet(exact, ExactKey(env, body, team, project), now)
      ensures var key := "exact:" + team + ":" + project + ":" + env.digest(body);
              r == if key in exact && now < exact[key].expires then Some(exact[key].value) else None
    {
      var key := ExactKey(env, body, team, project);
      KeyText(env, body, team, project);
      if key !in exact || exact[key].expires <= now {
        return None;
      }
      return Some(exact[key].value);
    }

    method SetExact(env: Env, body: Body, value: Response, ttl: int, team: string, project: string, now: int)
      modifies this`exact
      ensures exact == ExactSet(old(exact), ExactKey(env, body, team, project), value, ttl, now)
      ensures var key := "exact:" + team + ":" + project + ":" + env.digest(body);
              exact == if ttl > 0 then old(exact)[key := Slot(value, now + ttl)] else old(exact)
    {
      KeyText(env, body, team, project);
      if ttl > 0 {
        exact := exact[ExactKey(env, body, team, project) := Slot(value, now + ttl)];
      }
    }

    method GetSemantic(env: Env, at: Vector, threshold: real, team: string, project: string, now: int)
      returns (r: Option<Response>, score: real)
      ensures r == SemanticGet(env, rows, circuit, at, threshold, team, project, now)
      ensures r.Some? ==> score >= threshold
      ensures circuit.openUntil.Some? && now < circuit.openUntil.value ==> r.None?
      ensures circuit.openUntil.None? || circuit.openUntil.value <= now ==>
                (r.Some? <==> exists row :: row in rows && row.team == team && row.project == project
                                            && now < row.expires && env.similarity(row.embedding, at) >= threshold)
      ensures r.Some? ==>
                exists row :: row in rows && row.team == team && row.project == project && now < row.expires
                  && r.value == row.value && env.similarity(row.embedding, at) == score
                  && forall other | other in rows && other.team == team && other.project == project
                                    && now < other.expires ::
                       env.similarity(other.embedding, at) <= score
    {
      NearestMeaning(env, rows, at, team, project, now);
      if circuit.openUntil.Some? && now < circuit.openUntil.value {
        return None, 0.0;
      }
      var row := Nearest(env, rows, at, team, project, now);
      if row.None? {
        return None, 0.0;
      }
      score := env.similarity(row.value.embedding, at);
      r := if score >= threshold then Some(row.value.value) else None;
    }

    method SetSemantic(at: Vector, value: Response, ttl: int, jitter: int, team: string, project: string, now: int)
      modifies this`rows
      ensures rows == SemanticSet(old(rows), circuit, at, value, ttl, jitter, team, project, now)
      ensures circuit.openUntil.Some? && now < circuit.openUntil.value ==> rows == old(rows)
      ensures circuit.openUntil.None? || circuit.openUntil.value <= now ==>
                exists expires :: rows == old(rows) + [Row(team, project, at, value, expires)]
                  && (ttl + jitter >= 1 ==> expires == now + ttl + jitter) && (ttl + jitter < 1 ==> expires == now + 1)
    {
      if circuit.openUntil.Some? && now < circuit.openUntil.value {
        return;
      }
      var life := ttl + jitter;
      if life < 1 {
        life := 1;
      }
      rows := rows + [Row(team, project, at, value, now + life)];
    }

    method RecordEmbeddingFailure(now: int)
      modifies this`circuit
      ensures circuit == RecordFailure(old(circuit), now)
      ensures circuit.failures == old(circuit).failures + 1
      ensures circuit.openUntil == if old(circuit).failures < 4 then old(circuit).openUntil else Some(now + 120)
    {
      circuit := circuit.(failures := circuit.failures + 1);
      if circuit.failures >= FAILURE_LIMIT {
        circuit := circuit.(openUntil := Some(now + COOLDOWN));
      }
    }

    method ResetCircuit()
      modifies this`circuit
      ensures circuit == Circuit(0, None)
    {
      circuit := Circuit(0, None);
    }
  }

  // ---- the guardrails around them ------------------------------------------------------------

  function Texts(messages: seq<Message>): seq<string> {
    if messages == [] then [] else Texts(messages[..|messages| - 1]) + TextsOf(messages[|messages| - 1].content)
  }

  function TextsOf(content: Content): seq<string> {
    match content
    case Plain(text) => [text]
    case Parts(parts) => PartTexts(parts)
    case NoText(_) => []
  }

  function PartTexts(parts: seq<Part>): seq<string> {
    if parts == [] then []
    else
      var last := parts[|parts| - 1];
      PartTexts(parts[..|parts| - 1]) + if last.TextPart? then [last.text] else []
  }

  function Join(texts: seq<string>): string {
    if texts == [] then ""
    else if |texts| == 1 then texts[0]
    else Join(texts[..|texts| - 1]) + " " + texts[|texts| - 1]
  }

  /** _prompt_text */
  function PromptText(body: Body): string { Join(Texts(body.messages)) }

  /** _turn_count */
  function TurnCount(messages: seq<Message>): nat {
    if messages == [] then 0
    else TurnCount(messages[..|messages| - 1]) + if messages[|messages| - 1].role == "user" then 1 else 0
  }

  /** The name of a blocking rule is the verdict, and an empty name is taken for none. */
  predicate IsBlocked(o: Outcome) { o.blocked.Some? && o.blocked.value != "" }

  /** The redacting rules the messages are rewritten with. */
  function RedactRules(rules: seq<Rule>): seq<Rule> {
    if rules == [] then []
    else
      var last := rules[|rules| - 1];
      RedactRules(rules[..|rules| - 1])
      + if last.action == "redact" && last.applies in ["input", "both"] then [last] else []
  }

  function RedactContent(env: Env, rules: seq<Rule>, content: Content): Content {
    match content
    case Plain(text) => Plain(Evaluate(env.engine, rules, text, "input").text)
    case Parts(parts) => Parts(seq(|parts|, i requires 0 <= i < |parts| => RedactPart(env, rules, parts[i])))
    case NoText(_) => content
  }

  function RedactPart(env: Env, rules: seq<Rule>, part: Part): Part {
    match part
    case TextPart(text) => TextPart(Evaluate(env.engine, rules, text, "input").text)
    case OtherPart(_) => part
  }

  function RedactMessages(env: Env, rules: seq<Rule>, messages: seq<Message>): seq<Message> {
    seq(|messages|, i requires 0 <= i < |messages| =>
      Message(messages[i].role, RedactContent(env, rules, messages[i].content)))
  }

  /** The body as it is looked up, forwarded and stored. */
  function Redacted(env: Env, request: Request): Body {
    var rules := RedactRules(request.rules);
    if rules == [] then request.body
    else request.body.(messages := RedactMessages(env, rules, request.body.messages))
  }

  predicate HasOutputEnforcement(rules: seq<Rule>) {
    exists r :: r in rules && r.enabled && r.action in ["block", "redact"] && r.applies in ["output", "both"]
  }

  /** Turned away before the cache is consulted. */
  predicate IsRefused(env: Env, request: Request) {
    IsBlocked(Evaluate(env.engine, request.rules, PromptText(request.body), "input"))
    || (HasOutputEnforcement(request.rules) && request.body.stream)
  }

  predicate Bypasses(env: Env, request: Request) {
    var body := Redacted(env, request);
    request.policy.optOut || TurnCount(body.messages) > request.policy.turnLimit || env.personal(PromptText(body))
  }

  function WithheldText(name: string): string { "[response withheld by guardrail: " + name + "]" }

  function FilterChoice(env: Env, rules: seq<Rule>, choice: Choice): Choice {
    match choice.content
    case None => choice
    case Some(text) =>
      var o := Evaluate(env.engine, rules, text, "output");
      choice.(content := Some(if IsBlocked(o) then WithheldText(o.blocked.value) else o.text))
  }

  predicate IsWithheld(env: Env, rules: seq<Rule>, choice: Choice) {
    choice.content.Some? && IsBlocked(Evaluate(env.engine, rules, choice.content.value, "output"))
  }

  predicate AnyWithheld(env: Env, rules: seq<Rule>, choices: seq<Choice>) {
    exists i :: 0 <= i < |choices| && IsWithheld(env, rules, choices[i])
  }

  function FilterChoices(env: Env, rules: seq<Rule>, choices: seq<Choice>): seq<Choice> {
    seq(|choices|, i requires 0 <= i < |choices| => FilterChoice(env, rules, choices[i]))
  }

  /** What the client may see of a choice: of one that a rule with a name blocks a notice in its place, of any
      other text what the redacting rules leave of it. */
  ghost predicate IsFiltered(env: Env, rules: seq<Rule>, choice: Choice, filtered: Choice) {
    && filtered.rest == choice.rest
    && (choice.content.None? ==> filtered.content.None?)
    && (choice.content.Some? ==>
          var o := Evaluate(env.engine, rules, choice.content.value, "output");
          && (forall name | o.blocked == Some(name) && name != "" ::
                filtered.content == Some("[response withheld by guardrail: " + name + "]"))
          && (o.blocked in {None, Some("")} ==> filtered.content == Some(o.text)))
  }

  ghost predicate IsStopped(env: Env, rules: seq<Rule>, choice: Choice) {
    choice.content.Some?
    && Evaluate(env.engine, rules, choice.content.value, "output").blocked !in {None, Some("")}
  }

  lemma FilterIs(env: Env, rules: seq<Rule>, choice: Choice)
    ensures IsFiltered(env, rules, choice, FilterChoice(env, rules, choice))
    ensures IsWithheld(env, rules, choice) <==> IsStopped(env, rules, choice)
  {}

  lemma FilteredAre(env: Env, rules: seq<Rule>, choices: seq<Choice>)
    ensures |FilterChoices(env, rules, choices)| == |choices|
    ensures forall i | 0 <= i < |choices| :: IsFiltered(env, rules, choices[i], FilterChoices(env, rules, choices)[i])
    ensures AnyWithheld(env, rules, choices) <==> exists choice | choice in choices :: IsStopped(env, rules, choice)
  {
    forall i | 0 <= i < |choices|
      ensures IsFiltered(env, rules, choices[i], FilterChoices(env, rules, choices)[i])
      ensures IsWithheld(env, rules, choices[i]) <==> IsStopped(env, rules, choices[i])
    {
      FilterIs(env, rules, choices[i]);
    }
  }

  method FilterOne(env: Env, rules: seq<Rule>, choice: Choice) returns (filtered: Choice, withheld: bool)
    ensures filtered == FilterChoice(env, rules, choice)
    ensures withheld <==> IsWithheld(env, rules, choice)
  {
    filtered, withheld := choice, false;
    if choice.content.Some? {
      var text := choice.content.value;
      var o := EvaluateGuardrails(env.engine, rules, text, "output");
      if IsBlocked(o) {
        filtered, withheld := choice.(content := Some(WithheldText(o.blocked.value))), true;
      } else if o.text != text {
        filtered := choice.(content := Some(o.text));
      }
    }
  }

  /** The loop over the choices of a response. */
  method FilterResponse(env: Env, rules: seq<Rule>, response: Response) returns (filtered: Response, withheld: bool)
    ensures filtered == response.(choices := FilterChoices(env, rules, response.choices))
    ensures withheld <==> AnyWithheld(env, rules, response.choices)
    ensures filtered.bare == response.bare && filtered.rest == response.rest
    ensures |filtered.choices| == |response.choices|
    ensures forall i | 0 <= i < |response.choices| ::
              IsFiltered(env, rules, response.choices[i], filtered.choices[i])
    ensures withheld <==> exists choice | choice in response.choices :: IsStopped(env, rules, choice)
  {
    var choices := response.choices;
    withheld := false;
    var i := 0;
    while i < |choices|
      invariant 0 <= i <= |choices| == |response.choices|
      invariant choices[..i] == FilterChoices(env, rules, response.choices)[..i]
      invariant choices[i..] == response.choices[i..]
      invariant withheld ==> AnyWithheld(env, rules, response.choices)
      invariant !withheld ==> forall j :: 0 <= j < i ==> !IsWithheld(env, rules, response.choices[j])
    {
      assert choices[i] == response.choices[i];
      var choice, blocked := FilterOne(env, rules, choices[i]);
      choices := choices[i := choice];
      withheld := withheld || blocked;
      i := i + 1;
    }
    assert choices == choices[..i];
    FilteredAre(env, rules, response.choices);
    filtered := response.(choices := choices);
  }
}
