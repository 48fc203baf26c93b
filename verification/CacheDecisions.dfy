/** What the chat endpoint makes of a request and of an answer, told from its messages, its rules and its policy
    alone (services/cache/app/router.py). */
module CacheDecisions {
  import opened Basics
  import opened Json
  import opened Guardrails
  import opened ResponseCache
  import opened CacheHistory

  // ---- the text of a prompt ------------------------------------------------------------------

  lemma {:induction false} TextsJoin(a: seq<Message>, b: seq<Message>)
    ensures Texts(a + b) == Texts(a) + Texts(b)
  {
    if b == [] {
      assert a + b == a;
    } else {
      assert (a + b)[..|a + b| - 1] == a + b[..|b| - 1];
      TextsJoin(a, b[..|b| - 1]);
      Associate(Texts(a), Texts(b[..|b| - 1]), TextsOf(b[|b| - 1].content));
    }
  }

  lemma {:induction false} PartTextsJoin(a: seq<Part>, b: seq<Part>)
    ensures PartTexts(a + b) == PartTexts(a) + PartTexts(b)
  {
    if b == [] {
      assert a + b == a;
    } else {
      var last := b[|b| - 1];
      assert (a + b)[..|a + b| - 1] == a + b[..|b| - 1];
      PartTextsJoin(a, b[..|b| - 1]);
      Associate(PartTexts(a), PartTexts(b[..|b| - 1]), if last.TextPart? then [last.text] else []);
    }
  }

  lemma {:induction false} JoinBehind(a: seq<string>, b: seq<string>)
    requires a != [] && b != []
    ensures Join(a + b) == Join(a) + (" " + Join(b))
  {
    assert (a + b)[..|a + b| - 1] == a + b[..|b| - 1];
    if |b| == 1 {
      assert a + b[..0] == a;
    } else {
      JoinBehind(a, b[..|b| - 1]);
    }
  }

  /** A message of plain text contributes it, one of parts what its text parts contribute one by one, and
      everything else nothing; and messages contribute one behind the other. */
  lemma PromptTexts(role: string, text: string, a: seq<Part>, b: seq<Part>, other: Json, before: seq<Message>,
                    behind: seq<Message>)
    ensures Texts([]) == [] && Texts(before + behind) == Texts(before) + Texts(behind)
    ensures Texts([Message(role, Plain(text))]) == [text] && Texts([Message(role, NoText(other))]) == []
    ensures Texts([Message(role, Parts(a + b))]) == Texts([Message(role, Parts(a))]) + Texts([Message(role, Parts(b))])
    ensures Texts([Message(role, Parts([TextPart(text)]))]) == [text]
    ensures Texts([Message(role, Parts([OtherPart(other)]))]) == [] && Texts([Message(role, Parts([]))]) == []
  {
    TextsJoin(before, behind);
    PartTextsJoin(a, b);
    OneMessage(role, Plain(text));
    OneMessage(role, NoText(other));
    OneMessage(role, Parts(a + b));
    OneMessage(role, Parts(a));
    OneMessage(role, Parts(b));
    OneMessage(role, Parts([TextPart(text)]));
    OneMessage(role, Parts([OtherPart(other)]));
    OneMessage(role, Parts([]));
    assert [TextPart(text)][..0] == [] && [OtherPart(other)][..0] == [];
  }

  lemma OneMessage(role: string, content: Content)
    ensures Texts([Message(role, content)]) == TextsOf(content)
  {
    assert [Message(role, content)][..0] == [];
    assert [] + TextsOf(content) == TextsOf(content);
  }

  /** The prompt is these texts with blanks between them. */
  lemma PromptJoins(body: Body, a: seq<string>, b: seq<string>)
    requires Texts(body.messages) == a + b
    ensures a == [] && b == [] ==> PromptText(body) == ""
    ensures |a| == 1 && b == [] ==> PromptText(body) == a[0]
    ensures a != [] && b != [] ==> PromptText(body) == Join(a) + " " + Join(b)
  {
    if a != [] && b != [] {
      JoinBehind(a, b);
      assert Join(a) + (" " + Join(b)) == Join(a) + " " + Join(b);
    } else {
      assert a + b == if b == [] then a else b;
    }
  }

  /** The turns are the messages of the user. */
  ghost function UserTurns(messages: seq<Message>): set<int> {
    set i | 0 <= i < |messages| && messages[i].role == "user"
  }

  lemma {:induction false} TurnsAre(messages: seq<Message>)
    ensures TurnCount(messages) == |UserTurns(messages)|
  {
    if messages != [] {
      var n := |messages| - 1;
      TurnsAre(messages[..n]);
      var before, all := UserTurns(messages[..n]), UserTurns(messages);
      if messages[n].role == "user" {
        assert all == before + {n};
      } else {
        assert all == before;
      }
    }
  }

  // ---- redaction ---------------------------------------------------------------------------------

  /** The rules the messages are rewritten with, in order. */
  lemma {:induction false} RedactRulesJoin(a: seq<Rule>, rule: Rule, b: seq<Rule>)
    ensures RedactRules(a + ([rule] + b))
            == RedactRules(a)
               + ((if rule.action == "redact" && rule.applies in {"input", "both"} then [rule] else [])
                  + RedactRules(b))
    ensures RedactRules([]) == []
  {
    var all := a + ([rule] + b);
    if b == [] {
      assert all[..|all| - 1] == a && all[|all| - 1] == rule;
    } else {
      assert all[..|all| - 1] == a + ([rule] + b[..|b| - 1]);
      RedactRulesJoin(a, rule, b[..|b| - 1]);
    }
  }

  /** A text after the redacting rules for input. */
  function Cleared(env: Env, request: Request, text: string): string {
    Evaluate(env.engine, RedactRules(request.rules), text, "input").text
  }

  /** Every text of every message is rewritten, and nothing else of the request changes. */
  lemma RedactedMeaning(env: Env, request: Request)
    ensures var body := Redacted(env, request);
            && body.model == request.body.model && body.stream == request.body.stream && body.rest == request.body.rest
            && |body.messages| == |request.body.messages|
    ensures forall i | 0 <= i < |request.body.messages| ::
              var m, m' := request.body.messages[i], Redacted(env, request).messages[i];
              && m'.role == m.role
              && (m.content.NoText? ==> m'.content == m.content)
              && (m.content.Plain? ==> m'.content == Plain(Cleared(env, request, m.content.text)))
              && (m.content.Parts? ==> m'.content.Parts? && |m'.content.parts| == |m.content.parts|)
    ensures forall i, j | 0 <= i < |request.body.messages| && request.body.messages[i].content.Parts?
                          && 0 <= j < |request.body.messages[i].content.parts| ::
              var p := request.body.messages[i].content.parts[j];
              Redacted(env, request).messages[i].content.parts[j]
              == if p.TextPart? then TextPart(Cleared(env, request, p.text)) else p
  {
    if RedactRules(request.rules) == [] {
      forall text ensures Cleared(env, request, text) == text { NoRules(env.engine, text, "input"); }
    }
  }

  lemma RolesStay(env: Env, request: Request)
    ensures UserTurns(Redacted(env, request).messages) == UserTurns(request.body.messages)
  {
    RedactedMeaning(env, request);
  }

  // ---- what becomes of a request --------------------------------------------------------------------

  /** The verdict on a text names a rule that blocks it; an unnamed rule blocks nothing. */
  predicate IsNamed(blocked: Option<string>) { blocked.Some? && blocked.value != "" }

  /** An enabled rule that may change or withhold an answer. */
  predicate GuardsOutput(rule: Rule) {
    rule.enabled && (rule.action == "block" || rule.action == "redact")
    && (rule.applies == "output" || rule.applies == "both")
  }

  /** A request is turned away exactly when a rule blocks its prompt, or it asks for a stream and some rule
      guards the output. */
  lemma RefusedIff(env: Env, request: Request)
    ensures IsRefused(env, request) <==>
            IsNamed(Evaluate(env.engine, request.rules, PromptText(request.body), "input").blocked)
            || (request.body.stream && exists r | r in request.rules :: GuardsOutput(r))
  {
    if HasOutputEnforcement(request.rules) {
      var r :| r in request.rules && r.enabled && r.action in ["block", "redact"] && r.applies in ["output", "both"];
      assert GuardsOutput(r);
    }
    if r :| r in request.rules && GuardsOutput(r) {
      assert r.action in ["block", "redact"] && r.applies in ["output", "both"];
    }
  }

  /** It looks in no store exactly when its team has opted out, the user has spoken too often, or the prompt, as
      it is forwarded, holds personal data. */
  lemma BypassesIff(env: Env, request: Request)
    ensures Bypasses(env, request) <==>
            request.policy.optOut || |UserTurns(request.body.messages)| > request.policy.turnLimit
            || env.personal(PromptText(Redacted(env, request)))
  {
    TurnsAre(Redacted(env, request).messages);
    RolesStay(env, request);
  }

  /** What a miss delivers, and what of it is stored: an answer of status 200 with every choice filtered, unless
      one had to be withheld or the request looks in no store. */
  lemma DeliveredMeaning(env: Env, request: Request, reply: Reply)
    ensures reply.status != 200 ==> Delivered(env, request, reply) == reply.response
    ensures reply.status == 200 ==>
              var r := Delivered(env, request, reply);
              && r.bare == reply.response.bare && r.rest == reply.response.rest
              && |r.choices| == |reply.response.choices|
              && forall i | 0 <= i < |r.choices| ::
                   IsFiltered(env, request.rules, reply.response.choices[i], r.choices[i])
    ensures IsStorable(env, request, reply) <==>
            reply.status == 200 && !Bypasses(env, request)
            && !exists choice | choice in reply.response.choices :: IsStopped(env, request.rules, choice)
  {
    FilteredAre(env, request.rules, reply.response.choices);
  }

  // ---- steps at the stores --------------------------------------------------------------------------

  predicate IsAt(w: World, id: nat, f: Flight) { id in w.flights && w.flights[id] == f }

  /** The circuit is open: opened, and not yet to close. */
  predicate IsClosedOff(w: World) { w.circuit.openUntil.Some? && w.now < w.circuit.openUntil.value }

  /** A store that fails on lookup is a miss: the request goes on as if it had found nothing, and a failure on the
      semantic path is counted. */
  lemma FailedLookups(env: Env, w: World, id: nat, request: Request)
    ensures IsAt(w, id, AtExact(request)) ==>
              Apply(env, w, LookExact(id, false)) == w.(flights := w.flights[id := AtSemantic(request)])
    ensures IsAt(w, id, AtSemantic(request)) ==>
              var failures := w.circuit.failures + 1;
              Apply(env, w, LookSemantic(id, None))
              == w.(flights := w.flights[id := AtUpstream(request, None)],
                    circuit := Circuit(failures, if failures >= 5 then Some(w.now + 120) else w.circuit.openUntil))
  {}

  /** An exact lookup answers with the entry under the key of the redacted body, unless it has expired or is bare. */
  lemma ExactLookup(env: Env, w: World, id: nat, request: Request)
    requires IsAt(w, id, AtExact(request))
    ensures var w', key := Apply(env, w, LookExact(id, true)), Key(env, request);
            if key in w.exact && w.now < w.exact[key].expires && !w.exact[key].value.bare then
              w' == w.(flights := w.flights - {id}, log := w.log + [ExactHit(request, w.exact[key].value)])
            else w' == w.(flights := w.flights[id := AtSemantic(request)])
  {}

  /** Row k is a live one of the request's team and project, and no other is nearer. */
  ghost predicate IsNearest(env: Env, w: World, request: Request, at: Vector, k: nat) {
    k < |w.rows| && IsLiveFor(w, request, w.rows[k])
    && forall row :: row in w.rows && IsLiveFor(w, request, row) ==>
         env.similarity(row.embedding, at) <= env.similarity(w.rows[k].embedding, at)
  }

  predicate IsLiveFor(w: World, request: Request, row: Row) {
    row.team == request.team && row.project == request.project && w.now < row.expires
  }

  /** A semantic lookup answers with a nearest live row of the team and project if it is near enough and not bare,
      and the circuit is closed. */
  lemma SemanticLookup(env: Env, w: World, id: nat, request: Request, at: Vector) returns (k: nat)
    requires IsAt(w, id, AtSemantic(request))
    ensures var w' := Apply(env, w, LookSemantic(id, Some(at)));
            var missed := w.(flights := w.flights[id := AtUpstream(request, Some(at))]);
            && (IsClosedOff(w) || (forall row :: row in w.rows ==> !IsLiveFor(w, request, row)) ==> w' == missed)
            && (!IsClosedOff(w) && (exists row :: row in w.rows && IsLiveFor(w, request, row)) ==>
                  IsNearest(env, w, request, at, k)
                  && w' == if env.similarity(w.rows[k].embedding, at) >= request.policy.threshold
                              && !w.rows[k].value.bare
                           then w.(flights := w.flights - {id},
                                   log := w.log + [SemanticHit(request, at, w.rows[k].value)])
                           else missed)
  {
    NearestMeaning(env, w.rows, at, request.team, request.project, w.now);
    var best := Nearest(env, w.rows, at, request.team, request.project, w.now);
    k := 0;
    if best.Some? {
      k :| 0 <= k < |w.rows| && w.rows[k] == best.value;
    }
  }

  /** A delivered answer goes into the exact store for the time to live, and if the prompt has an embedding into the
      semantic one unless the circuit is open, for at least a second; a store that fails is passed over. */
  lemma AnswerIsStored(env: Env, w: World, id: nat, request: Request, embedding: Option<Vector>, value: Response,
                       exactUp: bool, semanticUp: bool, jitter: int)
    requires IsAt(w, id, AtExactStore(request, embedding, value))
    ensures var w' := Apply(env, Apply(env, w, StoreExact(id, exactUp)), StoreSemantic(id, semanticUp, jitter));
            var ttl := request.policy.ttl;
            && w'.log == w.log && w'.flights == w.flights - {id} && w'.circuit == w.circuit
            && (exactUp && ttl > 0 ==> w'.exact == w.exact[Key(env, request) := Slot(value, w.now + ttl)])
            && (!exactUp || ttl <= 0 ==> w'.exact == w.exact)
            && (embedding.None? || !semanticUp || IsClosedOff(w) ==> w'.rows == w.rows)
            && (embedding.Some? && semanticUp && !IsClosedOff(w) ==>
                  exists expires ::
                    w'.rows == w.rows + [Row(request.team, request.project, embedding.value, value, expires)]
                    && expires == if ttl + jitter >= 1 then w.now + ttl + jitter else w.now + 1)
  {
    if embedding.Some? {
      assert w.flights[id := AtSemanticStore(request, embedding.value, value)] - {id} == w.flights - {id};
    }
  }

  /** What the provider replies is delivered, and stored unless it may not be; a streamed answer never is. */
  lemma AnswerIsDelivered(env: Env, w: World, id: nat, request: Request, embedding: Option<Vector>,
                          reply: Option<Reply>)
    requires IsAt(w, id, AtUpstream(request, embedding))
    ensures var w' := Apply(env, w, Answer(id, reply));
            var done := w.flights - {id};
            && (request.body.stream ==> w' == w.(flights := done, log := w.log + [StreamedMiss(request)]))
            && (!request.body.stream && reply.None? ==>
                  w' == w.(flights := done, log := w.log + [Unavailable(request)]))
            && (!request.body.stream && reply.Some? ==>
                  var r := reply.value;
                  w' == w.(log := w.log + [Miss(request, embedding, r.status, r.response)],
                           flights := if IsStorable(env, request, r)
                                      then w.flights[id := AtExactStore(request, embedding, Delivered(env, request, r))]
                                      else done))
  {}

  /** Evictions, pruned rows, a reset, clients that go and time that passes change just what they are about. */
  lemma OtherEvents(env: Env, w: World, id: nat, key: string, before: seq<Row>, row: Row, behind: seq<Row>,
                    seconds: nat)
    ensures Apply(env, w, Abandon(id)) == w.(flights := map k | k in w.flights && k != id :: w.flights[k])
    ensures Apply(env, w, Evict(key)) == w.(exact := map k | k in w.exact && k != key :: w.exact[k])
    ensures w.rows == before + [row] + behind ==> Apply(env, w, Prune(|before|)) == w.(rows := before + behind)
    ensures Apply(env, w, Reset) == w.(circuit := Circuit(0, None))
    ensures Apply(env, w, Tick(seconds)) == w.(now := w.now + seconds)
  {
    assert w.flights - {id} == map k | k in w.flights && k != id :: w.flights[k];
    assert w.exact - {key} == map k | k in w.exact && k != key :: w.exact[k];
  }
}
