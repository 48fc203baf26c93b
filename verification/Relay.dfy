/** The WebSocket relay of services/agent-relay/app/main.py: agents register, connect and answer
    invocations; four dictionaries hold all of its state. A step runs from one await to the next. */
module Relay {
  import opened Json

  type Token = string

  type Slug = string

  type Id = string

  type Socket = nat

  datatype Agent = Agent(slug: Slug, name: string)

  /** An asyncio future; `wait_for` cancels it on timeout. */
  datatype Future = Unset | Set(reply: Json) | Cancelled

  datatype Maps = Maps(
    agents: map<Token, Agent>,
    connections: map<Token, Socket>,
    pending: map<Id, Future>,
    slugs: map<Slug, Token>)

  // ---- what the endpoints do to the dictionaries ------------------------------------------

  function Registered(m: Maps, token: Token, agent: Agent): Maps {
    m.(agents := m.agents[token := agent], slugs := m.slugs[agent.slug := token])
  }

  function Connected(m: Maps, token: Token, socket: Socket): Maps {
    m.(connections := m.connections[token := socket])
  }

  function Disconnected(m: Maps, token: Token): Maps
    requires token in m.agents
  {
    var slug := m.agents[token].slug;
    m.(connections := m.connections - {token},
       slugs := if slug in m.slugs && m.slugs[slug] == token then m.slugs - {slug} else m.slugs)
  }

  function Opened(m: Maps, id: Id): Maps { m.(pending := m.pending[id := Unset]) }

  function Replied(m: Maps, id: Id, reply: Json): Maps {
    if id in m.pending && m.pending[id].Unset? then m.(pending := m.pending[id := Set(reply)]) else m
  }

  function Expired(m: Maps, id: Id): Maps {
    if id in m.pending && m.pending[id].Unset? then m.(pending := m.pending[id := Cancelled]) else m
  }

  function Closed(m: Maps, id: Id): Maps { m.(pending := m.pending - {id}) }

  /** Where an invocation of the slug would be sent. */
  function Target(m: Maps, slug: Slug): Option<Socket> {
    if slug in m.slugs && m.slugs[slug] in m.connections then Some(m.connections[m.slugs[slug]]) else None
  }

  class Server {
    var agents: map<Token, Agent>
    var connections: map<Token, Socket>
    var pending: map<Id, Future>
    var slugs: map<Slug, Token>

    function Value(): Maps
      reads this
    {
      Maps(agents, connections, pending, slugs)
    }

    constructor ()
      ensures Value() == Maps(map[], map[], map[], map[])
    {
      agents, connections, pending, slugs := map[], map[], map[], map[];
    }

    method Register(token: Token, slug: Slug, name: string)
      modifies this
      ensures Value() == Registered(old(Value()), token, Agent(slug, name))
      ensures agents == old(agents)[token := Agent(slug, name)] && slugs == old(slugs)[slug := token]
      ensures connections == old(connections) && pending == old(pending)
    {
      agents := agents[token := Agent(slug, name)];
      slugs := slugs[slug := token];
    }

    /** The first half of connect; an unknown token is closed with code 4004. */
    method Accept(token: Token, socket: Socket) returns (accepted: bool)
      modifies this
      ensures accepted <==> token in old(agents)
      ensures Value() == if accepted then Connected(old(Value()), token, socket) else old(Value())
      ensures connections == if accepted then old(connections)[token := socket] else old(connections)
      ensures agents == old(agents) && slugs == old(slugs) && pending == old(pending)
    {
      accepted := token in agents;
      if accepted {
        connections := connections[token := socket];
      }
    }

    /** Its last half, when the socket is gone. */
    method Leave(token: Token)
      requires token in agents
      modifies this
      ensures Value() == Disconnected(old(Value()), token)
      ensures connections == old(connections) - {token} && agents == old(agents) && pending == old(pending)
      ensures forall slug :: slug in slugs <==>
                slug in old(slugs) && !(old(slugs)[slug] == token && slug == agents[token].slug)
      ensures forall slug :: slug in slugs ==> slugs[slug] == old(slugs)[slug]
    {
      connections := connections - {token};
      var slug := agents[token].slug;
      if slug in slugs && slugs[slug] == token {
        slugs := slugs - {slug};
      }
    }

    /** A message from an agent; true if it settled a future. */
    method Receive(id: Id, reply: Json) returns (settled: bool)
      modifies this
      ensures settled <==> id in old(pending) && old(pending)[id].Unset?
      ensures Value() == Replied(old(Value()), id, reply)
      ensures pending == if settled then old(pending)[id := Set(reply)] else old(pending)
      ensures agents == old(agents) && connections == old(connections) && slugs == old(slugs)
    {
      settled := false;
      if id in pending {
        if pending[id].Unset? {
          pending := pending[id := Set(reply)];
          settled := true;
        }
      }
    }

    /** The first half of invoke: None is the 503. */
    method Invoke(slug: Slug, id: Id) returns (socket: Option<Socket>)
      modifies this
      ensures socket == Target(old(Value()), slug)
      ensures Value() == if socket.Some? then Opened(old(Value()), id) else old(Value())
      ensures socket.Some? <==> slug in old(slugs) && old(slugs)[slug] in old(connections)
      ensures socket.Some? ==>
                socket.value == old(connections)[old(slugs)[slug]] && pending == old(pending)[id := Unset]
      ensures socket.None? ==> pending == old(pending)
      ensures agents == old(agents) && connections == old(connections) && slugs == old(slugs)
    {
      if slug !in slugs || slugs[slug] !in connections {
        return None;
      }
      pending := pending[id := Unset];
      return Some(connections[slugs[slug]]);
    }

    /** The timeout of `wait_for`. */
    method Expire(id: Id)
      modifies this
      ensures Value() == Expired(old(Value()), id)
    {
      if id in pending && pending[id].Unset? {
        pending := pending[id := Cancelled];
      }
    }

    /** The `finally` of invoke. */
    method Close(id: Id)
      modifies this
      ensures Value() == Closed(old(Value()), id)
    {
      pending := pending - {id};
    }
  }

  // ---- runs -----------------------------------------------------------------------------------

  datatype Outcome = Answered(reply: Json) | TimedOut | Failed | NotConnected

  /** Tokens and invocation ids are fresh random UUIDs. */
  datatype Event =
    | Register(token: Token, agent: Agent)
    | Connect(socket: Socket, token: Token)
    | Disconnect(socket: Socket)
    | Reply(socket: Socket, id: Id, reply: Json)
    | Invoke(id: Id, slug: Slug)
    | Timeout(id: Id)
    | Resume(id: Id)
    | Fail(id: Id)

  /** The dictionaries; the connect coroutines by socket; the invoke coroutines by id, each with the socket
      it sends to; and how invocations ended. */
  datatype Sys = Sys(maps: Maps, sockets: map<Socket, Token>, flights: map<Id, Socket>, outcomes: map<Id, Outcome>)

  const START := Sys(Maps(map[], map[], map[], map[]), map[], map[], map[])

  function End(s: Sys, id: Id, outcome: Outcome): Sys {
    s.(maps := Closed(s.maps, id), flights := s.flights - {id}, outcomes := s.outcomes[id := outcome])
  }

  function Apply(s: Sys, e: Event): Sys {
    match e
    case Register(token, agent) =>
      if token in s.maps.agents then s else s.(maps := Registered(s.maps, token, agent))
    case Connect(socket, token) =>
      if socket in s.sockets || token !in s.maps.agents then s
      else s.(maps := Connected(s.maps, token, socket), sockets := s.sockets[socket := token])
    case Disconnect(socket) =>
      if socket !in s.sockets || s.sockets[socket] !in s.maps.agents then s
      else s.(maps := Disconnected(s.maps, s.sockets[socket]), sockets := s.sockets - {socket})
    case Reply(socket, id, reply) =>
      if socket in s.sockets then s.(maps := Replied(s.maps, id, reply)) else s
    case Invoke(id, slug) =>
      if id in s.flights || id in s.outcomes then s
      else
        (match Target(s.maps, slug)
         case Some(socket) => s.(maps := Opened(s.maps, id), flights := s.flights[id := socket])
         case None => s.(outcomes := s.outcomes[id := NotConnected]))
    case Timeout(id) => if id in s.flights then s.(maps := Expired(s.maps, id)) else s
    case Resume(id) =>
      if id !in s.flights || id !in s.maps.pending then s
      else
        (match s.maps.pending[id]
         case Unset => s
         case Set(reply) => End(s, id, Answered(reply))
         case Cancelled => End(s, id, TimedOut))
    case Fail(id) => if id in s.flights then End(s, id, Failed) else s
  }

  function Run(events: seq<Event>): Sys {
    if events == [] then START else Apply(Run(events[..|events| - 1]), events[|events| - 1])
  }

  // ---- who can be invoked, told from the history -------------------------------------------------

  /** The latest registration of each slug, the slug of each token, the sockets still open, the tokens that
      have ever connected, and those a socket of which has ever disconnected. */
  datatype History = History(
    latest: map<Slug, Token>, owner: map<Token, Slug>, open: map<Socket, Token>,
    joined: set<Token>, dropped: set<Token>)

  function Remember(h: History, e: Event): History {
    match e
    case Register(token, agent) =>
      if token in h.owner then h
      else h.(latest := h.latest[agent.slug := token], owner := h.owner[token := agent.slug])
    case Connect(socket, token) =>
      if socket in h.open || token !in h.owner then h
      else h.(open := h.open[socket := token], joined := h.joined + {token})
    case Disconnect(socket) =>
      if socket in h.open then h.(open := h.open - {socket}, dropped := h.dropped + {h.open[socket]}) else h
    case _ => h
  }

  function Past(events: seq<Event>): History {
    if events == [] then History(map[], map[], map[], {}, {})
    else Remember(Past(events[..|events| - 1]), events[|events| - 1])
  }

  predicate OwnersOk(m: Maps, h: History) {
    m.agents.Keys == h.owner.Keys && forall t :: t in m.agents ==> m.agents[t].slug == h.owner[t]
  }

  predicate LatestOk(h: History) {
    (forall s :: s in h.latest ==> h.latest[s] in h.owner && h.owner[h.latest[s]] == s)
    && (forall k :: k in h.open ==> h.open[k] in h.owner && h.open[k] in h.joined)
    && h.joined <= h.owner.Keys && h.dropped <= h.owner.Keys
  }

  /** A slug points to its latest registration, for as long as no socket of that has disconnected. */
  predicate SlugsOk(m: Maps, h: History) {
    (forall s :: s in m.slugs ==> s in h.latest && m.slugs[s] == h.latest[s] && h.latest[s] !in h.dropped)
    && forall s :: s in h.latest && h.latest[s] !in h.dropped ==> s in m.slugs
  }

  /** A connection is an open socket of its token. */
  predicate ConnectionsOk(m: Maps, h: History) {
    (forall t :: t in m.connections ==> m.connections[t] in h.open && h.open[m.connections[t]] == t)
    && forall t :: t in h.joined && t !in h.dropped ==> t in m.connections
  }

  predicate Inv(s: Sys, h: History) {
    OwnersOk(s.maps, h) && LatestOk(h) && SlugsOk(s.maps, h) && ConnectionsOk(s.maps, h) && s.sockets == h.open
  }

  lemma RegisterKeeps(s: Sys, h: History, token: Token, agent: Agent)
    requires Inv(s, h)
    ensures Inv(Apply(s, Register(token, agent)), Remember(h, Register(token, agent)))
  {}

  lemma ConnectKeeps(s: Sys, h: History, socket: Socket, token: Token)
    requires Inv(s, h)
    ensures Inv(Apply(s, Connect(socket, token)), Remember(h, Connect(socket, token)))
  {}

  lemma DisconnectKeeps(s: Sys, h: History, socket: Socket)
    requires Inv(s, h)
    ensures Inv(Apply(s, Disconnect(socket)), Remember(h, Disconnect(socket)))
  {
    if socket in h.open {
      var token := h.open[socket];
      assert token in s.maps.agents && s.maps.agents[token].slug == h.owner[token];
    }
  }

  /** The remaining steps touch neither connections nor registrations. */
  lemma OtherFrame(s: Sys, h: History, e: Event)
    requires !e.Register? && !e.Connect? && !e.Disconnect?
    ensures var s' := Apply(s, e);
            s'.maps == s.maps.(pending := s'.maps.pending) && s'.sockets == s.sockets
    ensures Remember(h, e) == h
  {}

  lemma OtherKeeps(s: Sys, s': Sys, h: History)
    requires Inv(s, h)
    requires s'.maps == s.maps.(pending := s'.maps.pending) && s'.sockets == s.sockets
    ensures Inv(s', h)
  {}

  lemma {:induction false} RunKeeps(events: seq<Event>)
    ensures Inv(Run(events), Past(events))
  {
    if events != [] {
      var n := |events| - 1;
      var s, h, e := Run(events[..n]), Past(events[..n]), events[n];
      RunKeeps(events[..n]);
      if e.Register? {
        RegisterKeeps(s, h, e.token, e.agent);
      } else if e.Connect? {
        ConnectKeeps(s, h, e.socket, e.token);
      } else if e.Disconnect? {
        DisconnectKeeps(s, h, e.socket);
      } else {
        OtherFrame(s, h, e);
        OtherKeeps(s, Apply(s, e), h);
      }
    }
  }

  /** An agent can be invoked exactly when its latest registration has connected and no socket of that
      registration has ever disconnected; and then the invocation goes to an open socket of it. */
  lemma InvocableIff(events: seq<Event>, slug: Slug)
    ensures var h := Past(events);
            Target(Run(events).maps, slug).Some?
            <==> slug in h.latest && h.latest[slug] in h.joined && h.latest[slug] !in h.dropped
    ensures var h := Past(events);
            Target(Run(events).maps, slug).Some? ==>
              var socket := Target(Run(events).maps, slug).value;
              socket in h.open && h.open[socket] == h.latest[slug]
  {
    RunKeeps(events);
  }

  /** Connections belong to registered agents, and no slug points anywhere but to its latest registration. */
  lemma MapsConsistent(events: seq<Event>)
    ensures var m := Run(events).maps;
            m.connections.Keys <= m.agents.Keys
            && forall s :: s in m.slugs ==> s in Past(events).latest && m.slugs[s] == Past(events).latest[s]
                                            && m.slugs[s] in m.agents && m.agents[m.slugs[s]].slug == s
  {
    RunKeeps(events);
  }

  /** A socket that disconnects takes a slug along only if that still points to the socket's own token. */
  lemma LateDisconnect(events: seq<Event>, socket: Socket, slug: Slug, s: Sys, after: Sys)
    requires s == Run(events) && after == Apply(s, Disconnect(socket))
    requires socket in s.sockets && slug in s.maps.slugs
    ensures slug in after.maps.slugs <==> s.maps.slugs[slug] != s.sockets[socket]
    ensures slug in after.maps.slugs ==> after.maps.slugs[slug] == s.maps.slugs[slug]
  {
    RunKeeps(events);
  }

  lemma RunGrows(events: seq<Event>, e: Event)
    ensures Run(events + [e]) == Apply(Run(events), e)
  {
    assert (events + [e])[..|events|] == events;
  }

  /** So an agent that drops and connects again with its token is connected, yet cannot be invoked. */
  lemma ReconnectIsNotInvocable(token: Token, agent: Agent)
    ensures var events := [Register(token, agent), Connect(0, token), Disconnect(0), Connect(1, token)];
            token in Run(events).maps.connections && Target(Run(events).maps, agent.slug).None?
  {
    var r, c, d, c' := Register(token, agent), Connect(0, token), Disconnect(0), Connect(1, token);
    RunGrows([], r);
    RunGrows([r], c);
    RunGrows([r, c], d);
    RunGrows([r, c, d], c');
    assert [] + [r] == [r] && [r] + [c] == [r, c] && [r, c] + [d] == [r, c, d] && [r, c, d] + [c'] == [r, c, d, c'];
  }

  // ---- when a token is connected ------------------------------------------------------------------

  /** The k-th event connects `socket` with the token. */
  predicate Joins(events: seq<Event>, k: nat, token: Token, socket: Socket)
    requires k < |events|
  {
    events[k] == Connect(socket, token) && socket !in Run(events[..k]).sockets && token in Run(events[..k]).maps.agents
  }

  /** The k-th event disconnects a socket of the token. */
  predicate Drops(events: seq<Event>, k: nat, token: Token)
    requires k < |events|
  {
    events[k].Disconnect? && events[k].socket in Run(events[..k]).sockets
    && Run(events[..k]).sockets[events[k].socket] == token
  }

  /** `socket` was the last to connect with the token, and none of the token's has disconnected since. */
  ghost predicate IsLastToJoin(events: seq<Event>, token: Token, socket: Socket) {
    exists j: nat | j < |events| :: Joins(events, j, token, socket) && IsLeftAlone(events, j, token)
  }

  /** The k-th event neither connects with the token nor disconnects from it. */
  ghost predicate LeavesAlone(events: seq<Event>, k: nat, token: Token)
    requires k < |events|
  {
    !Drops(events, k, token) && forall socket :: !Joins(events, k, token, socket)
  }

  ghost predicate IsLeftAlone(events: seq<Event>, j: nat, token: Token) {
    forall k: nat | j < k < |events| :: LeavesAlone(events, k, token)
  }

  lemma SameBefore(events: seq<Event>, n: nat, k: nat, token: Token)
    requires k < n <= |events|
    ensures forall socket :: Joins(events[..n], k, token, socket) <==> Joins(events, k, token, socket)
    ensures LeavesAlone(events[..n], k, token) <==> LeavesAlone(events, k, token)
  {
    assert events[..n][..k] == events[..k];
  }

  lemma LeftAloneStep(events: seq<Event>, n: nat, j: nat, token: Token)
    requires j < n && n + 1 == |events|
    ensures IsLeftAlone(events, j, token) <==> IsLeftAlone(events[..n], j, token) && LeavesAlone(events, n, token)
  {
    forall k: nat | k < n ensures LeavesAlone(events[..n], k, token) <==> LeavesAlone(events, k, token) {
      SameBefore(events, n, k, token);
    }
  }

  lemma LastToJoinStep(events: seq<Event>, token: Token, socket: Socket)
    requires events != []
    ensures var n := |events| - 1;
            IsLastToJoin(events, token, socket)
            <==> Joins(events, n, token, socket)
                 || (IsLastToJoin(events[..n], token, socket) && LeavesAlone(events, n, token))
  {
    var n := |events| - 1;
    if IsLastToJoin(events, token, socket) {
      var j: nat :| j < |events| && Joins(events, j, token, socket) && IsLeftAlone(events, j, token);
      if j < n {
        SameBefore(events, n, j, token);
        LeftAloneStep(events, n, j, token);
      }
    }
    if IsLastToJoin(events[..n], token, socket) && LeavesAlone(events, n, token) {
      var j: nat :| j < n && Joins(events[..n], j, token, socket) && IsLeftAlone(events[..n], j, token);
      SameBefore(events, n, j, token);
      LeftAloneStep(events, n, j, token);
    }
    if Joins(events, n, token, socket) { assert IsLeftAlone(events, n, token); }
  }

  lemma ConnectionStep(s: Sys, e: Event, token: Token)
    ensures var s' := Apply(s, e);
            if e.Connect? && e.token == token && e.socket !in s.sockets && token in s.maps.agents then
              token in s'.maps.connections && s'.maps.connections[token] == e.socket
            else if e.Disconnect? && e.socket in s.sockets && s.sockets[e.socket] == token
                    && token in s.maps.agents then
              token !in s'.maps.connections
            else
              (token in s'.maps.connections <==> token in s.maps.connections)
              && (token in s'.maps.connections ==> s'.maps.connections[token] == s.maps.connections[token])
  {}

  /** A token is connected exactly when a socket has connected with it since the last of its sockets disconnected,
      older ones included, and then it is the last socket that has. */
  lemma {:induction false} ConnectedIff(events: seq<Event>, token: Token, socket: Socket)
    ensures token in Run(events).maps.connections && Run(events).maps.connections[token] == socket
            <==> IsLastToJoin(events, token, socket)
  {
    if events != [] {
      var n := |events| - 1;
      var s, e := Run(events[..n]), events[n];
      ConnectedIff(events[..n], token, socket);
      RunKeeps(events[..n]);
      ConnectionStep(s, e, token);
      LastToJoinStep(events, token, socket);
      assert Drops(events, n, token) ==> token in s.maps.agents;
      assert e.Connect? ==> (Joins(events, n, token, e.socket)
                             <==> e.token == token && e.socket !in s.sockets && token in s.maps.agents);
    }
  }

  /** And of two sockets with one token, the older one's end takes the younger one's connection. */
  lemma OlderSocketTakesYounger(events: seq<Event>, older: Socket, younger: Socket, token: Token)
    requires older in Run(events).sockets && Run(events).sockets[older] == token
    requires younger !in Run(events).sockets
    ensures var both := Apply(Run(events), Connect(younger, token));
            var after := Apply(both, Disconnect(older));
            token in both.maps.connections && both.maps.connections[token] == younger
            && younger in after.sockets && token !in after.maps.connections
  {
    RunKeeps(events);
  }

  // ---- replies ----------------------------------------------------------------------------------------

  /** The event settles an invocation that waits: a reply carrying its id, from any open socket, or its
      timeout. */
  predicate Settles(s: Sys, e: Event, id: Id) {
    id in s.flights && ((e.Reply? && e.id == id && e.socket in s.sockets) || e == Timeout(id))
  }

  function SettledBy(e: Event): Future
    requires e.Reply? || e.Timeout?
  {
    if e.Reply? then Set(e.reply) else Cancelled
  }

  /** What the first event to settle the invocation made of it. */
  function Verdict(events: seq<Event>, id: Id): Future {
    if events == [] then Unset
    else
      var n := |events| - 1;
      var before := Verdict(events[..n], id);
      if before == Unset && Settles(Run(events[..n]), events[n], id) then SettledBy(events[n]) else before
  }

  predicate OutcomeOk(o: Outcome, verdict: Future) {
    match o
    case Answered(reply) => verdict == Set(reply)
    case TimedOut => verdict == Cancelled
    case Failed => true
    case NotConnected => verdict == Unset
  }

  predicate InvocationOk(s: Sys, id: Id, verdict: Future) {
    (id in s.maps.pending <==> id in s.flights)
    && (id in s.flights ==> id !in s.outcomes && s.maps.pending[id] == verdict)
    && (id in s.outcomes ==> OutcomeOk(s.outcomes[id], verdict))
    && (id !in s.flights && id !in s.outcomes ==> verdict == Unset)
  }

  lemma InvocationStep(s: Sys, e: Event, id: Id, verdict: Future)
    requires InvocationOk(s, id, verdict)
    ensures InvocationOk(Apply(s, e), id, if verdict == Unset && Settles(s, e, id) then SettledBy(e) else verdict)
  {
    match e
    case Register(_, _) =>
    case Connect(_, _) =>
    case Disconnect(_) =>
    case Reply(_, _, _) =>
    case Invoke(_, _) =>
    case Timeout(_) =>
    case Resume(_) =>
    case Fail(_) =>
  }

  /** Pending ids are exactly the invocations in flight; a future is settled once, by the first reply to
      carry its id or by the timeout if that comes first, and the caller is told just that. */
  lemma {:induction false} FirstToSettleWins(events: seq<Event>, id: Id)
    ensures InvocationOk(Run(events), id, Verdict(events, id))
  {
    if events != [] {
      var n := |events| - 1;
      FirstToSettleWins(events[..n], id);
      InvocationStep(Run(events[..n]), events[n], id, Verdict(events[..n], id));
    }
  }

  predicate SettlesAt(events: seq<Event>, i: nat, id: Id)
    requires i < |events|
  {
    Settles(Run(events[..i]), events[i], id)
  }

  lemma SettlesAtPrefix(events: seq<Event>, n: nat, i: nat, id: Id)
    requires i < n <= |events|
    ensures SettlesAt(events[..n], i, id) == SettlesAt(events, i, id)
  {
    assert events[..n][..i] == events[..i];
  }

  /** The verdict in terms of positions in the run. */
  lemma {:induction false} VerdictMeaning(events: seq<Event>, id: Id) returns (k: nat)
    ensures k <= |events|
    ensures forall i :: 0 <= i < k ==> !SettlesAt(events, i, id)
    ensures k < |events| ==> SettlesAt(events, k, id) && Verdict(events, id) == SettledBy(events[k])
    ensures k == |events| ==> Verdict(events, id) == Unset
  {
    k := 0;
    if events != [] {
      var n := |events| - 1;
      k := VerdictMeaning(events[..n], id);
      forall i: nat | i < n
        ensures SettlesAt(events[..n], i, id) == SettlesAt(events, i, id)
      {
        SettlesAtPrefix(events, n, i, id);
      }
      if k == n && !SettlesAt(events, n, id) {
        k := n + 1;
      }
    }
  }

  /** Once settled, never settled again, whatever follows. */
  lemma {:induction false} VerdictIsFinal(events: seq<Event>, more: seq<Event>, id: Id)
    requires Verdict(events, id) != Unset
    ensures Verdict(events + more, id) == Verdict(events, id)
    decreases |more|
  {
    if more == [] {
      assert events + more == events;
    } else {
      var n := |more| - 1;
      VerdictIsFinal(events, more[..n], id);
      assert (events + more)[..|events + more| - 1] == events + more[..n];
    }
  }

  // ---- how invocations end ----------------------------------------------------------------------------

  /** The i-th event ends an invocation in flight: it fails, or it is resumed after its future was settled. */
  predicate EndsAt(events: seq<Event>, i: nat, id: Id)
    requires i < |events|
  {
    id in Run(events[..i]).flights
    && (events[i] == Fail(id) || (events[i] == Resume(id) && Verdict(events[..i], id) != Unset))
  }

  /** What the caller is told then. */
  function ToldAt(events: seq<Event>, i: nat, id: Id): Outcome
    requires i < |events|
  {
    match Verdict(events[..i], id)
    case Set(reply) => if events[i] == Fail(id) then Failed else Answered(reply)
    case _ => if events[i] == Fail(id) then Failed else TimedOut
  }

  lemma EndStep(s: Sys, e: Event, id: Id, verdict: Future)
    requires InvocationOk(s, id, verdict)
    ensures var ends := id in s.flights && (e == Fail(id) || (e == Resume(id) && verdict != Unset));
            var s' := Apply(s, e);
            && (ends ==> id !in s'.flights && id in s'.outcomes
                         && s'.outcomes[id] == (if e == Fail(id) then Failed
                                                else if verdict.Set? then Answered(verdict.reply) else TimedOut))
            && (!ends ==> (id in s.flights ==> id in s'.flights)
                          && (id in s'.outcomes && s'.outcomes[id] != NotConnected ==>
                                id in s.outcomes && s.outcomes[id] == s'.outcomes[id])
                          && (id in s.outcomes ==> id in s'.outcomes && s'.outcomes[id] == s.outcomes[id]))
  {
    match e
    case Register(_, _) =>
    case Connect(_, _) =>
    case Disconnect(_) =>
    case Reply(_, _, _) =>
    case Invoke(_, _) =>
    case Timeout(_) =>
    case Resume(_) =>
    case Fail(_) =>
  }

  lemma EndsAtPrefix(events: seq<Event>, n: nat, i: nat, id: Id)
    requires i < n <= |events|
    ensures EndsAt(events[..n], i, id) == EndsAt(events, i, id)
    ensures ToldAt(events[..n], i, id) == ToldAt(events, i, id)
  {
    assert events[..n][..i] == events[..i];
  }

  ghost predicate EndedWith(events: seq<Event>, id: Id, outcome: Outcome) {
    exists i: nat | i < |events| :: EndsAt(events, i, id) && ToldAt(events, i, id) == outcome
  }

  lemma EndedStep(events: seq<Event>, id: Id, outcome: Outcome)
    requires events != []
    ensures var n := |events| - 1;
            EndedWith(events, id, outcome)
            <==> EndedWith(events[..n], id, outcome) || (EndsAt(events, n, id) && ToldAt(events, n, id) == outcome)
  {
    var n := |events| - 1;
    forall i: nat | i < n
      ensures EndsAt(events[..n], i, id) == EndsAt(events, i, id)
      ensures ToldAt(events[..n], i, id) == ToldAt(events, i, id)
    {
      EndsAtPrefix(events, n, i, id);
    }
  }

  /** An invocation that was sent has ended in some way exactly when an event of the run ended it so: with a failure
      or, resumed, with the reply or the timeout that settled it. */
  lemma {:induction false} EndedIff(events: seq<Event>, id: Id, outcome: Outcome)
    requires outcome != NotConnected
    ensures id in Run(events).outcomes && Run(events).outcomes[id] == outcome <==> EndedWith(events, id, outcome)
  {
    if events != [] {
      var n := |events| - 1;
      EndedIff(events[..n], id, outcome);
      EndedStep(events, id, outcome);
      FirstToSettleWins(events[..n], id);
      EndStep(Run(events[..n]), events[n], id, Verdict(events[..n], id));
    }
  }

  /** A fresh invocation is under way to the connection of the slug's token, or is told at once that there is none. */
  lemma InvokeMeaning(s: Sys, id: Id, slug: Slug)
    requires id !in s.flights && id !in s.outcomes
    ensures var s' := Apply(s, Invoke(id, slug));
            if slug in s.maps.slugs && s.maps.slugs[slug] in s.maps.connections then
              id in s'.flights && s'.flights[id] == s.maps.connections[s.maps.slugs[slug]] && s'.outcomes == s.outcomes
            else s'.flights == s.flights && s'.outcomes == s.outcomes[id := NotConnected] && s'.maps == s.maps
  {}
}
