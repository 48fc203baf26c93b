/** _replay_as_sse of services/cache/app/router.py: a cached response re-told as a stream of chunks, and the
    client that puts the chunks together again. */
module Replay {
  import opened Json

  datatype Choice = Choice(content: Option<string>, toolCalls: Json, finish: Option<string>)

  datatype Chunk =
    | Role
    | TextDelta(index: nat, text: string)
    | CallsDelta(index: nat, calls: Json)
    | Finish(reason: string, usage: Json)
    | Done

  // ---- the chunks ----------------------------------------------------------------------

  function TextOf(choice: Choice): string { if choice.content.Some? then choice.content.value else "" }

  function ReasonOf(choices: seq<Choice>): string {
    if choices != [] && choices[0].finish.Some? && choices[0].finish.value != "" then choices[0].finish.value
    else "stop"
  }

  function ChunksOf(choice: Choice, index: nat): seq<Chunk> {
    (if TextOf(choice) != "" then [TextDelta(index, TextOf(choice))] else [])
    + if Truthy(choice.toolCalls) then [CallsDelta(index, choice.toolCalls)] else []
  }

  function Deltas(choices: seq<Choice>): seq<Chunk> {
    if choices == [] then [] else Deltas(choices[..|choices| - 1]) + ChunksOf(choices[|choices| - 1], |choices| - 1)
  }

  /** Usage that is empty is left out, which here is null. */
  function Stream(choices: seq<Choice>, usage: Json): seq<Chunk> {
    [Role] + Deltas(choices) + [Finish(ReasonOf(choices), if Truthy(usage) then usage else Null), Done]
  }

  lemma DeltasGrow(choices: seq<Choice>, i: nat)
    requires i < |choices|
    ensures [Role] + Deltas(choices[..i + 1]) == ([Role] + Deltas(choices[..i])) + ChunksOf(choices[i], i)
  {
    assert choices[..i + 1][..i] == choices[..i];
  }

  method ReplayAsSse(choices: seq<Choice>, usage: Json) returns (chunks: seq<Chunk>)
    ensures chunks == Stream(choices, usage)
  {
    chunks := [Role];
    var i := 0;
    while i < |choices|
      invariant 0 <= i <= |choices|
      invariant chunks == [Role] + Deltas(choices[..i])
    {
      chunks := EmitChoice(chunks, choices[i], i);
      DeltasGrow(choices, i);
      i := i + 1;
    }
    assert choices[..i] == choices;
    var reason := if choices != [] && choices[0].finish.Some? then choices[0].finish.value else "";
    if reason == "" {
      reason := "stop";
    }
    chunks := chunks + [Finish(reason, if Truthy(usage) then usage else Null), Done];
  }

  /** The body of that loop. */
  method EmitChoice(sent: seq<Chunk>, choice: Choice, index: nat) returns (chunks: seq<Chunk>)
    ensures chunks == sent + ChunksOf(choice, index)
  {
    chunks := sent;
    var text := if choice.content.Some? then choice.content.value else "";
    if text != "" {
      chunks := chunks + [TextDelta(index, text)];
    }
    if Truthy(choice.toolCalls) {
      chunks := chunks + [CallsDelta(index, choice.toolCalls)];
    }
  }

  // ---- the client ------------------------------------------------------------------------

  /** The text of a choice: its deltas one behind the other. */
  function HeardText(chunks: seq<Chunk>, index: nat): string {
    if chunks == [] then ""
    else
      var last := chunks[|chunks| - 1];
      HeardText(chunks[..|chunks| - 1], index) + if last.TextDelta? && last.index == index then last.text else ""
  }

  /** The tool calls of a choice. */
  function HeardCalls(chunks: seq<Chunk>, index: nat): Option<Json> {
    if chunks == [] then None
    else
      var last := chunks[|chunks| - 1];
      if last.CallsDelta? && last.index == index then Some(last.calls) else HeardCalls(chunks[..|chunks| - 1], index)
  }

  lemma {:induction false} TextBehind(a: seq<Chunk>, b: seq<Chunk>, index: nat)
    ensures HeardText(a + b, index) == HeardText(a, index) + HeardText(b, index)
  {
    if b == [] {
      assert a + b == a;
    } else {
      var n := |b| - 1;
      assert (a + b)[..|a + b| - 1] == a + b[..n];
      TextBehind(a, b[..n], index);
    }
  }

  lemma {:induction false} CallsBehind(a: seq<Chunk>, b: seq<Chunk>, index: nat)
    ensures HeardCalls(a + b, index) == if HeardCalls(b, index).Some? then HeardCalls(b, index)
            else HeardCalls(a, index)
  {
    if b == [] {
      assert a + b == a;
    } else {
      var n := |b| - 1;
      assert (a + b)[..|a + b| - 1] == a + b[..n];
      CallsBehind(a, b[..n], index);
    }
  }

  function CallsOf(choices: seq<Choice>, index: nat): Option<Json> {
    if index < |choices| && Truthy(choices[index].toolCalls) then Some(choices[index].toolCalls) else None
  }

  lemma HeardOfOne(choice: Choice, at: nat, index: nat)
    ensures HeardText(ChunksOf(choice, at), index) == if at == index then TextOf(choice) else ""
    ensures HeardCalls(ChunksOf(choice, at), index)
            == if at == index && Truthy(choice.toolCalls) then Some(choice.toolCalls) else None
  {
    var text := if TextOf(choice) != "" then [TextDelta(at, TextOf(choice))] else [];
    var calls := if Truthy(choice.toolCalls) then [CallsDelta(at, choice.toolCalls)] else [];
    assert text != [] ==> text[..0] == [];
    assert calls != [] ==> calls[..0] == [];
    TextBehind(text, calls, index);
    CallsBehind(text, calls, index);
  }

  /** The chunks of one more choice say all about it, and nothing of any other. */
  lemma HeardOfMore(before: seq<Chunk>, choice: Choice, at: nat, index: nat)
    ensures HeardText(before + ChunksOf(choice, at), index)
            == if index == at then HeardText(before, at) + TextOf(choice) else HeardText(before, index)
    ensures HeardCalls(before + ChunksOf(choice, at), index)
            == if index == at && Truthy(choice.toolCalls) then Some(choice.toolCalls) else HeardCalls(before, index)
  {
    HeardOfOne(choice, at, index);
    TextBehind(before, ChunksOf(choice, at), index);
    CallsBehind(before, ChunksOf(choice, at), index);
    assert HeardText(before, index) + "" == HeardText(before, index);
  }

  lemma {:induction false} HeardOfDeltas(choices: seq<Choice>, index: nat)
    ensures HeardText(Deltas(choices), index) == if index < |choices| then TextOf(choices[index]) else ""
    ensures HeardCalls(Deltas(choices), index) == CallsOf(choices, index)
  {
    if choices != [] {
      var n := |choices| - 1;
      HeardOfDeltas(choices[..n], index);
      HeardOfMore(Deltas(choices[..n]), choices[n], n, index);
      if index == n {
        assert "" + TextOf(choices[n]) == TextOf(choices[n]);
      } else if index < n {
        assert choices[..n][index] == choices[index];
      }
    }
  }

  /** The opening and the ending of a stream say nothing of any choice. */
  lemma FrameIsSilent(finish: Chunk, index: nat)
    requires finish.Finish?
    ensures HeardText([Role], index) == "" && HeardCalls([Role], index) == None
    ensures HeardText([finish, Done], index) == "" && HeardCalls([finish, Done], index) == None
  {
    assert [Role][..0] == [] && [finish, Done][..1] == [finish] && [finish][..0] == [];
  }

  /** What the client hears of every choice, text and tool calls, is what was cached. */
  lemma ReplayIsHeard(choices: seq<Choice>, usage: Json, index: nat)
    ensures HeardText(Stream(choices, usage), index)
            == if index < |choices| && choices[index].content.Some? then choices[index].content.value else ""
    ensures HeardCalls(Stream(choices, usage), index)
            == if index < |choices| && !IsFalsy(choices[index].toolCalls) then Some(choices[index].toolCalls) else None
  {
    if index < |choices| { TruthyMeaning(choices[index].toolCalls); }
    var deltas := Deltas(choices);
    var ending := [Finish(ReasonOf(choices), if Truthy(usage) then usage else Null), Done];
    HeardOfDeltas(choices, index);
    FrameIsSilent(ending[0], index);
    TextBehind([Role], deltas, index);
    CallsBehind([Role], deltas, index);
    TextBehind([Role] + deltas, ending, index);
    CallsBehind([Role] + deltas, ending, index);
  }

  // ---- the shape of the stream ------------------------------------------------------------

  /** A delta says something, and about a choice before the n-th. */
  predicate IsDelta(chunk: Chunk, n: nat) {
    ((chunk.TextDelta? && chunk.text != "") || (chunk.CallsDelta? && !IsFalsy(chunk.calls))) && chunk.index < n
  }

  /** One choice is told after the other, its text before its calls, and each once. */
  predicate Precedes(a: Chunk, b: Chunk)
    requires (a.TextDelta? || a.CallsDelta?) && (b.TextDelta? || b.CallsDelta?)
  {
    a.index < b.index || (a.index == b.index && a.TextDelta? && b.CallsDelta?)
  }

  ghost predicate AreDeltas(chunks: seq<Chunk>, n: nat) {
    (forall i | 0 <= i < |chunks| :: IsDelta(chunks[i], n))
    && forall i, j | 0 <= i < j < |chunks| :: Precedes(chunks[i], chunks[j])
  }

  lemma {:induction false} DeltasInOrder(choices: seq<Choice>)
    ensures AreDeltas(Deltas(choices), |choices|)
  {
    if choices != [] {
      var n := |choices| - 1;
      var before, last := Deltas(choices[..n]), ChunksOf(choices[n], n);
      DeltasInOrder(choices[..n]);
      TruthyMeaning(choices[n].toolCalls);
      forall i | 0 <= i < |last| ensures IsDelta(last[i], n + 1) && last[i].index == n {}
      MoreDeltas(before, last, n, n + 1);
    }
  }

  lemma MoreDeltas(before: seq<Chunk>, last: seq<Chunk>, n: nat, next: nat)
    requires AreDeltas(before, n) && next == n + 1 && AreDeltas(last, next)
    requires forall i | 0 <= i < |last| :: last[i].index == n
    ensures AreDeltas(before + last, next)
  {
    var all := before + last;
    forall i | 0 <= i < |all| ensures IsDelta(all[i], next) {
      assert i < |before| ==> IsDelta(before[i], n);
    }
    forall i, j | 0 <= i < j < |all| ensures Precedes(all[i], all[j]) {
      if j < |before| {
        assert Precedes(before[i], before[j]);
      } else if i >= |before| {
        assert Precedes(last[i - |before|], last[j - |before|]);
      } else {
        assert IsDelta(before[i], n);
      }
    }
  }

  /** The stream opens with the role, goes on with deltas in the order of the choices, and ends with the reason of
      the first choice, or "stop" if it names none, the usage unless that is empty, and the sentinel. */
  lemma StreamShape(choices: seq<Choice>, usage: Json) returns (deltas: seq<Chunk>)
    ensures AreDeltas(deltas, |choices|)
    ensures var reported := if IsFalsy(usage) then Null else usage;
            var finish := if choices == [] then None else choices[0].finish;
            && (finish in {None, Some("")} ==>
                  Stream(choices, usage) == [Role] + deltas + [Finish("stop", reported), Done])
            && (forall reason | finish == Some(reason) && reason != "" ::
                  Stream(choices, usage) == [Role] + deltas + [Finish(reason, reported), Done])
  {
    deltas := Deltas(choices);
    DeltasInOrder(choices);
    TruthyMeaning(usage);
  }
}
