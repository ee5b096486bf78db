/** The conversation an agent run hands to its provider (agent/orchestrator.py). */
module Transcripts {
  import opened Wrappers
  import opened Decimals

  // A tool call as the provider asked for it; the id is "" when it gave none.
  // Arguments are the JSON text with sorted keys.
  datatype RequestedCall = RequestedCall(id: string, name: string, arguments: string)

  datatype Response = Response(content: string, lengthLimited: bool, calls: seq<RequestedCall>)

  // A tool call as it is executed.
  datatype ToolCall = ToolCall(id: string, toolId: string, arguments: string, sequence: nat)

  // output is the JSON text of a successful call's output.
  datatype CallResult = CallResult(success: bool, output: Option<string>, error: string)

  datatype Message =
    | Prior(text: string)
    | Assistant(content: string, calls: seq<RequestedCall>)
    | ToolMessage(callId: string, content: string)

  // One completed turn: the response and, when it asked for tools, one result per call.
  datatype StepRecord = StepRecord(sequence: nat, response: Response, results: seq<CallResult>)

  const RENDERED_MESSAGE_LIMIT := 4000

  function RenderResult(r: CallResult): string {
    if r.success && r.output.Some? then
      if |r.output.value| > RENDERED_MESSAGE_LIMIT
      then r.output.value[..RENDERED_MESSAGE_LIMIT] + "\U{2026}(truncated)" else r.output.value
    else if r.success then "" else "error: " + r.error
  }

  function OutputBytes(r: CallResult): nat {
    if r.success && r.output.Some? then |r.output.value| else |r.error|
  }

  // call.id or f"call_{index}"
  function EffectiveId(call: RequestedCall, index: nat): (id: string)
    ensures id != "" && (id == call.id <==> call.id != "")
  {
    if call.id != "" then call.id else "call_" + Decimal(index)
  }

  // The executable form of the requested calls.
  function Numbered(calls: seq<RequestedCall>): (r: seq<ToolCall>)
    ensures |r| == |calls|
    ensures forall i :: 0 <= i < |calls| ==>
      r[i] == ToolCall(EffectiveId(calls[i], i + 1), calls[i].name, calls[i].arguments, i + 1)
  {
    seq(|calls|, i requires 0 <= i < |calls| =>
      ToolCall(EffectiveId(calls[i], i + 1), calls[i].name, calls[i].arguments, i + 1))
  }

  // The tool messages for the first results of a batch.
  function Answers(calls: seq<RequestedCall>, results: seq<CallResult>): (ms: seq<Message>)
    requires |results| <= |calls|
    ensures |ms| == |results|
    ensures forall i :: 0 <= i < |results| ==>
      ms[i] == ToolMessage(EffectiveId(calls[i], i + 1), RenderResult(results[i]))
  {
    seq(|results|, i requires 0 <= i < |results| =>
      ToolMessage(EffectiveId(calls[i], i + 1), RenderResult(results[i])))
  }

  predicate Answered(step: StepRecord) {
    step.response.calls != [] && |step.results| == |step.response.calls|
  }

  // The assistant's tool-call turn followed by its results.
  function Turn(step: StepRecord): seq<Message>
    requires Answered(step)
  {
    [Assistant(step.response.content, step.response.calls)] + Answers(step.response.calls, step.results)
  }

  predicate AllAnswered(steps: seq<StepRecord>) {
    forall i :: 0 <= i < |steps| ==> Answered(steps[i])
  }

  function Transcript(steps: seq<StepRecord>): seq<Message>
    requires AllAnswered(steps)
  {
    if steps == [] then [] else Turn(steps[0]) + Transcript(steps[1..])
  }

  lemma {:induction false} TranscriptGrows(steps: seq<StepRecord>, step: StepRecord)
    requires AllAnswered(steps) && Answered(step)
    ensures AllAnswered(steps + [step])
    ensures Transcript(steps + [step]) == Transcript(steps) + Turn(step)
  {
    var longer := steps + [step];
    if steps == [] {
      assert longer[1..] == [];
      assert Transcript(longer) == Turn(step) + [];
    } else {
      assert longer[1..] == steps[1..] + [step];
      TranscriptGrows(steps[1..], step);
      assert Turn(steps[0]) + (Transcript(steps[1..]) + Turn(step)) == Transcript(steps) + Turn(step);
    }
  }

  /** What providers expect: each tool-call turn is followed by one result per call, same ids, same order. */
  predicate WellFormed(ms: seq<Message>) {
    ms == [] ||
    (&& ms[0].Assistant? && ms[0].calls != [] && |ms| > |ms[0].calls|
     && (forall i :: 0 <= i < |ms[0].calls| ==>
           ms[1 + i].ToolMessage? && ms[1 + i].callId == ms[0].calls[i].id)
     && WellFormed(ms[1 + |ms[0].calls|..]))
  }

  predicate IdsGiven(calls: seq<RequestedCall>) {
    forall i :: 0 <= i < |calls| ==> calls[i].id != ""
  }

  predicate AllIdsGiven(steps: seq<StepRecord>) {
    forall k :: 0 <= k < |steps| ==> IdsGiven(steps[k].response.calls)
  }

  lemma TurnWellFormed(step: StepRecord, rest: seq<Message>)
    requires Answered(step)
    ensures WellFormed(Turn(step) + rest) <==> IdsGiven(step.response.calls) && WellFormed(rest)
  {
  }

  /** A transcript of answered turns is well formed exactly when the provider gave every call an id. */
  lemma {:induction false} WellFormedIffIdsGiven(steps: seq<StepRecord>)
    requires AllAnswered(steps)
    ensures WellFormed(Transcript(steps)) <==> AllIdsGiven(steps)
  {
    if steps != [] {
      hide WellFormed, IdsGiven, Turn;
      WellFormedIffIdsGiven(steps[1..]);
      TurnWellFormed(steps[0], Transcript(steps[1..]));
      assert AllIdsGiven(steps) <==> IdsGiven(steps[0].response.calls) && AllIdsGiven(steps[1..]) by {
        assert forall k :: 0 < k < |steps| ==> steps[k] == steps[1..][k - 1];
      }
    }
  }

  /** One call without an id: the assistant's turn shows the empty id, the result carries call_1. */
  lemma EmptyIdMalformed(call: RequestedCall, result: CallResult)
    requires call.id == ""
    ensures
      var step := StepRecord(1, Response("", false, [call]), [result]);
      && Answered(step)
      && Transcript([step]) == [Assistant("", [call]), ToolMessage("call_1", RenderResult(result))]
      && !WellFormed(Transcript([step]))
  {
    hide RenderResult, WellFormed;
    var step := StepRecord(1, Response("", false, [call]), [result]);
    assert [step][1..] == [];
    assert Transcript([step][1..]) == [];
    assert Transcript([step]) == Turn(step) + Transcript([step][1..]) == Turn(step);
    assert Decimal(1) == [DigitChar(1)] == "1";
    assert EffectiveId(call, 1) == "call_" + "1" == "call_1";
    assert Answers([call], [result]) == [ToolMessage("call_1", RenderResult(result))];
    WellFormedIffIdsGiven([step]);
    assert step.response.calls[0].id == "" && [step][0] == step;
  }
}
