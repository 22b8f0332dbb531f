/**
  The per-session conversation history of `/api/generate` in
  backend/app.py (`conversation_contexts`): the context-aware prompt built
  from the last five entries, and the two entries recorded after a
  successful answer, trimmed to the last ten.  What `check_ollama_status()`
  reports is the parameter `probe`; what `ask_local_llm` answers is the
  parameter `answer`.
*/
module Conversation {

  import opened Wrappers
  import opened PyStr
  import opened ChartAnalyzer
  import opened StatusCache

  /** The JSON body, one option per key the route reads. */
  datatype GenerateBody = GenerateBody(input: Option<string>, sessionId: Option<string>, model: Option<string>)

  datatype GenerateReply =
    | MissingInput
    | ServiceUnavailable
    | GenerateError(message: string)
    | Generated(result: string)

  const DefaultSession: string := "default"
  const UserTag: string := "User: "
  const AssistantTag: string := "Assistant: "

  /** Entries kept per session, and entries put into the prompt. */
  const MaxHistory: nat := 10
  const ContextEntries: nat := 5

  /** The HTTP status code sent with each reply. */
  function HttpStatus(reply: GenerateReply): nat {
    match reply
    case MissingInput => 400
    case ServiceUnavailable => 503
    case GenerateError(_) => 500
    case Generated(_) => 200
  }

  /** The last n entries of the history, or all of them when there are fewer. */
  function LastN(h: seq<string>, n: nat): (r: seq<string>)
    ensures |r| == if |h| < n then |h| else n
    ensures forall i :: 0 <= i < |r| ==> r[i] == h[|h| - |r| + i]
  {
    if |h| <= n then h else h[|h| - n..]
  }

  /** The prompt: the last five entries, one per line, then the new input
      as a user turn and an open assistant turn. */
  function ConversationPrompt(h: seq<string>, input: string): (prompt: string)
    ensures StartsWith(prompt, Join(LastN(h, ContextEntries), "\n"))
    ensures prompt[|Join(LastN(h, ContextEntries), "\n")|..] == "\n\nUser: " + input + "\nAssistant:"
    ensures h == [] ==> prompt == "\n\nUser: " + input + "\nAssistant:"
  {
    var context := Join(LastN(h, ContextEntries), "\n");
    var turn := "\n\nUser: " + input + "\nAssistant:";
    assert (context + turn)[|context|..] == turn;
    context + turn
  }

  /** The context part of the prompt, split back into lines, gives the last
      five entries again when no entry spans several lines. */
  lemma {:induction false} ContextLines(h: seq<string>)
    requires h != []
    requires forall i :: 0 <= i < |h| ==> '\n' !in h[i]
    ensures Split(Join(LastN(h, ContextEntries), "\n"), "\n") == LastN(h, ContextEntries)
  {
    var w := LastN(h, ContextEntries);
    forall k | 0 <= k < |w|
      ensures '\n' !in w[k]
    {
      assert w[k] == h[|h| - |w| + k];
    }
    JoinSplitChar(w, '\n');
  }

  /** A history as the route builds it: at most ten entries, in
      user/assistant pairs, each tagged with its speaker. */
  predicate WellFormed(h: seq<string>) {
    && |h| <= MaxHistory
    && |h| % 2 == 0
    && forall i :: 0 <= i < |h| ==> StartsWith(h[i], SpeakerTag(i))
  }

  /** Entry i of a history is a user entry at even i, an assistant entry at odd i. */
  function SpeakerTag(i: nat): string {
    if i % 2 == 0 then UserTag else AssistantTag
  }

  /** The history after one successful exchange. */
  function RecordTurn(h: seq<string>, input: string, answer: string): (h': seq<string>)
    ensures |h'| == if |h| + 2 <= MaxHistory then |h| + 2 else MaxHistory
    ensures h'[|h'| - 2] == UserTag + input && h'[|h'| - 1] == AssistantTag + answer
    ensures forall i :: 0 <= i < |h'| - 2 ==> h'[i] == h[|h| + 2 - |h'| + i]
  {
    var full := h + [UserTag + input, AssistantTag + answer];
    if |full| > MaxHistory then full[|full| - MaxHistory..] else full
  }

  /** A tagged entry starts with its tag. */
  lemma {:induction false} TagPrefix(tag: string, text: string)
    ensures StartsWith(tag + text, tag)
  {
    assert (tag + text)[..|tag|] == tag;
  }

  /** Recording an exchange keeps a history well formed: the trim drops an
      even number of entries, so pairs stay aligned. */
  lemma {:induction false} RecordTurnWellFormed(h: seq<string>, input: string, answer: string)
    requires WellFormed(h)
    ensures WellFormed(RecordTurn(h, input, answer))
  {
    var h' := RecordTurn(h, input, answer);
    var drop := |h| + 2 - |h'|;
    assert drop == 0 || drop == 2;
    TagPrefix(UserTag, input);
    TagPrefix(AssistantTag, answer);
    forall i | 0 <= i < |h'|
      ensures StartsWith(h'[i], SpeakerTag(i))
    {
      if i < |h'| - 2 {
        assert h'[i] == h[drop + i];
        assert SpeakerTag(drop + i) == SpeakerTag(i);
      } else if i == |h'| - 2 {
        assert SpeakerTag(i) == UserTag;
      } else {
        assert SpeakerTag(i) == AssistantTag;
      }
    }
  }

  /** Once three exchanges are stored, the five-entry window starts with an
      assistant entry: the prompt carries an answer whose question has
      fallen out of it. */
  lemma {:induction false} ContextWindowSplitsTurn(h: seq<string>)
    requires WellFormed(h) && |h| >= 6
    ensures StartsWith(LastN(h, ContextEntries)[0], AssistantTag)
  {
    assert LastN(h, ContextEntries)[0] == h[|h| - 5];
    assert SpeakerTag(|h| - 5) == AssistantTag;
  }

  /** The model: the body's, else the first one Ollama lists, else llama3.
      Unlike `/question`, a requested model is not checked against the list. */
  function ChooseModel(requested: Option<string>, models: seq<string>): (model: string)
    ensures requested.Some? ==> model == requested.value
    ensures requested.None? && models != [] ==> model == models[0]
    ensures requested.None? && models == [] ==> model == DefaultModel
  {
    match requested
    case Some(m) => m
    case None => if models != [] then models[0] else DefaultModel
  }

  /** The session id of the request, or "default". */
  function SessionOf(body: GenerateBody): string {
    match body.sessionId
    case Some(s) => s
    case None => DefaultSession
  }

  /** What one request with an input does to its session: the reply, the
      request sent to the LLM if any, and the session's history afterwards. */
  datatype Turn = Turn(reply: GenerateReply, call: Option<LlmRequest>, history: seq<string>)

  /** The part of `generate()` after the session exists: the Ollama check,
      the model choice, the prompt, and the bookkeeping of the answer. */
  function Respond(h: seq<string>, input: string, model: Option<string>, probe: Probe, answer: string): (t: Turn)
    ensures probe.Raised? ==> t.reply.GenerateError? && t.call.None? && t.history == h
    ensures probe.Completed? && !probe.running ==> t == Turn(ServiceUnavailable, None, h)
    ensures probe.Completed? && probe.running ==>
      t.call == Some(LlmRequest(ConversationPrompt(h, input), "", "User Input", ChooseModel(model, probe.models)))
    ensures t.reply.Generated? <==> probe.Completed? && probe.running && !StartsWith(answer, "Error:")
    ensures t.reply.Generated? ==> t.reply.result == answer && t.history == RecordTurn(h, input, answer)
    ensures probe.Completed? && probe.running && StartsWith(answer, "Error:") ==> t.reply == GenerateError(answer)
    ensures !t.reply.Generated? ==> t.history == h
    ensures HttpStatus(t.reply) != 400
    ensures HttpStatus(t.reply) == 503 <==> probe.Completed? && !probe.running
    ensures HttpStatus(t.reply) == 200 <==> t.reply.Generated?
    ensures WellFormed(h) ==> WellFormed(t.history)
  {
    match probe
    case Raised => Turn(GenerateError("Ollama status check raised"), None, h)
    case Completed(running, models) =>
      if !running then Turn(ServiceUnavailable, None, h)
      else
        var call := LlmRequest(ConversationPrompt(h, input), "", "User Input", ChooseModel(model, models));
        if StartsWith(answer, "Error:") then Turn(GenerateError(answer), Some(call), h)
        else
          assert WellFormed(h) ==> WellFormed(RecordTurn(h, input, answer)) by {
            if WellFormed(h) {
              RecordTurnWellFormed(h, input, answer);
            }
          }
          Turn(Generated(answer), Some(call), RecordTurn(h, input, answer))
  }

  /** Every stored history is well formed. */
  predicate AllWellFormed(contexts: map<string, seq<string>>) {
    forall sid :: sid in contexts ==> WellFormed(contexts[sid])
  }

  /** Storing a well-formed history keeps the store well formed. */
  lemma {:induction false} StoreWellFormed(contexts: map<string, seq<string>>, sid: string, h: seq<string>)
    requires AllWellFormed(contexts) && WellFormed(h)
    ensures AllWellFormed(contexts[sid := h])
  {
  }

  class ConversationStore {
    var contexts: map<string, seq<string>>

    ghost predicate Valid()
      reads this
    {
      AllWellFormed(contexts)
    }

    constructor ()
      ensures Valid() && contexts == map[]
    {
      contexts := map[];
    }

    /** `generate()` for one request.  A session is created before Ollama is
        checked, so even a refused request leaves an empty history behind;
        nothing else changes unless the answer is recorded. */
    method Generate(body: Option<GenerateBody>, probe: Probe, answer: string)
      returns (reply: GenerateReply, call: Option<LlmRequest>)
      requires Valid()
      modifies this
      ensures Valid()
      ensures body.None? || body.value.input.None? ==>
        reply == MissingInput && call.None? && contexts == old(contexts)
      ensures HttpStatus(reply) == 400 <==> body.None? || body.value.input.None?
      ensures body.Some? && body.value.input.Some? ==>
        var sid := SessionOf(body.value);
        var before := if sid in old(contexts) then old(contexts)[sid] else [];
        var t := Respond(before, body.value.input.value, body.value.model, probe, answer);
        reply == t.reply && call == t.call && contexts == old(contexts)[sid := t.history]
    {
      if body.None? || body.value.input.None? {
        return MissingInput, None;
      }
      var b := body.value;
      var sid := SessionOf(b);
      if sid !in contexts {
        StoreWellFormed(contexts, sid, []);
        contexts := contexts[sid := []];
      }
      var before := contexts[sid];
      var t := Respond(before, b.input.value, b.model, probe, answer);
      assert WellFormed(t.history);
      StoreWellFormed(contexts, sid, t.history);
      contexts := contexts[sid := t.history];
      reply, call := t.reply, t.call;
    }
  }
}
