/**
  The `/question` route of backend/app.py: the checks it makes on the JSON
  body, in order, the choice of model, and the prompt it hands to the local
  LLM.  What `check_ollama_status()` reports is the parameter `probe`, and
  what `ask_local_llm` answers is the parameter `answer`.
*/
module QuestionRoute {

  import opened Wrappers
  import opened ChartAnalyzer
  import opened StatusCache

  /** The JSON body, one option per key the route reads. */
  datatype QuestionBody = QuestionBody(
    question: Option<string>,
    tableData: Option<string>,
    title: Option<string>,
    model: Option<string>,
    includeDebug: bool)

  /** The `debug_info` object sent back when the body asks for it. */
  datatype DebugInfo = DebugInfo(modelUsed: string, tableDataLength: nat, promptUsed: string)

  datatype QuestionReply =
    | MissingFields
    | InvalidTableData
    | OllamaNotRunning
    | ProcessingError
    | Answered(answer: string, debug: Option<DebugInfo>)

  datatype QuestionOutcome = QuestionOutcome(reply: QuestionReply, call: Option<LlmRequest>)

  /** The shortest table text the route accepts. */
  const MinTableDataLength: nat := 10

  /** The HTTP status code sent with each reply. */
  function HttpStatus(reply: QuestionReply): nat {
    match reply
    case MissingFields => 400
    case InvalidTableData => 400
    case OllamaNotRunning => 503
    case ProcessingError => 500
    case Answered(_, _) => 200
  }

  /** All three required keys are present in a non-empty body. */
  predicate HasRequired(body: Option<QuestionBody>) {
    body.Some? && body.value.question.Some? && body.value.tableData.Some? && body.value.title.Some?
  }

  /** The requested model when Ollama lists it (or lists nothing), the first
      listed model otherwise. */
  function ChooseModel(requested: string, models: seq<string>): (model: string)
    ensures models != [] ==> model in models
    ensures requested in models || models == [] ==> model == requested
    ensures model == requested || (requested !in models && model == models[0])
  {
    if requested !in models && models != [] then models[0] else requested
  }

  /** The requested model, or the default model when none is given. */
  function RequestedModel(body: QuestionBody): string {
    match body.model
    case Some(m) => m
    case None => DefaultModel
  }

  /** The debug block of the reply: the model, the table-data length and a fixed note. */
  function Debug(body: QuestionBody, model: string): DebugInfo
    requires body.tableData.Some? && body.title.Some?
  {
    DebugInfo(model, |body.tableData.value|, "Table data + question about " + body.title.value)
  }

  /** `question()` for one request. */
  function HandleQuestion(body: Option<QuestionBody>, probe: Probe, answer: string): (r: QuestionOutcome)
    ensures r.reply == MissingFields <==> !HasRequired(body)
    ensures r.reply == InvalidTableData <==>
      HasRequired(body) && |body.value.tableData.value| < MinTableDataLength
    ensures r.reply == OllamaNotRunning <==>
      HasRequired(body) && |body.value.tableData.value| >= MinTableDataLength
      && probe.Completed? && !probe.running
    ensures r.reply == ProcessingError <==>
      HasRequired(body) && |body.value.tableData.value| >= MinTableDataLength && probe.Raised?
    ensures HttpStatus(r.reply) == 400 <==>
      !HasRequired(body) || |body.value.tableData.value| < MinTableDataLength
    ensures HttpStatus(r.reply) == 503 <==> r.reply == OllamaNotRunning
    ensures HttpStatus(r.reply) == 200 <==> r.reply.Answered?
    ensures r.call.Some? <==> r.reply.Answered?
    ensures r.reply.Answered? ==>
      var b := body.value;
      && r.reply.answer == answer
      && probe.Completed? && probe.running
      && r.call == Some(LlmRequest(b.question.value, b.tableData.value, b.title.value,
                                   ChooseModel(RequestedModel(b), probe.models)))
      && (r.reply.debug.Some? <==> b.includeDebug)
      && (b.includeDebug ==> r.reply.debug.value.modelUsed == r.call.value.model)
  {
    if !HasRequired(body) then QuestionOutcome(MissingFields, None)
    else
      var b := body.value;
      if |b.tableData.value| < MinTableDataLength then QuestionOutcome(InvalidTableData, None)
      else
        match probe
        case Raised => QuestionOutcome(ProcessingError, None)
        case Completed(running, models) =>
          if !running then QuestionOutcome(OllamaNotRunning, None)
          else
            var model := ChooseModel(RequestedModel(b), models);
            var call := LlmRequest(b.question.value, b.tableData.value, b.title.value, model);
            var debug := if b.includeDebug then Some(Debug(b, model)) else None;
            QuestionOutcome(Answered(answer, debug), Some(call))
  }

  /** A model Ollama does not list is never sent when it lists any. */
  lemma {:induction false} UnknownModelReplaced(body: QuestionBody, models: seq<string>, answer: string)
    requires HasRequired(Some(body)) && |body.tableData.value| >= MinTableDataLength
    requires models != [] && RequestedModel(body) !in models
    ensures HandleQuestion(Some(body), Completed(true, models), answer).call.value.model == models[0]
  {
  }
}
