/**
 * The comparison text-generation Lambda, fed by the queue: it reads the first record, groups the
 * chosen criteria's guidelines, and then builds the model, the retriever and the evaluation. The
 * helpers it calls are described by the parameters they accept (`Helpers`), because the calls in
 * the handler do not match them and that mismatch decides the outcome.
 */
module ComparisonHandler {
  import opened Common
  import GetMessages
  import Evaluation
  import TextGeneration

  type Attr = GetMessages.Attr

  /** The fields read from a record's JSON body; a body that does not decode or lacks one raises. */
  datatype Request = Request(sessionId: string, userRole: Attr, criteria: Attr)

  /**
   * The callees as the handler meets them: the keyword parameters `get_bedrock_llm` and
   * `get_vectorstore_retriever_ordinary` accept, and whether the value returned by
   * `get_response_evaluation` has a `.get` method.
   */
  datatype Helpers = Helpers(llmParameters: seq<string>, retrieverParameters: seq<string>, evaluationHasGet: bool)

  /**
   * The helpers of this repository: `get_bedrock_llm(bedrock_llm_id, temperature)`,
   * `get_vectorstore_retriever_ordinary(vectorstore_config_dict, embeddings)`, and a generator
   * function, whose result has no `.get`.
   */
  const RepositoryHelpers: Helpers := Helpers(["bedrock_llm_id", "temperature"], ["vectorstore_config_dict", "embeddings"], false)

  /** The keywords the handler passes. */
  const LlmCallKeywords: seq<string> := ["bedrock_llm_id", "enable_guardrails"]
  const RetrieverCallKeywords: seq<string> := ["llm", "vectorstore_config_dict", "embeddings"]

  /** A call binds when every keyword it passes names a parameter; otherwise Python raises `TypeError`. */
  predicate Binds(parameters: seq<string>, keywords: seq<string>)
  {
    forall k :: k in keywords ==> k in parameters
  }

  /**
   * What the services do on this call: the main database connection, the guideline query, the
   * comparison secret, the model and retriever constructors, the `llm_output` of the evaluation
   * (when it has one) and the AppSync notification.
   */
  datatype Services = Services(initOk: bool, dbUp: bool, guidelineRows: Result<seq<TextGeneration.GuidelineRow>>,
                               secretOk: bool, llmOk: bool, retrieverOk: bool, llmOutput: Option<string>,
                               notifyOk: bool)

  datatype Body = Text(text: string) | Reply(content: string, options: seq<string>, userRole: Attr)

  datatype Response = Response(statusCode: int, body: Body)

  /** A handler that runs off the end of its loop returns `None`. */
  datatype Outcome = NoneReturned | Raised | Returned(response: Response)

  /** What the handler sets up and sends: the vector-store collection, the guidelines, the notifications. */
  datatype Effects = Effects(collection: Option<string>, guidelines: seq<Evaluation.Category>, notified: seq<string>)

  const ConfigFailed := "Error retrieving user uploaded document vectorstore config"
  const LlmFailed := "Error getting LLM from Bedrock"
  const RetrieverFailed := "Error creating ordinary retriever for user uploaded vectorstore"
  const ResponseFailed := "Error getting response"
  const NoOutput := "LLM failed to create response"

  /** The first record decodes and its guidelines and configuration are obtained. */
  predicate Configured(records: seq<Option<Request>>, services: Services)
  {
    services.initOk && |records| > 0 && records[0].Some? && services.dbUp && services.secretOk
  }

  /**
   * `handler`: the loop over `Records` returns inside its first iteration, so only the first
   * record is processed. Configuration, model, retriever and evaluation are tried in that order
   * and each failure is answered 500 with its own message.
   */
  method Handler(records: seq<Option<Request>>, helpers: Helpers, services: Services) returns (out: Outcome, effects: Effects)
    ensures !services.initOk ==> out == Raised && effects == Effects(None, [], [])
    ensures services.initOk && records == [] ==> out == NoneReturned && effects == Effects(None, [], [])
    ensures services.initOk && |records| > 0 && records[0].None? ==> out == Raised && effects == Effects(None, [], [])
    ensures services.initOk && |records| > 0 && records[0].Some? && !(services.dbUp && services.secretOk) ==>
              out == Returned(Response(500, Text(ConfigFailed))) && effects.collection.None? && effects.notified == []
    // The vector store read is the one named after the session.
    ensures Configured(records, services) ==>
              effects.collection == Some(records[0].value.sessionId)
              && (services.guidelineRows.Ok? ==> effects.guidelines == TextGeneration.Grouped(services.guidelineRows.value))
              && (services.guidelineRows.Err? ==> effects.guidelines == [])
    ensures Configured(records, services) && !(Binds(helpers.llmParameters, LlmCallKeywords) && services.llmOk) ==>
              out == Returned(Response(500, Text(LlmFailed))) && effects.notified == []
    ensures Configured(records, services) && Binds(helpers.llmParameters, LlmCallKeywords) && services.llmOk
            && !(Binds(helpers.retrieverParameters, RetrieverCallKeywords) && services.retrieverOk) ==>
              out == Returned(Response(500, Text(RetrieverFailed))) && effects.notified == []
    ensures Configured(records, services) && Binds(helpers.llmParameters, LlmCallKeywords) && services.llmOk
            && Binds(helpers.retrieverParameters, RetrieverCallKeywords) && services.retrieverOk ==>
              var content := services.llmOutput.GetOr(NoOutput);
              if !helpers.evaluationHasGet then
                out == Returned(Response(500, Text(ResponseFailed))) && effects.notified == []
              else if !services.notifyOk then
                out == Returned(Response(500, Text(ResponseFailed))) && effects.notified == []
              else
                out == Returned(Response(200, Reply(content, [], records[0].value.userRole))) && effects.notified == [content]
    // With this repository's helpers, every configured run ends at the model call, and nothing is sent.
    ensures helpers == RepositoryHelpers && Configured(records, services) ==>
              out == Returned(Response(500, Text(LlmFailed))) && effects.notified == []
  {
    effects := Effects(None, [], []);
    if !services.initOk {
      return Raised, effects;
    }
    assert !("enable_guardrails" in RepositoryHelpers.llmParameters);
    for i := 0 to |records|
    {
      if records[i].None? {
        return Raised, effects;
      }
      var request := records[i].value;
      // get_combined_guidelines connects outside its own try, so a connection failure propagates here.
      if !services.dbUp {
        return Returned(Response(500, Text(ConfigFailed))), effects;
      }
      var guidelines := TextGeneration.GetCombinedGuidelines(services.guidelineRows);
      effects := effects.(guidelines := guidelines);
      if !services.secretOk {
        return Returned(Response(500, Text(ConfigFailed))), effects;
      }
      effects := effects.(collection := Some(request.sessionId));

      if !(Binds(helpers.llmParameters, LlmCallKeywords) && services.llmOk) {
        return Returned(Response(500, Text(LlmFailed))), effects;
      }
      if !(Binds(helpers.retrieverParameters, RetrieverCallKeywords) && services.retrieverOk) {
        return Returned(Response(500, Text(RetrieverFailed))), effects;
      }
      // `response.get(...)` on the generator raises `AttributeError`, caught with the evaluation's errors.
      if !helpers.evaluationHasGet {
        return Returned(Response(500, Text(ResponseFailed))), effects;
      }
      var content := services.llmOutput.GetOr(NoOutput);
      if !services.notifyOk {
        return Returned(Response(500, Text(ResponseFailed))), effects;
      }
      effects := effects.(notified := effects.notified + [content]);
      return Returned(Response(200, Reply(content, [], request.userRole))), effects;
    }
    return NoneReturned, effects;
  }

  /** `get_bedrock_llm` has no `enable_guardrails` parameter, so the handler's call raises `TypeError`. */
  lemma LlmCallRejected()
    ensures !Binds(RepositoryHelpers.llmParameters, LlmCallKeywords)
  {
    assert "enable_guardrails" in LlmCallKeywords;
    assert "enable_guardrails" !in RepositoryHelpers.llmParameters;
  }

  /** The call the text-generation handler makes, `get_bedrock_llm(BEDROCK_LLM_ID)`, by keyword. */
  const IntendedLlmCallKeywords: seq<string> := ["bedrock_llm_id"]

  /**
   * The intended call binds to the repository's `get_bedrock_llm`, and it passes a subset of the
   * keywords of the call as written: only `enable_guardrails` stops that one.
   */
  lemma IntendedLlmCallBinds()
    ensures Binds(RepositoryHelpers.llmParameters, IntendedLlmCallKeywords)
    ensures forall k :: k in LlmCallKeywords && k !in IntendedLlmCallKeywords ==> k == "enable_guardrails"
  {
  }

  /** `get_vectorstore_retriever_ordinary` has no `llm` parameter either. */
  lemma RetrieverCallRejected()
    ensures !Binds(RepositoryHelpers.retrieverParameters, RetrieverCallKeywords)
  {
    assert "llm" in RetrieverCallKeywords;
    assert "llm" !in RepositoryHelpers.retrieverParameters;
  }

  /**
   * The evaluation names a guideline by its text before the first `:`; for a grouped row that is
   * the row's header whenever the header has no `:`.
   */
  lemma EvaluationNameIsHeader(row: TextGeneration.GuidelineRow)
    requires ':' !in row.header
    ensures Evaluation.Name(TextGeneration.Combined(row)) == row.header
  {
    var q := TextGeneration.Combined(row);
    var r := Evaluation.Name(q);
    assert q[|row.header|] == ':';
    assert ':' in q;
    assert r == q[..|r|] == row.header;
  }
}
