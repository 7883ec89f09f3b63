/**
 * The text-generation Lambda: the guideline grouping of `get_combined_guidelines`, the role
 * allowlist of `get_prompt_for_role` and the order in which the handler answers early.
 * Databases, the queue, the model and the vector store are inputs (`Services`).
 */
module TextGeneration {
  import opened Common
  import opened TurnCodec
  import GetMessages
  import Evaluation

  /** A decoded JSON value of the request body. */
  type Attr = GetMessages.Attr

  // ---------------------------------------------------------------------------------------------
  // get_combined_guidelines
  // ---------------------------------------------------------------------------------------------

  /** One row of `SELECT criteria_name, header, body FROM guidelines …`, in the order returned. */
  datatype GuidelineRow = GuidelineRow(criteriaName: string, header: string, body: string)

  /** The text stored for one row, `f"{header}: {body}"`. */
  function Combined(row: GuidelineRow): string
  {
    row.header + ": " + row.body
  }

  /** The criteria names of a grouping, in insertion order. */
  function CriteriaNames(groups: seq<Evaluation.Category>): (r: seq<string>)
    ensures |r| == |groups|
  {
    seq(|groups|, i requires 0 <= i < |groups| => groups[i].name)
  }

  /** Where a criteria name sits in the grouping, if it is there. */
  function Position(groups: seq<Evaluation.Category>, name: string): (r: Option<nat>)
    ensures r.Some? ==> r.value < |groups| && groups[r.value].name == name
    ensures r.Some? ==> forall j :: 0 <= j < r.value ==> groups[j].name != name
    ensures r.None? ==> forall j :: 0 <= j < |groups| ==> groups[j].name != name
  {
    if groups == [] then None
    else if groups[0].name == name then Some(0)
    else
      match Position(groups[1..], name)
      case None => None
      case Some(i) => Some(i + 1)
  }

  /** `guidelines_dict.get(name)`: the list kept under a criteria name. */
  function Guidelines(groups: seq<Evaluation.Category>, name: string): Option<seq<string>>
  {
    match Position(groups, name)
    case None => None
    case Some(i) => Some(groups[i].guidelines)
  }

  /** One loop step: a new name gets a list of its own, last; the row's text goes to its name's list. */
  function AddRow(groups: seq<Evaluation.Category>, row: GuidelineRow): seq<Evaluation.Category>
  {
    match Position(groups, row.criteriaName)
    case None => groups + [Evaluation.Category(row.criteriaName, [Combined(row)])]
    case Some(i) => groups[i := Evaluation.Category(row.criteriaName, groups[i].guidelines + [Combined(row)])]
  }

  /** The grouping after the first `n` rows. */
  function GroupUpTo(rows: seq<GuidelineRow>, n: nat): seq<Evaluation.Category>
    requires n <= |rows|
    decreases n
  {
    if n == 0 then [] else AddRow(GroupUpTo(rows, n - 1), rows[n - 1])
  }

  function Grouped(rows: seq<GuidelineRow>): seq<Evaluation.Category>
  {
    GroupUpTo(rows, |rows|)
  }

  /** Reference: the texts of the first `n` rows with a given criteria name, in row order. */
  function RowsFor(rows: seq<GuidelineRow>, n: nat, name: string): seq<string>
    requires n <= |rows|
    decreases n
  {
    if n == 0 then []
    else RowsFor(rows, n - 1, name) + (if rows[n - 1].criteriaName == name then [Combined(rows[n - 1])] else [])
  }

  /** The criteria names of the rows, one per row. */
  function RowNames(rows: seq<GuidelineRow>): (r: seq<string>)
    ensures |r| == |rows|
  {
    seq(|rows|, i requires 0 <= i < |rows| => rows[i].criteriaName)
  }

  /**
   * `get_combined_guidelines`: the rows of the query grouped by criteria name. A query that raises
   * inside the `try` gives an empty dictionary.
   */
  method GetCombinedGuidelines(results: Result<seq<GuidelineRow>>) returns (guidelinesDict: seq<Evaluation.Category>)
    ensures results.Err? ==> guidelinesDict == []
    ensures results.Ok? ==> guidelinesDict == Grouped(results.value)
  {
    if results.Err? {
      return [];
    }
    var rows := results.value;
    guidelinesDict := [];
    var i := 0;
    while i < |rows|
      invariant i <= |rows|
      invariant guidelinesDict == GroupUpTo(rows, i)
    {
      var row := rows[i];
      ghost var before := guidelinesDict;
      if Position(guidelinesDict, row.criteriaName).None? {
        PositionAppend(guidelinesDict, Evaluation.Category(row.criteriaName, []), row.criteriaName);
        guidelinesDict := guidelinesDict + [Evaluation.Category(row.criteriaName, [])];
      }
      var p := Position(guidelinesDict, row.criteriaName).value;
      guidelinesDict := guidelinesDict[p := Evaluation.Category(row.criteriaName, guidelinesDict[p].guidelines + [Combined(row)])];
      assert [] + [Combined(row)] == [Combined(row)];
      assert guidelinesDict == AddRow(before, row);
      i := i + 1;
    }
  }

  lemma PositionAppend(groups: seq<Evaluation.Category>, c: Evaluation.Category, name: string)
    requires Position(groups, name).None? && c.name == name
    ensures Position(groups + [c], name) == Some(|groups|)
  {
    assert (groups + [c])[|groups|] == c;
    assert forall j :: 0 <= j < |groups| ==> (groups + [c])[j] == groups[j];
  }

  /** Positions do not move when an entry is replaced by one with the same name. */
  lemma {:induction false} PositionUpdate(groups: seq<Evaluation.Category>, i: nat, c: Evaluation.Category, name: string)
    requires i < |groups| && c.name == groups[i].name
    ensures Position(groups[i := c], name) == Position(groups, name)
    decreases |groups|
  {
    if i > 0 && groups[0].name != name {
      assert groups[i := c][1..] == groups[1..][i - 1 := c];
      PositionUpdate(groups[1..], i - 1, c, name);
    }
  }

  /** A name added last is found last; other names are found where they were. */
  lemma {:induction false} PositionAppendOther(groups: seq<Evaluation.Category>, c: Evaluation.Category, name: string)
    requires c.name != name
    ensures Position(groups + [c], name) == Position(groups, name)
    decreases |groups|
  {
    if groups == [] {
      assert groups + [c] == [c];
    } else if groups[0].name != name {
      assert (groups + [c])[1..] == groups[1..] + [c];
      PositionAppendOther(groups[1..], c, name);
    }
  }

  /** What one row does to the list kept under any name. */
  lemma AddRowGuidelines(groups: seq<Evaluation.Category>, row: GuidelineRow, name: string)
    ensures Guidelines(AddRow(groups, row), name) ==
              if name != row.criteriaName then Guidelines(groups, name)
              else Some(Guidelines(groups, name).GetOr([]) + [Combined(row)])
  {
    var p := Position(groups, row.criteriaName);
    if p.None? {
      var c := Evaluation.Category(row.criteriaName, [Combined(row)]);
      if name == row.criteriaName {
        PositionAppend(groups, c, name);
        assert (groups + [c])[|groups|] == c;
        assert [] + [Combined(row)] == [Combined(row)];
      } else {
        PositionAppendOther(groups, c, name);
      }
    } else {
      var c := Evaluation.Category(row.criteriaName, groups[p.value].guidelines + [Combined(row)]);
      PositionUpdate(groups, p.value, c, name);
    }
  }

  lemma {:induction false} GroupedGuidelinesUpTo(rows: seq<GuidelineRow>, n: nat, name: string)
    requires n <= |rows|
    ensures Guidelines(GroupUpTo(rows, n), name) == if RowsFor(rows, n, name) == [] then None else Some(RowsFor(rows, n, name))
    decreases n
  {
    if n > 0 {
      GroupedGuidelinesUpTo(rows, n - 1, name);
      AddRowGuidelines(GroupUpTo(rows, n - 1), rows[n - 1], name);
      var prior := RowsFor(rows, n - 1, name);
      if rows[n - 1].criteriaName == name {
        assert RowsFor(rows, n, name) == prior + [Combined(rows[n - 1])];
        assert Guidelines(GroupUpTo(rows, n - 1), name).GetOr([]) == prior;
      } else {
        assert RowsFor(rows, n, name) == prior + [];
        assert prior + [] == prior;
      }
    }
  }

  /**
   * Under each criteria name the grouping keeps `"header: body"` of exactly the rows with that
   * name, one entry per row, in row order; a name no row carries has no list.
   */
  lemma GroupedGuidelines(rows: seq<GuidelineRow>, name: string)
    ensures Guidelines(Grouped(rows), name) == if RowsFor(rows, |rows|, name) == [] then None else Some(RowsFor(rows, |rows|, name))
  {
    GroupedGuidelinesUpTo(rows, |rows|, name);
  }

  /** The names of the grouping after one row: unchanged for a known name, the new name last otherwise. */
  lemma AddRowNames(groups: seq<Evaluation.Category>, row: GuidelineRow)
    ensures CriteriaNames(AddRow(groups, row)) ==
              if row.criteriaName in CriteriaNames(groups) then CriteriaNames(groups)
              else CriteriaNames(groups) + [row.criteriaName]
  {
    var ns := CriteriaNames(groups);
    var p := Position(groups, row.criteriaName);
    if p.Some? {
      assert ns[p.value] == row.criteriaName;
    } else {
      assert row.criteriaName !in ns;
    }
  }

  lemma {:induction false} GroupedNamesUpTo(rows: seq<GuidelineRow>, n: nat)
    requires n <= |rows|
    ensures CriteriaNames(GroupUpTo(rows, n)) == Evaluation.Dedup(RowNames(rows)[..n])
    decreases n
  {
    if n > 0 {
      GroupedNamesUpTo(rows, n - 1);
      AddRowNames(GroupUpTo(rows, n - 1), rows[n - 1]);
      var ns := RowNames(rows)[..n];
      assert ns[..n - 1] == RowNames(rows)[..n - 1];
      assert ns[n - 1] == rows[n - 1].criteriaName;
    }
  }

  /** The grouping holds each criteria name once, in the order in which the rows first show it. */
  lemma GroupedNames(rows: seq<GuidelineRow>)
    ensures CriteriaNames(Grouped(rows)) == Evaluation.Dedup(RowNames(rows))
    ensures Evaluation.Distinct(CriteriaNames(Grouped(rows)))
  {
    GroupedNamesUpTo(rows, |rows|);
    assert RowNames(rows)[..|rows|] == RowNames(rows);
  }

  // ---------------------------------------------------------------------------------------------
  // get_prompt_for_role
  // ---------------------------------------------------------------------------------------------

  /** The roles `role_column_mapping` knows; each maps to the column of the same name. */
  predicate KnownRole(role: string)
  {
    role == "public" || role == "educator" || role == "admin"
  }

  /**
   * The prompts column for a role, or `None` for anything else: an unknown text, a non-text value
   * (a hashable one is simply absent from the mapping, an unhashable one raises inside the `try`).
   */
  function PromptColumn(userRole: Attr): (r: Option<string>)
    ensures r.Some? <==> userRole.AStr? && KnownRole(userRole.s)
    ensures r.Some? ==> r.value == userRole.s
  {
    if userRole.AStr? && KnownRole(userRole.s) then Some(userRole.s) else None
  }

  /**
   * `get_prompt_for_role` once connected: `latest` holds, per column, the newest non-null prompt.
   * A role outside the mapping gives `None`, and so does an empty prompt (`result[0]` is falsy).
   */
  function PromptForRole(userRole: Attr, latest: map<string, string>): (r: Option<string>)
    ensures PromptColumn(userRole).None? ==> r.None?
    ensures r.Some? ==> userRole.AStr? && KnownRole(userRole.s) && userRole.s in latest && r.value == latest[userRole.s] != ""
    ensures r.None? && PromptColumn(userRole).Some? ==> userRole.s !in latest || latest[userRole.s] == ""
  {
    match PromptColumn(userRole)
    case None => None
    case Some(column) => if column in latest && latest[column] != "" then Some(latest[column]) else None
  }

  // ---------------------------------------------------------------------------------------------
  // The helper import of the module
  // ---------------------------------------------------------------------------------------------

  /** The top-level names `helpers/chat.py` defines. */
  const ChatHelperNames: set<string> :=
    {"LLM_evaluation", "create_dynamodb_history_table", "get_guardrails", "get_bedrock_llm",
     "get_student_query", "get_initial_student_query", "get_response", "generate_response",
     "get_llm_output", "parse_evaluation_response", "get_response_evaluation"}

  /** `from helpers.chat import n1, n2, …` binds every name, or raises ImportError when one is not defined. */
  predicate ImportSucceeds(imported: seq<string>, defined: set<string>)
  {
    forall i :: 0 <= i < |imported| ==> imported[i] in defined
  }

  /** The names the module imports from `helpers.chat`, as written. */
  const ImportedAsWritten: seq<string> :=
    ["get_bedrock_llm", "create_dynamodb_history_table", "get_response", "get_user_query", "get_initial_user_query"]

  /** The names it uses them as: the template functions the helper module does define. */
  const ImportedIntended: seq<string> :=
    ["get_bedrock_llm", "create_dynamodb_history_table", "get_response", "get_student_query", "get_initial_student_query"]

  /** As written, loading the module raises ImportError, so no request reaches `handler`. */
  lemma ImportAsWrittenFails()
    ensures !ImportSucceeds(ImportedAsWritten, ChatHelperNames)
  {
    assert ImportedAsWritten[3] !in ChatHelperNames;
  }

  /** With the names the helper module defines, every import is bound; the handler below uses these. */
  lemma IntendedImportSucceeds()
    ensures ImportSucceeds(ImportedIntended, ChatHelperNames)
  {
  }

  // ---------------------------------------------------------------------------------------------
  // handler
  // ---------------------------------------------------------------------------------------------

  /** The embeddings table as `check_embeddings` finds it. */
  datatype Embeddings = NoTable | Table(rowCount: nat) | CheckRaised

  /** `check_embeddings`: true only for an existing table with rows; a raised query counts as false. */
  function EmbeddingsReady(e: Embeddings): (r: bool)
    ensures r <==> e.Table? && e.rowCount > 0
  {
    match e
    case NoTable => false
    case Table(n) => n > 0
    case CheckRaised => false
  }

  /**
   * What the services outside the handler do on this call: parameter and table set-up, the
   * database connection, the stored prompts, the queue, the model, the vector-store secret, the
   * embeddings table, the retriever and the first non-empty answer of the chain (or its error).
   */
  datatype Services = Services(initOk: bool, dbUp: bool, prompts: map<string, string>, sqsOk: bool,
                               llmOk: bool, secretOk: bool, embeddings: Embeddings, retrieverOk: bool,
                               answer: Result<string>)

  /** The comparison request put on the queue. */
  datatype Comparison = Comparison(sessionId: string, userRole: Attr, criteria: Attr)

  /**
   * A queued message: its body, its FIFO group id and the body its deduplication id is the MD5
   * digest of (the digest itself is not modelled).
   */
  datatype QueueMessage = QueueMessage(body: Comparison, groupId: string, deduplicatedBy: Comparison)

  /** The handler's visible effects, in the order it causes them. */
  datatype Action =
    | PromptQueried(column: string)
    | Enqueued(message: QueueMessage)
    | EngagementLogged(sessionId: string, engagementType: string, details: Attr, userInfo: string, userRole: Attr)
    | Asked(query: Option<string>)

  datatype Body =
    | Text(text: string)
    | Session(sessionId: string)
    | Reply(content: string, options: seq<string>, userRole: Attr)

  datatype Response = Response(statusCode: int, body: Body)

  datatype Outcome = Raised | Returned(response: Response)

  const MissingSession := "Missing required parameter: session_id"
  const SqsFailed := "Error sending message to SQS"
  const PromptMissing := "Error fetching system prompt"
  const LlmFailed := "Error getting LLM from Bedrock"
  const ConfigFailed := "Error retrieving vectorstore config"
  const NoDocuments := "Error: The Administrator has not uploaded Digital Strategy documents, please contact the Administrator."
  const RetrieverFailed := "Error creating history-aware retriever"
  const ResponseFailed := "Error getting response"
  const MessageCreation := "message creation"

  /** `body.get(key, "")`. */
  function Field(body: map<string, Attr>, key: string): Attr
  {
    if key in body then body[key] else GetMessages.AStr("")
  }

  /** The decoded request body is an object, or absent (which reads as `{}`). */
  predicate ObjectBody(body: Option<Attr>)
  {
    body.None? || body.value.AMap?
  }

  function Fields(body: Option<Attr>): map<string, Attr>
    requires ObjectBody(body)
  {
    if body.None? then map[] else body.value.fields
  }

  /** The request reaches the body: set-up succeeded, parameters are an object with a session id. */
  predicate PastSession(params: QueryParams, body: Option<Attr>, services: Services)
  {
    services.initOk && !params.Null? && params.Lookup("session_id", "") != "" && ObjectBody(body)
  }

  /**
   * What `handler` does with an object body once the session id is known: a comparison request
   * is queued, grouped and deduplicated by its own body, and nothing else happens; otherwise the
   * prompt of the role is fetched (an unknown role is never queried), a missing prompt is answered
   * before the question is looked at, the opening turn gets the greeting and the role choices
   * without a log or a model, and a question is logged, then answered.
   */
  predicate BodyHandled(out: Outcome, trace: seq<Action>, sessionId: string, userInfo: string,
                        fields: map<string, Attr>, services: Services)
  {
    var question := Field(fields, "message_content");
    var userRole := Field(fields, "user_role");
    if GetMessages.Truthy(Field(fields, "comparison")) then
      var request := Comparison(sessionId, userRole, Field(fields, "criteria"));
      if services.sqsOk then
        out == Returned(Response(200, Session(sessionId))) && trace == [Enqueued(QueueMessage(request, sessionId, request))]
      else
        out == Returned(Response(500, Text(SqsFailed))) && trace == []
    else if !services.dbUp then out == Raised && trace == []
    else
      var queried := match PromptColumn(userRole)
                     case None => []
                     case Some(column) => [PromptQueried(column)];
      if PromptForRole(userRole, services.prompts).None? then
        out == Returned(Response(400, Text(PromptMissing))) && trace == queried
      else if question == GetMessages.AStr("") then
        out == Returned(Response(200, Reply(Greeting, RoleChoices, userRole))) && trace == queried
      else
        var logged := queried + [EngagementLogged(sessionId, MessageCreation, question, userInfo, userRole)];
        |trace| >= |logged| && trace[..|logged|] == logged && Answered(out, trace[|logged|..], question, userRole, services)
  }

  /**
   * `handler`: set-up failures and a null parameter object raise; a missing session id is answered
   * 400 before the body is read; an object body is then handled as `BodyHandled` says.
   */
  method Handler(params: QueryParams, body: Option<Attr>, services: Services) returns (out: Outcome, trace: seq<Action>)
    ensures !services.initOk || params.Null? ==> out == Raised && trace == []
    ensures services.initOk && !params.Null? && params.Lookup("session_id", "") == "" ==>
              out == Returned(Response(400, Text(MissingSession))) && trace == []
    ensures services.initOk && !params.Null? && params.Lookup("session_id", "") != "" && !ObjectBody(body) ==>
              out == Raised && trace == []
    ensures PastSession(params, body, services) ==>
              BodyHandled(out, trace, params.Lookup("session_id", ""), params.Lookup("user_info", ""), Fields(body), services)
  {
    if !services.initOk || params.Null? {
      return Raised, [];
    }
    var sessionId := params.Lookup("session_id", "");
    var userInfo := params.Lookup("user_info", "");
    if sessionId == "" {
      return Returned(Response(400, Text(MissingSession))), [];
    }
    if !ObjectBody(body) {
      return Raised, [];
    }
    out, trace := HandleBody(sessionId, userInfo, Fields(body), services);
  }

  /** The part of `handler` after the session id check, on the fields of the body. */
  method HandleBody(sessionId: string, userInfo: string, fields: map<string, Attr>, services: Services)
    returns (out: Outcome, trace: seq<Action>)
    ensures BodyHandled(out, trace, sessionId, userInfo, fields, services)
  {
    trace := [];
    var question := Field(fields, "message_content");
    var userRole := Field(fields, "user_role");
    var comparison := Field(fields, "comparison");
    var criteria := Field(fields, "criteria");

    if GetMessages.Truthy(comparison) {
      var messageBody := Comparison(sessionId, userRole, criteria);
      if !services.sqsOk {
        return Returned(Response(500, Text(SqsFailed))), trace;
      }
      trace := trace + [Enqueued(QueueMessage(messageBody, sessionId, messageBody))];
      return Returned(Response(200, Session(sessionId))), trace;
    }

    if !services.dbUp {
      return Raised, trace;
    }
    var column := PromptColumn(userRole);
    if column.Some? {
      trace := trace + [PromptQueried(column.value)];
    }
    var userPrompt := PromptForRole(userRole, services.prompts);
    if userPrompt.None? {
      return Returned(Response(400, Text(PromptMissing))), trace;
    }

    if question == GetMessages.AStr("") {
      var initialQuery := InitialStudentQuery();
      return Returned(Response(200, Reply(initialQuery.message, initialQuery.options, userRole))), trace;
    }
    trace := trace + [EngagementLogged(sessionId, MessageCreation, question, userInfo, userRole)];
    var logged := trace;

    var asked;
    out, asked := Answer(question, userRole, services);
    trace := trace + asked;
    assert trace[..|logged|] == logged && trace[|logged|..] == asked;
  }

  /**
   * The query handed to the model for a question: the student-query template around a text
   * question, from which the question can be read back. Other JSON values reach the template
   * through Python's `str`, whose rendering is not modelled (None).
   */
  function UserQuery(question: Attr): (r: Option<string>)
    ensures r.Some? <==> question.AStr?
    ensures r.Some? ==> |r.value| == |question.s| + 24 && r.value[14..|r.value| - 10] == question.s
  {
    if question.AStr? then Some(StudentQuery(question.s)) else None
  }

  /**
   * The answering part of `handler`: the model, the configuration, the embeddings, the retriever
   * and the answer are tried in that order, each failure answered with its own message; only a
   * retriever that was built leads to the question being asked.
   */
  predicate Answered(out: Outcome, asked: seq<Action>, question: Attr, userRole: Attr, services: Services)
  {
    if !services.llmOk then out == Returned(Response(500, Text(LlmFailed))) && asked == []
    else if !services.secretOk then out == Returned(Response(500, Text(ConfigFailed))) && asked == []
    else if !EmbeddingsReady(services.embeddings) then out == Returned(Response(500, Text(NoDocuments))) && asked == []
    else if !services.retrieverOk then out == Returned(Response(500, Text(RetrieverFailed))) && asked == []
    else asked == [Asked(UserQuery(question))]
         && (services.answer.Err? ==> out == Returned(Response(500, Text(ResponseFailed))))
         && (services.answer.Ok? ==>
               var output := GetLlmOutput(services.answer.value);
               out == Returned(Response(200, Reply(output.llmOutput, output.options, userRole))))
  }

  method Answer(question: Attr, userRole: Attr, services: Services) returns (out: Outcome, asked: seq<Action>)
    ensures Answered(out, asked, question, userRole, services)
  {
    asked := [];
    if !services.llmOk {
      return Returned(Response(500, Text(LlmFailed))), asked;
    }
    if !services.secretOk {
      return Returned(Response(500, Text(ConfigFailed))), asked;
    }
    if !EmbeddingsReady(services.embeddings) {
      return Returned(Response(500, Text(NoDocuments))), asked;
    }
    if !services.retrieverOk {
      return Returned(Response(500, Text(RetrieverFailed))), asked;
    }
    asked := [Asked(UserQuery(question))];
    if services.answer.Err? {
      return Returned(Response(500, Text(ResponseFailed))), asked;
    }
    var response := GetLlmOutput(services.answer.value);
    out := Returned(Response(200, Reply(response.llmOutput, response.options, userRole)));
  }
}
