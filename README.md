# Digital Strategy Assistant — a Dafny model of the chat-turn codec and its handlers

This project models, in Dafny, the deterministic core of the Digital Strategy Assistant. It is a
retrieval-augmented chat service that answers questions about a digital-learning strategy and
compares a syllabus with the strategy's guidelines. The model covers:

- **The chat-turn response codec** (`TurnCodec`). A model completion is split at the phrase
  "You might have the following questions:" into the main content, with its links rewritten to
  `[u](u)`, and the follow-up questions, cut at every `?`. It also models the query templates
  that wrap a student's question.
- **The transcript readers** (`ChatHistory`, `GetMessages`). The chat-history export splits
  stored turns again and cleans human turns of the template's `user` line. It matches user
  turns with the engagement log and writes one CSV row per turn. The `GET /messages` reader
  turns DynamoDB items into typed messages.
- **The evaluation formatters and guideline grouping** (`Evaluation`, `ComparisonChat`,
  `TextGeneration`, `ComparisonHandler`). This includes the order in which both
  text-generation handlers answer early. In the comparison handler, the calls do not match the
  helpers they call, and that mismatch decides the outcome (see "Findings").
- **Document ingestion** (`ComparisonIngestion`, `IngestionMain`, `IngestionDocuments`). It
  covers the guardrail verdict classifier, the key filtering and the store and delete
  decisions. It also covers page-key naming and recovery, chunk bookkeeping, and the parsing of
  `{category}/{name}.{type}` keys.
- **S3 key conventions in the other Lambdas** (`SqsKeys`, `GetDocuments`, `DeleteDocument`).
- **Front-end helpers and components.** Modelled as functions, or as classes whose methods
  update the component's state: file-name helpers, upload pre-flight, role detection, the
  category forms, the syllabus-comparison dialog, the guidelines editor, the feedback views,
  the history page with its CSV download, and the sign-up and password-reset forms. These are
  `ChatUtility`, `CategoryForms`, `SyllabusComparison`, `GuidelinesEditor`, `AdminFeedback`,
  `ChatFeedback`, `HistoryView` and `AuthForms`.

`Text` holds the string scanning these share. It defines Python's and JavaScript's whitespace
sets, `strip`/`trim`, `split`, `join`, search and ASCII lower-casing. `Lists` holds the array
updates the components apply, and `Sorting` the stable sort that `Array.prototype.sort`
performs. `Common` holds `Option` and `Result`.

Outside calls are parameters of the model or are left out. These are databases, S3 listings,
DynamoDB items, the queue, guardrail answers, model answers, presigning, percent-decoding and
JSON decoding. Two behaviours of the code are easy to miss:

- The response split uses a greedy `(.*)`, so it happens at the **last** occurrence of the
  phrase, not the first (`TurnCodec.MatchDelimiterUnique`).
- The link rewrite is **not** idempotent: `[u](u)` is rewritten again
  (`TurnCodec.LinkifyNotIdempotent`).

## Model

| member | source | states |
|---|---|---|
| TurnCodec.MatchDelimiter | cdk/text_generation/src/helpers/chat.py:297-304 | the greedy DOTALL search fails exactly when the delimiter is absent; on success the answer is `before + delimiter + after` and `after` holds no further delimiter |
| TurnCodec.CutAtLast | cdk/text_generation/src/helpers/chat.py:297-304 | cutting the answer at the last delimiter leaves `before + delimiter + after` with no delimiter left in `after` |
| TurnCodec.MatchDelimiterUnique | cdk/text_generation/src/helpers/chat.py:297-301 | any decomposition whose tail is delimiter-free is the one found, so the split is at the LAST delimiter and earlier ones stay in the content |
| TurnCodec.QuestionPieces | cdk/text_generation/src/helpers/chat.py:316 | `re.split(r'\?\s*(?=\S\|$)')` yields at least one piece, no piece contains `?`, and newline-free text gives newline-free pieces |
| TurnCodec.OptionsShape | cdk/text_generation/src/helpers/chat.py:314-317 | every option is a non-blank stripped fragment without `?` or newline followed by exactly one `?`, and there are at most (number of `?`) + 1 options |
| TurnCodec.OptionsOfRendered | cdk/text_generation/src/helpers/chat.py:314-317 | questions written as `Q1? Q2? …` come back as the options `Q1?`, `Q2?`, … in the same order |
| TurnCodec.UrlMatchLen | cdk/text_generation/src/helpers/chat.py:312 | a match of `https?://[^\s]+` starts with the scheme, holds only non-whitespace and is maximal (ends at whitespace or the end) |
| TurnCodec.LinkifyWithoutUrl | cdk/text_generation/src/helpers/chat.py:306-312 | text with no `http://` or `https://` is left unchanged by the link rewrite |
| TurnCodec.LinkifyWhole | cdk/text_generation/src/helpers/chat.py:306-312 | a text that is one URL match becomes `[u](u)` with the same u |
| TurnCodec.LinkifyBareUrl | cdk/text_generation/src/helpers/chat.py:306-312 | concrete instance: `http://a` becomes `[http://a](http://a)` |
| TurnCodec.LinkifyLength | cdk/text_generation/src/helpers/chat.py:306-312 | the rewrite never shortens a text and lengthens every text that starts with a URL |
| TurnCodec.LinkifyNotIdempotent | cdk/text_generation/src/helpers/chat.py:306-312 | rewriting an already rewritten URL wraps it again: the rewrite is not idempotent |
| TurnCodec.GetLlmOutput | cdk/text_generation/src/helpers/chat.py:285-322 | without the delimiter the content is the stripped, link-rewritten answer and options are empty; with it, content and options come from the parts around the last delimiter |
| TurnCodec.GetLlmOutputOptions | cdk/text_generation/src/helpers/chat.py:297-317 | every option of any answer is well formed (non-blank, trimmed, one final `?`, no newline) |
| TurnCodec.GetLlmOutputRoundTrip | cdk/text_generation/src/helpers/chat.py:297-317 | `content + " " + delimiter + " Q1? Q2? …"` yields the stripped, link-rewritten content and the questions in order |
| TurnCodec.WorkedExample | cdk/lambda/initializer/initializer.py:264 | the prompt's sample answer yields its first sentence as content and the three follow-up questions as options |
| TurnCodec.StudentQuery | cdk/text_generation/src/helpers/chat.py:139-154 | the template adds a fixed 14-character head and 10-character tail, and the raw text reads back from between them |
| TurnCodec.InitialStudentQuery | cdk/text_generation/src/helpers/chat.py:156-171 | the opening turn carries the fixed greeting and exactly the three role choices |
| ChatHistory.ExtractContentAndQuestions | cdk/chatHistory/src/main.py:120-142 | the read-back split equals the service's formatter except that links are not rewritten |
| ChatHistory.ExtractedQuestionsWellFormed | cdk/chatHistory/src/main.py:133-140 | every question recovered from a stored turn is well formed |
| ChatHistory.SplitLines | cdk/chatHistory/src/main.py:149 | `str.splitlines` gives boundary-free lines, and no lines exactly for the empty text |
| ChatHistory.SplitJoinLines | cdk/chatHistory/src/main.py:149 | joining boundary-free lines with `\n` and splitting again returns them |
| ChatHistory.CleanHumanContent | cdk/chatHistory/src/main.py:144-152 | the `user` line of the query template is dropped and the rest stripped and space-joined: a cleaned human turn has no line break and no leading or trailing whitespace |
| ChatHistory.CleanHumanContentIdempotent | cdk/chatHistory/src/main.py:144-152 | cleaning twice equals cleaning once |
| ChatHistory.CleanUserLine | cdk/chatHistory/src/main.py:151 | a turn that is only the `user` line cleans to the empty text |
| ChatHistory.CleanStudentQuery | cdk/text_generation/src/helpers/chat.py:139-154 | round trip: cleaning the query template around a one-line question that is not `user` gives the stripped question |
| ChatHistory.FetchAllUserMessages | cdk/chatHistory/src/main.py:93-117 | the loop builds the session → stripped message → {Timestamp, UserRole} index of the rows; a raising query gives the empty index |
| ChatHistory.IndexOfHas | cdk/chatHistory/src/main.py:101-107 | a (session, stripped message) pair is indexed iff some row has it |
| ChatHistory.IndexOfLastWins | cdk/chatHistory/src/main.py:107-110 | for repeated messages the entry is the info of the last (latest) row |
| ChatHistory.FormatOne | cdk/chatHistory/src/main.py:189-210 | one transcript entry gives exactly FormatEntry of it (skip, or a record with its type mapped and content split) |
| ChatHistory.FormatHistory | cdk/chatHistory/src/main.py:189-210 | the inner loop formats the entries of one item in order |
| ChatHistory.FetchChatMessages | cdk/chatHistory/src/main.py:180-216 | the outer loop formats every item's entries in item order; a raising query gives no turns |
| ChatHistory.FormatEntryCases | cdk/chatHistory/src/main.py:190-208 | an entry is skipped iff its stripped content is empty (before cleaning); `ai` maps to `ai`, every other type, `unknown` included, to `user` |
| ChatHistory.FormatItemsUnmerged | cdk/chatHistory/src/main.py:201-208 | every formatted turn carries its session, type `ai` or `user`, Timestamp None and UserRole "" |
| ChatHistory.HumanUserLineEmitted | cdk/chatHistory/src/main.py:193-197 | a human entry that cleans to "" is still emitted with an empty message |
| ChatHistory.ExtractEmpty | cdk/chatHistory/src/main.py:120-142 | the empty text splits into empty content and no questions |
| ChatHistory.Annotate | cdk/chatHistory/src/main.py:269-275 | a user turn takes Timestamp and UserRole from an exact-text match in its session, else None and ""; an AI turn gets None and keeps its role; text and options are untouched |
| ChatHistory.AnnotateSession | cdk/chatHistory/src/main.py:269-277 | the inner merge loop annotates one session's turns in order |
| ChatHistory.MergeSessions | cdk/chatHistory/src/main.py:263-277 | the merge loop yields every session's annotated turns in session order, none for a session whose query raised |
| ChatHistory.MergedAiTurns | cdk/chatHistory/src/main.py:274-275 | after the merge AI turns have no timestamp and an empty role |
| ChatHistory.CsvRow | cdk/chatHistory/src/main.py:226-233 | a row has exactly the five header columns |
| ChatHistory.CsvRowIgnoresOptions | cdk/chatHistory/src/main.py:226-233 | options are never written: changing them leaves the row as it was |
| ChatHistory.CsvRows | cdk/chatHistory/src/main.py:219-233 | the header SessionId, UserRole, MessageType, Message, Timestamp, then one row per turn in order |
| ChatHistory.Handler | cdk/chatHistory/src/main.py:46-306 | a null parameter object or an unreachable database ends in 500 "Internal Server Error"; a raising query gives an empty index, no sessions or no turns for its session; a CSV that cannot be written gives 500 "Failed to generate CSV"; otherwise the merged turns become CSV rows stored under `<session_id>/chat_history.csv` with status 200 |
| GetMessages.Get | cdk/lambda/getMessages/getMessagesFunction.py:145-156 | `.get` returns the field or the default on an object and raises on anything else |
| GetMessages.ReadEntries | cdk/lambda/getMessages/getMessagesFunction.py:150-163 | the entry loop returns the messages of the entries in order |
| GetMessages.EntriesError | cdk/lambda/getMessages/getMessagesFunction.py:150-163 | an error in an entry ends the whole list with an error |
| GetMessages.ReadMessages | cdk/lambda/getMessages/getMessagesFunction.py:118-189 | 404 when Items is absent or empty, 500 on a malformed item, else 200 with `{"messages": [...]}` |
| GetMessages.ItemsError | cdk/lambda/getMessages/getMessagesFunction.py:143-163 | a failing item ends the whole result with an error |
| GetMessages.Handler | cdk/lambda/getMessages/getMessagesFunction.py:118-209 | a missing or empty session_id returns 400 without querying; otherwise the table is queried, a raising query gives 500 "Error retrieving messages", and else the query result decides |
| GetMessages.EntriesMessagesNonEmpty | cdk/lambda/getMessages/getMessagesFunction.py:155-163 | every returned message has a non-empty type and content |
| GetMessages.TypedEntryRoundTrip | cdk/lambda/getMessages/getMessagesFunction.py:152-163 | a stored `M.data.M` turn reads back as its type and content unless one is empty |
| GetMessages.TypedHistoryRoundTrip | cdk/lambda/getMessages/getMessagesFunction.py:150-163 | a stored history reads back as its turns with both parts non-empty, in order |
| GetMessages.ItemsMessagesAppend | cdk/lambda/getMessages/getMessagesFunction.py:143-163 | reading items in two groups is reading each and concatenating: item order is kept |
| GetMessages.SkippedItem | cdk/lambda/getMessages/getMessagesFunction.py:145-148 | an item whose `History.L` is not a list is skipped and the others are still read |
| Evaluation.CollapseSpace | cdk/text_generation/src/helpers/chat.py:439 | `re.sub(r"\s+", " ")` leaves single blanks only, is empty iff its input is, and keeps whether the text starts with whitespace |
| Evaluation.CollapseKeepsText | cdk/text_generation/src/helpers/chat.py:439 | collapsing whitespace keeps every other character in order |
| Evaluation.ReplaceNewlineIdle | cdk/text_generation/src/helpers/chat.py:439 | after collapsing, `.replace("\n", " ")` has nothing left to replace |
| Evaluation.Finish | cdk/text_generation/src/helpers/chat.py:431-439 | the link rewrite then whitespace cleanup gives text with single blanks, no newline and no outer whitespace |
| Evaluation.LinkifyNoSpace | cdk/text_generation/src/helpers/chat.py:431-436 | the link rewrite keeps a whitespace-free text whitespace-free |
| Evaluation.ParseEvaluation | cdk/text_generation/src/helpers/chat.py:398-444 | `llm_output` has no newline, no two adjacent whitespace characters and no leading or trailing whitespace |
| Evaluation.ParseEvaluationResponse | cdk/text_generation/src/helpers/chat.py:411-444 | the loop with its recursive call on nested dictionaries computes the parser's result |
| Evaluation.GatherReference | cdk/text_generation/src/helpers/chat.py:415-426 | after n entries the loop's lists are the front-to-back contributions of those entries |
| Evaluation.ParseReference | cdk/text_generation/src/helpers/chat.py:411-444 | the output is the cleaned blank-join of all texts in dict order, and the options are list values and nested options in dict order |
| Evaluation.EmptyEvaluation | cdk/text_generation/src/helpers/chat.py:411-444 | an empty dictionary gives `("", [])` |
| Evaluation.OptionsInOrder | cdk/text_generation/src/helpers/chat.py:419-426 | options of a concatenated dictionary are the options of the front part, then of the rest |
| Evaluation.OtherValueIgnored | cdk/text_generation/src/helpers/chat.py:415-426 | a value that is not str, list or dict changes nothing |
| Evaluation.SingleText | cdk/text_generation/src/helpers/chat.py:417-418 | one string value gives that string stripped and cleaned |
| Evaluation.SingleNested | cdk/text_generation/src/helpers/chat.py:423-426 | a nested dictionary's output is cleaned once more by the outer call |
| Evaluation.NestedUrlWrappedTwice | cdk/text_generation/src/helpers/chat.py:423-436 | a URL inside a nested dictionary is link-wrapped twice |
| Evaluation.Name | cdk/text_generation/src/helpers/chat.py:582 | the key `query.split(':')[0]` is the text before the first `:`, the whole query when it has none |
| Evaluation.Stored | cdk/text_generation/src/helpers/chat.py:579-585 | the answer on success, `Error during evaluation: …` when the chain raised |
| Evaluation.PutKeys | cdk/text_generation/src/helpers/chat.py:582 | `d[k] = v` keeps the key order, appending k only when it is new |
| Evaluation.PutLookup | cdk/text_generation/src/helpers/chat.py:582 | after `d[k] = v`, k holds v and every other key holds what it held |
| Evaluation.StoreGuidelines | cdk/text_generation/src/helpers/chat.py:551-585 | the inner loop stores the result of each guideline of one category in order |
| Evaluation.StoreCategory | cdk/text_generation/src/helpers/chat.py:549-585 | one pass of the outer loop stores the answers of exactly that category's guidelines, continuing the front-to-back results |
| Evaluation.ResultsStep | cdk/text_generation/src/helpers/chat.py:579-585 | one more answer is stored under its guideline's name |
| Evaluation.GetResponseEvaluation | cdk/text_generation/src/helpers/chat.py:547-589 | the nested loops fill `evaluation_results` for every guideline in order and parse it |
| Evaluation.ResultsKeys | cdk/text_generation/src/helpers/chat.py:550-585 | the result keys are the guideline names in order of first appearance, each once |
| Evaluation.ResultsHaveNames | cdk/text_generation/src/helpers/chat.py:550-585 | a name has a stored result iff some guideline has that name |
| Evaluation.ResultsLastWins | cdk/text_generation/src/helpers/chat.py:582-585 | a later guideline with the same name overwrites the earlier result |
| Evaluation.EvaluationHasNoOptions | cdk/text_generation/src/helpers/chat.py:588-589 | every stored value is a string, so the evaluation never has options |
| ComparisonChat.Markdown | cdk/comparison_text_generation/src/helpers/chat.py:50-56 | the markdown text is stripped, and "" for an empty dictionary |
| ComparisonChat.FormatToMarkdown | cdk/comparison_text_generation/src/helpers/chat.py:50-56 | the loop appends `\n**k:** v` per entry in dict order, joins with `\n` and strips: the result is Markdown of the dictionary |
| ComparisonChat.MarkdownUnpadded | cdk/comparison_text_generation/src/helpers/chat.py:50-56 | for a non-empty dictionary whose last body does not end in whitespace, the result is the `**k:** v` sections separated by a blank line, starting with `**` |
| ComparisonChat.ParseSingleEvaluation | cdk/comparison_text_generation/src/helpers/chat.py:59-82 | the output starts with `**name:**` and a line break, and options are always empty |
| ComparisonChat.FormatBodyIdempotent | cdk/comparison_text_generation/src/helpers/chat.py:75-77 | trimming the lines of an already formatted body changes nothing |
| ComparisonChat.SingleEvaluationLines | cdk/comparison_text_generation/src/helpers/chat.py:75-82 | the output's lines are the header line then each response line trimmed: one more line than the response |
| ComparisonChat.FormatDocs | cdk/comparison_text_generation/src/helpers/chat.py:85-96 | no pages give "", one page gives its content |
| ComparisonChat.FormatDocsAppend | cdk/comparison_text_generation/src/helpers/chat.py:96 | another page adds a blank line and its content at the end, so pages stay in list order |
| ComparisonChat.EvaluateGuideline | cdk/comparison_text_generation/src/helpers/chat.py:179-188 | a success yields the formatted answer under the name before the first `:`; a failure yields `**name:** Error processing guideline - …`; options are always empty |
| ComparisonChat.EvaluateCategory | cdk/comparison_text_generation/src/helpers/chat.py:178-188 | the inner loop yields one result per guideline of one category, in order |
| ComparisonChat.GetResponseEvaluation | cdk/comparison_text_generation/src/helpers/chat.py:177-188 | iterated to the end, the generator yields exactly one result per guideline across all categories, in order, each with empty options |
| TextGeneration.Position | cdk/text_generation/src/main.py:237 | the index of the first group with that criteria name, or none when no group has it |
| TextGeneration.GetCombinedGuidelines | cdk/text_generation/src/main.py:230-247 | the grouping loop builds the criteria_name → guideline-list dictionary of the rows; a failed query gives `{}` |
| TextGeneration.GroupedGuidelines | cdk/text_generation/src/main.py:235-240 | each criteria name holds the `header: body` texts of its rows, one per row, in row order |
| TextGeneration.GroupedNames | cdk/text_generation/src/main.py:235-240 | the grouping holds each criteria name once, in order of first appearance |
| TextGeneration.PromptColumn | cdk/text_generation/src/main.py:270-280 | a column is chosen iff the role is public, educator or admin, and it is the role itself |
| TextGeneration.PromptForRole | cdk/text_generation/src/main.py:256-300 | any other role gives None without a query; a known role gives its latest non-empty prompt or None |
| TextGeneration.EmbeddingsReady | cdk/text_generation/src/main.py:363-405 | the embeddings check passes iff the table exists and has rows |
| TextGeneration.Handler | cdk/text_generation/src/main.py:409-770 | 400 for a missing session_id before the body is read; a comparison request is queued (group id = session id, dedup by the body) and answered 200 without prompt or model; a missing prompt gives 400 before the question is examined; an empty question gives the greeting and role options with no log or model; then model, configuration, embeddings (500 with the administrator message), retriever and answer fail in that order; success returns the formatted turn |
| TextGeneration.HandleBody | cdk/text_generation/src/main.py:436-770 | after the session check: a comparison is queued or answered 500 when the queue fails; a database error raises; the prompt query, the 400 for a missing prompt, the greeting for an empty question, the engagement log and then the answering part, in that order |
| TextGeneration.UserQuery | cdk/text_generation/src/main.py:645 | a text question becomes the student-query template, from which the question reads back; other JSON values give no modelled query |
| TextGeneration.Answer | cdk/text_generation/src/main.py:654-770 | model, configuration, embeddings, retriever and answer fail in that order with their own 500 messages; the templated query is asked only once the retriever was built; success returns the formatted turn |
| TextGeneration.ImportAsWrittenFails | cdk/text_generation/src/main.py:12 | the import names `get_user_query`, which the helper module does not define, so loading the module fails |
| TextGeneration.IntendedImportSucceeds | cdk/text_generation/src/main.py:12 | importing the template functions the helper module defines binds every name |
| ComparisonHandler.Handler | cdk/comparison_text_generation/src/main.py:236-356 | only the first record is processed and empty Records return None; the collection is the session id; stages fail in the order config → LLM → retriever → evaluation, each with its own 500; with the repository's helper signatures every configured run ends in 500 "Error getting LLM from Bedrock" with no notification |
| ComparisonHandler.LlmCallRejected | cdk/comparison_text_generation/src/main.py:275 | `get_bedrock_llm` takes only `(bedrock_llm_id, temperature)`, so the `enable_guardrails=True` call does not bind |
| ComparisonHandler.IntendedLlmCallBinds | cdk/comparison_text_generation/src/main.py:275 | the call `get_bedrock_llm(bedrock_llm_id=...)` without `enable_guardrails` binds to the helper, and `enable_guardrails` is the only keyword the written call adds to it |
| ComparisonHandler.RetrieverCallRejected | cdk/comparison_text_generation/src/main.py:291-295 | the retriever helper takes two parameters, so the call passing `llm=` does not bind |
| ComparisonHandler.EvaluationNameIsHeader | cdk/comparison_text_generation/src/main.py:215-220 | the evaluation name derived from a grouped guideline is its header whenever the header has no `:` |
| ComparisonIngestion.LastNamed | cdk/comparison_data_ingestion/src/processing/documents.py:33-40 | the last of the listed guardrails carrying the name, or none when no guardrail has it |
| ComparisonIngestion.SetupGuardrail | cdk/comparison_data_ingestion/src/processing/documents.py:27-98 | a guardrail is created iff none matches; otherwise the id and version of the last one listed with that name are used |
| ComparisonIngestion.TopicHit | cdk/comparison_data_ingestion/src/processing/documents.py:192-199 | a topic hit is only the financial-advice or the offensive-content message |
| ComparisonIngestion.ScanTopics | cdk/comparison_data_ingestion/src/processing/documents.py:192-199 | the topic loop with its break finds the first blocked FinancialAdvice or OffensiveContent topic |
| ComparisonIngestion.ScanPii | cdk/comparison_data_ingestion/src/processing/documents.py:204-208 | the PII loop reports the sensitive-information message iff some entity was BLOCKED or ANONYMIZED |
| ComparisonIngestion.ClassifyIntervention | cdk/comparison_data_ingestion/src/processing/documents.py:186-214 | the assessment loop computes VerdictMessage: the first topic or PII hit, topics before PII, else the generic message |
| ComparisonIngestion.VerdictMessageCases | cdk/comparison_data_ingestion/src/processing/documents.py:186-214 | an intervention is answered with one of the four rejection messages, never "SUCCESS" |
| ComparisonIngestion.TopicBeforePii | cdk/comparison_data_ingestion/src/processing/documents.py:191-210 | within an assessment a blocked topic wins over any PII hit |
| ComparisonIngestion.EarlierAssessmentWins | cdk/comparison_data_ingestion/src/processing/documents.py:189-210 | an earlier deciding assessment wins over every later one |
| ComparisonIngestion.NoHitIsRestricted | cdk/comparison_data_ingestion/src/processing/documents.py:213-214 | with no topic or PII hit the generic restricted-content message is given |
| ComparisonIngestion.NonFoldersShape | cdk/comparison_data_ingestion/src/processing/documents.py:142-146 | a key is kept iff it is in the page and does not end in "/" |
| ComparisonIngestion.DocumentKeysShape | cdk/comparison_data_ingestion/src/processing/documents.py:139-146 | a key is collected iff some listing page holds it and it does not end in "/" |
| ComparisonIngestion.KeyCollected | cdk/comparison_data_ingestion/src/processing/documents.py:139-146 | for one key and every page index: the key is collected from that page on iff some page from there on holds it and it is not a folder |
| ComparisonIngestion.PageKeysShape | cdk/comparison_data_ingestion/src/processing/documents.py:140-146 | one page contributes a key iff it has Contents holding the key and the key does not end in "/" |
| ComparisonIngestion.AppendNonFolders | cdk/comparison_data_ingestion/src/processing/documents.py:142-146 | the inner listing loop appends the page's non-folder keys in order |
| ComparisonIngestion.CollectKeys | cdk/comparison_data_ingestion/src/processing/documents.py:135-149 | the listing loop collects the non-folder keys of every page with Contents, in order |
| ComparisonIngestion.PagesReadable | cdk/comparison_data_ingestion/src/processing/documents.py:168-242 | a downloaded document's page scan either finishes or stops at an intervention |
| ComparisonIngestion.ProcessFile | cdk/comparison_data_ingestion/src/processing/documents.py:168-244 | the page loop of one document keeps, checks and stops exactly as ScanPages describes, ending at an intervening page with that page's assessments |
| ComparisonIngestion.PageKept | cdk/comparison_data_ingestion/src/processing/documents.py:168-240 | a non-blank page the guardrail lets through is stored with its 1-based page number (blank pages counted) and the scan goes on |
| ComparisonIngestion.KeptStep | cdk/comparison_data_ingestion/src/processing/documents.py:168-240 | storing a passed page moves it from the pages still to scan to the pages scanned, without changing how the scan ends |
| ComparisonIngestion.BlankStep | cdk/comparison_data_ingestion/src/processing/documents.py:169-171 | a page whose stripped text is empty is skipped: nothing is stored or sent for it |
| ComparisonIngestion.KeyStep | cdk/comparison_data_ingestion/src/processing/documents.py:155-248 | a readable document's scan ends finished or blocked, and only a finished one lets the next document be scanned |
| ComparisonIngestion.ScanDocuments | cdk/comparison_data_ingestion/src/processing/documents.py:151-248 | the document loop accumulates kept pages and checked texts in key order and stops at the first intervention |
| ComparisonIngestion.ProcessDocuments | cdk/comparison_data_ingestion/src/processing/documents.py:100-261 | an unreadable key raises with nothing deleted; an intervention deletes every collected key (also those not yet reached), adds nothing and returns the VerdictMessage of the blocking page's assessments; otherwise the pages are added once when non-empty, every key is deleted and "SUCCESS" is returned |
| ComparisonIngestion.PagesChecked | cdk/comparison_data_ingestion/src/processing/documents.py:168-183 | pages whose stripped text is empty are never sent to the guardrail |
| ComparisonIngestion.PagesKept | cdk/comparison_data_ingestion/src/processing/documents.py:165-242 | a kept page has its document's key and id, a page number from 1 and its own stripped non-blank text |
| ComparisonIngestion.ScanShape | cdk/comparison_data_ingestion/src/processing/documents.py:139-242 | every checked text is non-blank and every stored page comes from a collected non-folder key with that document's id |
| ComparisonIngestion.KeysChecked | cdk/comparison_data_ingestion/src/processing/documents.py:155-244 | from document i on, every checked text is non-blank and stripped, and every stored page comes from a later key with that document's id and its own stripped text |
| ComparisonIngestion.InterventionStops | cdk/comparison_data_ingestion/src/processing/documents.py:186-226 | an intervening page ends the scan, blocked with that page's assessments: its text is the last one sent to the guardrail and nothing is stored |
| IngestionMain.ParseS3FilePath | cdk/data_ingestion/src/main.py:82-93 | on success the category, name and type hold no "/" and the type holds no "." |
| IngestionMain.ParseSucceedsIff | cdk/data_ingestion/src/main.py:82-87 | the parse succeeds iff the key has exactly one "/" and a "." after it, and then category + "/" + name + "." + type rebuilds the key |
| IngestionMain.ParseOfBuiltKey | cdk/data_ingestion/src/main.py:82-87 | parsing inverts building a key from a category and name without "/" and a type without "/" or "." |
| IngestionMain.DottedName | cdk/data_ingestion/src/main.py:86 | the split is at the last ".", so the name may contain dots |
| IngestionMain.NestedKeyRejected | cdk/data_ingestion/src/main.py:85 | a key with a second "/" is rejected |
| IngestionMain.EmptyCategoryParses | cdk/data_ingestion/src/main.py:221-226 | a parsed key can leave a part empty; only such keys reach the handler's own 400 |
| IngestionMain.FirstInBucket | cdk/data_ingestion/src/main.py:209-216 | the first record from the target bucket, or none when every record is from another bucket |
| IngestionMain.Handler | cdk/data_ingestion/src/main.py:201-269 | no records gives 400; other buckets are skipped; the first target-bucket record decides the answer; with none the final 400 is returned |
| IngestionMain.ProcessRecord | cdk/data_ingestion/src/main.py:217-264 | an unparsable key raises, an empty part gives 400, ObjectCreated inserts into the database before the vector-store update, other events only update, and the first failure gives 500 |
| IngestionDocuments.PartitionHead | cdk/data_ingestion/src/processing/documents.py:147 | `partition("_page")[0]` is a prefix of the key, and the whole key iff the key holds no "_page" |
| IngestionDocuments.StoreDocTexts | cdk/data_ingestion/src/processing/documents.py:61-68 | the page loop uploads each page's text and returns the keys `{category}/{name}_page_{i}.txt` for i = 1..page count, in order |
| IngestionDocuments.PageKeyRecovery | cdk/data_ingestion/src/processing/documents.py:147-148 | the name recovered from a page key is `{category}/{name}` iff that text holds no "_page"; otherwise it is cut at the first "_page" |
| IngestionDocuments.MarkerInNameCutsShort | cdk/data_ingestion/src/processing/documents.py:147-148 | concrete instance: the page key of "my_pages.pdf" recovers as "c/my" |
| IngestionDocuments.NonEmpty | cdk/data_ingestion/src/processing/documents.py:150 | the chunk filter keeps exactly the non-empty texts |
| IngestionDocuments.Annotate | cdk/data_ingestion/src/processing/documents.py:152-155 | every kept chunk of a page gets source `s3://bucket/<recovered>` and the page's one id |
| IngestionDocuments.StoreDocChunks | cdk/data_ingestion/src/processing/documents.py:139-163 | chunks are concatenated in page order and each page text file is deleted, in order |
| IngestionDocuments.ChunksShape | cdk/data_ingestion/src/processing/documents.py:150-155 | every stored chunk is non-empty and carries its page's source and id |
| IngestionDocuments.PageChunksKept | cdk/data_ingestion/src/processing/documents.py:150-155 | a chunk text of a page is stored iff it is non-empty |
| IngestionDocuments.LastSegment | cdk/data_ingestion/src/processing/documents.py:202 | the document name is the key's last "/"-segment and holds no "/" |
| IngestionDocuments.ReadKeyOfFlatKey | cdk/data_ingestion/src/processing/documents.py:197-203 | for a key directly under the category the object read back is the listed one |
| IngestionDocuments.NestedKeyReadsTopLevel | cdk/data_ingestion/src/processing/documents.py:197-203 | a key `category/folder/name` is read as `category/name`: a document in a sub-folder is looked up at the category's top level |
| IngestionDocuments.AddDocument | cdk/data_ingestion/src/processing/documents.py:99-112 | one document's pages are uploaded under the page keys, chunked in order, and every uploaded page file is deleted |
| IngestionDocuments.ListKeys | cdk/data_ingestion/src/processing/documents.py:193-197 | the listing loop collects every listed key, skipping pages without Contents |
| IngestionDocuments.AddDocuments | cdk/data_ingestion/src/processing/documents.py:196-211 | the document loop raises iff some listed key has no stored object; otherwise the chunks of every document in listing order |
| IngestionDocuments.ProcessDocuments | cdk/data_ingestion/src/processing/documents.py:165-230 | full-cleanup indexing runs with all chunks, even when there are none; a raised error indexes nothing; every uploaded page file is deleted |
| SqsKeys.MessageFor | cdk/lambda/sqs/sqs.js:30-35 | the message's filePath is the decoded key itself |
| SqsKeys.FileNameShape | cdk/lambda/sqs/sqs.js:16-18 | fileName is the text after the last "/" (no "/" in it, the key ends with it), or the whole key without one |
| SqsKeys.ExtensionShape | cdk/lambda/sqs/sqs.js:19-23 | with a dot, baseFileName + "." + fileExtension rebuilds fileName and the extension holds no "."; without one the extension is "" and the base is the whole name |
| SqsKeys.SessionIdShape | cdk/lambda/sqs/sqs.js:26-27 | sessionId is the first segment when the key has a "/", else "unknown" |
| SqsKeys.Undecoded | cdk/lambda/sqs/sqs.js:11-13 | every "+" is replaced (by a space) before percent-decoding, keeping the length |
| SqsKeys.RecordError | cdk/lambda/sqs/sqs.js:11-13 | a record that throws reports "URI malformed" when its key cannot be decoded, else the queue client's error for its decoded key |
| SqsKeys.SendRecord | cdk/lambda/sqs/sqs.js:11-51 | the loop body sends the message built for one record, or nothing when decoding or sending throws, and then yields that error's message |
| SqsKeys.FirstErrorAt | cdk/lambda/sqs/sqs.js:9-67 | a failing run stops at a record before which every record sent and which throws, and the error reported is that record's |
| SqsKeys.Handler | cdk/lambda/sqs/sqs.js:6-69 | one send per record in record order, stopping at the first error; on an error 500 with message "Error processing S3 event" and that error's message after the earlier sends, else 200 with "Successfully processed S3 events" |
| SqsKeys.OnePerRecord | cdk/lambda/sqs/sqs.js:9-51 | without errors exactly one message per record, in order, with group id = sessionId and dedup id = the full decoded key |
| SqsKeys.SendFromStep | cdk/lambda/sqs/sqs.js:9-51 | a run without error sends its first record's message and then the rest of the run |
| SqsKeys.RunLength | cdk/lambda/sqs/sqs.js:9-51 | a run without error sends one message per remaining record |
| SqsKeys.RunOfRecords | cdk/lambda/sqs/sqs.js:9-51 | a run without error sends, for each record in order, exactly what that record alone sends |
| SqsKeys.PartsHaveNoSlash | cdk/lambda/sqs/sqs.js:16-27 | none of sessionId, fileName and fileExtension holds a "/" |
| SqsKeys.OneSlashKey | cdk/lambda/sqs/sqs.js:16-27 | for a key with one "/", sessionId + "/" + fileName rebuilds the key |
| SqsKeys.ConsumerKeyDiffers | cdk/comparison_data_ingestion/src/main.py:157-166 | the consumer's `{sessionId}/{fileName}.{fileExtension}` never equals the uploaded key, because fileName already holds the extension |
| SqsKeys.IntendedConsumerKeyMatches | cdk/comparison_data_ingestion/src/main.py:165-166 | the key `{sessionId}/{fileName}` named in the consumer's comment is the uploaded key for every `{session}/{file}` key |
| GetDocuments.RemoveAll | cdk/lambda/getDocumentsFunction/getDocumentsFunction.py:68 | `replace(prefix, '')` never lengthens the key |
| GetDocuments.RemoveAllAbsent | cdk/lambda/getDocumentsFunction/getDocumentsFunction.py:68 | a key without the prefix is kept as it is |
| GetDocuments.StripPrefix | cdk/lambda/getDocumentsFunction/getDocumentsFunction.py:68 | a key that is the prefix followed by a prefix-free name lists as that name |
| GetDocuments.RemoveLeading | cdk/lambda/getDocumentsFunction/getDocumentsFunction.py:68 | an occurrence of the prefix at the front is dropped |
| GetDocuments.KeepLeading | cdk/lambda/getDocumentsFunction/getDocumentsFunction.py:68 | a character that cannot start the prefix is kept |
| GetDocuments.RemovesInnerPrefix | cdk/lambda/getDocumentsFunction/getDocumentsFunction.py:68 | the prefix is removed inside the key too: "c/x/c/y" lists as "x/y" |
| GetDocuments.Requests | cdk/lambda/getDocumentsFunction/getDocumentsFunction.py:56-72 | the first request carries no token, each later one carries the previous answer's NextContinuationToken |
| GetDocuments.RequestsStep | cdk/lambda/getDocumentsFunction/getDocumentsFunction.py:56-72 | one more request carries the previous answer's token, or none when it is the first |
| GetDocuments.ListedStep | cdk/lambda/getDocumentsFunction/getDocumentsFunction.py:66-74 | one page adds its stripped keys, and the listing goes on exactly when the page was truncated |
| GetDocuments.AppendNames | cdk/lambda/getDocumentsFunction/getDocumentsFunction.py:66-68 | the page's stripped keys are appended in order after those already listed |
| GetDocuments.ListDocuments | cdk/lambda/getDocumentsFunction/getDocumentsFunction.py:51-76 | the listing is every page's stripped keys up to the first untruncated page; every request but the last was for a truncated page |
| GetDocuments.Lookup | cdk/lambda/getDocumentsFunction/getDocumentsFunction.py:158 | a name is found exactly when it is a key of the answer |
| GetDocuments.PutNames | cdk/lambda/getDocumentsFunction/getDocumentsFunction.py:158-161 | storing an existing name keeps the key order; a new name is appended |
| GetDocuments.PutLookup | cdk/lambda/getDocumentsFunction/getDocumentsFunction.py:158-161 | after storing, the name holds the new file and every other name keeps its value |
| GetDocuments.PutAllNames | cdk/lambda/getDocumentsFunction/getDocumentsFunction.py:151-161 | after the first n names are stored, the keys are those names once each, in order of first appearance |
| GetDocuments.PutAllLookup | cdk/lambda/getDocumentsFunction/getDocumentsFunction.py:151-161 | after the first n names are stored, each of them holds its own file |
| GetDocuments.FilesStep | cdk/lambda/getDocumentsFunction/getDocumentsFunction.py:151-161 | the next name is stored with its presigned URL under `{category_id}/` and its metadata |
| GetDocuments.FillUrls | cdk/lambda/getDocumentsFunction/getDocumentsFunction.py:90-161 | the loop raises exactly when some listed name's metadata lookup cannot reach the database (`connect_to_db` raises on an unbound local instead of returning None); otherwise it builds the dictionary of every name's URL and metadata, a failed query giving None |
| GetDocuments.FilesNames | cdk/lambda/getDocumentsFunction/getDocumentsFunction.py:151-161 | the answer holds each listed name once, in order of first listing |
| GetDocuments.FilesLookup | cdk/lambda/getDocumentsFunction/getDocumentsFunction.py:153-161 | each listed name holds its presigned URL for `{category}/{name}` and the metadata looked up for it |
| GetDocuments.Handler | cdk/lambda/getDocumentsFunction/getDocumentsFunction.py:125-190 | a missing parameter set raises; an empty category_id gives 400; a failing listing, or any listed document whose metadata lookup cannot reach the database, gives 500 "Internal server error"; else 200 with one entry per listed name |
| GetDocuments.DocumentTypeIsLastPart | cdk/lambda/getDocumentsFunction/getDocumentsFunction.py:154 | the type, defined by dropping characters while a `.` remains, is the text after the last `.` (`split('.')[-1]`) |
| GetDocuments.LookupNameIsFirstPart | cdk/lambda/getDocumentsFunction/getDocumentsFunction.py:157 | the lookup name, the characters before the first `.`, is the first part of `split('.')` |
| GetDocuments.LookupNameBeforeDot | cdk/lambda/getDocumentsFunction/getDocumentsFunction.py:157 | a dot-free text followed by `.` is looked up as that text, whatever follows |
| GetDocuments.DocumentTypeAfterDot | cdk/lambda/getDocumentsFunction/getDocumentsFunction.py:154 | a name ending in `.` and a dot-free extension has that extension as its type, whatever precedes it |
| GetDocuments.FillStep | cdk/lambda/getDocumentsFunction/getDocumentsFunction.py:153-161 | a lookup that raises fails the whole listing; one that answers keeps every lookup answering and stores the name's URL with that metadata |
| GetDocuments.LookupNameMismatch | cdk/lambda/getDocumentsFunction/getDocumentsFunction.py:154-157 | for a name `a.b.ext` of dot-free parts the metadata is looked up under `a` with type `ext`, never under `a.b`, the name ingestion stores |
| GetDocuments.LookupNameOneDot | cdk/lambda/getDocumentsFunction/getDocumentsFunction.py:154-157 | for a name with one dot the lookup name and the type are the two sides of the dot |
| DeleteDocument.ObjectKey | cdk/lambda/deleteDocument/deleteDocument.py:116 | the key is `{category_id}/{document_name}.{document_type}`, two separators longer than its parts |
| DeleteDocument.Handler | cdk/lambda/deleteDocument/deleteDocument.py:83-180 | missing parameters or a type outside the allowlist answer 400 with nothing deleted; the one object is deleted before the row; an S3 failure answers 500 with nothing deleted, a database failure 500 with only the object gone; else 200 after both deletions |
| DeleteDocument.AllowlistMatchesUploadForm | cdk/lambda/deleteDocument/deleteDocument.py:109 | the deletable types are exactly the upload form's accepted extensions without their dot |
| DeleteDocument.AllowedTypesPlain | cdk/lambda/deleteDocument/deleteDocument.py:109 | no allowed type holds a "." or a "/" |
| DeleteDocument.DeletedKeyParsesBack | cdk/lambda/deleteDocument/deleteDocument.py:116 | the deleted key parses back, under ingestion's key parser, into the same category, name and type |
| ChatUtility.FileTypeIsExtension | frontend/src/components/chat/Utility.jsx:1-11 | unless the extension names an inherited member, the type is the lower-cased text after the last "." (the whole name without one) and holds no "." |
| ChatUtility.TypeForCases | frontend/src/components/chat/Utility.jsx:3-10 | the lookup with its fallback to the extension gives the extension itself, except for `constructor` and `__proto__`, which find the members inherited from `Object.prototype` |
| ChatUtility.InheritedFileType | frontend/src/components/chat/Utility.jsx:1-11 | an extension `constructor` or `__proto__` gives the inherited `Object` function or prototype, never a string |
| ChatUtility.ParamText | frontend/src/components/chat/Utility.jsx:22 | `encodeURIComponent` sees a string as itself; the `Object` function as "function Object() { [native code] }" and the prototype as "[object Object]", neither holding a "." |
| ChatUtility.RemoveFileExtensionShape | frontend/src/components/chat/Utility.jsx:13-15 | a name without "." gives ""; otherwise the result is the text before the last "." and rebuilds the name with the extension |
| ChatUtility.Sanitize | frontend/src/components/chat/Utility.jsx:18 | the result has as many characters as the name has UTF-16 code units, all of them in `[a-zA-Z0-9._-]`; inside the Basic Multilingual Plane each safe character is kept in place and each other one becomes "_" |
| ChatUtility.SanitizeChar | frontend/src/components/chat/Utility.jsx:18 | one character's replacement encodes to the unit-wise replacement of its code units |
| ChatUtility.SanitizeUnits | frontend/src/components/chat/Utility.jsx:18 | sanitising a name replaces exactly the code units outside the class by "_", as the pattern without the `u` flag does |
| ChatUtility.SanitizeAstral | frontend/src/components/chat/Utility.jsx:18 | a character outside the Basic Multilingual Plane becomes two "_", one per surrogate ("😀.pdf" gives "__.pdf") |
| ChatUtility.SanitizeIdempotent | frontend/src/components/chat/Utility.jsx:18 | sanitising twice is sanitising once |
| ChatUtility.SanitizeSafe | frontend/src/components/chat/Utility.jsx:18 | a name of safe characters only is unchanged |
| ChatUtility.RequestFor | frontend/src/components/chat/Utility.jsx:17-23 | the presigned-URL request carries the session id it was given |
| ChatUtility.PlainNameParts | frontend/src/components/chat/Utility.jsx:1-15 | a name with one dot and a lower-case extension that names no inherited member splits into the base and the extension |
| ChatUtility.PlainNameRequest | frontend/src/components/chat/Utility.jsx:17-23 | a safe one-dot name whose extension names no inherited member is requested under its base and its extension |
| ChatUtility.InheritedNameRequest | frontend/src/components/chat/Utility.jsx:17-23 | a safe name ending in `.constructor` or `.__proto__` is requested under its base with the inherited member's text as `document_type` |
| ChatUtility.ProcessedFiles | frontend/src/components/chat/Utility.jsx:58-63 | the selected files come first, unchanged |
| ChatUtility.SyllabusAppendedIff | frontend/src/components/chat/Utility.jsx:58-63 | "syllabus.txt" is appended, last, exactly when the pasted text is not blank |
| ChatUtility.SyllabusRequest | frontend/src/components/chat/Utility.jsx:58-63 | the pasted text is requested as type "txt" under the name "syllabus" |
| ChatUtility.UploadPlan | frontend/src/components/chat/Utility.jsx:52-80 | it throws "Files must be less than 25MB" exactly when some file is over 25 MiB; otherwise one request per processed file |
| ChatUtility.FirstHuman | frontend/src/components/chat/Utility.jsx:83 | the index found is that of a human message with none before it; none is found only when no message is human |
| ChatUtility.RoleFromContent | frontend/src/components/chat/Utility.jsx:86-91 | the role is "" or one of the roles the prompt lookup accepts |
| ChatUtility.GetUserRole | frontend/src/components/chat/Utility.jsx:82-92 | "" without a human message, else the role named by the first one |
| ChatUtility.AbsentByFirstChar | frontend/src/components/chat/Utility.jsx:87-90 | a pattern whose first character starts no window does not occur |
| ChatUtility.LowerSlice | frontend/src/components/chat/Utility.jsx:86 | lower-casing commutes with taking a prefix |
| ChatUtility.StartsWithStudent | frontend/src/components/chat/Utility.jsx:87 | a message starting "Student" names the public role |
| ChatUtility.StartsWithEducator | frontend/src/components/chat/Utility.jsx:88-89 | a message starting "Educator" with no "s" early enough to start "student" names the educator role |
| ChatUtility.IsAdmin | frontend/src/components/chat/Utility.jsx:90 | a message that lower-cases to "admin" names the admin role |
| ChatUtility.GreetingChoicesNameRoles | frontend/src/components/chat/Utility.jsx:82-92 | the greeting's three role buttons name public, educator and admin, each a role the prompt lookup accepts |
| CategoryForms.FileTypeShape | frontendAdmin/src/components/categories/Category_creation.jsx:38-45 | the type is the text after the last "." and "" for a name without one |
| CategoryForms.StripExtensionShape | frontendAdmin/src/components/categories/Category_creation.jsx:34-36 | the extension is removed exactly when the text after the last "." is non-empty and has no "/", and then base + "." + extension rebuilds the name |
| CategoryForms.NameRoundTrip | frontendAdmin/src/components/categories/Category_creation.jsx:34-45 | for a name without "/" whose extension is non-empty, the stripped name and the type rebuild it |
| CategoryForms.TrailingDotKept | frontendAdmin/src/components/categories/Category_creation.jsx:34-45 | a name ending in "." keeps the dot in its base and has an empty type |
| CategoryForms.CreationVerdict | frontendAdmin/src/components/categories/Category_creation.jsx:73-93 | a file is kept exactly when its MIME type is allowed and its name is not already listed |
| CategoryForms.EditVerdict | frontendAdmin/src/components/categories/Edit_Category.jsx:53-62 | the edit form keeps a file exactly when its MIME type is allowed |
| CategoryForms.Kept | frontendAdmin/src/components/categories/Category_creation.jsx:74-93 | the filter keeps at most the files it examined |
| CategoryForms.KeptIff | frontendAdmin/src/components/categories/Category_creation.jsx:73-96 | a file is kept exactly when it is in the batch and passes the filter; kept files plus error toasts account for the whole batch |
| CategoryForms.BatchDuplicatesKept | frontendAdmin/src/components/categories/Category_creation.jsx:84-86 | the same acceptable file twice in one batch is listed twice, because names are compared only with the files listed before the batch |
| CategoryForms.SecondBatchRejected | frontendAdmin/src/components/categories/Category_creation.jsx:84-89 | a file added again in a later batch is rejected with "is already uploaded." |
| CategoryForms.WithoutName | frontendAdmin/src/components/categories/Category_creation.jsx:98-100 | the files left are exactly those of another name |
| CategoryForms.WithoutNameAppend | frontendAdmin/src/components/categories/Category_creation.jsx:98-100 | removing by name keeps the order of the remaining files |
| CategoryForms.WithoutAbsentName | frontendAdmin/src/components/categories/Category_creation.jsx:98-100 | removing a name not listed changes nothing |
| CategoryForms.FilterBatch | frontendAdmin/src/components/categories/Category_creation.jsx:73-93 | the loop keeps exactly Kept and shows exactly Rejections, in batch order |
| CategoryForms.PresignFor | frontendAdmin/src/components/categories/Category_creation.jsx:135-144 | the presigned-URL request carries the new category's id |
| CategoryForms.PresignAll | frontendAdmin/src/components/categories/Category_creation.jsx:187-197 | one presigned-URL request per listed file, in list order |
| CategoryForms.CategoryCreation.constructor | frontendAdmin/src/components/categories/Category_creation.jsx:29-32 | a new form has no files, an empty name, no upload running and no toasts |
| CategoryForms.CategoryCreation.SetCategoryName | frontendAdmin/src/components/categories/Category_creation.jsx:32 | only the name changes |
| CategoryForms.CategoryCreation.ValidateAndSetFiles | frontendAdmin/src/components/categories/Category_creation.jsx:73-96 | the kept files are appended to the list and one error toast is shown per rejected file; nothing else changes |
| CategoryForms.CategoryCreation.RemoveFile | frontendAdmin/src/components/categories/Category_creation.jsx:98-100 | every file of that name leaves the list; nothing else changes |
| CategoryForms.CategoryCreation.UploadFiles | frontendAdmin/src/components/categories/Category_creation.jsx:171-217 | nothing happens during an upload; a blank name shows "Category name is required."; otherwise one request per file, a failure toast on error, and then always the success toast, an emptied form and a return to the category list |
| CategoryForms.EditCategory.constructor | frontendAdmin/src/components/categories/Edit_Category.jsx:23 | a new edit form lists no files |
| CategoryForms.EditCategory.ValidateAndSetFiles | frontendAdmin/src/components/categories/Edit_Category.jsx:53-64 | files of an allowed type are appended, with no name check, and one error per rejected file |
| CategoryForms.EditCategory.RemoveFile | frontendAdmin/src/components/categories/Edit_Category.jsx:66-68 | every file of that name leaves the list |
| CategoryForms.EditKeepsDuplicates | frontendAdmin/src/components/categories/Edit_Category.jsx:53-64 | an acceptable file added again is listed twice |
| CategoryForms.EditKeptAllowed | frontendAdmin/src/components/categories/Edit_Category.jsx:53-64 | only files of an allowed type enter the edit form's list |
| SyllabusComparison.Clamp | frontend/src/components/chat/SyllabusComparison.jsx:143-149 | the clamped index lies in `0..len` and an index already in range is kept |
| SyllabusComparison.Substring | frontend/src/components/chat/SyllabusComparison.jsx:143-149 | JavaScript `substring` on code units: never longer than the text, a plain slice for ordered in-range ends, empty when both ends are at or below 0 |
| SyllabusComparison.FormatFileName | frontend/src/components/chat/SyllabusComparison.jsx:139-140 | a name within the limit, counted in UTF-16 code units, is shown unchanged |
| SyllabusComparison.FormatFileNameShape | frontend/src/components/chat/SyllabusComparison.jsx:139-153 | a long name without a dot is its first maxLength code units and "..."; with a dot it is a prefix of the base, "..." and the extension from the last dot on |
| SyllabusComparison.ShortBaseLengthens | frontend/src/components/chat/SyllabusComparison.jsx:145-152 | a long name whose base fits is shown three code units longer than it is |
| SyllabusComparison.LongBaseFits | frontend/src/components/chat/SyllabusComparison.jsx:148-149 | a cut base gives maxLength code units plus the extension |
| SyllabusComparison.AstralNameCut | frontend/src/components/chat/SyllabusComparison.jsx:139-142 | a 30-character name with one character outside the Basic Multilingual Plane has 31 code units and is cut at the default limit of 30 |
| SyllabusComparison.LeadingWordLength | frontend/src/components/chat/SyllabusComparison.jsx:102 | the front run holds no whitespace and is followed by whitespace or the end |
| SyllabusComparison.Tokens | frontend/src/components/chat/SyllabusComparison.jsx:102 | every word is non-empty and free of whitespace |
| SyllabusComparison.LeadingWordOf | frontend/src/components/chat/SyllabusComparison.jsx:102 | a word followed by whitespace or nothing is the front run |
| SyllabusComparison.TokensOfJoin | frontend/src/components/chat/SyllabusComparison.jsx:102-110 | words joined by single spaces split back into the same words |
| SyllabusComparison.WordsOfJoin | frontend/src/components/chat/SyllabusComparison.jsx:102-110 | the truncated text has exactly the words it was cut to |
| SyllabusComparison.JoinEnds | frontend/src/components/chat/SyllabusComparison.jsx:102-110 | a join of words starts with the first word's first character and ends with the last word's last, so trimming leaves it unchanged |
| SyllabusComparison.SyllabusComparisonModal.constructor | frontend/src/components/chat/SyllabusComparison.jsx:27-31 | the dialog opens on the text tab with no files, a zero word count and nothing shown or called |
| SyllabusComparison.SyllabusComparisonModal.HandleCriteriaChange | frontend/src/components/chat/SyllabusComparison.jsx:61-68 | a ticked criterion is appended, an unticked one removed everywhere; nothing else changes |
| SyllabusComparison.SyllabusComparisonModal.SelectTab | frontend/src/components/chat/SyllabusComparison.jsx:70-76 | switching to the text tab clears the files, switching to the files tab clears the text |
| SyllabusComparison.SyllabusComparisonModal.HandleFileChange | frontend/src/components/chat/SyllabusComparison.jsx:78-90 | any file over 25 MiB rejects the whole selection with a toast; otherwise the selection replaces the files and the files tab opens |
| SyllabusComparison.SyllabusComparisonModal.RemoveFile | frontend/src/components/chat/SyllabusComparison.jsx:96-98 | only the file at that index goes |
| SyllabusComparison.SyllabusComparisonModal.HandleTextChange | frontend/src/components/chat/SyllabusComparison.jsx:100-115 | text of at most 2000 words is kept as typed with its count; longer text is cut to its first 2000 words joined by spaces, with a toast |
| SyllabusComparison.SyllabusComparisonModal.HandleSubmit | frontend/src/components/chat/SyllabusComparison.jsx:117-136 | no criteria, blank text on the text tab, or no files on the files tab each stop with their error; otherwise the dialog closes and then submits |
| SyllabusComparison.TickUntickRestores | frontend/src/components/chat/SyllabusComparison.jsx:61-68 | ticking an unselected criterion and unticking it restores the selection |
| SyllabusComparison.TruncationStable | frontend/src/components/chat/SyllabusComparison.jsx:100-115 | entering the cut text again keeps it: it has exactly 2000 words |
| GuidelinesEditor.KeepNonBlank | frontendAdmin/src/components/guidelines/Guidelines.jsx:35 | the points kept are points of the input that are not blank, never more of them |
| GuidelinesEditor.PointsOf | frontendAdmin/src/components/guidelines/Guidelines.jsx:35 | every point read back is non-blank and holds no line break |
| GuidelinesEditor.FormatAll | frontendAdmin/src/components/guidelines/Guidelines.jsx:33-36 | one guideline per stored row, in order, with the header kept and the body's non-blank lines as points |
| GuidelinesEditor.KeepNonBlankAll | frontendAdmin/src/components/guidelines/Guidelines.jsx:35 | points that are all non-blank are kept as they are |
| GuidelinesEditor.PointsOfBody | frontendAdmin/src/components/guidelines/Guidelines.jsx:88 | non-blank points without line breaks come back unchanged from the body saved for them |
| GuidelinesEditor.PointsOfIdempotent | frontendAdmin/src/components/guidelines/Guidelines.jsx:33-36 | reading back a saved body is a normal form: saving and reading again changes nothing |
| GuidelinesEditor.SaveRequests | frontendAdmin/src/components/guidelines/Guidelines.jsx:67-93 | the DELETE comes first, then one POST per guideline with its header and its points joined by line breaks |
| GuidelinesEditor.StoredPosts | frontendAdmin/src/components/guidelines/Guidelines.jsx:72-93 | after the DELETE and the first n POSTs to arrive, the store holds the rows of the first n guidelines in arrival order |
| GuidelinesEditor.StoredAfterPost | frontendAdmin/src/components/guidelines/Guidelines.jsx:80-91 | a POST at the end adds its row after what the earlier requests left |
| GuidelinesEditor.HoldsNone | frontendAdmin/src/components/guidelines/Guidelines.jsx:72-78 | the DELETE alone leaves the store empty |
| GuidelinesEditor.HoldsNext | frontendAdmin/src/components/guidelines/Guidelines.jsx:72-93 | each further POST to arrive adds its guideline's row at the end |
| GuidelinesEditor.SaveInOrderThenFetch | frontendAdmin/src/components/guidelines/Guidelines.jsx:17-99 | when the POSTs arrive in a given order, fetching gives the guidelines back in that order, provided every point is non-blank and has no line break |
| GuidelinesEditor.SaveThenFetch | frontendAdmin/src/components/guidelines/Guidelines.jsx:17-99 | with the POSTs of `Promise.all` arriving in any order, fetching gives the guidelines back in arrival order, so the same guidelines as often as saved (same multiset), provided every point is non-blank and has no line break |
| GuidelinesEditor.SwappedArrival | frontendAdmin/src/components/guidelines/Guidelines.jsx:80-93 | two different guidelines whose POSTs arrive swapped come back swapped, so the local order is not kept |
| GuidelinesEditor.GuidelinesPage.constructor | frontendAdmin/src/components/guidelines/Guidelines.jsx:10-15 | the page starts with no guidelines, an empty form and no editing index |
| GuidelinesEditor.GuidelinesPage.Fetched | frontendAdmin/src/components/guidelines/Guidelines.jsx:31-38 | an OK answer replaces the list with the formatted rows; a failed one changes nothing |
| GuidelinesEditor.GuidelinesPage.HandleHeaderChange | frontendAdmin/src/components/guidelines/Guidelines.jsx:48-50 | only the form's header changes |
| GuidelinesEditor.GuidelinesPage.HandlePointChange | frontendAdmin/src/components/guidelines/Guidelines.jsx:52-56 | only the point at that index changes |
| GuidelinesEditor.GuidelinesPage.AddPoint | frontendAdmin/src/components/guidelines/Guidelines.jsx:58-60 | an empty point is appended to the form |
| GuidelinesEditor.GuidelinesPage.RemovePoint | frontendAdmin/src/components/guidelines/Guidelines.jsx:62-65 | only the point at that index goes |
| GuidelinesEditor.GuidelinesPage.AddGuideline | frontendAdmin/src/components/guidelines/Guidelines.jsx:101-114 | a blank header changes nothing; otherwise the form replaces the guideline at the editing index or is appended, and the form resets |
| GuidelinesEditor.GuidelinesPage.EditGuideline | frontendAdmin/src/components/guidelines/Guidelines.jsx:116-119 | the guideline at that index is loaded into the form and its index remembered |
| GuidelinesEditor.GuidelinesPage.RemoveGuideline | frontendAdmin/src/components/guidelines/Guidelines.jsx:121-124 | only the guideline at that index goes; the editing index is kept as it was |
| GuidelinesEditor.GuidelinesPage.SaveGuidelines | frontendAdmin/src/components/guidelines/Guidelines.jsx:67-99 | the requests sent are the DELETE followed by one POST per local guideline in list order (`SaveRequests`), and the local list is not changed |
| GuidelinesEditor.StaleIndexAfterRemoval | frontendAdmin/src/components/guidelines/Guidelines.jsx:101-124 | removing a guideline before the one being edited leaves a stale index: the update overwrites the successor, or nothing when the edited one was last |
| AdminFeedback.RoleIndex | frontendAdmin/src/components/feedback/Feedback.jsx:198-204 | `indexOf` gives the role's position in the role order, and -1 exactly for a role outside it |
| AdminFeedback.SortDetails | frontendAdmin/src/components/feedback/Feedback.jsx:206-217 | a group keeps its role and whether it has an entry list, and its entries are a permutation of the ones received |
| AdminFeedback.SortAllDetails | frontendAdmin/src/components/feedback/Feedback.jsx:206-218 | every group is sorted on its own, in place |
| AdminFeedback.SortFeedback | frontendAdmin/src/components/feedback/Feedback.jsx:200-218 | the number of groups is kept |
| AdminFeedback.GroupedRoles | frontendAdmin/src/components/feedback/Feedback.jsx:202-204 | the stable sort by role index puts unknown roles first, then public, educator and admin |
| AdminFeedback.SortAllDetailsAppend | frontendAdmin/src/components/feedback/Feedback.jsx:206-218 | sorting each group distributes over concatenation |
| AdminFeedback.SortFeedbackOrder | frontendAdmin/src/components/feedback/Feedback.jsx:200-218 | the result is the groups of unknown, public, educator and admin roles, each in received order and each with its entries sorted |
| AdminFeedback.SortDetailsNewestFirst | frontendAdmin/src/components/feedback/Feedback.jsx:213-215 | entries are newest first, and entries with the same time keep the server's order |
| AdminFeedback.DetailsNewestFirst | frontendAdmin/src/components/feedback/Feedback.jsx:213-215 | a group's sorted entries are newest first |
| AdminFeedback.RatingBadgeBands | frontendAdmin/src/components/feedback/Feedback.jsx:157-162 | the badge is green from 4 up, yellow at 3, red below 3, and a higher rating never gets a worse badge |
| AdminFeedback.DescriptionText | frontendAdmin/src/components/feedback/Feedback.jsx:171-174 | the text shown is never "" or "null", and anything but "None" is the description sent |
| AdminFeedback.DescriptionShownIff | frontendAdmin/src/components/feedback/Feedback.jsx:171-174 | the description is shown as sent exactly when it is present, non-empty and not "null" |
| AdminFeedback.RoleLabel | frontendAdmin/src/components/feedback/Feedback.jsx:83-94 | an unknown role is shown as itself |
| AdminFeedback.RoleLabelIff | frontendAdmin/src/components/feedback/Feedback.jsx:83-94 | a role is shown as itself exactly when it is not a known role, and the three known labels differ |
| AdminFeedback.ClickFirstGroup | frontendAdmin/src/components/feedback/Feedback.jsx:253-266 | a click selects the role of the first group holding the session, after only groups that have entry lists without it; nothing is found exactly when every group has an entry list without the session |
| AdminFeedback.FeedbackPage.constructor | frontendAdmin/src/components/feedback/Feedback.jsx:193-195 | the page starts loading, with no data and no session selected |
| AdminFeedback.FeedbackPage.Loaded | frontendAdmin/src/components/feedback/Feedback.jsx:221-247 | a successful answer is sorted and stored; loading ends either way |
| AdminFeedback.FeedbackPage.HandleSessionClick | frontendAdmin/src/components/feedback/Feedback.jsx:253-266 | the click selects the session under ClickFrom's role, throws on a group without an entry list, and changes nothing else |
| AdminFeedback.FeedbackPage.Back | frontendAdmin/src/components/feedback/Feedback.jsx:277 | the session view is left; nothing else changes |
| AdminFeedback.FeedbackPage.CurrentView | frontendAdmin/src/components/feedback/Feedback.jsx:269-298 | the groups are shown only when loading is over, no session is selected and there is data |
| ChatFeedback.Toggle | frontend/src/components/chat/Feedback.jsx:21-28 | clicking a selected option removes it, an unselected one is appended, and every other option keeps its selection |
| ChatFeedback.ToggleTwice | frontend/src/components/chat/Feedback.jsx:21-28 | clicking an unselected option twice restores the selection; clicking a selected one drops every copy of it |
| ChatFeedback.ShownRating | frontend/src/components/chat/Feedback.jsx:64 | the hover preview is shown unless it is 0, then the rating |
| ChatFeedback.HighlightedPrefix | frontend/src/components/chat/Feedback.jsx:52-70 | the highlighted stars are a prefix: exactly the first ShownRating stars |
| ChatFeedback.RatingLabelIff | frontend/src/components/chat/Feedback.jsx:75-79 | "Not Good" exactly at 0, "Great" exactly at 5, and no label otherwise |
| ChatFeedback.FeedbackCard.constructor | frontend/src/components/chat/Feedback.jsx:13 | the card starts with no hover preview and the chat page's feedback |
| ChatFeedback.FeedbackCard.HandleOptionClick | frontend/src/components/chat/Feedback.jsx:21-28 | the description is toggled for that option; rating and hover stay |
| ChatFeedback.FeedbackCard.ClickStar | frontend/src/components/chat/Feedback.jsx:55-57 | star k sets the rating to k + 1, and the improvement options show exactly for the first four stars |
| ChatFeedback.FeedbackCard.EnterStar | frontend/src/components/chat/Feedback.jsx:58 | hovering star k previews k + 1 |
| ChatFeedback.FeedbackCard.LeaveStar | frontend/src/components/chat/Feedback.jsx:59 | leaving the stars ends the preview, so exactly the first `rating` stars are highlighted |
| HistoryView.SortSessions | frontendAdmin/src/components/history/History.jsx:137-140 | the sorted list is a permutation of the one fetched |
| HistoryView.SortSessionsNewestFirst | frontendAdmin/src/components/history/History.jsx:137-140 | every list is newest first, and sessions with the same time keep the listing's order |
| HistoryView.EscapeChar | frontendAdmin/src/components/history/History.jsx:207 | an escaped character is never empty and holds a comma exactly when it is a comma |
| HistoryView.Escape | frontendAdmin/src/components/history/History.jsx:207 | escaping never shortens the text |
| HistoryView.CountEscape | frontendAdmin/src/components/history/History.jsx:207 | escaping keeps the number of commas |
| HistoryView.InnerCommasOfFields | frontendAdmin/src/components/history/History.jsx:202-209 | the commas inside a row's values are those of its session id, role, type and content only (options and timestamp included) |
| HistoryView.CountJoinCommas | frontendAdmin/src/components/history/History.jsx:219 | a comma-joined line holds its parts' commas plus one between each two parts |
| HistoryView.OptionsCommas | frontendAdmin/src/components/history/History.jsx:207 | the JSON text of k options holds at least k - 1 commas |
| HistoryView.HeaderShape | frontendAdmin/src/components/history/History.jsx:217 | the header line splits into the six key names and holds no line break |
| HistoryView.Fields | frontendAdmin/src/components/history/History.jsx:202-209 | a row has exactly the header's six values |
| HistoryView.SessionRows | frontendAdmin/src/components/history/History.jsx:201-210 | one row per message of the session, in message order |
| HistoryView.RowsOfStep | frontendAdmin/src/components/history/History.jsx:174-214 | each session adds its rows after those of the sessions before it |
| HistoryView.HistoryPage.GatherRows | frontendAdmin/src/components/history/History.jsx:174-214 | the session loop gathers every session's rows in session order, none for a session whose fetch failed |
| HistoryView.RowsOfAppend | frontendAdmin/src/components/history/History.jsx:167-214 | the rows of two session lists are the first list's rows, then the second's |
| HistoryView.RowsOfOne | frontendAdmin/src/components/history/History.jsx:174-213 | a session adds one row per fetched message, and none when its fetch failed |
| HistoryView.RowFields | frontendAdmin/src/components/history/History.jsx:202-219 | a row line splits into six fields plus one per comma in the options text, so two or more options shift the columns |
| HistoryView.CsvLines | frontendAdmin/src/components/history/History.jsx:216-219 | with no line break in any value, the file's lines are the header and then one line per row |
| HistoryView.HistoryPage.constructor | frontendAdmin/src/components/history/History.jsx:104-109 | the page starts loading, with three empty lists, no session and no download |
| HistoryView.HistoryPage.SessionsLoaded | frontendAdmin/src/components/history/History.jsx:112-147 | a fetched list is stored newest first under its role, a failed one as empty, and loading ends |
| HistoryView.HistoryPage.AppendSessionRows | frontendAdmin/src/components/history/History.jsx:201-210 | the session's rows are appended in message order |
| HistoryView.HistoryPage.HandleDownloadAllData | frontendAdmin/src/components/history/History.jsx:165-229 | the file offered holds the rows of the public, educator and admin sessions in order; with no row at all it throws and stays in its loading state |
| HistoryView.HistoryPage.HandleSessionClick | frontendAdmin/src/components/history/History.jsx:231-233 | the session is selected with its own role when it carries one, else the view's role |
| HistoryView.HistoryPage.Back | frontendAdmin/src/components/history/History.jsx:239 | the session view is left; nothing else changes |
| HistoryView.DownloadRoleOrder | frontendAdmin/src/components/history/History.jsx:167-171 | the download holds the public sessions' rows, then the educators', then the admins' |
| Text.JsLength | frontendAdmin/src/components/auth/SignUp.jsx:34 | a JavaScript length counts each character once, or twice outside the Basic Multilingual Plane |
| Text.Utf16 | frontend/src/components/chat/SyllabusComparison.jsx:139 | the code units of a JavaScript string are as many as its `length` |
| Text.Utf16Char | frontend/src/components/chat/SyllabusComparison.jsx:139 | a character of the Basic Multilingual Plane is one code unit, any other a high and a low surrogate |
| AuthForms.ValidatePassword | frontendAdmin/src/components/auth/SignUp.jsx:32-55 | any message returned is one of the four rule messages |
| AuthForms.ValidatePasswordMatchesPolicy | cdk/lib/api-gateway-helpers/cognito.ts:23-29 | a password passes the sign-up form exactly when the user pool's policy accepts it (8 characters, lower, upper, digit, no symbol required) |
| AuthForms.ValidatePasswordFirstBroken | frontendAdmin/src/components/auth/SignUp.jsx:32-55 | the message reported is that of a rule the password breaks, with every earlier rule kept; no message means no rule is broken |
| AuthForms.SignUpCheck | frontendAdmin/src/components/auth/SignUp.jsx:61-104 | a sign-up that passes the checks has an address, matching passwords and a password the policy accepts |
| AuthForms.SignUpForm.constructor | frontendAdmin/src/components/auth/SignUp.jsx:20-30 | the form starts with the page's fields, not loading, with nothing shown or sent |
| AuthForms.SignUpForm.HandleSubmit | frontendAdmin/src/components/auth/SignUp.jsx:57-137 | a failed check shows its message and sends nothing; otherwise the sign-up is sent with the lower-cased address as user name; an error or a confirmation step ends loading, the confirmation step opening the confirmation view |
| AuthForms.ResetCheck | frontendAdmin/src/components/auth/PasswordReset.jsx:18-60 | a reset that passes the checks has a code, matching passwords and at least 8 characters |
| AuthForms.ResetCheckWeakerThanPolicy | frontendAdmin/src/components/auth/PasswordReset.jsx:48 | with a code, any all-lower-case password of at least 8 letters passes the reset form, while the sign-up form and the user pool reject it for lacking an upper-case letter |
| AuthForms.SignUpRulesImplyResetRules | frontendAdmin/src/components/auth/PasswordReset.jsx:18-60 | every password the sign-up form lets through passes the reset form's checks too |
| AuthForms.PasswordResetForm.constructor | frontendAdmin/src/components/auth/PasswordReset.jsx:11-13 | the form starts with empty fields, not loading, with nothing shown or sent |
| AuthForms.PasswordResetForm.HandleSubmit | frontendAdmin/src/components/auth/PasswordReset.jsx:15-92 | a failed check shows its message and sends nothing; otherwise the reset is sent, its success or error shown, and loading ends |
| Lists.RemoveAt | frontendAdmin/src/components/guidelines/Guidelines.jsx:62-65 | the element at an index in range goes and the others keep their order; an index out of range changes nothing |
| Lists.ReplaceAt | frontendAdmin/src/components/guidelines/Guidelines.jsx:104-109 | only the element at the index is replaced, and an index out of range changes nothing |
| Lists.Without | frontend/src/components/chat/SyllabusComparison.jsx:66 | every occurrence of the value goes, every other element stays, and nothing is added |
| Lists.WithoutAbsent | frontend/src/components/chat/SyllabusComparison.jsx:66 | a list without the value is unchanged |
| Lists.WithoutAppend | frontend/src/components/chat/SyllabusComparison.jsx:66 | removal keeps the order of the remaining elements |
| Lists.AppendThenWithout | frontend/src/components/chat/SyllabusComparison.jsx:61-68 | appending an absent value and removing it restores the list |
| Sorting.Insert | frontendAdmin/src/components/feedback/Feedback.jsx:213-215 | inserting adds exactly one element, keeping the rest |
| Sorting.SortBy | frontendAdmin/src/components/feedback/Feedback.jsx:202-204 | the sort is a permutation of its input |
| Sorting.WithKey | frontendAdmin/src/components/feedback/Feedback.jsx:202-204 | the elements picked all carry the key asked for |
| Sorting.InsertSorted | frontendAdmin/src/components/feedback/Feedback.jsx:213-215 | inserting into an ordered list keeps it ordered |
| Sorting.SortedCons | frontendAdmin/src/components/feedback/Feedback.jsx:213-215 | an element whose key bounds an ordered list from below keeps it ordered in front |
| Sorting.WithKeyInsert | frontendAdmin/src/components/feedback/Feedback.jsx:213-215 | an inserted element goes in front of every element of its key already there |
| Sorting.SortBySorted | frontendAdmin/src/components/history/History.jsx:137-140 | the sorted list is ordered by key |
| Sorting.SortByStable | frontendAdmin/src/components/history/History.jsx:137-140 | the sort is stable: elements with the same key keep their order |
| Sorting.WithKeyNone | frontendAdmin/src/components/feedback/Feedback.jsx:202-204 | a list with no element of that key yields none |
| Sorting.GroupedSkip | frontendAdmin/src/components/feedback/Feedback.jsx:202-204 | an element below every group's key joins none |
| Sorting.GroupedCons | frontendAdmin/src/components/feedback/Feedback.jsx:202-204 | the smallest element in range comes first |
| Sorting.GroupedHead | frontendAdmin/src/components/feedback/Feedback.jsx:202-204 | the first element, carrying the first group's key, leads the groups |
| Sorting.SortedIsGrouped | frontendAdmin/src/components/feedback/Feedback.jsx:202-204 | an ordered list with keys in range is its groups laid end to end |
| Sorting.GroupedEmpty | frontendAdmin/src/components/feedback/Feedback.jsx:202-204 | an empty list has empty groups |
| Sorting.GroupedSortBy | frontendAdmin/src/components/feedback/Feedback.jsx:202-204 | sorting keeps every group |
| Sorting.GroupedSameGroups | frontendAdmin/src/components/feedback/Feedback.jsx:202-204 | lists with the same elements for every key have the same groups |
| Sorting.SortByIsGrouped | frontendAdmin/src/components/feedback/Feedback.jsx:202-204 | with keys in range, the stable sort is the groups laid end to end in key order, each in its original order |

## Left out

- Secrets Manager, SSM parameters, database connections and their caching are not modelled; where a handler answers a failed connection, the failure is an input. Query results, S3 pages, DynamoDB items and guardrail answers are inputs of the handlers instead.
- The language model, embeddings, vector stores (PGVector and `index`), guardrail creation and `apply_guardrail` are foreign calls. Their answers are inputs; guardrail verdicts come with each page.
- `get_guardrails` in `cdk/text_generation/src/helpers/chat.py` is not modelled: it calls a client that module never defines.
- The retry-until-non-empty loop of `get_response` is not modelled, because it only means something with a real model.
- MD5 digests, UUIDs, JSON encoding and decoding, `decodeURIComponent` and presigned URLs are opaque. They are given as inputs: a digest is represented by the body it is computed from, a UUID by a given string, a decoder by a partial function.
- SqsKeys.Handler: takes the queue client's error message for a refused key as a parameter, `sendError`, because the SDK's texts are not part of this model. The decoder's message is the "URI malformed" text of the Node.js runtime.
- ChatUtility.ParamText: renders the inherited `constructor` as `function Object() { [native code] }`, the Node.js and browser text. The language standard only fixes the native-function shape of that text.
- Dates are given as integers: `feedback_time` and `last_message_time` as milliseconds. `formatDate`, `toLocaleString` and `safe_parse_timestamp` are left out because they depend on library parsing and on the locale.
- Text.Lower: lower-cases ASCII letters only. Python's `str.lower` and JavaScript's `toLowerCase` also fold other letters, which no modelled input depends on.
- ComparisonChat.GetResponseEvaluation: takes the guidelines already decoded. The JSON-string input the generator also accepts is left to the opaque decoder.
- TextGeneration.UserQuery: gives no query for a `message_content` that is not a string, because Python's `str` rendering of other JSON values is not modelled.
- TextGeneration.Handler: does not state the "LLM failed to create response" default, because `TurnCodec.GetLlmOutput` always supplies the content key.
- ComparisonIngestion.ProcessFile: stops with the blocking page's assessments. `ProcessDocuments` turns them into the message after the page loop has stopped, not inside it. The computation is pure, so the message returned and the objects deleted are the same.
- GuidelinesEditor.SaveThenFetch: takes the fetch to list the rows in the order they were stored. The SQL of the administrator's guidelines endpoint is not part of this model.
- Concurrent uploads (`Promise.all`) and React's state batching are modelled as sequential updates. The upload plan states one request per file and no order between the uploads.
- The guidelines fetch of the syllabus-comparison dialog and its loading flag are not modelled, because they are network calls with no effect on the dialog's checks.
- Infrastructure definitions under `cdk/lib` and `cdk/bin` are not modelled, except the password policy that `AuthForms` compares with.
- Route handlers whose logic is SQL text or network calls are not modelled: the admin and user functions, first-message, chat-logs, initializer, authorizer and event-notification Lambdas.
- `helpers/helper.py`, `helpers/vectorstore.py` and the unreferenced `cdk/dummy/edited1.py` draft are not part of this model.

## Findings

| source | as written | input that shows it | evidently intended | confidence | as-written member | corrected member |
|---|---|---|---|---|---|---|
| cdk/comparison_data_ingestion/src/main.py:166 | the consumer deletes `{sessionId}/{fileName}.{fileExtension}`, but the forwarder's `fileName` already ends with its extension | upload key `s/a.pdf` gives the message fileName `a.pdf` and extension `pdf`, so the key deleted is `s/a.pdf.pdf`, not the uploaded `s/a.pdf` | `{sessionId}/{fileName}`, the key the comment on line 165 names | high; not executed | SqsKeys.ConsumerKeyDiffers | SqsKeys.IntendedConsumerKeyMatches |
| cdk/text_generation/src/main.py:12 | the module imports `get_user_query` and `get_initial_user_query` from `helpers.chat`, which defines neither | any invocation: loading the module raises ImportError before `handler` runs | import `get_student_query` and `get_initial_student_query`, the template functions `helpers/chat.py` defines at lines 139 and 156 | high; not executed | TextGeneration.ImportAsWrittenFails | TextGeneration.IntendedImportSucceeds |
| cdk/comparison_text_generation/src/main.py:275 | the handler calls `get_bedrock_llm(bedrock_llm_id=BEDROCK_LLM_ID, enable_guardrails=True)`, but the helper in `helpers/chat.py:19` takes only `bedrock_llm_id` and `temperature` | any configured request: the call raises TypeError, which the handler answers with 500 "Error getting LLM from Bedrock" | `get_bedrock_llm(BEDROCK_LLM_ID)`, the call `cdk/text_generation/src/main.py:656` makes; the retriever call at lines 291-295 does not bind either (`ComparisonHandler.RetrieverCallRejected`) | high; not executed | ComparisonHandler.LlmCallRejected | ComparisonHandler.IntendedLlmCallBinds |
