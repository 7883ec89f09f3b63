/**
 * Ingestion of the documents a user uploads for a comparison: the guardrail lookup, the listing
 * of the session's objects, the page-by-page guardrail check and what is stored and deleted.
 * S3, the guardrail service and the vector store are inputs; the guardrail's verdict on a
 * page is given with the page.
 */
module ComparisonIngestion {
  import opened Common
  import opened Text

  // ---------------------------------------------------------------------------------------------
  // setup_guardrail
  // ---------------------------------------------------------------------------------------------

  /** A guardrail as `list_guardrails` lists it: its name, id and (possibly absent) version. */
  datatype Guardrail = Guardrail(name: string, id: string, version: Option<string>)

  /** The last of the first `n` listed guardrails carrying `name`, as the loop that overwrites finds it. */
  function LastNamed(listed: seq<Guardrail>, name: string, n: nat): (r: Option<nat>)
    requires n <= |listed|
    ensures r.Some? ==> r.value < n && listed[r.value].name == name
    ensures r.Some? ==> forall j :: r.value < j < n ==> listed[j].name != name
    ensures r.None? ==> forall j :: 0 <= j < n ==> listed[j].name != name
    decreases n
  {
    if n == 0 then None
    else if listed[n - 1].name == name then Some(n - 1)
    else LastNamed(listed, name, n - 1)
  }

  /**
   * `setup_guardrail`: the id and version of the last listed guardrail with the name, or, when none
   * has it, those of a newly created and published one (`created`, from the service). The listing
   * is all pages of `list_guardrails` in order.
   */
  method SetupGuardrail(guardrailName: string, listed: seq<Guardrail>, created: (string, string))
    returns (guardrailId: Option<string>, guardrailVersion: Option<string>, creates: bool)
    ensures creates <==> forall j :: 0 <= j < |listed| ==> listed[j].name != guardrailName
    ensures creates ==> guardrailId == Some(created.0) && guardrailVersion == Some(created.1)
    ensures !creates ==> exists i :: 0 <= i < |listed| && listed[i].name == guardrailName
                           && (forall j :: i < j < |listed| ==> listed[j].name != guardrailName)
                           && guardrailId == Some(listed[i].id) && guardrailVersion == listed[i].version
  {
    var guardrailNameExists := false;
    guardrailId := None;
    guardrailVersion := None;
    var i := 0;
    while i < |listed|
      invariant i <= |listed|
      invariant guardrailNameExists <==> LastNamed(listed, guardrailName, i).Some?
      invariant guardrailNameExists ==> guardrailId == Some(listed[LastNamed(listed, guardrailName, i).value].id)
                                        && guardrailVersion == listed[LastNamed(listed, guardrailName, i).value].version
    {
      if listed[i].name == guardrailName {
        guardrailId := Some(listed[i].id);
        guardrailVersion := listed[i].version;
        guardrailNameExists := true;
      }
      i := i + 1;
    }
    creates := !guardrailNameExists;
    if creates {
      guardrailId := Some(created.0);
      guardrailVersion := Some(created.1);
    } else {
      var k := LastNamed(listed, guardrailName, |listed|).value;
      assert listed[k].name == guardrailName;
    }
  }

  // ---------------------------------------------------------------------------------------------
  // The verdict message
  // ---------------------------------------------------------------------------------------------

  /** A topic of a topic-policy assessment (its `name` and `action`, either possibly absent). */
  datatype Topic = Topic(name: Option<string>, action: Option<string>)

  /** One assessment: its topic list when `topicPolicy` is present, its PII actions when `sensitiveInformationPolicy` is. */
  datatype Assessment = Assessment(topics: Option<seq<Topic>>, piiActions: Option<seq<Option<string>>>)

  /** The guardrail's answer for one page: its `action` and its assessments. */
  datatype GuardrailResponse = GuardrailResponse(action: Option<string>, assessments: seq<Assessment>)

  const FinancialAdvice := "Sorry, I cannot process your document(s) because I've detected financial advice in them."
  const OffensiveContent := "Sorry, I cannot process your document(s) because I've detected offensive content in them."
  const SensitiveInformation := "Sorry, I cannot process your document(s) because I've detected sensitive (personally identifiable) information in them."
  const RestrictedContent := "Sorry, I cannot process your document(s) due to restricted content."
  const Success := "SUCCESS"

  predicate Intervened(response: GuardrailResponse)
  {
    response.action == Some("GUARDRAIL_INTERVENED")
  }

  /** The message of the first blocked financial-advice or offensive-content topic from index `j` on. */
  function TopicHit(topics: seq<Topic>, j: nat): (r: Option<string>)
    requires j <= |topics|
    ensures r.Some? ==> r.value == FinancialAdvice || r.value == OffensiveContent
    decreases |topics| - j
  {
    if j == |topics| then None
    else if topics[j].name == Some("FinancialAdvice") && topics[j].action == Some("BLOCKED") then Some(FinancialAdvice)
    else if topics[j].name == Some("OffensiveContent") && topics[j].action == Some("BLOCKED") then Some(OffensiveContent)
    else TopicHit(topics, j + 1)
  }

  /** Some PII entity from index `j` on was blocked or anonymised. */
  predicate PiiHit(actions: seq<Option<string>>, j: nat)
    requires j <= |actions|
    decreases |actions| - j
  {
    j < |actions| && (actions[j] == Some("BLOCKED") || actions[j] == Some("ANONYMIZED") || PiiHit(actions, j + 1))
  }

  /** What one assessment decides: a topic hit first, then a PII hit, otherwise nothing. */
  function AssessmentHit(a: Assessment): (r: Option<string>)
  {
    if a.topics.Some? && TopicHit(a.topics.value, 0).Some? then TopicHit(a.topics.value, 0)
    else if a.piiActions.Some? && PiiHit(a.piiActions.value, 0) then Some(SensitiveInformation)
    else None
  }

  /** The decision of the first assessment from index `i` on that decides anything. */
  function FirstHit(assessments: seq<Assessment>, i: nat): (r: Option<string>)
    requires i <= |assessments|
    decreases |assessments| - i
  {
    if i == |assessments| then None
    else if AssessmentHit(assessments[i]).Some? then AssessmentHit(assessments[i])
    else FirstHit(assessments, i + 1)
  }

  /** The message for an intervention: the first decided one, or the generic restricted-content one. */
  function VerdictMessage(assessments: seq<Assessment>): string
  {
    VerdictAt(assessments, 1)
  }

  /**
   * The body of `VerdictMessage`, reached through one level of recursion on `depth` so that the
   * prover unfolds the assessment scan only where a proof asks for it (with `VerdictDef`).
   */
  function VerdictAt(assessments: seq<Assessment>, depth: nat): string
    decreases depth
  {
    if depth > 0 then VerdictAt(assessments, depth - 1) else FirstHit(assessments, 0).GetOr(RestrictedContent)
  }

  lemma VerdictDef(assessments: seq<Assessment>)
    ensures VerdictMessage(assessments) == FirstHit(assessments, 0).GetOr(RestrictedContent)
  {
    assert VerdictAt(assessments, 1) == VerdictAt(assessments, 0);
  }

  /** The inner topic loop, stopped by its `break`. */
  method ScanTopics(topics: seq<Topic>) returns (errorMessage: Option<string>)
    ensures errorMessage == TopicHit(topics, 0)
  {
    errorMessage := None;
    var j := 0;
    while j < |topics|
      invariant j <= |topics|
      invariant errorMessage.None? && TopicHit(topics, 0) == TopicHit(topics, j)
    {
      var topic := topics[j];
      if topic.name == Some("FinancialAdvice") && topic.action == Some("BLOCKED") {
        errorMessage := Some(FinancialAdvice);
        return;
      } else if topic.name == Some("OffensiveContent") && topic.action == Some("BLOCKED") {
        errorMessage := Some(OffensiveContent);
        return;
      }
      j := j + 1;
    }
  }

  /** The inner PII loop, stopped by its `break`. */
  method ScanPii(actions: seq<Option<string>>) returns (errorMessage: Option<string>)
    ensures errorMessage.Some? <==> PiiHit(actions, 0)
    ensures errorMessage.Some? ==> errorMessage.value == SensitiveInformation
  {
    errorMessage := None;
    var j := 0;
    while j < |actions|
      invariant j <= |actions|
      invariant errorMessage.None? && (PiiHit(actions, 0) <==> PiiHit(actions, j))
    {
      if actions[j] == Some("BLOCKED") || actions[j] == Some("ANONYMIZED") {
        errorMessage := Some(SensitiveInformation);
        return;
      }
      j := j + 1;
    }
  }

  /**
   * The intervention branch of `process_documents`: assessments in order, topics before PII
   * within each, the first hit ends both loops; no hit gives the generic message.
   */
  method ClassifyIntervention(assessments: seq<Assessment>) returns (errorMessage: string)
    ensures errorMessage == VerdictMessage(assessments)
  {
    var found: Option<string> := None;
    var i := 0;
    while i < |assessments|
      invariant i <= |assessments|
      invariant found.None? && FirstHit(assessments, 0) == FirstHit(assessments, i)
    {
      var assessment := assessments[i];
      if assessment.topics.Some? {
        found := ScanTopics(assessment.topics.value);
        if found.Some? {
          break;
        }
      }
      if found.None? && assessment.piiActions.Some? {
        found := ScanPii(assessment.piiActions.value);
        if found.Some? {
          break;
        }
      }
      i := i + 1;
    }
    errorMessage := found.GetOr(RestrictedContent);
    VerdictDef(assessments);
  }

  /** An intervention is answered with one of the four rejection messages, never with success. */
  lemma VerdictMessageCases(assessments: seq<Assessment>)
    ensures VerdictMessage(assessments) in {FinancialAdvice, OffensiveContent, SensitiveInformation, RestrictedContent}
    ensures VerdictMessage(assessments) != Success
  {
    VerdictDef(assessments);
    FirstHitCases(assessments, 0);
  }

  lemma {:induction false} FirstHitCases(assessments: seq<Assessment>, i: nat)
    requires i <= |assessments|
    ensures FirstHit(assessments, i).Some? ==>
              FirstHit(assessments, i).value in {FinancialAdvice, OffensiveContent, SensitiveInformation}
    decreases |assessments| - i
  {
    if i < |assessments| && AssessmentHit(assessments[i]).None? {
      FirstHitCases(assessments, i + 1);
    }
  }

  /** Within an assessment a blocked topic wins over any PII hit. */
  lemma TopicBeforePii(a: Assessment, rest: seq<Assessment>)
    requires a.topics.Some? && TopicHit(a.topics.value, 0).Some?
    ensures VerdictMessage([a] + rest) == TopicHit(a.topics.value, 0).value
  {
    VerdictDef([a] + rest);
    assert ([a] + rest)[0] == a;
  }

  /** An earlier deciding assessment wins over every later one. */
  lemma {:induction false} EarlierAssessmentWins(before: seq<Assessment>, a: Assessment, after: seq<Assessment>)
    requires forall k :: 0 <= k < |before| ==> AssessmentHit(before[k]).None?
    requires AssessmentHit(a).Some?
    ensures VerdictMessage(before + [a] + after) == AssessmentHit(a).value
  {
    var all := before + [a] + after;
    VerdictDef(all);
    assert all[|before|] == a;
    forall k | 0 <= k < |before| ensures all[k] == before[k] { }
    SkipUndecided(all, 0, |before|);
  }

  lemma {:induction false} SkipUndecided(all: seq<Assessment>, i: nat, n: nat)
    requires i <= n <= |all|
    requires forall k :: i <= k < n ==> AssessmentHit(all[k]).None?
    ensures FirstHit(all, i) == FirstHit(all, n)
    decreases n - i
  {
    if i < n {
      SkipUndecided(all, i + 1, n);
    }
  }

  /** With no topic or PII hit anywhere, the generic message is given. */
  lemma {:induction false} NoHitIsRestricted(assessments: seq<Assessment>)
    requires forall k :: 0 <= k < |assessments| ==> AssessmentHit(assessments[k]).None?
    ensures VerdictMessage(assessments) == RestrictedContent
  {
    VerdictDef(assessments);
    SkipUndecided(assessments, 0, |assessments|);
  }

  // ---------------------------------------------------------------------------------------------
  // process_documents
  // ---------------------------------------------------------------------------------------------

  /** One page of `list_objects_v2`: the keys of its `Contents`, or nothing when it has none. */
  datatype ListingPage = ListingPage(contents: Option<seq<string>>)

  predicate IsFolder(key: string)
  {
    |key| > 0 && key[|key| - 1] == '/'
  }

  /** The object keys that are not folders, from page `i` on, in listing order. */
  function KeysFrom(pages: seq<ListingPage>, i: nat): (r: seq<string>)
    requires i <= |pages|
    decreases |pages| - i
  {
    if i == |pages| then [] else PageKeys(pages[i]) + KeysFrom(pages, i + 1)
  }

  /** The keys one listing page contributes: none without `Contents`, else those that are not folders. */
  function PageKeys(page: ListingPage): seq<string>
  {
    if page.contents.None? then [] else NonFolders(page.contents.value, 0)
  }

  function NonFolders(keys: seq<string>, j: nat): (r: seq<string>)
    requires j <= |keys|
    decreases |keys| - j
  {
    if j == |keys| then [] else (if IsFolder(keys[j]) then [] else [keys[j]]) + NonFolders(keys, j + 1)
  }

  /** `document_keys`. */
  function DocumentKeys(pages: seq<ListingPage>): seq<string>
  {
    KeysFrom(pages, 0)
  }

  lemma {:induction false} NonFoldersShape(keys: seq<string>, j: nat)
    requires j <= |keys|
    ensures forall k :: k in NonFolders(keys, j) <==> k in keys[j..] && !IsFolder(k)
    decreases |keys| - j
  {
    if j < |keys| {
      NonFoldersShape(keys, j + 1);
      assert keys[j..] == [keys[j]] + keys[j + 1..];
    }
  }

  /** A listing page holds `k` in its `Contents`. */
  predicate OnPage(page: ListingPage, k: string)
  {
    page.contents.Some? && k in page.contents.value
  }

  /** Some listing page from `i` on holds `k`. */
  predicate Listed(pages: seq<ListingPage>, i: nat, k: string)
  {
    exists p :: i <= p < |pages| && OnPage(pages[p], k)
  }

  /** A key is listed from page `i` on when page `i` holds it or a later page does. */
  lemma ListedFrom(pages: seq<ListingPage>, i: nat, k: string)
    requires i < |pages|
    ensures Listed(pages, i, k) <==> OnPage(pages[i], k) || Listed(pages, i + 1, k)
  {
    if Listed(pages, i, k) && !OnPage(pages[i], k) {
      var p :| i <= p < |pages| && OnPage(pages[p], k);
      assert i + 1 <= p;
    }
  }

  /** What page `i` adds: its keys that are not folders. */
  lemma {:induction false} PageKeysShape(page: ListingPage, k: string)
    ensures k in PageKeys(page) <==> !IsFolder(k) && OnPage(page, k)
  {
    if page.contents.Some? {
      NonFoldersShape(page.contents.value, 0);
      assert page.contents.value[0..] == page.contents.value;
    }
  }

  /** A key is collected exactly when some listing page holds it and it does not end in `/`. */
  lemma DocumentKeysShape(pages: seq<ListingPage>)
    ensures forall k :: k in DocumentKeys(pages) <==> !IsFolder(k) && Listed(pages, 0, k)
  {
    forall k
      ensures k in KeysFrom(pages, 0) <==> !IsFolder(k) && Listed(pages, 0, k)
    {
      KeyCollected(pages, 0, k);
    }
  }

  /** `DocumentKeysShape` for one key, from page `i` on. */
  lemma {:induction false} KeyCollected(pages: seq<ListingPage>, i: nat, k: string)
    requires i <= |pages|
    ensures k in KeysFrom(pages, i) <==> !IsFolder(k) && Listed(pages, i, k)
    decreases |pages| - i
  {
    if i < |pages| {
      ListedFrom(pages, i, k);
      KeyCollected(pages, i + 1, k);
      PageKeysShape(pages[i], k);
      InAppend(PageKeys(pages[i]), KeysFrom(pages, i + 1), k);
    }
  }

  /** The inner listing loop over one page's `Contents`. */
  method AppendNonFolders(documentKeys: seq<string>, contents: seq<string>) returns (r: seq<string>)
    ensures r == documentKeys + NonFolders(contents, 0)
  {
    r := documentKeys;
    var j := 0;
    while j < |contents|
      invariant j <= |contents|
      invariant r + NonFolders(contents, j) == documentKeys + NonFolders(contents, 0)
    {
      ghost var part := if IsFolder(contents[j]) then [] else [contents[j]];
      assert NonFolders(contents, j) == part + NonFolders(contents, j + 1);
      assert r + NonFolders(contents, j) == (r + part) + NonFolders(contents, j + 1);
      if !IsFolder(contents[j]) {
        r := r + [contents[j]];
      } else {
        assert r + part == r;
      }
      j := j + 1;
    }
    assert r + [] == r;
  }

  /** The listing loop: keys of every page with `Contents`, folders skipped. */
  method CollectKeys(pages: seq<ListingPage>) returns (documentKeys: seq<string>)
    ensures documentKeys == DocumentKeys(pages)
  {
    documentKeys := [];
    var i := 0;
    while i < |pages|
      invariant i <= |pages|
      invariant documentKeys + KeysFrom(pages, i) == DocumentKeys(pages)
    {
      AppendAssoc(documentKeys, PageKeys(pages[i]), KeysFrom(pages, i + 1));
      if pages[i].contents.Some? {
        documentKeys := AppendNonFolders(documentKeys, pages[i].contents.value);
      } else {
        AppendEmpty(documentKeys);
      }
      i := i + 1;
    }
    AppendEmpty(documentKeys);
  }

  /** One page of a downloaded document: its extracted text and the guardrail's answer to it once stripped. */
  datatype PageText = PageText(text: string, response: GuardrailResponse)

  /** A downloaded document: its pages and the id drawn for it. */
  datatype File = File(id: string, pages: seq<PageText>)

  /** A page kept for the vector store and its metadata. */
  datatype StoredPage = StoredPage(content: string, id: string, filename: string, page: nat, categoryId: string)

  /**
   * Why a scan stopped: it ran to the end, a key could not be read (raises), or the guardrail
   * intervened on a page, whose assessments decide the message returned.
   */
  datatype Stop = Finished | Unreadable | Blocked(assessments: seq<Assessment>)

  /** The pages kept, the texts sent to the guardrail, and how the scan ended. */
  datatype Scan = Scan(docs: seq<StoredPage>, checked: seq<string>, stop: Stop)

  /** A finished scan followed by another. */
  function Then(a: Scan, b: Scan): Scan
  {
    Scan(a.docs + b.docs, a.checked + b.checked, b.stop)
  }

  /** Pages `j..` of one document: blank pages are skipped; an intervention stops everything. */
  function ScanPages(key: string, file: File, categoryId: string, j: nat): Scan
    requires j <= |file.pages|
    decreases |file.pages| - j
  {
    if j == |file.pages| then Scan([], [], Finished)
    else
      var text := Strip(Py, file.pages[j].text);
      if text == "" then ScanPages(key, file, categoryId, j + 1)
      else if Intervened(file.pages[j].response) then Scan([], [text], Blocked(file.pages[j].response.assessments))
      else Then(Scan([StoredPage(text, file.id, key, j + 1, categoryId)], [text], Finished), ScanPages(key, file, categoryId, j + 1))
  }

  /** Documents `i..` in key order. */
  function ScanKeys(keys: seq<string>, files: map<string, File>, categoryId: string, i: nat): Scan
    requires i <= |keys|
    decreases |keys| - i
  {
    if i == |keys| then Scan([], [], Finished)
    else if keys[i] !in files then Scan([], [], Unreadable)
    else
      var s := ScanPages(keys[i], files[keys[i]], categoryId, 0);
      if s.stop.Finished? then Then(s, ScanKeys(keys, files, categoryId, i + 1)) else s
  }

  /** A document's scan either finishes or is stopped by an intervention; it never fails to read. */
  lemma {:induction false} PagesReadable(key: string, file: File, categoryId: string, j: nat)
    requires j <= |file.pages|
    ensures ScanPages(key, file, categoryId, j).stop.Finished? || ScanPages(key, file, categoryId, j).stop.Blocked?
    decreases |file.pages| - j
  {
    if j < |file.pages| {
      PagesReadable(key, file, categoryId, j + 1);
    }
  }

  /** One step of the key scan, for a key that was downloaded. */
  lemma KeyStep(keys: seq<string>, files: map<string, File>, categoryId: string, i: nat)
    requires i < |keys| && keys[i] in files
    ensures var s := ScanPages(keys[i], files[keys[i]], categoryId, 0);
            (s.stop.Finished? || s.stop.Blocked?)
            && ScanKeys(keys, files, categoryId, i) == (if s.stop.Blocked? then s else Then(s, ScanKeys(keys, files, categoryId, i + 1)))
  {
    PagesReadable(keys[i], files[keys[i]], categoryId, 0);
  }

  /** How `process_documents` ends. */
  datatype Outcome = Raised | Returned(message: string)

  /** The objects deleted, the `add_documents` calls and the texts sent to the guardrail, in order. */
  datatype Effects = Effects(deleted: seq<string>, added: seq<seq<StoredPage>>, checked: seq<string>)

  /** One step of the page scan, for a non-blank page that passes. */
  lemma PageKept(key: string, file: File, categoryId: string, j: nat)
    requires j < |file.pages| && Strip(Py, file.pages[j].text) != "" && !Intervened(file.pages[j].response)
    ensures var text := Strip(Py, file.pages[j].text);
            var rest := ScanPages(key, file, categoryId, j + 1);
            ScanPages(key, file, categoryId, j) == Scan([StoredPage(text, file.id, key, j + 1, categoryId)] + rest.docs, [text] + rest.checked, rest.stop)
  {
  }

  /** A blank page is skipped. */
  lemma BlankStep(key: string, file: File, categoryId: string, j: nat)
    requires j < |file.pages| && Strip(Py, file.pages[j].text) == ""
    ensures ScanPages(key, file, categoryId, j) == ScanPages(key, file, categoryId, j + 1)
  {
  }

  /** A kept page moves from the pages still to scan to the pages scanned. */
  lemma KeptStep(key: string, file: File, categoryId: string, j: nat, docs: seq<StoredPage>, checked: seq<string>)
    requires j < |file.pages| && Strip(Py, file.pages[j].text) != "" && !Intervened(file.pages[j].response)
    ensures var text := Strip(Py, file.pages[j].text);
            var now, rest := ScanPages(key, file, categoryId, j), ScanPages(key, file, categoryId, j + 1);
            (docs + [StoredPage(text, file.id, key, j + 1, categoryId)]) + rest.docs == docs + now.docs
            && (checked + [text]) + rest.checked == checked + now.checked
            && rest.stop == now.stop
  {
    var text := Strip(Py, file.pages[j].text);
    var stored := StoredPage(text, file.id, key, j + 1, categoryId);
    var rest := ScanPages(key, file, categoryId, j + 1);
    PageKept(key, file, categoryId, j);
    AppendAssoc(docs, [stored], rest.docs);
    AppendAssoc(checked, [text], rest.checked);
  }

  /** The page loop of one document. */
  method ProcessFile(key: string, file: File, categoryId: string) returns (docs: seq<StoredPage>, checked: seq<string>, stop: Stop)
    ensures docs == ScanPages(key, file, categoryId, 0).docs
    ensures checked == ScanPages(key, file, categoryId, 0).checked
    ensures stop == ScanPages(key, file, categoryId, 0).stop
  {
    ghost var whole := ScanPages(key, file, categoryId, 0);
    docs := [];
    checked := [];
    var j := 0;
    while j < |file.pages|
      invariant j <= |file.pages|
      invariant docs + ScanPages(key, file, categoryId, j).docs == whole.docs
      invariant checked + ScanPages(key, file, categoryId, j).checked == whole.checked
      invariant ScanPages(key, file, categoryId, j).stop == whole.stop
    {
      var pageText := Strip(Py, file.pages[j].text);
      if pageText != "" {
        var response := file.pages[j].response;
        if Intervened(response) {
          checked := checked + [pageText];
          stop := Blocked(response.assessments);
          InterventionStops(key, file, categoryId, j);
          AppendEmpty(docs);
          return;
        }
        var stored := StoredPage(pageText, file.id, key, j + 1, categoryId);
        KeptStep(key, file, categoryId, j, docs, checked);
        docs := docs + [stored];
        checked := checked + [pageText];
      } else {
        BlankStep(key, file, categoryId, j);
      }
      j := j + 1;
    }
    stop := Finished;
    AppendEmpty(docs);
    AppendEmpty(checked);
  }

  lemma ThenAssoc(a: Scan, b: Scan, c: Scan)
    ensures Then(Then(a, b), c) == Then(a, Then(b, c))
  {
    assert (a.docs + b.docs) + c.docs == a.docs + (b.docs + c.docs);
    assert (a.checked + b.checked) + c.checked == a.checked + (b.checked + c.checked);
  }

  /**
   * The loop of `process_documents` over the collected keys: each document's pages are scanned
   * in turn, a key that cannot be read ends the loop, and an intervention stops it.
   */
  method ScanDocuments(documentKeys: seq<string>, files: map<string, File>, categoryId: string)
    returns (allDocs: seq<StoredPage>, checked: seq<string>, stop: Stop)
    ensures allDocs == (if stop.Finished? then ScanKeys(documentKeys, files, categoryId, 0).docs else [])
    ensures checked == ScanKeys(documentKeys, files, categoryId, 0).checked
    ensures stop == ScanKeys(documentKeys, files, categoryId, 0).stop
  {
    ghost var whole := ScanKeys(documentKeys, files, categoryId, 0);
    allDocs := [];
    checked := [];
    var i := 0;
    while i < |documentKeys|
      invariant i <= |documentKeys|
      invariant allDocs + ScanKeys(documentKeys, files, categoryId, i).docs == whole.docs
      invariant checked + ScanKeys(documentKeys, files, categoryId, i).checked == whole.checked
      invariant ScanKeys(documentKeys, files, categoryId, i).stop == whole.stop
    {
      var documentKey := documentKeys[i];
      if documentKey !in files {
        assert checked + [] == checked;
        return [], checked, Unreadable;
      }
      var docs, pageChecks, pageStop := ProcessFile(documentKey, files[documentKey], categoryId);
      KeyStep(documentKeys, files, categoryId, i);
      if pageStop.Blocked? {
        return [], checked + pageChecks, pageStop;
      }
      ghost var rest := ScanKeys(documentKeys, files, categoryId, i + 1);
      assert allDocs + (docs + rest.docs) == (allDocs + docs) + rest.docs;
      assert checked + (pageChecks + rest.checked) == (checked + pageChecks) + rest.checked;
      allDocs := allDocs + docs;
      checked := checked + pageChecks;
      i := i + 1;
    }
    assert allDocs + [] == allDocs && checked + [] == checked;
    stop := Finished;
  }

  /**
   * `process_documents` on a listing, the downloaded documents and the guardrail's listing.
   * A key that cannot be read raises with nothing deleted; an intervention deletes every
   * collected key, stores nothing and returns its message; otherwise the kept pages are added
   * in one call (when there are any), every key is deleted and "SUCCESS" is returned.
   */
  method ProcessDocuments(categoryId: string, guardrails: seq<Guardrail>, created: (string, string),
                          listing: seq<ListingPage>, files: map<string, File>)
    returns (out: Outcome, effects: Effects)
    ensures var s := ScanKeys(DocumentKeys(listing), files, categoryId, 0);
            effects.checked == s.checked
            && (s.stop.Unreadable? ==> out == Raised && effects.deleted == [] && effects.added == [])
            && (s.stop.Blocked? ==> out == Returned(VerdictMessage(s.stop.assessments))
                                     && effects.deleted == DocumentKeys(listing) && effects.added == [])
            && (s.stop.Finished? ==> out == Returned(Success) && effects.deleted == DocumentKeys(listing)
                                      && effects.added == (if s.docs == [] then [] else [s.docs]))
  {
    var guardrailId, guardrailVersion, _ := SetupGuardrail("comprehensive-guardrails", guardrails, created);
    var documentKeys := CollectKeys(listing);
    var allDocs, checked, stop := ScanDocuments(documentKeys, files, categoryId);
    match stop
    case Unreadable =>
      out, effects := Raised, Effects([], [], checked);
    case Blocked(assessments) =>
      var errorMessage := ClassifyIntervention(assessments);
      out, effects := Returned(errorMessage), Effects(documentKeys, [], checked);
    case Finished =>
      var added := if allDocs != [] then [allDocs] else [];
      out, effects := Returned(Success), Effects(documentKeys, added, checked);
  }

  // ---------------------------------------------------------------------------------------------
  // What a scan sends and keeps
  // ---------------------------------------------------------------------------------------------

  /** Only non-blank, stripped page texts reach the guardrail. */
  lemma {:induction false} PagesChecked(key: string, file: File, categoryId: string, j: nat)
    requires j <= |file.pages|
    ensures forall t :: t in ScanPages(key, file, categoryId, j).checked ==> t != "" && IsStripped(Py, t)
    decreases |file.pages| - j
  {
    if j < |file.pages| {
      PagesChecked(key, file, categoryId, j + 1);
    }
  }

  /**
   * A page stored for document `key`: it carries the document's key and id, a page number from
   * `j + 1` counted over all pages (blank ones included), and that page's stripped, non-blank text,
   * which the guardrail let through.
   */
  predicate PageFrom(d: StoredPage, key: string, file: File, categoryId: string, j: nat)
  {
    d.filename == key && d.id == file.id && d.categoryId == categoryId
    && j + 1 <= d.page <= |file.pages| && d.content == Strip(Py, file.pages[d.page - 1].text) != ""
    && !Intervened(file.pages[d.page - 1].response)
  }

  /** Every page kept from page `j` on is a page of the document, as `PageFrom` says. */
  lemma {:induction false} PagesKept(key: string, file: File, categoryId: string, j: nat)
    requires j <= |file.pages|
    ensures forall d :: d in ScanPages(key, file, categoryId, j).docs ==> PageFrom(d, key, file, categoryId, j)
    decreases |file.pages| - j
  {
    if j < |file.pages| {
      PagesKept(key, file, categoryId, j + 1);
      var rest := ScanPages(key, file, categoryId, j + 1).docs;
      if Strip(Py, file.pages[j].text) != "" && !Intervened(file.pages[j].response) {
        PageKept(key, file, categoryId, j);
        forall d | d in ScanPages(key, file, categoryId, j).docs ensures PageFrom(d, key, file, categoryId, j) {
          if d in rest {
            assert PageFrom(d, key, file, categoryId, j + 1);
          }
        }
      } else if Strip(Py, file.pages[j].text) == "" {
        forall d | d in rest ensures PageFrom(d, key, file, categoryId, j) {
          assert PageFrom(d, key, file, categoryId, j + 1);
        }
      }
    }
  }

  lemma {:induction false} KeysChecked(keys: seq<string>, files: map<string, File>, categoryId: string, i: nat)
    requires i <= |keys|
    ensures forall t :: t in ScanKeys(keys, files, categoryId, i).checked ==> t != "" && IsStripped(Py, t)
    ensures forall d :: d in ScanKeys(keys, files, categoryId, i).docs ==>
              d.filename in keys[i..] && d.filename in files && d.id == files[d.filename].id && d.categoryId == categoryId
              && 1 <= d.page <= |files[d.filename].pages|
              && d.content == Strip(Py, files[d.filename].pages[d.page - 1].text) != ""
    decreases |keys| - i
  {
    if i < |keys| && keys[i] in files {
      PagesChecked(keys[i], files[keys[i]], categoryId, 0);
      PagesKept(keys[i], files[keys[i]], categoryId, 0);
      KeysChecked(keys, files, categoryId, i + 1);
      assert keys[i..] == [keys[i]] + keys[i + 1..];
    }
  }

  /**
   * What `process_documents` sends to the guardrail is never blank, and every page it stores
   * comes from a collected key, with that document's id and its own stripped, numbered page.
   */
  lemma ScanShape(listing: seq<ListingPage>, files: map<string, File>, categoryId: string)
    ensures var s := ScanKeys(DocumentKeys(listing), files, categoryId, 0);
            (forall t :: t in s.checked ==> t != "" && IsStripped(Py, t))
            && (forall d :: d in s.docs ==>
                  d.filename in DocumentKeys(listing) && !IsFolder(d.filename)
                  && d.filename in files && d.id == files[d.filename].id && 1 <= d.page <= |files[d.filename].pages|)
  {
    var keys := DocumentKeys(listing);
    KeysChecked(keys, files, categoryId, 0);
    assert keys[0..] == keys;
    DocumentKeysShape(listing);
  }

  /**
   * An intervening page ends the scan with that page's verdict: its text is the last one sent
   * to the guardrail, nothing after it is read and nothing is kept.
   */
  lemma InterventionStops(key: string, file: File, categoryId: string, j: nat)
    requires j < |file.pages| && Strip(Py, file.pages[j].text) != "" && Intervened(file.pages[j].response)
    ensures ScanPages(key, file, categoryId, j).stop == Blocked(file.pages[j].response.assessments)
    ensures ScanPages(key, file, categoryId, j).docs == []
    ensures ScanPages(key, file, categoryId, j).checked == [Strip(Py, file.pages[j].text)]
  {
  }
}
