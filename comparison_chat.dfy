/**
 * The formatting helpers of the syllabus-comparison text generator: Markdown rendering of a
 * results dictionary, formatting of one guideline's raw answer, joining retrieved pages, and the
 * generator that evaluates every guideline in turn.
 */
module ComparisonChat {
  import opened Common
  import opened Text
  import Evaluation

  /** The `{"llm_output": ..., "options": []}` dictionary produced for one guideline. */
  datatype GuidelineResult = GuidelineResult(llmOutput: string, options: seq<string>)

  // ---------------------------------------------------------------------------------------------
  // format_to_markdown
  // ---------------------------------------------------------------------------------------------

  /** One `**header:** body` section. */
  function Section(header: string, body: string): string
  {
    "**" + header + ":** " + body
  }

  function Sections(results: seq<(string, string)>): (r: seq<string>)
    ensures |r| == |results|
  {
    seq(|results|, k requires 0 <= k < |results| => Section(results[k].0, results[k].1))
  }

  /**
   * The Markdown text of a results dictionary: its sections in dictionary order, separated by a
   * blank line, without whitespace at either end.
   */
  function Markdown(results: seq<(string, string)>): (r: string)
    ensures IsStripped(Py, r)
    ensures results == [] ==> r == ""
  {
    StripOfStripped(Py, "");
    Strip(Py, Join("\n\n", Sections(results)))
  }

  /** Prefixing every part with the separator turns a join with it into a join with it doubled. */
  lemma {:induction false} JoinPrefixed(xs: seq<string>, ys: seq<string>)
    requires |xs| == |ys| > 0
    requires forall k :: 0 <= k < |xs| ==> xs[k] == "\n" + ys[k]
    ensures Join("\n", xs) == "\n" + Join("\n\n", ys)
    decreases |xs|
  {
    if |xs| > 1 {
      JoinPrefixed(xs[1..], ys[1..]);
      assert Join("\n", xs) == xs[0] + "\n" + Join("\n", xs[1..]);
      assert Join("\n\n", ys) == ys[0] + "\n\n" + Join("\n\n", ys[1..]);
    }
  }

  /** `format_to_markdown`: append `"\n**header:** body"` per entry, join with line breaks, strip. */
  method FormatToMarkdown(evaluationResults: seq<(string, string)>) returns (r: string)
    ensures r == Markdown(evaluationResults)
  {
    var markdownOutput: seq<string> := [];
    var i := 0;
    while i < |evaluationResults|
      invariant 0 <= i <= |evaluationResults|
      invariant |markdownOutput| == i
      invariant forall k :: 0 <= k < i ==> markdownOutput[k] == "\n" + Section(evaluationResults[k].0, evaluationResults[k].1)
    {
      var (header, body) := evaluationResults[i];
      markdownOutput := markdownOutput + ["\n" + Section(header, body)];
      i := i + 1;
    }
    r := Strip(Py, Join("\n", markdownOutput));
    if |evaluationResults| > 0 {
      var j := Join("\n\n", Sections(evaluationResults));
      JoinPrefixed(markdownOutput, Sections(evaluationResults));
      BlanksAllSpace(Py, "");
      StripPadded(Py, "\n", j, "");
      assert "\n" + j + "" == "\n" + j;
    }
  }

  /** A join ends with the end of its last part. */
  lemma {:induction false} JoinLast(sep: string, parts: seq<string>)
    requires |parts| > 0 && parts[|parts| - 1] != ""
    ensures Join(sep, parts) != ""
    ensures Join(sep, parts)[|Join(sep, parts)| - 1] == parts[|parts| - 1][|parts[|parts| - 1]| - 1]
    decreases |parts|
  {
    if |parts| > 1 {
      assert parts[1..][|parts| - 2] == parts[|parts| - 1];
      JoinLast(sep, parts[1..]);
    }
  }

  /**
   * When the last body ends in a visible character, nothing is stripped: the text is exactly the
   * sections separated by blank lines, the first starting with its bold header.
   */
  lemma MarkdownUnpadded(results: seq<(string, string)>)
    requires |results| > 0
    requires var b := results[|results| - 1].1; b != "" && !IsSpace(Py, b[|b| - 1])
    ensures Markdown(results) == Join("\n\n", Sections(results))
    ensures Markdown(results)[..2] == "**"
  {
    var ss := Sections(results);
    var b := results[|results| - 1].1;
    var last := ss[|ss| - 1];
    assert last == "**" + results[|results| - 1].0 + ":** " + b;
    assert last[|last| - 1] == b[|b| - 1];
    assert ss[0][0] == '*';
    JoinLast("\n\n", ss);
    JoinPrefix("\n\n", ss);
    var j := Join("\n\n", ss);
    assert j[0] == ss[0][0];
    VisibleNotSpace(Py, "*");
    assert "*"[0] == '*';
    StripOfStripped(Py, j);
    assert j[..2] == ss[0][..2];
  }

  /** A join begins with its first part. */
  lemma JoinPrefix(sep: string, parts: seq<string>)
    requires |parts| > 0
    ensures |parts[0]| <= |Join(sep, parts)| && Join(sep, parts)[..|parts[0]|] == parts[0]
  {
    if |parts| > 1 {
      assert Join(sep, parts) == parts[0] + (sep + Join(sep, parts[1..]));
    }
  }

  // ---------------------------------------------------------------------------------------------
  // parse_single_evaluation
  // ---------------------------------------------------------------------------------------------

  function TrimLines(lines: seq<string>): (r: seq<string>)
    ensures |r| == |lines|
  {
    seq(|lines|, k requires 0 <= k < |lines| => Strip(Py, lines[k]))
  }

  /** `"\n".join(line.strip() for line in response.split("\n"))`. */
  function FormatBody(response: string): string
  {
    Join("\n", TrimLines(Split(response, '\n')))
  }

  function Header(guidelineName: string): string
  {
    "**" + guidelineName + ":**"
  }

  /** `parse_single_evaluation`: the bold name on its own line, then the answer's trimmed lines. */
  function ParseSingleEvaluation(response: string, guidelineName: string): (r: GuidelineResult)
    ensures r.options == []
    ensures |Header(guidelineName)| < |r.llmOutput|
    ensures r.llmOutput[..|Header(guidelineName)| + 1] == Header(guidelineName) + "\n"
  {
    var out := Header(guidelineName) + "\n" + FormatBody(response);
    assert out[..|Header(guidelineName)| + 1] == Header(guidelineName) + "\n";
    GuidelineResult(out, [])
  }

  /** Trimmed lines hold no line break. */
  lemma TrimmedNoBreak(lines: seq<string>)
    requires forall k :: 0 <= k < |lines| ==> '\n' !in lines[k]
    ensures forall k :: 0 <= k < |lines| ==> '\n' !in TrimLines(lines)[k]
  {
    forall k | 0 <= k < |lines| ensures '\n' !in TrimLines(lines)[k] {
      StripChars(Py, lines[k]);
    }
  }

  /** Trimming the lines of a formatted body changes nothing. */
  lemma FormatBodyIdempotent(response: string)
    ensures FormatBody(FormatBody(response)) == FormatBody(response)
  {
    var lines := Split(response, '\n');
    var t := TrimLines(lines);
    TrimmedNoBreak(lines);
    SplitJoin(t, '\n');
    assert Split(FormatBody(response), '\n') == t;
    forall k | 0 <= k < |t| ensures TrimLines(t)[k] == t[k] {
      StripIdempotent(Py, lines[k]);
    }
    assert TrimLines(t) == t;
  }

  /**
   * For a name without line breaks, the output's lines are the header followed by the answer's
   * lines, each trimmed, so it has one line more than the answer.
   */
  lemma SingleEvaluationLines(response: string, guidelineName: string)
    requires '\n' !in guidelineName
    ensures Split(ParseSingleEvaluation(response, guidelineName).llmOutput, '\n')
            == [Header(guidelineName)] + TrimLines(Split(response, '\n'))
    ensures |Split(ParseSingleEvaluation(response, guidelineName).llmOutput, '\n')| == |Split(response, '\n')| + 1
  {
    var h := Header(guidelineName);
    var lines := Split(response, '\n');
    var t := TrimLines(lines);
    var parts := [h] + t;
    assert parts[1..] == t;
    assert Join("\n", parts) == h + "\n" + Join("\n", t);
    TrimmedNoBreak(lines);
    assert '\n' !in h by {
      forall i | 0 <= i < |h| ensures h[i] != '\n' {
        if 2 <= i < 2 + |guidelineName| {
          assert h[i] == guidelineName[i - 2];
        }
      }
    }
    SplitJoin(parts, '\n');
  }

  // ---------------------------------------------------------------------------------------------
  // format_docs
  // ---------------------------------------------------------------------------------------------

  /** `format_docs`: page contents separated by a blank line, in list order. */
  function FormatDocs(pageContents: seq<string>): (r: string)
    ensures pageContents == [] ==> r == ""
    ensures |pageContents| == 1 ==> r == pageContents[0]
  {
    Join("\n\n", pageContents)
  }

  /** Another page adds a blank line and its content at the end. */
  lemma FormatDocsAppend(pageContents: seq<string>, page: string)
    requires pageContents != []
    ensures FormatDocs(pageContents + [page]) == FormatDocs(pageContents) + "\n\n" + page
  {
    JoinAppend("\n\n", pageContents, page);
  }

  // ---------------------------------------------------------------------------------------------
  // get_response_evaluation (the generator, iterated to the end)
  // ---------------------------------------------------------------------------------------------

  const ErrorMarker: string := " Error processing guideline - "

  /** What the generator yields for one guideline, from the chain's answer or the error it raised. */
  function EvaluateGuideline(guideline: string, answer: Result<string>): (r: GuidelineResult)
    ensures r.options == []
    ensures answer.Ok? ==> r == ParseSingleEvaluation(answer.value, Evaluation.Name(guideline))
    ensures answer.Err? ==> r.llmOutput == Header(Evaluation.Name(guideline)) + ErrorMarker + answer.error
  {
    var guidelineName := Evaluation.Name(guideline);
    match answer
    case Ok(rawResponse) => ParseSingleEvaluation(rawResponse, guidelineName)
    case Err(e) => GuidelineResult(Header(guidelineName) + ErrorMarker + e, [])
  }

  /** The inner loop over one category: one result per guideline, in order. */
  method EvaluateCategory(yielded: seq<GuidelineResult>, ghost queries: seq<string>, answers: seq<Result<string>>,
                          from: nat, masterValue: seq<string>)
    returns (r: seq<GuidelineResult>)
    requires |queries| == |answers| && from + |masterValue| <= |queries|
    requires forall j :: 0 <= j < |masterValue| ==> queries[from + j] == masterValue[j]
    requires |yielded| == from
    requires forall j :: 0 <= j < from ==> yielded[j] == EvaluateGuideline(queries[j], answers[j])
    ensures |r| == from + |masterValue|
    ensures forall j :: 0 <= j < |r| ==> r[j] == EvaluateGuideline(queries[j], answers[j])
  {
    r := yielded;
    var j := 0;
    while j < |masterValue|
      invariant 0 <= j <= |masterValue|
      invariant |r| == from + j
      invariant forall m :: 0 <= m < |r| ==> r[m] == EvaluateGuideline(queries[m], answers[m])
    {
      var guideline := masterValue[j];
      r := r + [EvaluateGuideline(guideline, answers[from + j])];
      j := j + 1;
    }
  }

  /**
   * `get_response_evaluation` iterated to the end: exactly one result per guideline across all
   * categories, in document order; a guideline whose chain raised yields its error text and the
   * iteration goes on. `answers` holds what the chain returns (or raises) for each guideline.
   */
  method GetResponseEvaluation(guidelinesFile: seq<Evaluation.Category>, answers: seq<Result<string>>)
    returns (yielded: seq<GuidelineResult>)
    requires |answers| == |Evaluation.Queries(guidelinesFile)|
    ensures |yielded| == |Evaluation.Queries(guidelinesFile)|
    ensures forall j :: 0 <= j < |yielded| ==>
              yielded[j] == EvaluateGuideline(Evaluation.Queries(guidelinesFile)[j], answers[j])
    ensures forall j :: 0 <= j < |yielded| ==> yielded[j].options == []
  {
    ghost var queries := Evaluation.Queries(guidelinesFile);
    yielded := [];
    var i := 0;
    while i < |guidelinesFile|
      invariant 0 <= i <= |guidelinesFile|
      invariant |yielded| == |Evaluation.QueriesUpTo(guidelinesFile, i)| <= |queries|
      invariant forall j :: 0 <= j < |yielded| ==> yielded[j] == EvaluateGuideline(queries[j], answers[j])
    {
      var masterValue := guidelinesFile[i].guidelines;
      var k := |yielded|;
      Evaluation.QueriesPrefix(guidelinesFile, i + 1, |guidelinesFile|);
      assert queries[..k + |masterValue|] == Evaluation.QueriesUpTo(guidelinesFile, i) + masterValue;
      assert forall j :: 0 <= j < |masterValue| ==> queries[k + j] == masterValue[j] by {
        forall j | 0 <= j < |masterValue| ensures queries[k + j] == masterValue[j] {
          assert queries[k + j] == queries[..k + |masterValue|][k + j];
        }
      }
      yielded := EvaluateCategory(yielded, queries, answers, k, masterValue);
      i := i + 1;
    }
  }
}
