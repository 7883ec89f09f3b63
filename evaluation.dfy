/**
 * The guideline-evaluation path of the text-generation helper: `parse_evaluation_response`, which
 * folds a (possibly nested) dictionary of evaluation texts into one clean paragraph plus options,
 * and the keying loop of `get_response_evaluation`, which stores one answer per guideline under
 * the guideline's name.
 */
module Evaluation {
  import opened Common
  import opened Text
  import opened TurnCodec

  /** A JSON-like Python value: a string, a list, a dictionary (in insertion order) or anything else. */
  datatype Value = VStr(s: string) | VList(elems: seq<Value>) | VDict(entries: seq<Entry>) | VOther
  datatype Entry = Entry(key: string, val: Value)

  /** The `{"llm_output": ..., "options": ...}` dictionary returned by the parser. */
  datatype Parsed = Parsed(llmOutput: string, options: seq<Value>)

  // ---------------------------------------------------------------------------------------------
  // Whitespace collapsing: re.sub(r"\s+", " ", s)
  // ---------------------------------------------------------------------------------------------

  /** Every whitespace character is a blank, and no two whitespace characters are adjacent. */
  ghost predicate SingleBlanks(s: string)
  {
    (forall i :: 0 <= i < |s| && IsSpace(Py, s[i]) ==> s[i] == ' ')
    && (forall i, j :: 0 <= i < j < |s| && j == i + 1 && IsSpace(Py, s[i]) ==> !IsSpace(Py, s[j]))
  }

  /** The shape promised for `llm_output`: single blanks only, none at either end. */
  ghost predicate Clean(s: string)
  {
    SingleBlanks(s) && IsStripped(Py, s)
  }

  predicate NoSpace(s: string)
  {
    forall i :: 0 <= i < |s| ==> !IsSpace(Py, s[i])
  }

  /** The text with every whitespace character removed. */
  function DropSpace(s: string): string
  {
    if |s| == 0 then "" else (if IsSpace(Py, s[0]) then "" else [s[0]]) + DropSpace(s[1..])
  }

  /** `re.sub(r"\s+", " ", s)`: each maximal run of whitespace becomes a single blank. */
  function CollapseSpace(s: string): (r: string)
    ensures SingleBlanks(r)
    ensures r == [] <==> s == []
    ensures r != [] ==> (IsSpace(Py, r[0]) <==> IsSpace(Py, s[0]))
    decreases |s|
  {
    if |s| == 0 then ""
    else if IsSpace(Py, s[0]) then
      var t := CollapseSpace(LStrip(Py, s[1..]));
      var r := " " + t;
      assert forall i :: 0 < i < |r| ==> r[i] == t[i - 1];
      r
    else
      var t := CollapseSpace(s[1..]);
      var r := [s[0]] + t;
      assert forall i :: 0 < i < |r| ==> r[i] == t[i - 1];
      r
  }

  lemma {:induction false} DropSpaceLStrip(s: string)
    ensures DropSpace(LStrip(Py, s)) == DropSpace(s)
    decreases |s|
  {
    if |s| > 0 && IsSpace(Py, s[0]) {
      DropSpaceLStrip(s[1..]);
    }
  }

  /** Collapsing whitespace keeps every other character, in order. */
  lemma {:induction false} CollapseKeepsText(s: string)
    ensures DropSpace(CollapseSpace(s)) == DropSpace(s)
    decreases |s|
  {
    if |s| > 0 {
      if IsSpace(Py, s[0]) {
        var l := LStrip(Py, s[1..]);
        CollapseKeepsText(l);
        DropSpaceLStrip(s[1..]);
        var t := CollapseSpace(l);
        assert (" " + t)[1..] == t;
      } else {
        CollapseKeepsText(s[1..]);
        var t := CollapseSpace(s[1..]);
        assert ([s[0]] + t)[1..] == t;
      }
    }
  }

  /** Text without whitespace passes through unchanged. */
  lemma {:induction false} CollapseNoSpace(s: string)
    requires NoSpace(s)
    ensures CollapseSpace(s) == s
    decreases |s|
  {
    if |s| > 0 {
      CollapseNoSpace(s[1..]);
      assert s == [s[0]] + s[1..];
    }
  }

  /** Stripping keeps a slice, so the single-blank shape survives it. */
  lemma StripSingleBlanks(s: string)
    requires SingleBlanks(s)
    ensures SingleBlanks(Strip(Py, s))
  {
    var l := LStrip(Py, s);
    var r := Strip(Py, s);
    var k := |s| - |l|;
    LStripSuffix(Py, s);
    RStripPrefix(Py, l);
    assert forall i :: 0 <= i < |r| ==> r[i] == s[k + i];
  }

  lemma NewlineIsSpace()
    ensures IsSpace(Py, '\n')
  {
  }

  /** After collapsing, `.replace("\n", " ")` has nothing left to replace. */
  lemma ReplaceNewlineIdle(s: string)
    requires SingleBlanks(s)
    ensures ReplaceChar(s, '\n', ' ') == s
  {
    NewlineIsSpace();
    var r := ReplaceChar(s, '\n', ' ');
    assert forall i :: 0 <= i < |s| ==> r[i] == s[i];
  }

  /** A clean text has no line break. */
  lemma CleanNoNewline(s: string)
    requires Clean(s)
    ensures '\n' !in s
  {
    NewlineIsSpace();
  }

  /**
   * The tail of `parse_evaluation_response`: rewrite URLs to Markdown links, collapse whitespace
   * runs, replace line breaks by blanks and strip.
   */
  function Finish(content: string): (r: string)
    ensures Clean(r)
  {
    var c := CollapseSpace(Linkify(content));
    ReplaceNewlineIdle(c);
    StripSingleBlanks(c);
    Strip(Py, ReplaceChar(c, '\n', ' '))
  }

  lemma {:induction false} NoSpaceAppend(a: string, b: string)
    requires NoSpace(a) && NoSpace(b)
    ensures NoSpace(a + b)
  {
    assert forall i :: |a| <= i < |a + b| ==> (a + b)[i] == b[i - |a|];
  }

  /** The link rewrite adds only brackets and parentheses, so it keeps a text free of whitespace. */
  lemma {:induction false} LinkifyNoSpace(s: string)
    requires NoSpace(s)
    ensures NoSpace(Linkify(s))
    decreases |s|
  {
    if |s| > 0 {
      var n := UrlMatchLen(s);
      if n > 0 {
        // The match runs to the next whitespace, and there is none: the whole text is one URL.
        assert n == |s|;
        LinkifyWhole(s);
        VisibleNotSpace(Py, "[");
        VisibleNotSpace(Py, "](");
        VisibleNotSpace(Py, ")");
        NoSpaceAppend(s, ")");
        NoSpaceAppend("](", s + ")");
        NoSpaceAppend(s, "](" + (s + ")"));
        NoSpaceAppend("[", s + ("](" + (s + ")")));
        assert Linkify(s) == "[" + (s + ("](" + (s + ")")));
      } else {
        assert NoSpace(s[1..]) by {
          assert forall i :: 0 <= i < |s| - 1 ==> s[1..][i] == s[1 + i];
        }
        LinkifyNoSpace(s[1..]);
        NoSpaceAppend([s[0]], Linkify(s[1..]));
      }
    }
  }

  /** On text without whitespace the tail of the parser is the link rewrite alone. */
  lemma FinishNoSpace(s: string)
    requires NoSpace(s)
    ensures Finish(s) == Linkify(s)
  {
    var l := Linkify(s);
    LinkifyNoSpace(s);
    CollapseNoSpace(l);
    ReplaceNewlineIdle(l);
    StripOfStripped(Py, l);
  }

  // ---------------------------------------------------------------------------------------------
  // parse_evaluation_response
  // ---------------------------------------------------------------------------------------------

  /**
   * The `main_content` and `options` lists after the loop has seen the first `n` entries: a string
   * adds itself stripped, a list extends the options, a nested dictionary adds its own parsed text
   * and options, and any other value is skipped.
   */
  function Gather(entries: seq<Entry>, n: nat): (seq<string>, seq<Value>)
    requires n <= |entries|
    decreases entries, n
  {
    if n == 0 then ([], [])
    else
      var (main, opts) := Gather(entries, n - 1);
      assert entries[n - 1] in entries;
      match entries[n - 1].val
      case VStr(s) => (main + [Strip(Py, s)], opts)
      case VList(xs) => (main, opts + xs)
      case VDict(inner) =>
        var nested := ParseEvaluation(inner);
        (main + [nested.llmOutput], opts + nested.options)
      case VOther => (main, opts)
  }

  /** `parse_evaluation_response`: the gathered texts joined with blanks and cleaned, and the options. */
  function ParseEvaluation(entries: seq<Entry>): (r: Parsed)
    ensures Clean(r.llmOutput)
    ensures '\n' !in r.llmOutput
    decreases entries, |entries| + 1
  {
    var (main, opts) := Gather(entries, |entries|);
    var out := Finish(Join(" ", main));
    CleanNoNewline(out);
    Parsed(out, opts)
  }

  /** The loop of `parse_evaluation_response`, with the recursive call on nested dictionaries. */
  method ParseEvaluationResponse(evaluationOutput: seq<Entry>) returns (r: Parsed)
    ensures r == ParseEvaluation(evaluationOutput)
    decreases evaluationOutput
  {
    var mainContent: seq<string> := [];
    var options: seq<Value> := [];
    var i := 0;
    while i < |evaluationOutput|
      invariant 0 <= i <= |evaluationOutput|
      invariant (mainContent, options) == Gather(evaluationOutput, i)
    {
      assert evaluationOutput[i] in evaluationOutput;
      match evaluationOutput[i].val {
        case VStr(s) =>
          mainContent := mainContent + [Strip(Py, s)];
        case VList(xs) =>
          options := options + xs;
        case VDict(inner) =>
          var nested := ParseEvaluationResponse(inner);
          mainContent := mainContent + [nested.llmOutput];
          options := options + nested.options;
        case VOther =>
      }
      i := i + 1;
    }
    var contentStr := Join(" ", mainContent);
    contentStr := Linkify(contentStr);
    contentStr := Strip(Py, ReplaceChar(CollapseSpace(contentStr), '\n', ' '));
    r := Parsed(contentStr, options);
  }

  // ---------------------------------------------------------------------------------------------
  // Reference description of the parser, entry by entry from the front
  // ---------------------------------------------------------------------------------------------

  /** The text one value contributes to `main_content`. */
  function Contribution(v: Value): seq<string>
  {
    match v
    case VStr(s) => [Strip(Py, s)]
    case VDict(inner) => [ParseEvaluation(inner).llmOutput]
    case _ => []
  }

  /** Every text contributed, in dictionary order. */
  function MainOf(entries: seq<Entry>): seq<string>
  {
    if entries == [] then [] else Contribution(entries[0].val) + MainOf(entries[1..])
  }

  /** Every option contributed, in dictionary order: list elements, and nested dictionaries' options. */
  function OptionsOf(entries: seq<Entry>): seq<Value>
    decreases entries
  {
    if entries == [] then []
    else
      assert entries[0] in entries;
      var here := match entries[0].val
        case VList(xs) => xs
        case VDict(inner) => OptionsOf(inner)
        case _ => [];
      here + OptionsOf(entries[1..])
  }

  lemma {:induction false} MainOfAppend(a: seq<Entry>, b: seq<Entry>)
    ensures MainOf(a + b) == MainOf(a) + MainOf(b)
    decreases |a|
  {
    if a == [] {
      assert a + b == b;
    } else {
      assert (a + b)[1..] == a[1..] + b;
      MainOfAppend(a[1..], b);
    }
  }

  lemma {:induction false} OptionsOfAppend(a: seq<Entry>, b: seq<Entry>)
    ensures OptionsOf(a + b) == OptionsOf(a) + OptionsOf(b)
    decreases |a|
  {
    if a == [] {
      assert a + b == b;
    } else {
      assert (a + b)[1..] == a[1..] + b;
      assert (a + b)[0] == a[0];
      OptionsOfAppend(a[1..], b);
    }
  }

  /** The options one value adds in the loop. */
  function OptionPart(v: Value): seq<Value>
  {
    match v
    case VList(xs) => xs
    case VDict(inner) => ParseEvaluation(inner).options
    case _ => []
  }

  /** One more turn of the loop adds the entry's text and options. */
  lemma GatherStep(entries: seq<Entry>, n: nat)
    requires 0 < n <= |entries|
    ensures Gather(entries, n).0 == Gather(entries, n - 1).0 + Contribution(entries[n - 1].val)
    ensures Gather(entries, n).1 == Gather(entries, n - 1).1 + OptionPart(entries[n - 1].val)
  {
  }

  /** The loop's lists after `n` entries are the front-to-back contributions of those entries. */
  lemma {:induction false} GatherReference(entries: seq<Entry>, n: nat)
    requires n <= |entries|
    ensures Gather(entries, n).0 == MainOf(entries[..n])
    ensures Gather(entries, n).1 == OptionsOf(entries[..n])
    decreases entries, n
  {
    if n > 0 {
      GatherReference(entries, n - 1);
      GatherStep(entries, n);
      var e := entries[n - 1];
      var front := entries[..n - 1];
      TakeLast(entries, n);
      MainOfAppend(front, [e]);
      OptionsOfAppend(front, [e]);
      SingleEntry(e);
      if e.val.VDict? {
        assert e in entries;
        ParseReference(e.val.entries);
      }
    }
  }

  /** What one entry contributes on its own. */
  lemma SingleEntry(e: Entry)
    ensures MainOf([e]) == Contribution(e.val)
    ensures e.val.VList? ==> OptionsOf([e]) == e.val.elems
    ensures e.val.VDict? ==> OptionsOf([e]) == OptionsOf(e.val.entries)
    ensures !e.val.VList? && !e.val.VDict? ==> OptionsOf([e]) == []
  {
    assert [e][1..] == [];
    assert [e][0] == e;
  }

  /** `parse_evaluation_response` in terms of the reference description. */
  lemma {:induction false} ParseReference(entries: seq<Entry>)
    ensures ParseEvaluation(entries).llmOutput == Finish(Join(" ", MainOf(entries)))
    ensures ParseEvaluation(entries).options == OptionsOf(entries)
    decreases entries, |entries| + 1
  {
    GatherReference(entries, |entries|);
    assert entries[..|entries|] == entries;
  }

  /** An empty dictionary gives an empty text and no options. */
  lemma EmptyEvaluation()
    ensures ParseEvaluation([]) == Parsed("", [])
  {
    assert Linkify("") == "";
    StripOfStripped(Py, "");
  }

  /** Options come out in dictionary order: those of a front part, then those of the rest. */
  lemma OptionsInOrder(a: seq<Entry>, b: seq<Entry>)
    ensures ParseEvaluation(a + b).options == ParseEvaluation(a).options + ParseEvaluation(b).options
  {
    ParseReference(a + b);
    ParseReference(a);
    ParseReference(b);
    OptionsOfAppend(a, b);
  }

  /** An entry that contributes nothing can be dropped from the reference lists. */
  lemma SkipSilentEntry(a: seq<Entry>, x: Entry, b: seq<Entry>)
    requires !x.val.VStr? && !x.val.VList? && !x.val.VDict?
    ensures MainOf(a + [x] + b) == MainOf(a + b)
    ensures OptionsOf(a + [x] + b) == OptionsOf(a + b)
  {
    var ax := a + [x];
    SingleEntry(x);
    MainOfAppend(a, [x]);
    assert MainOf(ax) == MainOf(a);
    OptionsOfAppend(a, [x]);
    assert OptionsOf(ax) == OptionsOf(a);
    MainOfAppend(ax, b);
    OptionsOfAppend(ax, b);
    MainOfAppend(a, b);
    OptionsOfAppend(a, b);
  }

  /** A value that is neither a string, a list nor a dictionary changes nothing. */
  lemma OtherValueIgnored(a: seq<Entry>, key: string, b: seq<Entry>)
    ensures ParseEvaluation(a + [Entry(key, VOther)] + b) == ParseEvaluation(a + b)
  {
    ParseReference(a + [Entry(key, VOther)] + b);
    ParseReference(a + b);
    SkipSilentEntry(a, Entry(key, VOther), b);
  }

  /** A dictionary holding one string gives that string stripped and cleaned. */
  lemma SingleText(key: string, s: string)
    ensures ParseEvaluation([Entry(key, VStr(s))]).llmOutput == Finish(Strip(Py, s))
  {
    var e := Entry(key, VStr(s));
    ParseReference([e]);
    SingleEntry(e);
  }

  /** A dictionary holding one nested dictionary cleans the nested text once more. */
  lemma SingleNested(key: string, inner: seq<Entry>)
    ensures ParseEvaluation([Entry(key, VDict(inner))]).llmOutput == Finish(ParseEvaluation(inner).llmOutput)
  {
    var e := Entry(key, VDict(inner));
    ParseReference([e]);
    SingleEntry(e);
  }

  /**
   * A URL inside a nested dictionary is rewritten twice: once by the inner call and once more by
   * the outer one, which turns the link into a different, doubly nested one. At top level the same
   * URL is rewritten once.
   */
  lemma NestedUrlWrappedTwice(u: string, outerKey: string, innerKey: string)
    requires |u| > 0 && UrlMatchLen(u) == |u|
    ensures ParseEvaluation([Entry(innerKey, VStr(u))]).llmOutput == Linkify(u)
    ensures ParseEvaluation([Entry(outerKey, VDict([Entry(innerKey, VStr(u))]))]).llmOutput
            == Linkify(Linkify(u))
    ensures Linkify(Linkify(u)) != Linkify(u)
  {
    var inner := [Entry(innerKey, VStr(u))];
    assert NoSpace(u);
    StripOfStripped(Py, u);
    SingleText(innerKey, u);
    FinishNoSpace(u);
    LinkifyNoSpace(u);
    SingleNested(outerKey, inner);
    FinishNoSpace(Linkify(u));
    LinkifyNotIdempotent(u);
  }

  // ---------------------------------------------------------------------------------------------
  // get_response_evaluation: one stored answer per guideline name
  // ---------------------------------------------------------------------------------------------

  /** One entry of the guidelines document: a criteria name and its guideline texts. */
  datatype Category = Category(name: string, guidelines: seq<string>)

  const EvaluationErrorPrefix: string := "Error during evaluation: "

  /** The key a guideline is stored under, `query.split(':')[0]`. */
  function Name(query: string): (r: string)
    ensures ':' !in r
    ensures ':' !in query ==> r == query
    ensures ':' in query ==> |r| < |query| && query[..|r|] == r && query[|r|] == ':'
  {
    SplitHead(query, ':');
    Split(query, ':')[0]
  }

  /** The value stored for one guideline: the chain's answer, or the error text when it raised. */
  function Stored(answer: Result<string>): (r: string)
    ensures answer.Ok? ==> r == answer.value
    ensures answer.Err? ==> r == EvaluationErrorPrefix + answer.error
  {
    match answer
    case Ok(text) => text
    case Err(e) => EvaluationErrorPrefix + e
  }

  /** The keys of a dictionary, in insertion order. */
  function Keys(d: seq<Entry>): seq<string>
  {
    if d == [] then [] else [d[0].key] + Keys(d[1..])
  }

  /** `d.get(k)`. */
  function Lookup(d: seq<Entry>, k: string): (r: Option<Value>)
    ensures r.Some? <==> k in Keys(d)
  {
    if d == [] then None else if d[0].key == k then Some(d[0].val) else Lookup(d[1..], k)
  }

  /** `d[k] = v`: an existing key keeps its place and gets the new value; a new key goes last. */
  function Put(d: seq<Entry>, k: string, v: Value): (r: seq<Entry>)
    ensures |r| == if k in Keys(d) then |d| else |d| + 1
  {
    if d == [] then [Entry(k, v)]
    else if d[0].key == k then [Entry(k, v)] + d[1..]
    else [d[0]] + Put(d[1..], k, v)
  }

  /** The keys after `d[k] = v`: unchanged when `k` was present, `k` appended otherwise. */
  lemma {:induction false} PutKeys(d: seq<Entry>, k: string, v: Value)
    ensures Keys(Put(d, k, v)) == if k in Keys(d) then Keys(d) else Keys(d) + [k]
    decreases |d|
  {
    if d != [] && d[0].key != k {
      PutKeys(d[1..], k, v);
    }
  }

  /** After `d[k] = v`, `k` holds `v` and every other key holds what it held before. */
  lemma {:induction false} PutLookup(d: seq<Entry>, k: string, v: Value, k': string)
    ensures Lookup(Put(d, k, v), k') == if k' == k then Some(v) else Lookup(d, k')
    decreases |d|
  {
    if d != [] && d[0].key != k {
      PutLookup(d[1..], k, v, k');
    }
  }

  /** `d[k] = v` adds no value other than `v`. */
  lemma {:induction false} PutValues(d: seq<Entry>, k: string, v: Value)
    ensures forall e :: e in Put(d, k, v) ==> e in d || e == Entry(k, v)
    decreases |d|
  {
    if d != [] && d[0].key != k {
      PutValues(d[1..], k, v);
    }
  }

  /** The guidelines of the first `n` categories, in document order. */
  function QueriesUpTo(categories: seq<Category>, n: nat): seq<string>
    requires n <= |categories|
  {
    if n == 0 then [] else QueriesUpTo(categories, n - 1) + categories[n - 1].guidelines
  }

  /** Every guideline of every category, in document order. */
  function Queries(categories: seq<Category>): seq<string>
  {
    QueriesUpTo(categories, |categories|)
  }

  /** The guidelines of fewer categories are a prefix of those of more. */
  lemma {:induction false} QueriesPrefix(categories: seq<Category>, i: nat, n: nat)
    requires i <= n <= |categories|
    ensures |QueriesUpTo(categories, i)| <= |QueriesUpTo(categories, n)|
    ensures QueriesUpTo(categories, n)[..|QueriesUpTo(categories, i)|] == QueriesUpTo(categories, i)
    decreases n
  {
    if i < n {
      QueriesPrefix(categories, i, n - 1);
      var p := QueriesUpTo(categories, n - 1);
      assert (p + categories[n - 1].guidelines)[..|p|] == p;
    }
  }

  /** The guidelines of category `i` follow those of the categories before it among all guidelines. */
  lemma CategoryQueries(categories: seq<Category>, i: nat, queries: seq<string>, k: nat, masterValue: seq<string>)
    requires i < |categories| && queries == Queries(categories) && masterValue == categories[i].guidelines
    requires k == |QueriesUpTo(categories, i)|
    ensures k + |masterValue| == |QueriesUpTo(categories, i + 1)| <= |queries|
    ensures forall j :: 0 <= j < |masterValue| ==> queries[k + j] == masterValue[j]
  {
    QueriesPrefix(categories, i + 1, |categories|);
    assert queries[..k + |masterValue|] == QueriesUpTo(categories, i) + masterValue;
    forall j | 0 <= j < |masterValue| ensures queries[k + j] == masterValue[j] {
      assert queries[k + j] == queries[..k + |masterValue|][k + j];
    }
  }

  /** `evaluation_results` once the answers to the first `n` guidelines are stored. */
  function ResultsUpTo(queries: seq<string>, answers: seq<Result<string>>, n: nat): seq<Entry>
    requires n <= |queries| == |answers|
  {
    if n == 0 then []
    else Put(ResultsUpTo(queries, answers, n - 1), Name(queries[n - 1]), VStr(Stored(answers[n - 1])))
  }

  /** Storing one more answer puts it under its guideline's name. */
  lemma ResultsStep(queries: seq<string>, answers: seq<Result<string>>, n: nat)
    requires n < |queries| == |answers|
    ensures ResultsUpTo(queries, answers, n + 1) == Put(ResultsUpTo(queries, answers, n), Name(queries[n]), VStr(Stored(answers[n])))
  {
  }

  /** `evaluation_results` once every answer is stored. */
  function Results(queries: seq<string>, answers: seq<Result<string>>): seq<Entry>
    requires |queries| == |answers|
  {
    ResultsUpTo(queries, answers, |queries|)
  }

  /**
   * The inner loop of `get_response_evaluation` over one category's guidelines, which are the
   * guidelines `from` onwards of the whole document: each answer (or error text) is stored under
   * its guideline's name.
   */
  method StoreGuidelines(evaluationResults: seq<Entry>, ghost queries: seq<string>, answers: seq<Result<string>>,
                         from: nat, masterValue: seq<string>, ghost to: nat)
    returns (r: seq<Entry>)
    requires |queries| == |answers| && to == from + |masterValue| <= |queries|
    requires forall j :: 0 <= j < |masterValue| ==> queries[from + j] == masterValue[j]
    requires evaluationResults == ResultsUpTo(queries, answers, from)
    ensures r == ResultsUpTo(queries, answers, to)
  {
    r := evaluationResults;
    var j := 0;
    while j < |masterValue|
      invariant 0 <= j <= |masterValue|
      invariant r == ResultsUpTo(queries, answers, from + j)
    {
      var query := masterValue[j];
      ghost var n := from + j;
      ResultsStep(queries, answers, n);
      assert queries[n] == query;
      r := Put(r, Name(query), VStr(Stored(answers[from + j])));
      assert r == ResultsUpTo(queries, answers, n + 1);
      j := j + 1;
    }
  }

  /** One pass of the outer loop of `get_response_evaluation`: the guidelines of category `i`. */
  method StoreCategory(evaluationResults: seq<Entry>, guidelinesFile: seq<Category>, answers: seq<Result<string>>,
                       i: nat, k: nat)
    returns (r: seq<Entry>, next: nat)
    requires i < |guidelinesFile| && |answers| == |Queries(guidelinesFile)|
    requires k == |QueriesUpTo(guidelinesFile, i)| <= |Queries(guidelinesFile)|
    requires evaluationResults == ResultsUpTo(Queries(guidelinesFile), answers, k)
    ensures next == |QueriesUpTo(guidelinesFile, i + 1)| <= |Queries(guidelinesFile)|
    ensures r == ResultsUpTo(Queries(guidelinesFile), answers, next)
  {
    ghost var queries := Queries(guidelinesFile);
    var masterValue := guidelinesFile[i].guidelines;
    CategoryQueries(guidelinesFile, i, queries, k, masterValue);
    next := k + |masterValue|;
    r := StoreGuidelines(evaluationResults, queries, answers, k, masterValue, next);
  }

  /**
   * The nested loops of `get_response_evaluation`: for each category and each of its guidelines,
   * store the answer (or the error text) under the guideline's name, then parse the results.
   * `answers` holds what the retrieval chain returns for each guideline in turn.
   */
  method GetResponseEvaluation(guidelinesFile: seq<Category>, answers: seq<Result<string>>)
    returns (parsed: Parsed)
    requires |answers| == |Queries(guidelinesFile)|
    ensures parsed == ParseEvaluation(Results(Queries(guidelinesFile), answers))
  {
    ghost var queries := Queries(guidelinesFile);
    var evaluationResults: seq<Entry> := [];
    var k := 0;
    var i := 0;
    while i < |guidelinesFile|
      invariant 0 <= i <= |guidelinesFile|
      invariant k == |QueriesUpTo(guidelinesFile, i)| <= |queries|
      invariant evaluationResults == ResultsUpTo(queries, answers, k)
    {
      evaluationResults, k := StoreCategory(evaluationResults, guidelinesFile, answers, i, k);
      i := i + 1;
    }
    parsed := ParseEvaluationResponse(evaluationResults);
  }

  // ---------------------------------------------------------------------------------------------
  // What the stored results hold
  // ---------------------------------------------------------------------------------------------

  ghost predicate Distinct(ks: seq<string>)
  {
    forall i, j :: 0 <= i < j < |ks| ==> ks[i] != ks[j]
  }

  /** The names in order of first appearance, each once. */
  function Dedup(ks: seq<string>): (r: seq<string>)
    ensures Distinct(r)
    ensures forall x :: x in r <==> x in ks
  {
    if ks == [] then []
    else
      var p := Dedup(ks[..|ks| - 1]);
      var last := ks[|ks| - 1];
      assert ks == ks[..|ks| - 1] + [last];
      if last in p then p else p + [last]
  }

  /** The guideline names, one per guideline. */
  function Names(queries: seq<string>): (r: seq<string>)
    ensures |r| == |queries|
  {
    seq(|queries|, i requires 0 <= i < |queries| => Name(queries[i]))
  }

  lemma {:induction false} ResultsKeysUpTo(queries: seq<string>, answers: seq<Result<string>>, n: nat)
    requires n <= |queries| == |answers|
    ensures Keys(ResultsUpTo(queries, answers, n)) == Dedup(Names(queries)[..n])
    decreases n
  {
    if n > 0 {
      ResultsKeysUpTo(queries, answers, n - 1);
      PutKeys(ResultsUpTo(queries, answers, n - 1), Name(queries[n - 1]), VStr(Stored(answers[n - 1])));
      var ns := Names(queries)[..n];
      assert ns[..n - 1] == Names(queries)[..n - 1];
      assert ns[n - 1] == Name(queries[n - 1]);
    }
  }

  /**
   * The results dictionary has one key per distinct guideline name, in the order in which the
   * names first appear: a later guideline with a name already stored keeps that name's place.
   */
  lemma ResultsKeys(queries: seq<string>, answers: seq<Result<string>>)
    requires |queries| == |answers|
    ensures Keys(Results(queries, answers)) == Dedup(Names(queries))
    ensures Distinct(Keys(Results(queries, answers)))
  {
    ResultsKeysUpTo(queries, answers, |queries|);
    assert Names(queries)[..|queries|] == Names(queries);
  }

  /** A name has a stored result exactly when some guideline has that name. */
  lemma ResultsHaveNames(queries: seq<string>, answers: seq<Result<string>>, name: string)
    requires |queries| == |answers|
    ensures Lookup(Results(queries, answers), name).Some? <==> exists i :: 0 <= i < |queries| && Name(queries[i]) == name
  {
    ResultsKeys(queries, answers);
    var ns := Names(queries);
    if exists i :: 0 <= i < |queries| && Name(queries[i]) == name {
      var i :| 0 <= i < |queries| && Name(queries[i]) == name;
      assert ns[i] == name;
    }
    if name in ns {
      var i :| 0 <= i < |ns| && ns[i] == name;
      assert Name(queries[i]) == name;
    }
  }

  lemma {:induction false} LastWinsUpTo(queries: seq<string>, answers: seq<Result<string>>, i: nat, n: nat)
    requires i < n <= |queries| == |answers|
    requires forall j :: i < j < n ==> Name(queries[j]) != Name(queries[i])
    ensures Lookup(ResultsUpTo(queries, answers, n), Name(queries[i])) == Some(VStr(Stored(answers[i])))
    decreases n
  {
    var d := ResultsUpTo(queries, answers, n - 1);
    PutLookup(d, Name(queries[n - 1]), VStr(Stored(answers[n - 1])), Name(queries[i]));
    if i < n - 1 {
      LastWinsUpTo(queries, answers, i, n - 1);
    }
  }

  /**
   * The value stored under a name is the answer (or error text) of the last guideline with that
   * name: a later guideline with the same name overwrites the earlier result.
   */
  lemma ResultsLastWins(queries: seq<string>, answers: seq<Result<string>>, i: nat)
    requires i < |queries| == |answers|
    requires forall j :: i < j < |queries| ==> Name(queries[j]) != Name(queries[i])
    ensures Lookup(Results(queries, answers), Name(queries[i])) == Some(VStr(Stored(answers[i])))
  {
    LastWinsUpTo(queries, answers, i, |queries|);
  }

  lemma {:induction false} ResultsTextUpTo(queries: seq<string>, answers: seq<Result<string>>, n: nat)
    requires n <= |queries| == |answers|
    ensures forall e :: e in ResultsUpTo(queries, answers, n) ==> e.val.VStr?
    decreases n
  {
    if n > 0 {
      ResultsTextUpTo(queries, answers, n - 1);
      PutValues(ResultsUpTo(queries, answers, n - 1), Name(queries[n - 1]), VStr(Stored(answers[n - 1])));
    }
  }

  lemma {:induction false} OptionsOfText(d: seq<Entry>)
    requires forall e :: e in d ==> e.val.VStr?
    ensures OptionsOf(d) == []
    decreases |d|
  {
    if d != [] {
      assert d[0] in d;
      assert forall e :: e in d[1..] ==> e in d;
      OptionsOfText(d[1..]);
    }
  }

  /** Every stored value is a string, so the evaluation never has options. */
  lemma EvaluationHasNoOptions(guidelinesFile: seq<Category>, answers: seq<Result<string>>)
    requires |answers| == |Queries(guidelinesFile)|
    ensures ParseEvaluation(Results(Queries(guidelinesFile), answers)).options == []
  {
    var d := Results(Queries(guidelinesFile), answers);
    ResultsTextUpTo(Queries(guidelinesFile), answers, |answers|);
    OptionsOfText(d);
    ParseReference(d);
  }
}
