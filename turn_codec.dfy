/**
 * The chat-turn response codec of the text-generation service: splitting a model answer into the
 * main content and the follow-up questions, rewriting links to Markdown, and the query templates.
 */
module TurnCodec {
  import opened Common
  import opened Text

  /** The phrase separating the answer from the suggested follow-up questions. */
  const Delimiter: string := "You might have the following questions:"

  /** A formatted turn as the service returns it: `llm_output` and `options`. */
  datatype LlmOutput = LlmOutput(llmOutput: string, options: seq<string>)

  /**
   * The two groups of the greedy pattern `(.*)DELIMITER(.*)` searched with DOTALL: the text before
   * and after the LAST occurrence of the delimiter, or nothing when it does not occur.
   */
  function MatchDelimiter(response: string): (r: Option<(string, string)>)
    ensures r.None? <==> !Contains(response, Delimiter)
    ensures r.Some? ==> response == r.value.0 + Delimiter + r.value.1
    ensures r.Some? ==> !Contains(r.value.1, Delimiter)
  {
    match FindLast(response, Delimiter)
    case None => None
    case Some(i) =>
      CutAtLast(response, i);
      Some((response[..i], response[i + |Delimiter|..]))
  }

  /** Cutting out the last delimiter leaves the text around it, and no delimiter after it. */
  lemma CutAtLast(response: string, i: nat)
    requires OccursAt(response, Delimiter, i) && forall j :: i < j ==> !OccursAt(response, Delimiter, j)
    ensures response == response[..i] + Delimiter + response[i + |Delimiter|..]
    ensures !Contains(response[i + |Delimiter|..], Delimiter)
  {
    var before, after := response[..i], response[i + |Delimiter|..];
    assert response == before + Delimiter + after by {
      assert response[i..i + |Delimiter|] == Delimiter;
    }
    forall k | 0 <= k <= |after| ensures !OccursAt(after, Delimiter, k) {
      assert !OccursAt(response, Delimiter, i + |Delimiter| + k);
      if k + |Delimiter| <= |after| {
        assert after[k..k + |Delimiter|] == response[i + |Delimiter| + k..i + |Delimiter| + k + |Delimiter|];
      }
    }
  }

  /** Only the first character of the delimiter is a capital Y, so it cannot overlap itself. */
  lemma DelimiterSingleY()
    ensures Delimiter[0] == 'Y'
    ensures forall k :: 1 <= k < |Delimiter| ==> Delimiter[k] != 'Y'
  {
  }

  /** A text without a capital Y contains no delimiter. */
  lemma NoYNoDelimiter(s: string)
    requires 'Y' !in s
    ensures !Contains(s, Delimiter)
  {
    forall k | 0 <= k <= |s| ensures !OccursAt(s, Delimiter, k) {
      if k + |Delimiter| <= |s| {
        assert s[k..k + |Delimiter|][0] == s[k] != 'Y';
      }
    }
  }

  /**
   * Any decomposition `before + DELIMITER + after` whose tail has no delimiter is the one the
   * pattern finds: the earlier text may itself contain the delimiter.
   */
  lemma {:induction false} MatchDelimiterUnique(before: string, after: string)
    requires !Contains(after, Delimiter)
    ensures MatchDelimiter(before + Delimiter + after) == Some((before, after))
  {
    var response := before + Delimiter + after;
    assert OccursAt(response, Delimiter, |before|) by {
      assert response[|before|..|before| + |Delimiter|] == Delimiter;
    }
    NoDelimiterInside(before, after);
    NoDelimiterInTail(before, after);
    FindLastAt(response, Delimiter, |before|);
    assert response[..|before|] == before;
    assert response[|before| + |Delimiter|..] == after;
  }

  /** No delimiter starts inside the delimiter that follows `before`. */
  lemma NoDelimiterInside(before: string, after: string)
    ensures forall j :: |before| < j < |before| + |Delimiter| ==> !OccursAt(before + Delimiter + after, Delimiter, j)
  {
    var response := before + Delimiter + after;
    DelimiterSingleY();
    forall j | |before| < j < |before| + |Delimiter| ensures !OccursAt(response, Delimiter, j) {
      assert response[j] == Delimiter[j - |before|] != 'Y';
      if j + |Delimiter| <= |response| {
        assert response[j..j + |Delimiter|][0] == response[j];
      }
    }
  }

  /** No delimiter starts in a tail that holds none. */
  lemma NoDelimiterInTail(before: string, after: string)
    requires !Contains(after, Delimiter)
    ensures forall j :: |before| + |Delimiter| <= j ==> !OccursAt(before + Delimiter + after, Delimiter, j)
  {
    var response := before + Delimiter + after;
    forall j | |before| + |Delimiter| <= j ensures !OccursAt(response, Delimiter, j) {
      var k := j - |before| - |Delimiter|;
      assert !OccursAt(after, Delimiter, k);
      if j + |Delimiter| <= |response| {
        assert after[k..k + |Delimiter|] == response[j..j + |Delimiter|];
      }
    }
  }

  /**
   * `re.split(r'\?\s*(?=\S|$)', text)`: cut at every question mark, dropping the question mark and
   * the whitespace run after it (the look-ahead always holds once that run is consumed).
   */
  function QuestionPieces(text: string): (r: seq<string>)
    ensures |r| >= 1
    ensures forall k :: 0 <= k < |r| ==> '?' !in r[k]
    ensures '\n' !in text ==> forall k :: 0 <= k < |r| ==> '\n' !in r[k]
    decreases |text|
  {
    match IndexOfChar(text, '?')
    case None => [text]
    case Some(i) =>
      var rest := LStrip(Py, text[i + 1..]);
      LStripSuffix(Py, text[i + 1..]);
      NotInSlice(text, i + 1 + |text[i + 1..]| - |rest|, '\n');
      NotInSlice(text, 0, '\n');
      assert rest == text[i + 1 + |text[i + 1..]| - |rest|..];
      [text[..i]] + QuestionPieces(rest)
  }

  lemma NotInSlice(s: string, k: nat, c: char)
    requires k <= |s|
    ensures c !in s ==> c !in s[k..] && c !in s[..k]
  {
    if c !in s {
      forall j | 0 <= j < |s| - k ensures s[k..][j] != c {
        assert s[k..][j] == s[k + j];
      }
      forall j | 0 <= j < k ensures s[..k][j] != c {}
    }
  }

  /** Non-blank pieces, stripped, with their question mark put back. */
  function KeepQuestions(pieces: seq<string>): (r: seq<string>)
    ensures |r| <= |pieces|
  {
    if |pieces| == 0 then []
    else
      var q := Strip(Py, pieces[0]);
      (if q != "" then [q + "?"] else []) + KeepQuestions(pieces[1..])
  }

  /** The follow-up questions of the questions section (newlines removed, split, cleaned). */
  function Options(questionsText: string): seq<string>
  {
    KeepQuestions(QuestionPieces(RemoveChar(questionsText, '\n')))
  }

  /** What every option looks like: non-blank stripped text without `?` or newline, then one `?`. */
  predicate WellFormedOption(o: string)
  {
    |o| >= 2 && o[|o| - 1] == '?' && '?' !in o[..|o| - 1] && '\n' !in o && IsStripped(Py, o[..|o| - 1])
  }

  lemma {:induction false} KeepQuestionsWellFormed(pieces: seq<string>)
    requires forall k :: 0 <= k < |pieces| ==> '?' !in pieces[k] && '\n' !in pieces[k]
    ensures forall k :: 0 <= k < |KeepQuestions(pieces)| ==> WellFormedOption(KeepQuestions(pieces)[k])
  {
    if |pieces| > 0 {
      KeepQuestionsWellFormed(pieces[1..]);
      var q := Strip(Py, pieces[0]);
      if q != "" {
        StripChars(Py, pieces[0]);
        assert (q + "?")[..|q|] == q;
        assert KeepQuestions(pieces) == [q + "?"] + KeepQuestions(pieces[1..]);
      }
    }
  }

  lemma {:induction false} CountSuffix(s: string, k: nat, c: char)
    requires k <= |s|
    ensures Count(s[k..], c) <= Count(s, c)
  {
    assert s == s[..k] + s[k..];
    CountAppend(s[..k], s[k..], c);
  }

  lemma {:induction false} QuestionPiecesCount(text: string)
    ensures |QuestionPieces(text)| <= Count(text, '?') + 1
    decreases |text|
  {
    match IndexOfChar(text, '?')
    case None =>
    case Some(i) =>
      var tail := text[i + 1..];
      var rest := LStrip(Py, tail);
      QuestionPiecesCount(rest);
      LStripSuffix(Py, tail);
      CountSuffix(tail, |tail| - |rest|, '?');
      CountAround(text, i);
  }

  lemma {:induction false} CountAround(text: string, i: nat)
    requires i < |text| && text[i] == '?'
    ensures Count(text, '?') == Count(text[..i], '?') + 1 + Count(text[i + 1..], '?')
  {
    var before, mark, after := text[..i], [text[i]], text[i + 1..];
    assert text == before + (mark + after);
    CountAppend(before, mark + after, '?');
    CountAppend(mark, after, '?');
    assert mark[1..] == [];
  }

  lemma {:induction false} CountRemoveOther(s: string, c: char, d: char)
    requires c != d
    ensures Count(RemoveChar(s, d), c) == Count(s, c)
    decreases |s|
  {
    if |s| > 0 {
      CountRemoveOther(s[1..], c, d);
      var head := if s[0] == d then [] else [s[0]];
      CountAppend(head, RemoveChar(s[1..], d), c);
    }
  }

  /**
   * Every option is a non-blank, stripped question without newline or inner `?`, ending in one `?`;
   * there are at most one more options than question marks in the questions section.
   */
  lemma OptionsShape(questionsText: string)
    ensures forall k :: 0 <= k < |Options(questionsText)| ==> WellFormedOption(Options(questionsText)[k])
    ensures |Options(questionsText)| <= Count(questionsText, '?') + 1
  {
    var t := RemoveChar(questionsText, '\n');
    KeepQuestionsWellFormed(QuestionPieces(t));
    QuestionPiecesCount(t);
    CountRemoveOther(questionsText, '?', '\n');
  }

  /** Questions as a model writes them after the delimiter: `Q1? Q2? Q3?`. */
  function RenderQuestions(qs: seq<string>): string
  {
    Join(" ", QuestionsWithMarks(qs))
  }

  function QuestionsWithMarks(qs: seq<string>): (r: seq<string>)
    ensures |r| == |qs|
    ensures forall k :: 0 <= k < |qs| ==> r[k] == qs[k] + "?"
  {
    if |qs| == 0 then [] else [qs[0] + "?"] + QuestionsWithMarks(qs[1..])
  }

  /** A question as the service can hand it back: non-blank, stripped, no `?` and no newline. */
  predicate PlainQuestion(q: string)
  {
    q != "" && IsStripped(Py, q) && '?' !in q && '\n' !in q
  }

  predicate AllPlain(qs: seq<string>)
  {
    |qs| == 0 || (PlainQuestion(qs[0]) && AllPlain(qs[1..]))
  }

  lemma {:induction false} RenderStep(qs: seq<string>)
    requires |qs| >= 1
    ensures |qs| == 1 ==> RenderQuestions(qs) == qs[0] + "?"
    ensures |qs| > 1 ==> RenderQuestions(qs) == qs[0] + "?" + (" " + RenderQuestions(qs[1..]))
  {
    if |qs| > 1 {
      assert QuestionsWithMarks(qs)[1..] == QuestionsWithMarks(qs[1..]);
    }
  }

  lemma {:induction false} PiecesStep(q: string, rest: string)
    requires '?' !in q
    ensures QuestionPieces(q + "?" + rest) == [q] + QuestionPieces(LStrip(Py, rest))
  {
    var text := q + "?" + rest;
    assert text[..|q|] == q && text[|q|] == '?';
    IndexOfCharUnique(text, '?', |q|);
    assert text[|q| + 1..] == rest;
  }

  lemma {:induction false} SpaceThenText(tail: string)
    requires tail != [] && !IsSpace(Py, tail[0])
    ensures LStrip(Py, " " + tail) == tail
  {
    assert (" " + tail)[1..] == tail;
    LStripOfStripped(Py, tail);
  }

  lemma {:induction false} QuestionPiecesOfRendered(qs: seq<string>)
    requires |qs| >= 1
    requires AllPlain(qs)
    ensures QuestionPieces(RenderQuestions(qs)) == qs + [""]
    decreases |qs|
  {
    RenderStep(qs);
    if |qs| == 1 {
      PiecesOne(qs[0]);
      assert qs + [""] == [qs[0], ""];
    } else {
      QuestionPiecesOfRendered(qs[1..]);
      var tail := RenderQuestions(qs[1..]);
      RenderedHead(qs[1..]);
      PiecesCons(qs[0], tail, qs[1..] + [""]);
      ConsAppend(qs, "");
    }
  }

  lemma {:induction false} PiecesOne(q: string)
    requires '?' !in q
    ensures QuestionPieces(q + "?") == [q, ""]
  {
    var text := q + "?";
    assert text[..|q|] == q && text[|q|] == '?';
    IndexOfCharUnique(text, '?', |q|);
    assert text[|q| + 1..] == "";
    assert LStrip(Py, "") == "";
    assert QuestionPieces("") == [""];
  }

  lemma {:induction false} PiecesCons(q: string, tail: string, rest: seq<string>)
    requires '?' !in q
    requires tail != [] && !IsSpace(Py, tail[0])
    requires QuestionPieces(tail) == rest
    ensures QuestionPieces(q + "?" + (" " + tail)) == [q] + rest
  {
    PiecesStep(q, " " + tail);
    SpaceThenText(tail);
  }

  lemma {:induction false} RenderedHead(qs: seq<string>)
    requires |qs| >= 1 && AllPlain(qs)
    ensures RenderQuestions(qs) != [] && !IsSpace(Py, RenderQuestions(qs)[0])
  {
    QuestionsStripped(qs);
    JoinEnds(QuestionsWithMarks(qs));
  }

  lemma {:induction false} KeepQuestionsOfPlain(qs: seq<string>)
    requires AllPlain(qs)
    ensures KeepQuestions(qs + [""]) == QuestionsWithMarks(qs)
    decreases |qs|
  {
    if |qs| == 0 {
      assert Strip(Py, "") == "";
    } else {
      StripOfStripped(Py, qs[0]);
      assert (qs + [""])[1..] == qs[1..] + [""];
      KeepQuestionsOfPlain(qs[1..]);
    }
  }

  /** Round trip: questions rendered as `Q1? Q2? ...` are recovered as the options, in order. */
  lemma {:induction false} OptionsOfRendered(qs: seq<string>)
    requires AllPlain(qs)
    ensures Options(RenderQuestions(qs)) == QuestionsWithMarks(qs)
  {
    var text := RenderQuestions(qs);
    RenderNoNewline(qs);
    RemoveCharAbsent(text, '\n');
    if |qs| == 0 {
      assert QuestionPieces("") == [""];
      assert Strip(Py, "") == "";
    } else {
      QuestionPiecesOfRendered(qs);
      KeepQuestionsOfPlain(qs);
    }
  }

  lemma {:induction false} RenderNoNewline(qs: seq<string>)
    requires AllPlain(qs)
    ensures '\n' !in RenderQuestions(qs)
    decreases |qs|
  {
    if |qs| > 0 {
      RenderStep(qs);
      if |qs| > 1 {
        RenderNoNewline(qs[1..]);
      }
    }
  }

  /** Length of the maximal leading run of non-whitespace characters. */
  function NonSpaceRun(s: string): (n: nat)
    ensures n <= |s|
    ensures forall i :: 0 <= i < n ==> !IsSpace(Py, s[i])
    ensures n == |s| || IsSpace(Py, s[n])
  {
    if |s| == 0 || IsSpace(Py, s[0]) then 0 else 1 + NonSpaceRun(s[1..])
  }

  /** Length of a match of `https?://[^\s]+` at the start of `s`, or 0 when there is none. */
  function UrlMatchLen(s: string): (n: nat)
    ensures n <= |s|
    ensures n > 0 ==> n > 7 && (s[..7] == "http://" || s[..8] == "https://")
    ensures n > 0 ==> (forall i :: 0 <= i < n ==> !IsSpace(Py, s[i])) && (n == |s| || IsSpace(Py, s[n]))
  {
    var p := if |s| >= 8 && s[..8] == "https://" then 8 else if |s| >= 7 && s[..7] == "http://" then 7 else 0;
    if p > 0 && p < |s| && !IsSpace(Py, s[p]) then
      assert forall i :: 0 <= i < p ==> !IsSpace(Py, s[i]) by {
        forall i | 0 <= i < p ensures !IsSpace(Py, s[i]) {
          assert s[i] == s[..p][i];
        }
      }
      var n := p + NonSpaceRun(s[p..]);
      assert forall i :: p <= i < n ==> s[i] == s[p..][i - p];
      n
    else 0
  }

  /** `re.sub(r"https?://[^\s]+", "[url](url)", s)`: each URL becomes a Markdown link to itself. */
  function Linkify(s: string): string
    decreases |s|
  {
    if |s| == 0 then ""
    else
      var n := UrlMatchLen(s);
      if n > 0 then "[" + s[..n] + "](" + s[..n] + ")" + Linkify(s[n..]) else [s[0]] + Linkify(s[1..])
  }

  lemma ContainsSuffix(s: string, pat: string, k: nat)
    requires k <= |s|
    requires Contains(s[k..], pat)
    ensures Contains(s, pat)
  {
    var j :| 0 <= j <= |s[k..]| && OccursAt(s[k..], pat, j);
    assert s[k + j..k + j + |pat|] == s[k..][j..j + |pat|];
    assert OccursAt(s, pat, k + j);
  }

  /** Text without `http://` or `https://` passes through the link rewrite unchanged. */
  lemma {:induction false} LinkifyWithoutUrl(s: string)
    requires !Contains(s, "http://") && !Contains(s, "https://")
    ensures Linkify(s) == s
    decreases |s|
  {
    if |s| > 0 {
      if UrlMatchLen(s) > 0 {
        if s[..7] == "http://" {
          assert OccursAt(s, "http://", 0);
        } else {
          assert OccursAt(s, "https://", 0);
        }
      }
      if Contains(s[1..], "http://") { ContainsSuffix(s, "http://", 1); }
      if Contains(s[1..], "https://") { ContainsSuffix(s, "https://", 1); }
      LinkifyWithoutUrl(s[1..]);
      assert s == [s[0]] + s[1..];
    }
  }

  /** At `http://` followed by a non-blank character the match runs to the next whitespace. */
  lemma {:induction false} UrlAtHttp(s: string)
    requires |s| > 7 && s[..7] == "http://" && !IsSpace(Py, s[7])
    ensures UrlMatchLen(s) == 7 + NonSpaceRun(s[7..])
  {
    assert s[4] == s[..7][4] == ':';
    if |s| >= 8 {
      assert s[..8][4] == s[4];
      assert "https://"[4] == 's';
    }
  }

  /** No match starts at a character other than `h`. */
  lemma {:induction false} NoUrlWithoutH(s: string)
    requires |s| > 0 && s[0] != 'h'
    ensures UrlMatchLen(s) == 0
  {
    if |s| >= 7 {
      assert s[..7][0] == s[0];
    }
    if |s| >= 8 {
      assert s[..8][0] == s[0];
    }
  }

  /** A bare URL becomes a Markdown link whose text and target are the URL. */
  lemma {:induction false} LinkifyBareUrl()
    ensures Linkify("http://a") == "[http://a](http://a)"
  {
    var s := "http://a";
    assert s[..7] == "http://" && s[7] == 'a';
    UrlAtHttp(s);
    assert s[7..] == "a";
    assert NonSpaceRun("a") == 1 by {
      assert "a"[1..] == "";
    }
    LinkifyWhole(s);
  }

  /** A text that is one URL match from start to end becomes a single Markdown link. */
  lemma {:induction false} LinkifyWhole(s: string)
    requires |s| > 0 && UrlMatchLen(s) == |s|
    ensures Linkify(s) == "[" + s + "](" + s + ")"
  {
    assert s[..|s|] == s && s[|s|..] == "";
  }

  /** The rewrite never shortens a text, and it lengthens every text that starts with a URL. */
  lemma {:induction false} LinkifyLength(s: string)
    ensures |Linkify(s)| >= |s|
    ensures UrlMatchLen(s) > 0 ==> |Linkify(s)| > |s|
    decreases |s|
  {
    if |s| > 0 {
      var n := UrlMatchLen(s);
      if n > 0 {
        LinkifyLength(s[n..]);
      } else {
        LinkifyLength(s[1..]);
      }
    }
  }

  /** A URL match at the start of `u` is still one when more text follows. */
  lemma {:induction false} UrlMatchExtends(u: string, v: string)
    requires UrlMatchLen(u) > 0
    ensures UrlMatchLen(u + v) > 0
  {
    var s := u + v;
    assert s[..7] == u[..7];
    assert s[..8] == u[..8];
    assert s[7] == u[7];
    if |u| > 8 {
      assert s[8] == u[8];
    }
  }

  /**
   * The link rewrite is not idempotent: rewriting the link made from a bare URL nests it again,
   * because the URL run extends to the next whitespace and swallows the Markdown punctuation.
   */
  lemma {:induction false} LinkifyNotIdempotent(u: string)
    requires |u| > 0 && UrlMatchLen(u) == |u|
    ensures Linkify(Linkify(u)) != Linkify(u)
  {
    LinkifyWhole(u);
    var once := "[" + u + "](" + u + ")";
    NoUrlWithoutH(once);
    var t := once[1..];
    assert t == u + ("](" + u + ")");
    UrlMatchExtends(u, "](" + u + ")");
    LinkifyLength(t);
    assert Linkify(once) == [once[0]] + Linkify(t);
  }

  lemma {:induction false} NonSpaceRunAll(s: string)
    requires forall i :: 0 <= i < |s| ==> !IsSpace(Py, s[i])
    ensures NonSpaceRun(s) == |s|
    decreases |s|
  {
    if |s| > 0 {
      NonSpaceRunAll(s[1..]);
    }
  }

  /**
   * `get_llm_output`: split at the last delimiter, strip both parts, rewrite links in the main
   * content and turn the questions section into options. Without the delimiter the whole
   * stripped answer is the content and there are no options.
   */
  function GetLlmOutput(response: string): (r: LlmOutput)
    ensures !Contains(response, Delimiter) ==> r == LlmOutput(Linkify(Strip(Py, response)), [])
    ensures Contains(response, Delimiter) ==>
              exists before, after :: response == before + Delimiter + after && !Contains(after, Delimiter)
                && r == LlmOutput(Linkify(Strip(Py, before)), Options(Strip(Py, after)))
  {
    match MatchDelimiter(response)
    case None =>
      assert Options("") == [] by {
        assert RemoveChar("", '\n') == "";
        assert QuestionPieces("") == [""];
        assert Strip(Py, "") == "";
      }
      LlmOutput(Linkify(Strip(Py, response)), Options(""))
    case Some((before, after)) =>
      LlmOutput(Linkify(Strip(Py, before)), Options(Strip(Py, after)))
  }

  /** Every option parsed from any answer is well formed; at most one per question mark plus one. */
  lemma GetLlmOutputOptions(response: string)
    ensures forall k :: 0 <= k < |GetLlmOutput(response).options| ==> WellFormedOption(GetLlmOutput(response).options[k])
  {
    match MatchDelimiter(response)
    case None =>
    case Some((before, after)) =>
      OptionsShape(Strip(Py, after));
  }

  /**
   * The usual answer shape: content, the delimiter, then questions. The content is recovered
   * (stripped and link-rewritten) and the questions come back as the options.
   */
  lemma {:induction false} GetLlmOutputRoundTrip(content: string, qs: seq<string>)
    requires AllPlain(qs)
    requires 'Y' !in RenderQuestions(qs)
    ensures GetLlmOutput(content + " " + Delimiter + " " + RenderQuestions(qs))
            == LlmOutput(Linkify(Strip(Py, content + " ")), QuestionsWithMarks(qs))
  {
    var after := " " + RenderQuestions(qs);
    assert 'Y' !in after;
    NoYNoDelimiter(after);
    assert content + " " + Delimiter + " " + RenderQuestions(qs) == (content + " ") + Delimiter + after;
    MatchDelimiterUnique(content + " ", after);
    StripPadded(Py, " ", RenderQuestions(qs), "");
    assert " " + RenderQuestions(qs) + "" == after;
    QuestionsStripped(qs);
    StripOfStripped(Py, RenderQuestions(qs));
    OptionsOfRendered(qs);
  }

  lemma {:induction false} QuestionsStripped(qs: seq<string>)
    requires AllPlain(qs)
    ensures IsStripped(Py, RenderQuestions(qs))
  {
    if |qs| > 0 {
      JoinEnds(QuestionsWithMarks(qs));
    }
  }

  lemma {:induction false} JoinEnds(parts: seq<string>)
    requires |parts| > 0 && forall k :: 0 <= k < |parts| ==> parts[k] != ""
    ensures Join(" ", parts) != "" && Join(" ", parts)[0] == parts[0][0]
    ensures Join(" ", parts)[|Join(" ", parts)| - 1] == parts[|parts| - 1][|parts[|parts| - 1]| - 1]
  {
    if |parts| > 1 {
      JoinEnds(parts[1..]);
    }
  }

  /** Text without a colon holds no URL scheme, so the link rewrite leaves it alone. */
  lemma NoColonNoUrl(s: string)
    requires ':' !in s
    ensures !Contains(s, "http://") && !Contains(s, "https://")
  {
    forall k | 0 <= k <= |s| ensures !OccursAt(s, "http://", k) && !OccursAt(s, "https://", k) {
      if k + 7 <= |s| {
        assert s[k..k + 7][4] == s[k + 4] != ':';
      }
      if k + 8 <= |s| {
        assert s[k..k + 8][5] == s[k + 5] != ':';
      }
    }
  }

  /** A character other than `?` and space that no question holds is not in their rendering. */
  lemma {:induction false} RenderAvoids(qs: seq<string>, c: char)
    requires c != '?' && c != ' '
    requires forall k :: 0 <= k < |qs| ==> c !in qs[k]
    ensures c !in RenderQuestions(qs)
    decreases |qs|
  {
    if |qs| > 0 {
      RenderStep(qs);
      if |qs| > 1 {
        RenderAvoids(qs[1..], c);
      }
    }
  }

  /** The answer of the prompt's worked example (written in pieces so that its characters can be indexed). */
  const ExampleAnswer: string := "This is a " + "short, " + "direct " + "answer to " + "the " + "question."

  function FollowUp(d: char): string
  {
    "Follow-up question " + [d]
  }

  lemma FollowUpPlain(d: char)
    requires '1' <= d <= '9'
    ensures PlainQuestion(FollowUp(d)) && 'Y' !in FollowUp(d)
  {
    var words := "Follow-up question ";
    assert '?' !in words && '\n' !in words && 'Y' !in words;
    assert FollowUp(d) == words + [d];
    assert FollowUp(d)[0] == 'F';
  }

  /** The three follow-up questions of the prompt's worked example. */
  const ExampleQuestions: seq<string> := [FollowUp('1'), FollowUp('2'), FollowUp('3')]

  /**
   * The worked example of the prompt: its answer, the delimiter, then `Follow-up question 1?
   * Follow-up question 2? Follow-up question 3?`; the answer and the three questions come back.
   */
  lemma WorkedExample()
    ensures GetLlmOutput(ExampleAnswer + " " + Delimiter + " " + RenderQuestions(ExampleQuestions))
            == LlmOutput(ExampleAnswer, [FollowUp('1') + "?", FollowUp('2') + "?", FollowUp('3') + "?"])
  {
    ExampleQuestionsPlain();
    GetLlmOutputRoundTrip(ExampleAnswer, ExampleQuestions);
    ExampleAnswerPlain();
    PlainContentKept(ExampleAnswer);
  }

  lemma ExampleQuestionsPlain()
    ensures AllPlain(ExampleQuestions) && 'Y' !in RenderQuestions(ExampleQuestions)
    ensures QuestionsWithMarks(ExampleQuestions) == [FollowUp('1') + "?", FollowUp('2') + "?", FollowUp('3') + "?"]
  {
    var qs := ExampleQuestions;
    FollowUpPlain('1');
    FollowUpPlain('2');
    FollowUpPlain('3');
    assert AllPlain(qs[2..]) && AllPlain(qs[1..]) && AllPlain(qs);
    RenderAvoids(qs, 'Y');
  }

  /** Stripped content without a URL scheme comes back unchanged after the trailing space. */
  lemma {:induction false} PlainContentKept(content: string)
    requires IsStripped(Py, content) && ':' !in content
    ensures Linkify(Strip(Py, content + " ")) == content
  {
    assert content + " " == "" + content + " ";
    StripPadded(Py, "", content, " ");
    StripOfStripped(Py, content);
    NoColonNoUrl(content);
    LinkifyWithoutUrl(content);
  }

  lemma ExampleAnswerPlain()
    ensures IsStripped(Py, ExampleAnswer) && ':' !in ExampleAnswer
  {
  }

  /**
   * The template wrapping a user's raw text before it is sent and stored as a human turn: a fixed
   * head of 14 characters (a line break, the indented `user` line, the indent) and a fixed tail of
   * 10, so the raw text can be read back between them.
   */
  function StudentQuery(rawQuery: string): (r: string)
    ensures |r| == |rawQuery| + 24 && r[14..|r| - 10] == rawQuery
  {
    "\n" + (("    " + "user") + ("\n" + (("    " + rawQuery) + ("\n" + ("    " + ("\n" + "    "))))))
  }

  /** The opening turn: a greeting and the three role choices. */
  datatype InitialQuery = InitialQuery(message: string, options: seq<string>)

  const Greeting: string := "Hello! Please select the best role below that fits you. We can better answer your questions. Don't include personal details such as your name and private content."

  const RoleChoices: seq<string> := ["Student/prospective student", "Educator/educational designer", "Admin"]

  /** `get_initial_student_query` (its JSON text modelled by its decoded value). */
  function InitialStudentQuery(): (r: InitialQuery)
    ensures r.message == Greeting && r.options == RoleChoices
    ensures |r.options| == 3
  {
    InitialQuery(Greeting, RoleChoices)
  }
}
