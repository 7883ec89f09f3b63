/**
 * The chat-history export: stored transcripts are read back, human turns are cleaned of the query
 * template, every turn is split into content and follow-up questions, user turns are matched with
 * the engagement log, and one CSV row is written per turn.
 */
module ChatHistory {
  import opened Common
  import opened Text
  import opened TurnCodec

  /**
   * `extract_content_and_questions`: the same split as the service's formatter, without the link
   * rewrite; rewriting the content gives exactly the formatter's result.
   */
  function ExtractContentAndQuestions(content: string): (r: (string, seq<string>))
    ensures GetLlmOutput(content) == LlmOutput(Linkify(r.0), r.1)
  {
    match MatchDelimiter(content)
    case None => (Strip(Py, content), Options(""))
    case Some((before, after)) => (Strip(Py, before), Options(Strip(Py, after)))
  }

  /** The question list of a stored turn is always well formed. */
  lemma ExtractedQuestionsWellFormed(content: string)
    ensures forall k :: 0 <= k < |ExtractContentAndQuestions(content).1| ==>
              WellFormedOption(ExtractContentAndQuestions(content).1[k])
  {
    GetLlmOutputOptions(content);
  }

  /** Line boundaries of Python's `str.splitlines`. */
  predicate IsLineBreak(c: char)
  {
    var n := c as int;
    (0x0a <= n <= 0x0d) || (0x1c <= n <= 0x1e) || n == 0x85 || n == 0x2028 || n == 0x2029
  }

  predicate NoBreak(s: string)
  {
    forall c :: c in s ==> !IsLineBreak(c)
  }

  /** Index of the first line boundary, or the length when there is none. */
  function LineEnd(s: string): (i: nat)
    ensures i <= |s|
    ensures forall k :: 0 <= k < i ==> !IsLineBreak(s[k])
    ensures i == |s| || IsLineBreak(s[i])
  {
    if |s| == 0 || IsLineBreak(s[0]) then 0 else 1 + LineEnd(s[1..])
  }

  /** `str.splitlines()`: lines without their boundaries; `\r\n` is one boundary; no trailing empty line. */
  function SplitLines(s: string): (r: seq<string>)
    ensures forall k :: 0 <= k < |r| ==> NoBreak(r[k])
    ensures |r| == 0 <==> |s| == 0
    decreases |s|
  {
    if |s| == 0 then []
    else
      var i := LineEnd(s);
      if i == |s| then [s]
      else
        var w := if s[i] == '\r' && i + 1 < |s| && s[i + 1] == '\n' then 2 else 1;
        [s[..i]] + SplitLines(s[i + w..])
  }

  /** A non-empty text without boundaries is one line. */
  lemma SplitLinesOne(s: string)
    requires s != [] && NoBreak(s)
    ensures SplitLines(s) == [s]
  {
    forall k | 0 <= k < |s| ensures !IsLineBreak(s[k]) {
      assert s[k] in s;
    }
    assert LineEnd(s) == |s|;
  }

  /** A line followed by `\n` is split off as the first line. */
  lemma SplitLinesCons(a: string, b: string)
    requires NoBreak(a)
    ensures SplitLines(a + ("\n" + b)) == [a] + SplitLines(b)
  {
    var t := "\n" + b;
    var s := a + t;
    assert t[0] == '\n';
    assert s[|a|] == '\n';
    forall k | 0 <= k < |a| ensures !IsLineBreak(s[k]) {
      assert s[k] == a[k] && a[k] in a;
    }
    var i := LineEnd(s);
    assert i == |a|;
    assert s[..i] == a;
    assert s[i + 1..] == b;
  }

  /** A text of printable ASCII characters has no line boundary. */
  lemma VisibleNoBreak(s: string)
    requires forall i :: 0 <= i < |s| ==> ' ' <= s[i] <= '~'
    ensures NoBreak(s)
  {
    forall c | c in s ensures !IsLineBreak(c) {
      var i :| 0 <= i < |s| && s[i] == c;
    }
  }

  /** A text opening with `\n` starts with an empty line. */
  lemma SplitLinesLeadingBreak(b: string)
    ensures SplitLines("\n" + b) == [""] + SplitLines(b)
  {
    var s := "\n" + b;
    assert s[0] == '\n';
    assert LineEnd(s) == 0;
    assert s[1..] == b;
  }

  /** Joining boundary-free lines with `\n` and splitting again gives the lines back. */
  lemma {:induction false} SplitJoinLines(lines: seq<string>)
    requires |lines| > 0 && lines[|lines| - 1] != []
    requires forall k :: 0 <= k < |lines| ==> NoBreak(lines[k])
    ensures SplitLines(Join("\n", lines)) == lines
    decreases |lines|
  {
    if |lines| == 1 {
      SplitLinesOne(lines[0]);
      assert lines == [lines[0]];
    } else {
      var rest := lines[1..];
      forall k | 0 <= k < |rest| ensures NoBreak(rest[k]) {
        assert rest[k] == lines[k + 1];
      }
      assert rest[|rest| - 1] == lines[|lines| - 1];
      SplitJoinLines(rest);
      var j := Join("\n", rest);
      assert Join("\n", lines) == lines[0] + "\n" + j;
      AppendAssoc(lines[0], "\n", j);
      SplitLinesCons(lines[0], j);
      assert lines == [lines[0]] + rest;
    }
  }

  /** Stripped lines, leaving out every line whose stripped lower-cased text is `user`. */
  function KeptLines(lines: seq<string>): (r: seq<string>)
    ensures |r| <= |lines|
  {
    if |lines| == 0 then []
    else
      var l := Strip(Py, lines[0]);
      (if Lower(l) != "user" then [l] else []) + KeptLines(lines[1..])
  }

  /**
   * `clean_human_content`: drop the template's `user` line, strip the rest, join with spaces, strip.
   * A cleaned human turn is one stripped line.
   */
  function CleanHumanContent(content: string): (r: string)
    ensures NoBreak(r) && IsStripped(Py, r)
  {
    var ps := KeptLines(SplitLines(content));
    KeptLinesShape(SplitLines(content));
    JoinNoBreak(ps);
    StripChars(Py, Join(" ", ps));
    Strip(Py, Join(" ", ps))
  }

  /** Every kept line is stripped and is not `user`; boundary-free lines stay boundary-free. */
  lemma {:induction false} KeptLinesShape(lines: seq<string>)
    ensures forall k :: 0 <= k < |KeptLines(lines)| ==>
              IsStripped(Py, KeptLines(lines)[k]) && Lower(KeptLines(lines)[k]) != "user"
    ensures (forall k :: 0 <= k < |lines| ==> NoBreak(lines[k])) ==>
              forall k :: 0 <= k < |KeptLines(lines)| ==> NoBreak(KeptLines(lines)[k])
    decreases |lines|
  {
    if |lines| > 0 {
      KeptLinesShape(lines[1..]);
      StripChars(Py, lines[0]);
    }
  }

  lemma {:induction false} JoinNoBreak(parts: seq<string>)
    requires forall k :: 0 <= k < |parts| ==> NoBreak(parts[k])
    ensures NoBreak(Join(" ", parts))
    decreases |parts|
  {
    if |parts| > 1 {
      JoinNoBreak(parts[1..]);
    }
  }

  /**
   * Stripping the space-joined kept lines never gives `user`: one non-empty line comes back as it
   * is, and two or more leave a space inside.
   */
  lemma {:induction false} StripJoinNotUser(ps: seq<string>)
    requires forall k :: 0 <= k < |ps| ==> IsStripped(Py, ps[k]) && Lower(ps[k]) != "user"
    ensures Strip(Py, Join(" ", ps)) == [] || Lower(Strip(Py, Join(" ", ps))) != "user"
    decreases |ps|
  {
    if |ps| == 1 {
      StripOfStripped(Py, ps[0]);
    } else if |ps| > 1 {
      var p, j := ps[0], Join(" ", ps[1..]);
      assert Join(" ", ps) == p + (" " + j);
      if p == [] {
        StripJoinNotUser(ps[1..]);
        StripLeadingBlank(j);
      } else {
        SpaceJoinTail(p, j);
      }
    }
  }

  lemma StripLeadingBlank(j: string)
    ensures Strip(Py, " " + j) == Strip(Py, j)
  {
    BlanksAllSpace(Py, " ");
    BlanksAllSpace(Py, "");
    assert " " + j == " " + j + "";
    StripPadded(Py, " ", j, "");
  }

  lemma SpaceJoinTail(p: string, j: string)
    requires p != [] && IsStripped(Py, p) && Lower(p) != "user"
    ensures Strip(Py, p + (" " + j)) == [] || Lower(Strip(Py, p + (" " + j))) != "user"
  {
    var s := p + (" " + j);
    assert s[0] == p[0];
    LStripOfStripped(Py, s);
    RStripAppend(Py, p, " " + j);
    if AllSpace(Py, " " + j) {
      RStripOfStripped(Py, p);
    } else {
      var t := RStrip(Py, " " + j);
      RStripDropsSpace(Py, " " + j);
      RStripPrefix(Py, " " + j);
      assert (" " + j)[0..] == " " + j;
      assert t != [];
      assert t[0] == ' ';
      var r := p + t;
      assert Lower(r)[|p|] == ' ';
    }
  }

  /** Cleaning a cleaned turn changes nothing. */
  lemma CleanHumanContentIdempotent(content: string)
    ensures CleanHumanContent(CleanHumanContent(content)) == CleanHumanContent(content)
  {
    var r := CleanHumanContent(content);
    var ps := KeptLines(SplitLines(content));
    KeptLinesShape(SplitLines(content));
    StripJoinNotUser(ps);
    if r == [] {
      assert SplitLines(r) == [];
      assert Strip(Py, "") == "";
    } else {
      SplitLinesOne(r);
      StripOfStripped(Py, r);
      assert KeptLines([r]) == [r];
    }
  }

  lemma ConsFive(a: string, b: string, c: string, d: string, e: string)
    ensures [a] + ([b] + ([c] + ([d] + [e]))) == [a, b, c, d, e]
  {
  }

  lemma ConsFour(a: string, b: string, c: string, d: string)
    ensures [a] + ([b] + ([c] + [d])) == [a, b, c, d]
  {
  }

  /** The five lines of a template shaped like the query template, for boundary-free pieces. */
  lemma {:induction false} TemplateLines(pad: string, user: string, q: string)
    requires pad != [] && NoBreak(pad) && NoBreak(user) && NoBreak(q)
    ensures SplitLines("\n" + (user + ("\n" + ((pad + q) + ("\n" + (pad + ("\n" + pad)))))))
            == ["", user, pad + q, pad, pad]
  {
    var line := pad + q;
    assert NoBreak(line) by {
      forall c | c in line ensures !IsLineBreak(c) {
        assert c in pad || c in q;
      }
    }
    var t4 := pad + ("\n" + pad);
    var t3 := line + ("\n" + t4);
    var t2 := user + ("\n" + t3);
    SplitLinesOne(pad);
    SplitLinesCons(pad, pad);
    SplitLinesCons(line, t4);
    SplitLinesCons(user, t3);
    SplitLinesLeadingBreak(t2);
    ConsFive("", user, line, pad, pad);
  }

  /** The lines of the query template around a one-line question. */
  lemma StudentQueryLines(q: string)
    requires NoBreak(q)
    ensures SplitLines(StudentQuery(q)) == ["", "    " + "user", "    " + q, "    ", "    "]
  {
    VisibleNoBreak("    ");
    VisibleNoBreak("    " + "user");
    TemplateLines("    ", "    " + "user", q);
  }

  /** One line in front of others is kept (stripped) unless it reads `user`. */
  lemma KeptLinesCons(l: string, rest: seq<string>)
    ensures KeptLines([l] + rest)
            == (if Lower(Strip(Py, l)) != "user" then [Strip(Py, l)] else []) + KeptLines(rest)
  {
    assert ([l] + rest)[1..] == rest;
  }

  /** The question line and the two blank lines after it. */
  lemma TemplateKeptTail(pad: string, q: string)
    requires AllSpace(Py, pad) && Lower(Strip(Py, q)) != "user"
    ensures KeptLines([pad + q] + ([pad] + [pad])) == [Strip(Py, q)] + ([""] + [""])
  {
    assert pad + q == pad + q + "";
    StripPadded(Py, pad, q, "");
    StripAllSpace(Py, pad);
    KeptLinesCons(pad, []);
    KeptLinesCons(pad, [pad]);
    KeptLinesCons(pad + q, [pad] + [pad]);
  }

  /** The kept lines of a template shaped like the query template. */
  lemma TemplateKept(pad: string, word: string, q: string)
    requires AllSpace(Py, pad) && IsStripped(Py, word) && Lower(word) == "user"
    requires Lower(Strip(Py, q)) != "user"
    ensures KeptLines(["", pad + word, pad + q, pad, pad]) == ["", Strip(Py, q), "", ""]
  {
    ConsFive("", pad + word, pad + q, pad, pad);
    TemplateKeptHead(pad, word, [pad + q] + ([pad] + [pad]));
    TemplateKeptTail(pad, q);
    ConsFour("", Strip(Py, q), "", "");
  }

  /** The blank line and the marker line in front of the rest: the blank one is kept, the marker dropped. */
  lemma TemplateKeptHead(pad: string, word: string, rest: seq<string>)
    requires AllSpace(Py, pad) && IsStripped(Py, word) && Lower(word) == "user"
    ensures KeptLines([""] + ([pad + word] + rest)) == [""] + KeptLines(rest)
  {
    AppendEmpty(pad + word);
    StripPadded(Py, pad, word, "");
    StripOfStripped(Py, word);
    assert Lower(Strip(Py, pad + word)) == "user";
    KeptLinesCons(pad + word, rest);
    EmptyAppend(KeptLines(rest));
    StripAllSpace(Py, "");
    assert Lower(Strip(Py, "")) != "user";
    KeptLinesCons("", [pad + word] + rest);
  }

  lemma StudentQueryKept(q: string)
    requires Lower(Strip(Py, q)) != "user"
    ensures KeptLines(["", "    " + "user", "    " + q, "    ", "    "]) == ["", Strip(Py, q), "", ""]
  {
    TemplateWords();
    TemplateKept("    ", "user", q);
  }

  /** The template's padding is blank and its marker word is stripped and lower case. */
  lemma TemplateWords()
    ensures AllSpace(Py, "    ") && IsStripped(Py, "user") && Lower("user") == "user"
  {
    VisibleNotSpace(Py, "user");
    assert Lower("user") == "user";
  }

  /** Space-joining the kept template lines and stripping gives the stripped question back. */
  lemma StripJoinKept(sq: string)
    requires IsStripped(Py, sq)
    ensures Strip(Py, Join(" ", ["", sq, "", ""])) == sq
  {
    var ps := ["", sq, "", ""];
    assert ps[1..][1..][1..] == [""];
    assert Join(" ", ps[1..][1..]) == "" + " " + "";
    assert Join(" ", ps[1..]) == sq + " " + ("" + " " + "");
    assert Join(" ", ps) == " " + sq + "  ";
    BlanksAllSpace(Py, " ");
    BlanksAllSpace(Py, "  ");
    StripPadded(Py, " ", sq, "  ");
    StripOfStripped(Py, sq);
  }

  /**
   * Round trip with the query template: a one-line question whose stripped text is not `user`
   * comes back stripped.
   */
  lemma CleanStudentQuery(q: string)
    requires NoBreak(q)
    requires Lower(Strip(Py, q)) != "user"
    ensures CleanHumanContent(StudentQuery(q)) == Strip(Py, q)
  {
    StudentQueryLines(q);
    StudentQueryKept(q);
    StripJoinKept(Strip(Py, q));
  }

  /** A logged user message: session, text, time (its `%Y-%m-%d %H:%M:%S` rendering) and role. */
  datatype EngagementRow = EngagementRow(sessionId: string, message: string, timestamp: Option<string>, userRole: string)

  datatype UserInfo = UserInfo(timestamp: Option<string>, userRole: string)

  type UserIndex = map<string, map<string, UserInfo>>

  /** One row recorded under its session and its stripped text, replacing an earlier entry. */
  function RecordRow(index: UserIndex, row: EngagementRow): (r: UserIndex)
    ensures row.sessionId in r && Strip(Py, row.message) in r[row.sessionId]
    ensures r[row.sessionId][Strip(Py, row.message)] == UserInfo(row.timestamp, row.userRole)
  {
    var inner := if row.sessionId in index then index[row.sessionId] else map[];
    index[row.sessionId := inner[Strip(Py, row.message) := UserInfo(row.timestamp, row.userRole)]]
  }

  /** The index built from the rows in their order. */
  function IndexOf(rows: seq<EngagementRow>): UserIndex
  {
    if |rows| == 0 then map[] else RecordRow(IndexOf(rows[..|rows| - 1]), rows[|rows| - 1])
  }

  predicate SameKey(row: EngagementRow, session: string, message: string)
  {
    row.sessionId == session && Strip(Py, row.message) == message
  }

  /**
   * `fetch_all_user_messages` over the rows the query returns, or None when the query raises: its
   * except answers with an empty index.
   */
  method FetchAllUserMessages(answer: Option<seq<EngagementRow>>) returns (structured: UserIndex)
    ensures answer.None? ==> structured == map[]
    ensures answer.Some? ==> structured == IndexOf(answer.value)
  {
    structured := map[];
    if answer.None? {
      return;
    }
    var rows := answer.value;
    var i := 0;
    while i < |rows|
      invariant 0 <= i <= |rows|
      invariant structured == IndexOf(rows[..i])
    {
      var row := rows[i];
      var message := Strip(Py, row.message);
      var inner := if row.sessionId in structured then structured[row.sessionId] else map[];
      structured := structured[row.sessionId := inner[message := UserInfo(row.timestamp, row.userRole)]];
      assert rows[..i + 1][..i] == rows[..i];
      i := i + 1;
    }
    assert rows[..|rows|] == rows;
  }

  /** A (session, message) pair is indexed iff some row has it. */
  lemma {:induction false} IndexOfHas(rows: seq<EngagementRow>, session: string, message: string)
    ensures (session in IndexOf(rows) && message in IndexOf(rows)[session]) <==>
              exists k :: 0 <= k < |rows| && SameKey(rows[k], session, message)
    decreases |rows|
  {
    if |rows| > 0 {
      var init := rows[..|rows| - 1];
      var last := rows[|rows| - 1];
      if SameKey(last, session, message) {
        assert SameKey(rows[|rows| - 1], session, message);
      } else {
        IndexOfHas(init, session, message);
        IndexOfOther(IndexOf(init), last, session, message);
        SomeRowBeforeLast(rows, session, message);
        forall k | 0 <= k < |init| ensures init[k] == rows[k] {
        }
      }
    }
  }

  /** When the last row has another key, a row with the key is one of the earlier rows. */
  lemma SomeRowBeforeLast(rows: seq<EngagementRow>, session: string, message: string)
    requires |rows| > 0 && !SameKey(rows[|rows| - 1], session, message)
    ensures (exists k :: 0 <= k < |rows| && SameKey(rows[k], session, message)) <==>
              exists k :: 0 <= k < |rows| - 1 && SameKey(rows[k], session, message)
  {
    if exists k :: 0 <= k < |rows| && SameKey(rows[k], session, message) {
      var k :| 0 <= k < |rows| && SameKey(rows[k], session, message);
      assert k != |rows| - 1;
    }
  }

  /** Recording a row with another key leaves that key's entry as it was. */
  lemma IndexOfOther(index: UserIndex, row: EngagementRow, session: string, message: string)
    requires !SameKey(row, session, message)
    ensures (session in RecordRow(index, row) && message in RecordRow(index, row)[session]) <==>
              (session in index && message in index[session])
    ensures session in index && message in index[session] ==>
              RecordRow(index, row)[session][message] == index[session][message]
  {
  }

  /** The entry of a pair is the info of the last row that has it. */
  lemma {:induction false} IndexOfLastWins(rows: seq<EngagementRow>, k: nat, session: string, message: string)
    requires k < |rows| && SameKey(rows[k], session, message)
    requires forall j :: k < j < |rows| ==> !SameKey(rows[j], session, message)
    ensures session in IndexOf(rows) && message in IndexOf(rows)[session]
    ensures IndexOf(rows)[session][message] == UserInfo(rows[k].timestamp, rows[k].userRole)
    decreases |rows|
  {
    if k < |rows| - 1 {
      var init := rows[..|rows| - 1];
      assert init[k] == rows[k];
      forall j | k < j < |init| ensures !SameKey(init[j], session, message) {
        assert init[j] == rows[j];
      }
      IndexOfLastWins(init, k, session, message);
      IndexOfOther(IndexOf(init), rows[|rows| - 1], session, message);
    }
  }

  /** A stored transcript entry: `type` and `data.content`, either of which may be missing. */
  datatype HistoryEntry = HistoryEntry(entryType: Option<string>, content: Option<string>)

  /** A stored transcript item; a missing `History` reads as no entries. */
  datatype HistoryItem = HistoryItem(history: Option<seq<HistoryEntry>>)

  /** A formatted turn (`Timestamp` and `UserRole` are filled in later). */
  datatype ChatRecord = ChatRecord(sessionId: string, messageType: string, message: string,
                                   options: seq<string>, timestamp: Option<string>, userRole: string)

  /** One transcript entry formatted, or nothing when its stripped content is empty. */
  function FormatEntry(sessionId: string, e: HistoryEntry): Option<ChatRecord>
  {
    var kind := e.entryType.GetOr("unknown");
    var content := Strip(Py, e.content.GetOr(""));
    if content == "" then None
    else
      var text := if kind == "human" then CleanHumanContent(content) else content;
      var parts := ExtractContentAndQuestions(text);
      Some(ChatRecord(sessionId, if kind == "ai" then "ai" else "user", parts.0, parts.1, None, ""))
  }

  function Emitted(r: Option<ChatRecord>): seq<ChatRecord>
  {
    if r.Some? then [r.value] else []
  }

  function FormatEntries(sessionId: string, entries: seq<HistoryEntry>): seq<ChatRecord>
  {
    if |entries| == 0 then []
    else FormatEntries(sessionId, entries[..|entries| - 1]) + Emitted(FormatEntry(sessionId, entries[|entries| - 1]))
  }

  function FormatItems(sessionId: string, items: seq<HistoryItem>): seq<ChatRecord>
  {
    if |items| == 0 then []
    else FormatItems(sessionId, items[..|items| - 1]) + FormatEntries(sessionId, items[|items| - 1].history.GetOr([]))
  }

  /** The body of the inner loop of `fetch_chat_messages`: one entry, or nothing when it is empty. */
  method FormatOne(sessionId: string, e: HistoryEntry) returns (r: Option<ChatRecord>)
    ensures r == FormatEntry(sessionId, e)
  {
    var kind := e.entryType.GetOr("unknown");
    var content := Strip(Py, e.content.GetOr(""));
    if content == "" {
      return None;
    }
    if kind == "human" {
      content := CleanHumanContent(content);
    }
    var parts := ExtractContentAndQuestions(content);
    r := Some(ChatRecord(sessionId, if kind == "ai" then "ai" else "user", parts.0, parts.1, None, ""));
  }

  /** The inner loop of `fetch_chat_messages`: the entries of one transcript item in order. */
  method FormatHistory(sessionId: string, history: seq<HistoryEntry>) returns (formatted: seq<ChatRecord>)
    ensures formatted == FormatEntries(sessionId, history)
  {
    formatted := [];
    var j := 0;
    while j < |history|
      invariant 0 <= j <= |history|
      invariant formatted == FormatEntries(sessionId, history[..j])
    {
      var r := FormatOne(sessionId, history[j]);
      assert history[..j + 1][..j] == history[..j];
      assert FormatEntries(sessionId, history[..j + 1]) == formatted + Emitted(r);
      if r.Some? {
        formatted := formatted + [r.value];
      }
      j := j + 1;
    }
    assert history[..|history|] == history;
  }

  /**
   * `fetch_chat_messages` over the items the transcript query returns, or None when the query
   * raises: its except answers with no turns for the session.
   */
  method FetchChatMessages(sessionId: string, answer: Option<seq<HistoryItem>>) returns (formatted: seq<ChatRecord>)
    ensures answer.None? ==> formatted == []
    ensures answer.Some? ==> formatted == FormatItems(sessionId, answer.value)
  {
    formatted := [];
    if answer.None? {
      return;
    }
    var items := answer.value;
    var i := 0;
    while i < |items|
      invariant 0 <= i <= |items|
      invariant formatted == FormatItems(sessionId, items[..i])
    {
      var entries := FormatHistory(sessionId, items[i].history.GetOr([]));
      formatted := formatted + entries;
      assert items[..i + 1][..i] == items[..i];
      i := i + 1;
    }
    assert items[..|items|] == items;
  }

  /** What every formatted turn looks like before the merge. */
  predicate Unmerged(sessionId: string, m: ChatRecord)
  {
    m.sessionId == sessionId && (m.messageType == "ai" || m.messageType == "user")
    && m.timestamp.None? && m.userRole == ""
  }

  lemma {:induction false} FormatEntriesUnmerged(sessionId: string, entries: seq<HistoryEntry>)
    ensures forall k :: 0 <= k < |FormatEntries(sessionId, entries)| ==> Unmerged(sessionId, FormatEntries(sessionId, entries)[k])
    decreases |entries|
  {
    if |entries| > 0 {
      FormatEntriesUnmerged(sessionId, entries[..|entries| - 1]);
    }
  }

  /** Every turn carries the session, type `ai` or `user`, no timestamp and an empty role. */
  lemma {:induction false} FormatItemsUnmerged(sessionId: string, items: seq<HistoryItem>)
    ensures forall k :: 0 <= k < |FormatItems(sessionId, items)| ==> Unmerged(sessionId, FormatItems(sessionId, items)[k])
    decreases |items|
  {
    if |items| > 0 {
      FormatItemsUnmerged(sessionId, items[..|items| - 1]);
      FormatEntriesUnmerged(sessionId, items[|items| - 1].history.GetOr([]));
    }
  }

  /**
   * Entries are skipped exactly when their stripped content is empty; type `ai` stays `ai` and
   * every other type (a missing one reads as `unknown`) becomes `user`.
   */
  lemma FormatEntryCases(sessionId: string, e: HistoryEntry)
    ensures FormatEntry(sessionId, e).None? <==> Strip(Py, e.content.GetOr("")) == ""
    ensures FormatEntry(sessionId, e).Some? ==>
              FormatEntry(sessionId, e).value.messageType == (if e.entryType == Some("ai") then "ai" else "user")
  {
  }

  /** The template's `user` line alone cleans to nothing. */
  lemma CleanUserLine()
    ensures CleanHumanContent("user") == ""
  {
    VisibleNotSpace(Py, "user");
    StripOfStripped(Py, "user");
    VisibleNoBreak("user");
    SplitLinesOne("user");
    assert Lower("user") == "user";
    KeptLinesCons("user", []);
    assert ["user"] + [] == ["user"];
  }

  /** An empty turn has empty content and no follow-up questions. */
  lemma ExtractEmpty()
    ensures ExtractContentAndQuestions("") == ("", [])
  {
    NoYNoDelimiter("");
    assert RemoveChar("", '\n') == "";
    assert QuestionPieces("") == [""];
  }

  /** A human entry that is only the template's `user` line is still emitted, with empty text. */
  lemma HumanUserLineEmitted(sessionId: string)
    ensures FormatEntry(sessionId, HistoryEntry(Some("human"), Some("user"))) == Some(ChatRecord(sessionId, "user", "", [], None, ""))
  {
    VisibleNotSpace(Py, "user");
    StripOfStripped(Py, "user");
    CleanUserLine();
    ExtractEmpty();
  }

  /** The merge step: user turns take time and role from an exact-text match in their session. */
  function Annotate(m: ChatRecord, session: map<string, UserInfo>): (r: ChatRecord)
    ensures r.sessionId == m.sessionId && r.messageType == m.messageType && r.message == m.message && r.options == m.options
    ensures m.messageType == "user" && m.message in session ==>
              r.timestamp == session[m.message].timestamp && r.userRole == session[m.message].userRole
    ensures m.messageType == "user" && m.message !in session ==> r.timestamp.None? && r.userRole == ""
    ensures m.messageType != "user" ==> r.timestamp.None? && r.userRole == m.userRole
  {
    if m.messageType == "user" then
      if m.message in session then m.(timestamp := session[m.message].timestamp, userRole := session[m.message].userRole)
      else m.(timestamp := None, userRole := "")
    else m.(timestamp := None)
  }

  function SessionOf(index: UserIndex, sessionId: string): map<string, UserInfo>
  {
    if sessionId in index then index[sessionId] else map[]
  }

  /**
   * All sessions' turns, formatted and annotated, in session order. `table` answers the transcript
   * query of a session with its items, or None when the query raises and the session has no turns.
   */
  function MergeAll(sessionIds: seq<string>, table: string -> Option<seq<HistoryItem>>, index: UserIndex): seq<ChatRecord>
  {
    if |sessionIds| == 0 then []
    else
      var s := sessionIds[|sessionIds| - 1];
      MergeAll(sessionIds[..|sessionIds| - 1], table, index)
      + AnnotateAll(if table(s).Some? then FormatItems(s, table(s).value) else [], SessionOf(index, s))
  }

  function AnnotateAll(ms: seq<ChatRecord>, session: map<string, UserInfo>): (r: seq<ChatRecord>)
    ensures |r| == |ms|
    ensures forall k :: 0 <= k < |ms| ==> r[k] == Annotate(ms[k], session)
  {
    if |ms| == 0 then [] else AnnotateAll(ms[..|ms| - 1], session) + [Annotate(ms[|ms| - 1], session)]
  }

  /** The inner merge loop of the export handler: one session's turns annotated in order. */
  method AnnotateSession(chatMessages: seq<ChatRecord>, session: map<string, UserInfo>)
    returns (annotated: seq<ChatRecord>)
    ensures annotated == AnnotateAll(chatMessages, session)
  {
    annotated := [];
    var j := 0;
    while j < |chatMessages|
      invariant 0 <= j <= |chatMessages|
      invariant annotated == AnnotateAll(chatMessages[..j], session)
    {
      var message := chatMessages[j];
      if message.messageType == "user" {
        if message.message in session {
          message := message.(timestamp := session[message.message].timestamp, userRole := session[message.message].userRole);
        } else {
          message := message.(timestamp := None, userRole := "");
        }
      } else {
        message := message.(timestamp := None);
      }
      annotated := annotated + [message];
      assert chatMessages[..j + 1][..j] == chatMessages[..j];
      j := j + 1;
    }
    assert chatMessages[..|chatMessages|] == chatMessages;
  }

  /** The merge loop of the export handler. */
  method MergeSessions(sessionIds: seq<string>, table: string -> Option<seq<HistoryItem>>, index: UserIndex)
    returns (chatData: seq<ChatRecord>)
    ensures chatData == MergeAll(sessionIds, table, index)
  {
    chatData := [];
    var i := 0;
    while i < |sessionIds|
      invariant 0 <= i <= |sessionIds|
      invariant chatData == MergeAll(sessionIds[..i], table, index)
    {
      var sessionId := sessionIds[i];
      var chatMessages := FetchChatMessages(sessionId, table(sessionId));
      var annotated := AnnotateSession(chatMessages, SessionOf(index, sessionId));
      chatData := chatData + annotated;
      assert sessionIds[..i + 1][..i] == sessionIds[..i];
      i := i + 1;
    }
    assert sessionIds[..|sessionIds|] == sessionIds;
  }

  /** After the merge, AI turns have no timestamp and an empty role. */
  lemma MergedAiTurns(ms: seq<ChatRecord>, sessionId: string, session: map<string, UserInfo>)
    requires forall k :: 0 <= k < |ms| ==> Unmerged(sessionId, ms[k])
    ensures forall k :: 0 <= k < |ms| && ms[k].messageType == "ai" ==>
              AnnotateAll(ms, session)[k].timestamp.None? && AnnotateAll(ms, session)[k].userRole == ""
  {
  }

  const CsvHeader: seq<string> := ["SessionId", "UserRole", "MessageType", "Message", "Timestamp"]

  /** One CSV row: the five header columns, the timestamp empty when there is none. */
  function CsvRow(m: ChatRecord): (r: seq<string>)
    ensures |r| == |CsvHeader|
  {
    [m.sessionId, m.userRole, m.messageType, m.message, m.timestamp.GetOr("")]
  }

  /** The options of a turn are never written. */
  lemma CsvRowIgnoresOptions(m: ChatRecord, options: seq<string>)
    ensures CsvRow(m.(options := options)) == CsvRow(m)
  {
  }

  /** `write_to_csv` rows: the header, then one row per turn in order (quoting is the CSV writer's). */
  function CsvRows(data: seq<ChatRecord>): (r: seq<seq<string>>)
    ensures |r| == |data| + 1 && r[0] == CsvHeader
    ensures forall k :: 0 <= k < |data| ==> r[k + 1] == CsvRow(data[k])
  {
    [CsvHeader] + RowsOf(data)
  }

  function RowsOf(data: seq<ChatRecord>): (r: seq<seq<string>>)
    ensures |r| == |data|
    ensures forall k :: 0 <= k < |data| ==> r[k] == CsvRow(data[k])
  {
    if |data| == 0 then [] else [CsvRow(data[0])] + RowsOf(data[1..])
  }

  /** The body of the export answer: where the CSV of these rows was uploaded, or the error. */
  datatype ExportBody = Uploaded(s3Path: string, rows: seq<seq<string>>) | Failed(error: string)

  datatype ExportResponse = ExportResponse(statusCode: int, body: ExportBody)

  const ServerError := "Internal Server Error"
  const CsvFailed := "Failed to generate CSV"

  /**
   * The export handler. A null parameter object fails on `.get`, and a database that cannot be
   * reached makes `connect_to_db` re-raise from the first fetch; both end in the handler's except
   * with 500. Once connected, a raising query leaves an empty index, no sessions or no turns for
   * its session; the merged turns become CSV rows, and when the file cannot be written the answer
   * is 500 "Failed to generate CSV". The upload swallows its errors, so a written file is answered
   * 200 with the path `<session_id>/chat_history.csv` (an empty id when absent).
   */
  method Handler(params: QueryParams, connected: bool, rows: Option<seq<EngagementRow>>,
                 sessionIds: Option<seq<string>>, table: string -> Option<seq<HistoryItem>>,
                 csvWritten: bool, bucket: string)
    returns (resp: ExportResponse)
    ensures params.Null? || !connected ==> resp == ExportResponse(500, Failed(ServerError))
    ensures !params.Null? && connected && !csvWritten ==> resp == ExportResponse(500, Failed(CsvFailed))
    ensures !params.Null? && connected && csvWritten ==>
              var current := params.Lookup("session_id", "");
              var index := if rows.Some? then IndexOf(rows.value) else map[];
              var ids := if sessionIds.Some? then sessionIds.value else [];
              resp == ExportResponse(200, Uploaded("s3://" + bucket + "/" + current + "/chat_history.csv",
                                                   CsvRows(MergeAll(ids, table, index))))
  {
    if params.Null? || !connected {
      return ExportResponse(500, Failed(ServerError));
    }
    var current := params.Lookup("session_id", "");
    var index := FetchAllUserMessages(rows);
    var ids := if sessionIds.Some? then sessionIds.value else [];
    var chatData := MergeSessions(ids, table, index);
    var csv := CsvRows(chatData);
    if !csvWritten {
      return ExportResponse(500, Failed(CsvFailed));
    }
    resp := ExportResponse(200, Uploaded("s3://" + bucket + "/" + current + "/chat_history.csv", csv));
  }
}
