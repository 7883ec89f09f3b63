/**
 * The administrator's conversation history: one session list per user role, newest first, and a
 * download of every message of every listed session as one CSV file.
 */
module HistoryView {
  import opened Common
  import opened Text
  import opened Sorting

  /** A listed session; `time` is `new Date(last_message_time)` in milliseconds, `role` a `role` field the listing may carry. */
  datatype Session = Session(sessionId: string, time: int, role: Option<string>)

  /** A message of a session; `None` stands for a missing field. */
  datatype Message = Message(messageType: Option<string>, content: Option<string>, options: Option<seq<string>>, timestamp: Option<string>)

  datatype HistoryRole = Public | Educator | Admin

  function RoleName(r: HistoryRole): string
  {
    match r
    case Public => "public"
    case Educator => "educator"
    case Admin => "admin"
  }

  /** The sort key of `(a, b) => new Date(b.last_message_time) - new Date(a.last_message_time)`. */
  function NewestFirst(s: Session): int
  {
    -s.time
  }

  /** A fetched list in display order. */
  function SortSessions(data: seq<Session>): (r: seq<Session>)
    ensures multiset(r) == multiset(data)
  {
    SortBy(data, NewestFirst)
  }

  /** Every list is shown newest first, and sessions with the same time keep the listing's order. */
  lemma SortSessionsNewestFirst(data: seq<Session>, t: int)
    ensures var r := SortSessions(data);
            (forall i, j :: 0 <= i < j < |r| ==> r[i].time >= r[j].time)
            && WithKey(r, NewestFirst, -t) == WithKey(data, NewestFirst, -t)
  {
    SortBySorted(data, NewestFirst);
    SortByStable(data, NewestFirst, -t);
  }

  // ---------------------------------------------------------------------------------------------
  // JSON.stringify of the options
  // ---------------------------------------------------------------------------------------------

  function HexDigit(n: nat): (c: char)
    requires n < 16
  {
    "0123456789abcdef"[n]
  }

  /** How `JSON.stringify` writes one character inside a string literal. */
  function EscapeChar(c: char): (r: string)
    ensures |r| >= 1
    ensures (c == ',') == (',' in r)
    ensures ',' in r ==> r == ","
  {
    if c == '"' then "\\\""
    else if c == '\\' then "\\\\"
    else if c as int == 0x08 then "\\b"
    else if c as int == 0x0c then "\\f"
    else if c == '\n' then "\\n"
    else if c == '\r' then "\\r"
    else if c == '\t' then "\\t"
    else if c < ' ' then "\\u00" + [HexDigit(c as int / 16), HexDigit(c as int % 16)]
    else [c]
  }

  function Escape(s: string): (r: string)
    ensures |r| >= |s|
  {
    if s == [] then "" else EscapeChar(s[0]) + Escape(s[1..])
  }

  /** A JSON string literal. */
  function Quote(s: string): string
  {
    "\"" + Escape(s) + "\""
  }

  /** `JSON.stringify` of an array of strings. */
  function JsonArray(items: seq<string>): string
  {
    "[" + Join(",", seq(|items|, i requires 0 <= i < |items| => Quote(items[i]))) + "]"
  }

  /** `JSON.stringify(message.Options)`; `undefined`, which `join` writes as nothing, when there are none. */
  function OptionsText(options: Option<seq<string>>): string
  {
    if options.Some? then JsonArray(options.value) else ""
  }

  /** Escaping leaves commas as they are. */
  lemma {:induction false} CountEscape(s: string)
    ensures Count(Escape(s), ',') == Count(s, ',')
    decreases |s|
  {
    if s != [] {
      CountEscape(s[1..]);
      CountAppend(EscapeChar(s[0]), Escape(s[1..]), ',');
      assert Count(EscapeChar(s[0]), ',') == (if s[0] == ',' then 1 else 0);
    }
  }

  /** The commas inside the parts. */
  function InnerCommas(parts: seq<string>): nat
  {
    if parts == [] then 0 else Count(parts[0], ',') + InnerCommas(parts[1..])
  }

  /** The commas inside a row's values, value by value. */
  lemma InnerCommasOfFields(r: Row)
    ensures InnerCommas(Fields(r)) == Count(r.sessionId, ',') + Count(r.role, ',') + Count(r.messageType, ',')
                                      + Count(r.content, ',') + Count(r.options, ',') + Count(r.timestamp, ',')
  {
    var f := Fields(r);
    assert InnerCommas(f[5..]) == Count(r.timestamp, ',') by { assert f[5..][1..] == []; }
    assert InnerCommas(f[4..]) == Count(r.options, ',') + InnerCommas(f[5..]) by { assert f[4..][1..] == f[5..]; }
    assert InnerCommas(f[3..]) == Count(r.content, ',') + InnerCommas(f[4..]) by { assert f[3..][1..] == f[4..]; }
    assert InnerCommas(f[2..]) == Count(r.messageType, ',') + InnerCommas(f[3..]) by { assert f[2..][1..] == f[3..]; }
    assert InnerCommas(f[1..]) == Count(r.role, ',') + InnerCommas(f[2..]) by { assert f[1..][1..] == f[2..]; }
  }

  /** A join of `n` parts holds the parts' own commas and `n - 1` separators. */
  lemma {:induction false} CountJoinCommas(parts: seq<string>)
    ensures |parts| > 0 ==> Count(Join(",", parts), ',') == |parts| - 1 + InnerCommas(parts)
    decreases |parts|
  {
    if |parts| == 1 {
      assert parts[1..] == [];
    } else if |parts| > 1 {
      CountJoinCommas(parts[1..]);
      CountAppend(parts[0] + ",", Join(",", parts[1..]), ',');
      CountAppend(parts[0], ",", ',');
    }
  }

  /** The options text of `k` options holds at least `k - 1` commas, one between each two. */
  lemma OptionsCommas(options: seq<string>)
    ensures Count(JsonArray(options), ',') >= |options| - 1
  {
    var quoted := seq(|options|, i requires 0 <= i < |options| => Quote(options[i]));
    CountJoinCommas(quoted);
    assert |quoted| > 0 ==> Count(Join(",", quoted), ',') >= |quoted| - 1;
    CountAppend("[" + Join(",", quoted), "]", ',');
    CountAppend("[", Join(",", quoted), ',');
  }

  // ---------------------------------------------------------------------------------------------
  // The CSV file
  // ---------------------------------------------------------------------------------------------

  /** One row object in its key order: SessionID, Role, MessageType, MessageContent, MessageOptions, Timestamp. */
  datatype Row = Row(sessionId: string, role: string, messageType: string, content: string, options: string, timestamp: string)

  /** `Object.keys(csvData[0])`: the row object's keys in insertion order. */
  const HeaderNames: seq<string> := ["SessionID", "Role", "MessageType", "MessageContent", "MessageOptions", "Timestamp"]
  const HeaderFields: nat := 6
  const Header := Join(",", HeaderNames)

  /** The header line splits into the six key names and holds no line break. */
  lemma HeaderShape()
    ensures Split(Header, ',') == HeaderNames && |HeaderNames| == HeaderFields
    ensures '\n' !in Header
  {
    NamesPlain();
    SplitJoin(HeaderNames, ',');
    JoinAvoids(",", HeaderNames, '\n');
  }

  /** No header name holds a comma or a line break. */
  lemma NamesPlain()
    ensures forall k :: 0 <= k < |HeaderNames| ==> ',' !in HeaderNames[k] && '\n' !in HeaderNames[k]
  {
    forall k | 0 <= k < |HeaderNames|
      ensures ',' !in HeaderNames[k] && '\n' !in HeaderNames[k]
    {
      var name := HeaderNames[k];
      forall i | 0 <= i < |name|
        ensures name[i] != ',' && name[i] != '\n'
      {
        assert 'A' <= name[i] <= 'z';
      }
    }
  }

  function RowFor(session: Session, message: Message): Row
  {
    Row(session.sessionId, session.role.GetOr(""), message.messageType.GetOr(""), message.content.GetOr(""),
        OptionsText(message.options), message.timestamp.GetOr(""))
  }

  function Fields(r: Row): (f: seq<string>)
    ensures |f| == HeaderFields
  {
    [r.sessionId, r.role, r.messageType, r.content, r.options, r.timestamp]
  }

  /** `Object.values(row).join(",")`. */
  function RowLine(r: Row): string
  {
    Join(",", Fields(r))
  }

  /** The file: the header line, a line break and the row lines joined by line breaks, none of them quoted. */
  function Csv(rows: seq<Row>): string
  {
    Header + "\n" + Join("\n", seq(|rows|, i requires 0 <= i < |rows| => RowLine(rows[i])))
  }

  /** The rows of one session, one per message in order. */
  function SessionRows(session: Session, messages: seq<Message>): (r: seq<Row>)
    ensures |r| == |messages|
    ensures forall i :: 0 <= i < |r| ==> r[i] == RowFor(session, messages[i])
  {
    seq(|messages|, i requires 0 <= i < |messages| => RowFor(session, messages[i]))
  }

  /** The rows of the sessions, in order; a session whose messages could not be fetched adds none. */
  function RowsOf(sessions: seq<Session>, messagesOf: string -> Option<seq<Message>>): seq<Row>
  {
    if sessions == [] then []
    else
      var last := sessions[|sessions| - 1];
      RowsOf(sessions[..|sessions| - 1], messagesOf)
      + Contribution(last, messagesOf)
  }

  /** What one session adds. */
  function Contribution(session: Session, messagesOf: string -> Option<seq<Message>>): seq<Row>
  {
    match messagesOf(session.sessionId)
    case None => []
    case Some(ms) => SessionRows(session, ms)
  }

  lemma RowsOfStep(sessions: seq<Session>, i: nat, messagesOf: string -> Option<seq<Message>>)
    requires i < |sessions|
    ensures RowsOf(sessions[..i + 1], messagesOf) == RowsOf(sessions[..i], messagesOf) + Contribution(sessions[i], messagesOf)
  {
    assert sessions[..i + 1][..i] == sessions[..i];
  }

  /** The rows of a concatenation of session lists: the first list's rows, then the second's. */
  lemma {:induction false} RowsOfAppend(a: seq<Session>, b: seq<Session>, messagesOf: string -> Option<seq<Message>>)
    ensures RowsOf(a + b, messagesOf) == RowsOf(a, messagesOf) + RowsOf(b, messagesOf)
    decreases |b|
  {
    if b == [] {
      assert a + b == a;
    } else {
      var b', last := b[..|b| - 1], b[|b| - 1];
      var c := Contribution(last, messagesOf);
      assert (a + b)[..|a + b| - 1] == a + b' && (a + b)[|a + b| - 1] == last;
      assert RowsOf(a + b, messagesOf) == RowsOf(a + b', messagesOf) + c;
      RowsOfAppend(a, b', messagesOf);
      assert RowsOf(b, messagesOf) == RowsOf(b', messagesOf) + c;
      assert (RowsOf(a, messagesOf) + RowsOf(b', messagesOf)) + c == RowsOf(a, messagesOf) + (RowsOf(b', messagesOf) + c);
    }
  }

  /** One session adds a row per fetched message, and nothing when its fetch failed. */
  lemma RowsOfOne(s: Session, messagesOf: string -> Option<seq<Message>>)
    ensures RowsOf([s], messagesOf) == if messagesOf(s.sessionId).Some? then SessionRows(s, messagesOf(s.sessionId).value) else []
  {
    assert [s][..0] == [];
  }

  /**
   * A row line has the header's six fields as long as no value except the options holds a comma;
   * the options text of two or more options adds at least one field more.
   */
  lemma RowFields(session: Session, message: Message)
    requires ',' !in session.sessionId && ',' !in session.role.GetOr("")
    requires ',' !in message.messageType.GetOr("") && ',' !in message.content.GetOr("") && ',' !in message.timestamp.GetOr("")
    ensures var line := RowLine(RowFor(session, message));
            |Split(line, ',')| == HeaderFields + Count(OptionsText(message.options), ',')
    ensures message.options.Some? && |message.options.value| >= 2 ==>
              |Split(RowLine(RowFor(session, message)), ',')| > HeaderFields
  {
    var r := RowFor(session, message);
    var f := Fields(r);
    JoinSplit(RowLine(r), ',');
    CountJoinCommas(f);
    InnerCommasOfFields(r);
    assert InnerCommas(f) == Count(r.options, ',');
    if message.options.Some? {
      OptionsCommas(message.options.value);
    }
  }

  /** With no line break in any value, the file's lines are the header and then one line per row. */
  lemma CsvLines(rows: seq<Row>)
    requires forall i :: 0 <= i < |rows| ==> '\n' !in RowLine(rows[i])
    ensures |rows| > 0 ==> Split(Csv(rows), '\n') == [Header] + seq(|rows|, i requires 0 <= i < |rows| => RowLine(rows[i]))
  {
    var lines := seq(|rows|, i requires 0 <= i < |rows| => RowLine(rows[i]));
    if |rows| > 0 {
      var all := [Header] + lines;
      assert Join("\n", all) == Csv(rows) by {
        assert all[1..] == lines;
      }
      assert forall k :: 0 <= k < |all| ==> '\n' !in all[k] by {
        HeaderShape();
        assert forall k :: 1 <= k < |all| ==> all[k] == lines[k - 1];
      }
      SplitJoin(all, '\n');
    }
  }

  // ---------------------------------------------------------------------------------------------
  // The page
  // ---------------------------------------------------------------------------------------------

  /** `{ role, ...session }`: a `role` the session itself carries overrides the view's role. */
  datatype SelectedSession = SelectedSession(role: string, sessionId: string, time: int)

  /** The `History` page with its state and the files it has offered for download. */
  class HistoryPage {
    var publicSessions: seq<Session>
    var educatorSessions: seq<Session>
    var adminSessions: seq<Session>
    var selectedSession: Option<SelectedSession>
    var loading: bool
    var downloadLoading: bool
    var downloads: seq<string>

    constructor()
      ensures publicSessions == [] && educatorSessions == [] && adminSessions == []
      ensures selectedSession == None && loading && !downloadLoading && downloads == []
    {
      publicSessions, educatorSessions, adminSessions := [], [], [];
      selectedSession := None;
      loading := true;
      downloadLoading := false;
      downloads := [];
    }

    /** The end of `fetchSessions(role, ...)`: the list sorted newest first, or empty when the fetch failed; loading ends. */
    method SessionsLoaded(role: HistoryRole, response: Option<seq<Session>>)
      modifies this
      ensures var list := if response.Some? then SortSessions(response.value) else [];
              publicSessions == (if role == Public then list else old(publicSessions))
              && educatorSessions == (if role == Educator then list else old(educatorSessions))
              && adminSessions == (if role == Admin then list else old(adminSessions))
      ensures !loading
      ensures selectedSession == old(selectedSession) && downloadLoading == old(downloadLoading) && downloads == old(downloads)
    {
      var list := if response.Some? then SortSessions(response.value) else [];
      match role {
        case Public => publicSessions := list;
        case Educator => educatorSessions := list;
        case Admin => adminSessions := list;
      }
      loading := false;
    }

    /** The loop of `handleDownloadAllData`: every session's messages fetched and turned into rows, in order. */
    static method GatherRows(allSessions: seq<Session>, messagesOf: string -> Option<seq<Message>>) returns (csvData: seq<Row>)
      ensures csvData == RowsOf(allSessions, messagesOf)
    {
      csvData := [];
      var i := 0;
      while i < |allSessions|
        invariant 0 <= i <= |allSessions|
        invariant csvData == RowsOf(allSessions[..i], messagesOf)
        decreases |allSessions| - i
      {
        var session := allSessions[i];
        RowsOfStep(allSessions, i, messagesOf);
        var response := messagesOf(session.sessionId);
        if response.Some? {
          csvData := AppendSessionRows(csvData, session, response.value);
        }
        i := i + 1;
      }
      assert allSessions[..i] == allSessions;
    }

    /** The `messages.forEach` step: one row per message, appended in order. */
    static method AppendSessionRows(csvData: seq<Row>, session: Session, messages: seq<Message>) returns (r: seq<Row>)
      ensures r == csvData + SessionRows(session, messages)
    {
      r := csvData;
      var j := 0;
      while j < |messages|
        invariant 0 <= j <= |messages|
        invariant r == csvData + SessionRows(session, messages[..j])
        decreases |messages| - j
      {
        r := r + [RowFor(session, messages[j])];
        assert messages[..j + 1][..j] == messages[..j];
        j := j + 1;
      }
      assert messages[..j] == messages;
    }

    /**
     * `handleDownloadAllData`: the rows of the public, then the educator, then the admin sessions,
     * fetching each session's messages through `messagesOf`. With no row at all, reading the header
     * of the first row throws: nothing is offered and the button stays in its loading state.
     */
    method HandleDownloadAllData(messagesOf: string -> Option<seq<Message>>) returns (thrown: bool)
      modifies this
      ensures var rows := RowsOf(old(publicSessions) + old(educatorSessions) + old(adminSessions), messagesOf);
              if |rows| == 0 then thrown && downloadLoading && downloads == old(downloads)
              else !thrown && !downloadLoading && downloads == old(downloads) + [Csv(rows)]
      ensures publicSessions == old(publicSessions) && educatorSessions == old(educatorSessions)
      ensures adminSessions == old(adminSessions) && selectedSession == old(selectedSession) && loading == old(loading)
    {
      downloadLoading := true;
      var allSessions := publicSessions + educatorSessions + adminSessions;
      var csvData := GatherRows(allSessions, messagesOf);
      if |csvData| == 0 {
        return true;
      }
      downloads := downloads + [Csv(csvData)];
      downloadLoading := false;
      return false;
    }

    /** `handleSessionClick(role, session)`. */
    method HandleSessionClick(role: HistoryRole, session: Session)
      modifies this
      ensures selectedSession == Some(SelectedSession(session.role.GetOr(RoleName(role)), session.sessionId, session.time))
      ensures publicSessions == old(publicSessions) && educatorSessions == old(educatorSessions) && adminSessions == old(adminSessions)
      ensures loading == old(loading) && downloadLoading == old(downloadLoading) && downloads == old(downloads)
    {
      selectedSession := Some(SelectedSession(session.role.GetOr(RoleName(role)), session.sessionId, session.time));
    }

    method Back()
      modifies this
      ensures selectedSession == None
      ensures publicSessions == old(publicSessions) && educatorSessions == old(educatorSessions) && adminSessions == old(adminSessions)
      ensures loading == old(loading) && downloadLoading == old(downloadLoading) && downloads == old(downloads)
    {
      selectedSession := None;
    }
  }

  /** The download holds the public sessions' rows first, then the educators', then the admins'. */
  lemma DownloadRoleOrder(pub: seq<Session>, edu: seq<Session>, adm: seq<Session>, messagesOf: string -> Option<seq<Message>>)
    ensures RowsOf(pub + edu + adm, messagesOf) == RowsOf(pub, messagesOf) + RowsOf(edu, messagesOf) + RowsOf(adm, messagesOf)
  {
    RowsOfAppend(pub + edu, adm, messagesOf);
    RowsOfAppend(pub, edu, messagesOf);
  }
}
