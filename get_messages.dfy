/**
 * The typed-history reader behind `GET /messages`: DynamoDB items in their attribute-value form
 * (`{"M": …}`, `{"L": …}`, `{"S": …}`), read with Python's `dict.get`, give the `{type, content}`
 * messages of one session.
 */
module GetMessages {
  import opened Common

  /** A decoded JSON value as the reader sees it: a text, a list, an object, or any other scalar. */
  datatype Attr = AStr(s: string) | AList(elems: seq<Attr>) | AMap(fields: map<string, Attr>) | AOther(truthy: bool)

  const Empty: Attr := AMap(map[])

  /** Python truthiness: empty texts, lists and objects are false. */
  predicate Truthy(a: Attr)
  {
    match a
    case AStr(s) => s != ""
    case AList(l) => l != []
    case AMap(m) => m != map[]
    case AOther(t) => t
  }

  /** The error every `.get` on a value that is not an object raises (`AttributeError`). */
  const NotAnObject := "AttributeError"

  /** `a.get(key, default)`: the field, the default when it is absent, an error when `a` is no object. */
  function Get(a: Attr, key: string, default: Attr): (r: Result<Attr>)
    ensures r.Err? <==> !a.AMap?
    ensures r.Err? ==> r.error == NotAnObject
    ensures a.AMap? && key in a.fields ==> r == Ok(a.fields[key])
    ensures a.AMap? && key !in a.fields ==> r == Ok(default)
  {
    if !a.AMap? then Err(NotAnObject)
    else if key in a.fields then Ok(a.fields[key])
    else Ok(default)
  }

  /** A returned message: its `type` and `content` values as stored. */
  datatype Message = Message(messageType: Attr, content: Attr)

  /** One history entry: `entry.M.data.M`, its `content.S` and `type.S`; kept when both are truthy. */
  function EntryMessage(entry: Attr): (r: Result<Option<Message>>)
    ensures r.Err? ==> r.error == NotAnObject
  {
    var m :- Get(entry, "M", Empty);
    var data :- Get(m, "data", Empty);
    var messageData :- Get(data, "M", Empty);
    var contentAttr :- Get(messageData, "content", Empty);
    var content :- Get(contentAttr, "S", AStr(""));
    var typeAttr := Get(messageData, "type", Empty).value;  // `messageData` is an object by now
    var messageType :- Get(typeAttr, "S", AStr(""));
    if Truthy(content) && Truthy(messageType) then Ok(Some(Message(messageType, content))) else Ok(None)
  }

  /** `item.get("History", {}).get("L", [])`: the entries, or `None` when that value is not a list. */
  function ItemHistory(item: map<string, Attr>): Result<Option<seq<Attr>>>
  {
    var history := if "History" in item then item["History"] else Empty;
    var l :- Get(history, "L", AList([]));
    if l.AList? then Ok(Some(l.elems)) else Ok(None)
  }

  /** Two steps in sequence: the first error wins, otherwise the messages are concatenated. */
  function Then(a: Result<seq<Message>>, b: Result<seq<Message>>): (r: Result<seq<Message>>)
    ensures r.Ok? <==> a.Ok? && b.Ok?
    ensures r.Ok? ==> r.value == a.value + b.value
  {
    if a.Err? then a else if b.Err? then b else Ok(a.value + b.value)
  }

  function EntryList(r: Option<Message>): seq<Message>
  {
    if r.Some? then [r.value] else []
  }

  /** The messages of a list of entries, in order. */
  function EntriesMessages(entries: seq<Attr>): (r: Result<seq<Message>>)
    ensures r.Err? ==> r.error == NotAnObject
  {
    if |entries| == 0 then Ok([])
    else
      var last :- EntryMessage(entries[|entries| - 1]);
      Then(EntriesMessages(entries[..|entries| - 1]), Ok(EntryList(last)))
  }

  /** The messages of a list of items, in order; items whose history is not a list contribute nothing. */
  function ItemsMessages(items: seq<map<string, Attr>>): Result<seq<Message>>
  {
    if |items| == 0 then Ok([])
    else
      var init := ItemsMessages(items[..|items| - 1]);
      if init.Err? then init
      else
        match ItemHistory(items[|items| - 1])
        case Err(e) => Err(e)
        case Ok(None) => init
        case Ok(Some(entries)) => Then(init, EntriesMessages(entries))
  }

  /** The body of a response: the message list, an error object, or a bare JSON string. */
  datatype Body = MessagesBody(messages: seq<Message>) | ErrorBody(error: string) | TextBody(text: string)

  datatype Response = Response(statusCode: int, body: Body)

  const NoMessages := "No messages found for the provided session_id"
  const RetrievalFailed := "Error retrieving messages"
  const MissingSession := "Missing required parameter: session_id"

  /** What `get_messages` answers for the items the query returns (`None` when `Items` is absent). */
  function MessagesResponse(items: Option<seq<map<string, Attr>>>): Response
  {
    if items.None? || |items.value| == 0 then Response(404, ErrorBody(NoMessages))
    else
      match ItemsMessages(items.value)
      case Ok(ms) => Response(200, MessagesBody(ms))
      case Err(_) => Response(500, TextBody(RetrievalFailed))
  }

  /** The inner loop of `get_messages`: the entries of one item. */
  method ReadEntries(entries: seq<Attr>) returns (r: Result<seq<Message>>)
    ensures r == EntriesMessages(entries)
  {
    var messages: seq<Message> := [];
    var j := 0;
    while j < |entries|
      invariant 0 <= j <= |entries|
      invariant EntriesMessages(entries[..j]) == Ok(messages)
    {
      var e := EntryMessage(entries[j]);
      EntriesStep(entries, j);
      if e.Err? {
        EntriesError(entries, j + 1);
        return Err(NotAnObject);
      }
      messages := messages + EntryList(e.value);
      j := j + 1;
    }
    assert entries[..|entries|] == entries;
    r := Ok(messages);
  }

  /** Reading one more entry. */
  lemma EntriesStep(entries: seq<Attr>, j: nat)
    requires j < |entries|
    ensures EntryMessage(entries[j]).Err? ==> EntriesMessages(entries[..j + 1]).Err?
    ensures EntryMessage(entries[j]).Ok? ==>
              EntriesMessages(entries[..j + 1]) == Then(EntriesMessages(entries[..j]), Ok(EntryList(EntryMessage(entries[j]).value)))
  {
    assert entries[..j + 1][..j] == entries[..j] && entries[..j + 1][j] == entries[j];
  }

  /** An error in the first `n` entries ends the whole list with an error. */
  lemma {:induction false} EntriesError(entries: seq<Attr>, n: nat)
    requires 0 < n <= |entries| && EntriesMessages(entries[..n]).Err?
    ensures EntriesMessages(entries).Err?
    decreases |entries|
  {
    if n < |entries| {
      var init := entries[..|entries| - 1];
      assert init[..n] == entries[..n];
      EntriesError(init, n);
    } else {
      assert entries[..n] == entries;
    }
  }

  /** `get_messages` after the query: 404 without items, 500 on a malformed item, else 200. */
  method ReadMessages(items: Option<seq<map<string, Attr>>>) returns (resp: Response)
    ensures resp == MessagesResponse(items)
  {
    if items.None? || |items.value| == 0 {
      return Response(404, ErrorBody(NoMessages));
    }
    var all := items.value;
    var messages: seq<Message> := [];
    var i := 0;
    while i < |all|
      invariant 0 <= i <= |all|
      invariant ItemsMessages(all[..i]) == Ok(messages)
    {
      assert all[..i + 1][..i] == all[..i];
      var history := ItemHistory(all[i]);
      if history.Err? {
        ItemsError(all, i + 1);
        return Response(500, TextBody(RetrievalFailed));
      }
      if history.value.Some? {
        var r := ReadEntries(history.value.value);
        if r.Err? {
          ItemsError(all, i + 1);
          return Response(500, TextBody(RetrievalFailed));
        }
        messages := messages + r.value;
      }
      i := i + 1;
    }
    assert all[..|all|] == all;
    resp := Response(200, MessagesBody(messages));
  }

  /** A failing item ends the whole list with an error. */
  lemma {:induction false} ItemsError(items: seq<map<string, Attr>>, n: nat)
    requires 0 < n <= |items| && ItemsMessages(items[..n]).Err?
    ensures ItemsMessages(items).Err?
    decreases |items|
  {
    if n < |items| {
      var init := items[..|items| - 1];
      assert init[..n] == items[..n];
      ItemsError(init, n);
    } else {
      assert items[..n] == items;
    }
  }

  /** What `table.query` does: its response's `Items` (None when absent), or it raises. */
  datatype QueryAnswer = QueryRaised | QueryItems(items: Option<seq<map<string, Attr>>>)

  /** What the handler hands back: a response, or an exception that escapes the function. */
  datatype Outcome = Raised | Returned(response: Response)

  /**
   * `lambda_handler`: a null parameter object raises on `.get`; a missing or empty `session_id` is
   * answered 400 and the table is not queried; otherwise the table is queried, a raising query is
   * answered 500 by the except of `get_messages`, and the query's items are read.
   */
  method Handler(params: QueryParams, answer: QueryAnswer) returns (out: Outcome, queried: bool)
    ensures params.Null? ==> out == Raised && !queried
    ensures !params.Null? && params.Lookup("session_id", "") == "" ==>
              out == Returned(Response(400, TextBody(MissingSession))) && !queried
    ensures !params.Null? && params.Lookup("session_id", "") != "" ==>
              queried
              && (answer.QueryRaised? ==> out == Returned(Response(500, TextBody(RetrievalFailed))))
              && (answer.QueryItems? ==> out == Returned(MessagesResponse(answer.items)))
  {
    if params.Null? {
      return Raised, false;
    }
    var sessionId := params.Lookup("session_id", "");
    if sessionId == "" {
      return Returned(Response(400, TextBody(MissingSession))), false;
    }
    if answer.QueryRaised? {
      return Returned(Response(500, TextBody(RetrievalFailed))), true;
    }
    var resp := ReadMessages(answer.items);
    return Returned(resp), true;
  }

  // Properties of the reader.

  /** Every returned message has a truthy type and a truthy content. */
  lemma {:induction false} EntriesMessagesNonEmpty(entries: seq<Attr>)
    ensures EntriesMessages(entries).Ok? ==>
              forall k :: 0 <= k < |EntriesMessages(entries).value| ==>
                Truthy(EntriesMessages(entries).value[k].messageType) && Truthy(EntriesMessages(entries).value[k].content)
    decreases |entries|
  {
    if |entries| > 0 {
      EntriesMessagesNonEmpty(entries[..|entries| - 1]);
    }
  }

  lemma {:induction false} ItemsMessagesNonEmpty(items: seq<map<string, Attr>>)
    ensures ItemsMessages(items).Ok? ==>
              forall k :: 0 <= k < |ItemsMessages(items).value| ==>
                Truthy(ItemsMessages(items).value[k].messageType) && Truthy(ItemsMessages(items).value[k].content)
    decreases |items|
  {
    if |items| > 0 {
      ItemsMessagesNonEmpty(items[..|items| - 1]);
      var h := ItemHistory(items[|items| - 1]);
      if h.Ok? && h.value.Some? {
        EntriesMessagesNonEmpty(h.value.value);
      }
    }
  }

  /** The stored form of a turn: `{"M": {"data": {"M": {"content": {"S": c}, "type": {"S": t}}}}}`. */
  function TypedEntry(messageType: string, content: string): Attr
  {
    AMap(map["M" := AMap(map["data" := AMap(map["M" := AMap(map[
      "content" := AMap(map["S" := AStr(content)]),
      "type" := AMap(map["S" := AStr(messageType)])])])])])
  }

  /** A stored turn reads back as its type and content, unless one of them is empty. */
  lemma TypedEntryRoundTrip(messageType: string, content: string)
    ensures EntryMessage(TypedEntry(messageType, content))
            == Ok(if messageType != "" && content != "" then Some(Message(AStr(messageType), AStr(content))) else None)
  {
  }

  /** The stored form of a list of turns, and the turns that read back from it. */
  function TypedEntries(turns: seq<(string, string)>): (r: seq<Attr>)
    ensures |r| == |turns|
    ensures forall k :: 0 <= k < |turns| ==> r[k] == TypedEntry(turns[k].0, turns[k].1)
  {
    if |turns| == 0 then [] else TypedEntries(turns[..|turns| - 1]) + [TypedEntry(turns[|turns| - 1].0, turns[|turns| - 1].1)]
  }

  function NonEmptyTurns(turns: seq<(string, string)>): seq<Message>
  {
    if |turns| == 0 then []
    else
      var t := turns[|turns| - 1];
      NonEmptyTurns(turns[..|turns| - 1]) + (if t.0 != "" && t.1 != "" then [Message(AStr(t.0), AStr(t.1))] else [])
  }

  /** A stored history reads back as its turns with both parts non-empty, in order. */
  lemma {:induction false} TypedHistoryRoundTrip(turns: seq<(string, string)>)
    ensures EntriesMessages(TypedEntries(turns)) == Ok(NonEmptyTurns(turns))
    decreases |turns|
  {
    if |turns| > 0 {
      var init := turns[..|turns| - 1];
      TypedHistoryRoundTrip(init);
      var es := TypedEntries(turns);
      assert es[..|es| - 1] == TypedEntries(init);
      TypedEntryRoundTrip(turns[|turns| - 1].0, turns[|turns| - 1].1);
    }
  }

  /** Reading items in two groups is reading each group and concatenating. */
  lemma {:induction false} ItemsMessagesAppend(a: seq<map<string, Attr>>, b: seq<map<string, Attr>>)
    ensures ItemsMessages(a + b) == Then(ItemsMessages(a), ItemsMessages(b))
    decreases |b|
  {
    if |b| == 0 {
      assert a + b == a;
      var x := ItemsMessages(a);
      if x.Ok? {
        assert x.value + [] == x.value;
      }
    } else {
      var b' := b[..|b| - 1];
      assert (a + b)[..|a + b| - 1] == a + b';
      assert (a + b)[|a + b| - 1] == b[|b| - 1];
      ItemsMessagesAppend(a, b');
      var h := ItemHistory(b[|b| - 1]);
      if h.Ok? && h.value.Some? {
        ThenAssoc(ItemsMessages(a), ItemsMessages(b'), EntriesMessages(h.value.value));
      }
    }
  }

  lemma ThenAssoc(x: Result<seq<Message>>, y: Result<seq<Message>>, z: Result<seq<Message>>)
    ensures Then(Then(x, y), z) == Then(x, Then(y, z))
  {
    if x.Ok? && y.Ok? && z.Ok? {
      assert (x.value + y.value) + z.value == x.value + (y.value + z.value);
    }
  }

  /** An item whose `History.L` is not a list is skipped and the items around it are still read. */
  lemma SkippedItem(a: seq<map<string, Attr>>, item: map<string, Attr>, b: seq<map<string, Attr>>)
    requires ItemHistory(item) == Ok(None)
    ensures ItemsMessages(a + [item] + b) == ItemsMessages(a + b)
  {
    ItemsMessagesAppend(a + [item], b);
    ItemsMessagesAppend(a, [item]);
    ItemsMessagesAppend(a, b);
    assert [item][..0] == [];
    assert ItemsMessages([item]) == Ok([]);
    var x := ItemsMessages(a);
    assert Then(x, Ok([])) == x by {
      if x.Ok? {
        assert x.value + [] == x.value;
      }
    }
  }
}
