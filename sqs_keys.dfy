/**
 * The S3-to-SQS forwarder of the comparison uploads: each object key is decoded and split into
 * a file name, an extension and a session id, and one queue message is sent per record. The
 * consumer of that queue later rebuilds a key from the message.
 */
module SqsKeys {
  import opened Common
  import opened Text

  /** The fields of the message body. */
  datatype Message = Message(filePath: string, fileName: string, fileExtension: string, sessionId: string)

  /** A send: the body, the group id and the de-duplication id. */
  datatype Send = Send(body: Message, groupId: string, deduplicationId: string)

  const UnknownSession := "unknown"

  /** The text after the last `/`, or the whole key. */
  function FileName(fullKey: string): (r: string)
  {
    AfterLast(fullKey, '/')
  }

  /** The text after the last `.` of the file name, or "" without one. */
  function FileExtension(fileName: string): (r: string)
  {
    match SplitAtLast(fileName, '.')
    case None => ""
    case Some((_, ext)) => ext
  }

  /** The text before the last `.` of the file name, or the whole name without one. */
  function BaseFileName(fileName: string): (r: string)
  {
    match SplitAtLast(fileName, '.')
    case None => fileName
    case Some((base, _)) => base
  }

  /** The first `/`-segment when the key has more than one, or "unknown". */
  function SessionId(fullKey: string): (r: string)
  {
    var pathParts := Split(fullKey, '/');
    if |pathParts| > 1 then pathParts[0] else UnknownSession
  }

  /** The message built for a decoded key. */
  function MessageFor(fullKey: string): (m: Message)
    ensures m.filePath == fullKey
  {
    var fileName := FileName(fullKey);
    Message(fullKey, fileName, FileExtension(fileName), SessionId(fullKey))
  }

  /** The file name is the key's last segment: no `/` in it, and the key ends with it. */
  lemma FileNameShape(fullKey: string)
    ensures '/' !in FileName(fullKey)
    ensures '/' !in fullKey ==> FileName(fullKey) == fullKey
    ensures '/' in fullKey ==> exists i :: 0 <= i < |fullKey| && fullKey == fullKey[..i] + "/" + FileName(fullKey)
  {
  }

  /** With a dot the base, a dot and the extension rebuild the file name; without one the extension is empty. */
  lemma ExtensionShape(fileName: string)
    ensures '.' in fileName ==> BaseFileName(fileName) + "." + FileExtension(fileName) == fileName
                                && '.' !in FileExtension(fileName)
    ensures '.' !in fileName ==> FileExtension(fileName) == "" && BaseFileName(fileName) == fileName
  {
  }

  /** The session id is the text before the first `/`, or "unknown" for a key without one. */
  lemma SessionIdShape(fullKey: string)
    ensures '/' in fullKey ==> SessionId(fullKey) == fullKey[..IndexOfChar(fullKey, '/').value]
    ensures '/' !in fullKey ==> SessionId(fullKey) == UnknownSession
  {
    JoinSplit(fullKey, '/');
    SplitHead(fullKey, '/');
  }

  /** The key as it reaches the decoder: every `+` already a space. */
  function Undecoded(rawKey: string): (r: string)
    ensures '+' !in r && |r| == |rawKey|
  {
    ReplaceChar(rawKey, '+', ' ')
  }

  /** What handling one record sends: nothing when decoding or the send throws. */
  function SentFor(rawKey: string, decode: string -> Option<string>, sendOk: string -> bool): (r: Option<Send>)
  {
    match decode(Undecoded(rawKey))
    case None => None
    case Some(fullKey) => if sendOk(fullKey) then Some(Send(MessageFor(fullKey), SessionId(fullKey), fullKey)) else None
  }

  /** The messages sent for records `i..` and whether the run ended in an error. */
  datatype Run = Run(sent: seq<Send>, failed: bool)

  /**
   * The loop from record `i`: `decode` is `decodeURIComponent` (None when it throws) and
   * `sendOk` whether the queue accepts a message for that key.
   */
  function SendFrom(rawKeys: seq<string>, decode: string -> Option<string>, sendOk: string -> bool, i: nat): (r: Run)
    requires i <= |rawKeys|
    decreases |rawKeys| - i
  {
    if i == |rawKeys| then Run([], false)
    else
      match SentFor(rawKeys[i], decode, sendOk)
      case None => Run([], true)
      case Some(send) =>
        var rest := SendFrom(rawKeys, decode, sendOk, i + 1);
        Run([send] + rest.sent, rest.failed)
  }

  /** One record either ends the run with an error or adds its message in front of the rest. */
  lemma SendFromCase(rawKeys: seq<string>, decode: string -> Option<string>, sendOk: string -> bool, i: nat)
    requires i < |rawKeys|
    ensures SentFor(rawKeys[i], decode, sendOk).None? ==> SendFrom(rawKeys, decode, sendOk, i) == Run([], true)
    ensures SentFor(rawKeys[i], decode, sendOk).Some? ==>
              var rest := SendFrom(rawKeys, decode, sendOk, i + 1);
              SendFrom(rawKeys, decode, sendOk, i) == Run([SentFor(rawKeys[i], decode, sendOk).value] + rest.sent, rest.failed)
  {
  }

  /** The answer: a status, the body's `message` and, on a 500, the body's `error`. */
  datatype Response = Response(statusCode: int, message: string, error: Option<string>)

  const Processed := "Successfully processed S3 events"
  const Failed := "Error processing S3 event"

  /** The message of the `URIError` that `decodeURIComponent` throws on a malformed escape. */
  const UriMalformed := "URI malformed"

  /**
   * `error.message` of a record that throws: the decoder's error, or `sendError(fullKey)`, the
   * message of the error the queue client throws for that key.
   */
  function RecordError(rawKey: string, decode: string -> Option<string>, sendError: string -> string): (r: string)
    ensures decode(Undecoded(rawKey)).None? ==> r == UriMalformed
    ensures decode(Undecoded(rawKey)).Some? ==> r == sendError(decode(Undecoded(rawKey)).value)
  {
    match decode(Undecoded(rawKey))
    case None => UriMalformed
    case Some(fullKey) => sendError(fullKey)
  }

  /** The error message of the first record from `i` on that throws, or "" when none does. */
  function FirstError(rawKeys: seq<string>, decode: string -> Option<string>, sendOk: string -> bool,
                      sendError: string -> string, i: nat): (r: string)
    requires i <= |rawKeys|
    decreases |rawKeys| - i
  {
    if i == |rawKeys| then ""
    else if SentFor(rawKeys[i], decode, sendOk).None? then RecordError(rawKeys[i], decode, sendError)
    else FirstError(rawKeys, decode, sendOk, sendError, i + 1)
  }

  /**
   * A run from `i` that fails stops at a record `k`: every record before it sends, `k` throws,
   * and the error reported is the one `k` throws.
   */
  lemma {:induction false} FirstErrorAt(rawKeys: seq<string>, decode: string -> Option<string>, sendOk: string -> bool,
                                        sendError: string -> string, i: nat)
    requires i <= |rawKeys|
    requires SendFrom(rawKeys, decode, sendOk, i).failed
    ensures exists k :: i <= k < |rawKeys|
              && (forall j :: i <= j < k ==> SentFor(rawKeys[j], decode, sendOk).Some?)
              && SentFor(rawKeys[k], decode, sendOk).None?
              && FirstError(rawKeys, decode, sendOk, sendError, i) == RecordError(rawKeys[k], decode, sendError)
    decreases |rawKeys| - i
  {
    if SentFor(rawKeys[i], decode, sendOk).None? {
      assert FirstError(rawKeys, decode, sendOk, sendError, i) == RecordError(rawKeys[i], decode, sendError);
    } else {
      FirstErrorAt(rawKeys, decode, sendOk, sendError, i + 1);
      var k :| i + 1 <= k < |rawKeys|
              && (forall j :: i + 1 <= j < k ==> SentFor(rawKeys[j], decode, sendOk).Some?)
              && SentFor(rawKeys[k], decode, sendOk).None?
              && FirstError(rawKeys, decode, sendOk, sendError, i + 1) == RecordError(rawKeys[k], decode, sendError);
      assert forall j :: i <= j < k ==> SentFor(rawKeys[j], decode, sendOk).Some?;
    }
  }

  /**
   * The body of the loop for one record: what it sends, or the message of the error it throws,
   * with `sendError` giving the queue client's message for a refused key.
   */
  method SendRecord(rawKey: string, decode: string -> Option<string>, sendOk: string -> bool, sendError: string -> string)
    returns (send: Option<Send>, error: string)
    ensures send == SentFor(rawKey, decode, sendOk)
    ensures send.None? ==> error == RecordError(rawKey, decode, sendError)
  {
    var decoded := decode(Undecoded(rawKey));
    if decoded.None? {
      return None, UriMalformed;
    }
    var fullKey := decoded.value;
    var message := MessageFor(fullKey);
    if !sendOk(fullKey) {
      return None, sendError(fullKey);
    }
    return Some(Send(message, message.sessionId, fullKey)), "";
  }

  /**
   * `handler`: one message per record in record order, grouped by session and de-duplicated
   * by the full key; the first error answers 500 with that error's message and the earlier
   * messages already sent.
   */
  method Handler(rawKeys: seq<string>, decode: string -> Option<string>, sendOk: string -> bool, sendError: string -> string)
    returns (response: Response, sent: seq<Send>)
    ensures sent == SendFrom(rawKeys, decode, sendOk, 0).sent
    ensures response == if SendFrom(rawKeys, decode, sendOk, 0).failed
                        then Response(500, Failed, Some(FirstError(rawKeys, decode, sendOk, sendError, 0)))
                        else Response(200, Processed, None)
  {
    ghost var whole := SendFrom(rawKeys, decode, sendOk, 0);
    sent := [];
    var i := 0;
    while i < |rawKeys|
      invariant i <= |rawKeys|
      invariant sent + SendFrom(rawKeys, decode, sendOk, i).sent == whole.sent
      invariant SendFrom(rawKeys, decode, sendOk, i).failed == whole.failed
      invariant FirstError(rawKeys, decode, sendOk, sendError, i) == FirstError(rawKeys, decode, sendOk, sendError, 0)
    {
      var send, error := SendRecord(rawKeys[i], decode, sendOk, sendError);
      SendFromCase(rawKeys, decode, sendOk, i);
      if send.None? {
        AppendEmpty(sent);
        return Response(500, Failed, Some(error)), sent;
      }
      ghost var rest := SendFrom(rawKeys, decode, sendOk, i + 1);
      AppendAssoc(sent, [send.value], rest.sent);
      sent := sent + [send.value];
      i := i + 1;
    }
    assert sent + [] == sent;
    return Response(200, Processed, None), sent;
  }

  /** A message sent for a record: de-duplicated by the record's decoded key and grouped by its session. */
  predicate CarriesKey(rawKey: string, decode: string -> Option<string>, s: Send)
  {
    decode(Undecoded(rawKey)) == Some(s.deduplicationId)
    && s.body == MessageFor(s.deduplicationId)
    && s.groupId == s.body.sessionId
  }

  /** What one record sends carries that record's key. */
  lemma SentForCarriesKey(rawKey: string, decode: string -> Option<string>, sendOk: string -> bool)
    ensures SentFor(rawKey, decode, sendOk).Some? ==> CarriesKey(rawKey, decode, SentFor(rawKey, decode, sendOk).value)
  {
  }

  /** A run from record `i` without an error sends that record's message and then the run from `i + 1`. */
  lemma SendFromStep(rawKeys: seq<string>, decode: string -> Option<string>, sendOk: string -> bool, i: nat)
    requires i < |rawKeys|
    requires !SendFrom(rawKeys, decode, sendOk, i).failed
    ensures SentFor(rawKeys[i], decode, sendOk).Some?
    ensures !SendFrom(rawKeys, decode, sendOk, i + 1).failed
    ensures SendFrom(rawKeys, decode, sendOk, i).sent
              == [SentFor(rawKeys[i], decode, sendOk).value] + SendFrom(rawKeys, decode, sendOk, i + 1).sent
  {
  }

  /** Without errors, the run sends one message per record from `i` on. */
  lemma {:induction false} RunLength(rawKeys: seq<string>, decode: string -> Option<string>, sendOk: string -> bool, i: nat)
    requires i <= |rawKeys|
    requires !SendFrom(rawKeys, decode, sendOk, i).failed
    ensures |SendFrom(rawKeys, decode, sendOk, i).sent| == |rawKeys| - i
    decreases |rawKeys| - i
  {
    if i < |rawKeys| {
      SendFromStep(rawKeys, decode, sendOk, i);
      RunLength(rawKeys, decode, sendOk, i + 1);
    }
  }

  /** Without errors, the run sends, for each record in order, what that record alone sends. */
  lemma {:induction false} RunOfRecords(rawKeys: seq<string>, decode: string -> Option<string>, sendOk: string -> bool, i: nat)
    requires i <= |rawKeys|
    requires !SendFrom(rawKeys, decode, sendOk, i).failed
    ensures |SendFrom(rawKeys, decode, sendOk, i).sent| == |rawKeys| - i
    ensures forall k :: i <= k < |rawKeys| ==> SentFor(rawKeys[k], decode, sendOk) == Some(SendFrom(rawKeys, decode, sendOk, i).sent[k - i])
    decreases |rawKeys| - i
  {
    RunLength(rawKeys, decode, sendOk, i);
    if i < |rawKeys| {
      SendFromStep(rawKeys, decode, sendOk, i);
      RunOfRecords(rawKeys, decode, sendOk, i + 1);
      var rest := SendFrom(rawKeys, decode, sendOk, i + 1).sent;
      var sent := SendFrom(rawKeys, decode, sendOk, i).sent;
      assert sent == [SentFor(rawKeys[i], decode, sendOk).value] + rest;
      forall k | i <= k < |rawKeys|
        ensures SentFor(rawKeys[k], decode, sendOk) == Some(sent[k - i])
      {
        if k > i {
          assert sent[k - i] == rest[k - (i + 1)];
        }
      }
    }
  }

  /** Without errors, exactly one message per record, each carrying its own decoded key. */
  lemma OnePerRecord(rawKeys: seq<string>, decode: string -> Option<string>, sendOk: string -> bool)
    requires !SendFrom(rawKeys, decode, sendOk, 0).failed
    ensures var sent := SendFrom(rawKeys, decode, sendOk, 0).sent;
            |sent| == |rawKeys|
            && forall k :: 0 <= k < |sent| ==> CarriesKey(rawKeys[k], decode, sent[k])
  {
    RunOfRecords(rawKeys, decode, sendOk, 0);
    var sent := SendFrom(rawKeys, decode, sendOk, 0).sent;
    forall k | 0 <= k < |sent|
      ensures CarriesKey(rawKeys[k], decode, sent[k])
    {
      assert SentFor(rawKeys[k], decode, sendOk) == Some(sent[k - 0]);
      SentForCarriesKey(rawKeys[k], decode, sendOk);
    }
  }

  // ---------------------------------------------------------------------------------------------
  // The consumer's key
  // ---------------------------------------------------------------------------------------------

  /** The key the comparison consumer deletes after ingestion, `{sessionId}/{fileName}.{fileExtension}`. */
  function ConsumerKey(m: Message): string
  {
    m.sessionId + "/" + m.fileName + "." + m.fileExtension
  }

  /** The key the consumer's own comment describes, `{sessionId}/{fileName}`. */
  function IntendedConsumerKey(m: Message): string
  {
    m.sessionId + "/" + m.fileName
  }

  /** A string with a single `/` that does not lie in `a` or `b`. */
  lemma CountOneSlash(a: string, b: string)
    requires '/' !in a && '/' !in b
    ensures Count(a + "/" + b, '/') == 1
  {
    CountAppend(a + "/", b, '/');
    CountAppend(a, "/", '/');
  }

  /** None of the three parts of a message holds a `/`. */
  lemma PartsHaveNoSlash(fullKey: string)
    ensures var m := MessageFor(fullKey);
            '/' !in m.sessionId && '/' !in m.fileName && '/' !in m.fileExtension
  {
    var m := MessageFor(fullKey);
    SessionIdShape(fullKey);
    if '/' in fullKey {
      assert '/' !in fullKey[..IndexOfChar(fullKey, '/').value];
    }
    match SplitAtLast(m.fileName, '.')
    case None =>
    case Some((base, ext)) =>
      assert m.fileName == base + ['.'] + ext;
      assert forall x :: x in ext ==> x in m.fileName;
  }

  /** With one `/`, the session is the text before it and the file name the text after it. */
  lemma OneSlashKey(fullKey: string)
    requires Count(fullKey, '/') == 1
    ensures fullKey == SessionId(fullKey) + "/" + FileName(fullKey)
  {
    SessionIdShape(fullKey);
    var i := IndexOfChar(fullKey, '/').value;
    var before, after := fullKey[..i], fullKey[i + 1..];
    SplitAround(fullKey, i);
    assert fullKey == before + ['/'] + after;
    CountAppend(before + ['/'], after, '/');
    CountAppend(before, ['/'], '/');
    assert '/' !in after;
    SplitAtLastOf(before, '/', after);
  }

  /**
   * Because the file name already ends with its extension, the rebuilt key never names the
   * object that was uploaded: it differs from the full key for every message.
   */
  lemma ConsumerKeyDiffers(fullKey: string)
    ensures ConsumerKey(MessageFor(fullKey)) != fullKey
  {
    var m := MessageFor(fullKey);
    PartsHaveNoSlash(fullKey);
    var tail := m.fileName + "." + m.fileExtension;
    assert '/' !in tail by {
      assert forall k :: 0 <= k < |tail| ==> tail[k] in m.fileName || tail[k] == '.' || tail[k] in m.fileExtension;
    }
    assert ConsumerKey(m) == m.sessionId + "/" + tail;
    CountOneSlash(m.sessionId, tail);
    if Count(fullKey, '/') == 1 {
      OneSlashKey(fullKey);
      assert |ConsumerKey(m)| > |fullKey|;
    }
  }

  /** The intended key names the upload for every key of the form `{session}/{file}`. */
  lemma IntendedConsumerKeyMatches(sessionId: string, fileName: string)
    requires '/' !in sessionId && '/' !in fileName
    ensures IntendedConsumerKey(MessageFor(sessionId + "/" + fileName)) == sessionId + "/" + fileName
  {
    var key := sessionId + "/" + fileName;
    SplitAtLastOf(sessionId, '/', fileName);
    assert FileName(key) == fileName;
    SessionIdShape(key);
    assert key[|sessionId|] == '/';
    IndexOfCharUnique(key, '/', |sessionId|);
    assert key[..|sessionId|] == sessionId;
  }
}
