/**
 * The data-ingestion Lambda, triggered by S3 events on the document bucket: it parses the object
 * key `{category_id}/{document_name}.{document_type}`, records a created document in the
 * database and then rebuilds the category's vector store.
 */
module IngestionMain {
  import opened Common
  import opened Text

  /** The three parts of an object key. */
  datatype KeyParts = KeyParts(categoryId: string, documentName: string, documentType: string)

  /**
   * `parse_s3_file_path`: a split at `/` that must give exactly two parts, then a split of the
   * second part at its last `.`. Either unpacking failing is the `None` case (the source
   * returns an error dictionary there).
   */
  function ParseS3FilePath(documentKey: string): (r: Option<KeyParts>)
    ensures r.Some? ==> '/' !in r.value.categoryId && '/' !in r.value.documentName
                        && '/' !in r.value.documentType && '.' !in r.value.documentType
  {
    var parts := Split(documentKey, '/');
    if |parts| != 2 then None
    else
      match SplitAtLast(parts[1], '.')
      case None => None
      case Some((name, ty)) =>
        assert forall x :: x in name ==> x in parts[1] by {
          assert parts[1] == name + ['.'] + ty;
        }
        Some(KeyParts(parts[0], name, ty))
  }

  /** With one `/`, the split gives the text before it and the text after it. */
  lemma SplitAtOnlySlash(documentKey: string)
    requires Count(documentKey, '/') == 1
    ensures '/' in documentKey
    ensures var i := IndexOfChar(documentKey, '/').value;
            Split(documentKey, '/') == [documentKey[..i], documentKey[i + 1..]]
  {
    JoinSplit(documentKey, '/');
    var parts := Split(documentKey, '/');
    assert |parts| == 2;
    assert Join("/", parts[1..]) == parts[1];
    assert documentKey == parts[0] + "/" + parts[1];
    var n := |parts[0]|;
    assert documentKey[..n] == parts[0];
    assert documentKey[n] == '/';
    assert documentKey[n + 1..] == parts[1];
    IndexOfCharUnique(documentKey, '/', n);
  }

  /**
   * The parse succeeds exactly when the key has one `/` and a `.` after it; the parts then
   * rebuild the key.
   */
  lemma ParseSucceedsIff(documentKey: string)
    ensures ParseS3FilePath(documentKey).Some? <==>
              Count(documentKey, '/') == 1 && '.' in documentKey[IndexOfChar(documentKey, '/').value + 1..]
    ensures ParseS3FilePath(documentKey).Some? ==>
              var p := ParseS3FilePath(documentKey).value;
              p.categoryId + "/" + p.documentName + "." + p.documentType == documentKey
  {
    JoinSplit(documentKey, '/');
    if Count(documentKey, '/') == 1 {
      SplitAtOnlySlash(documentKey);
      var i := IndexOfChar(documentKey, '/').value;
      var before, after := documentKey[..i], documentKey[i + 1..];
      assert documentKey == before + "/" + after by {
        assert documentKey == documentKey[..i] + [documentKey[i]] + documentKey[i + 1..];
      }
      match SplitAtLast(after, '.')
      case None =>
      case Some((name, ty)) =>
        assert after == name + "." + ty;
        AppendRegroup(before + "/", name, ".", ty);
    }
  }

  /** Parsing inverts building a key from a category, a name with no `/` and a plain type. */
  lemma ParseOfBuiltKey(categoryId: string, documentName: string, documentType: string)
    requires '/' !in categoryId && '/' !in documentName && '/' !in documentType && '.' !in documentType
    ensures ParseS3FilePath(categoryId + "/" + documentName + "." + documentType)
              == Some(KeyParts(categoryId, documentName, documentType))
  {
    var rest := documentName + "." + documentType;
    var key := categoryId + "/" + rest;
    assert key == categoryId + "/" + documentName + "." + documentType;
    assert '/' !in rest by {
      assert forall k :: 0 <= k < |rest| ==> rest[k] in documentName || rest[k] == '.' || rest[k] in documentType;
    }
    SplitJoin([categoryId, rest], '/');
    assert Join("/", [categoryId, rest]) == key by {
      assert [categoryId, rest][1..] == [rest];
    }
    assert Split(key, '/') == [categoryId, rest];
    SplitAtLastOf(documentName, '.', documentType);
    assert SplitAtLast(rest, '.') == Some((documentName, documentType));
  }

  /** A name may itself contain dots; only the text after the last one is the type. */
  lemma DottedName()
    ensures ParseS3FilePath("c/a.b.pdf") == Some(KeyParts("c", "a.b", "pdf"))
  {
    ParseOfBuiltKey("c", "a.b", "pdf");
    assert "c" + "/" + "a.b" + "." + "pdf" == "c/a.b.pdf";
  }

  /** A key with a second `/` is rejected. */
  lemma NestedKeyRejected()
    ensures ParseS3FilePath("c/d/a.pdf").None?
  {
    var key := "c/d/a.pdf";
    JoinSplit(key, '/');
  }

  /** A parse can leave a part empty; only such keys reach the handler's own 400 answer. */
  lemma EmptyCategoryParses()
    ensures ParseS3FilePath("/a.pdf") == Some(KeyParts("", "a", "pdf"))
  {
    ParseOfBuiltKey("", "a", "pdf");
    assert "" + "/" + "a" + "." + "pdf" == "/a.pdf";
  }

  // ---------------------------------------------------------------------------------------------
  // The handler
  // ---------------------------------------------------------------------------------------------

  /** The fields of one S3 event record the handler reads. */
  datatype Record = Record(eventName: string, bucketName: string, key: string)

  /**
   * The outcome of the two calls the handler makes, as the error text they raise with:
   * `insert_file_into_db` and `update_vectorstore_from_s3`.
   */
  datatype Services = Services(insertError: Option<string>, vectorstoreError: Option<string>)

  /** The calls made, in order. */
  datatype Action = Inserted(categoryId: string, documentName: string, documentType: string, path: string)
                  | VectorstoreUpdated(bucket: string, categoryId: string)

  datatype Body = Text(text: string) | Location(message: string, location: string)

  datatype Response = Response(statusCode: int, body: Body)

  datatype Outcome = Raised | Returned(response: Response)

  const NoEvent := "No valid S3 event found."
  const ParseFailed := "Error parsing S3 file path."
  const NoUpload := "No new document upload or deletion event found."
  const InsertedMessage := "New file inserted into database."
  const CreatedPrefix := "ObjectCreated:"

  predicate StartsWith(s: string, prefix: string)
  {
    |prefix| <= |s| && s[..|prefix|] == prefix
  }

  /** The first record from the given bucket. */
  function FirstInBucket(records: seq<Record>, bucket: string): (r: Option<nat>)
    ensures r.Some? ==> r.value < |records| && records[r.value].bucketName == bucket
                        && forall j :: 0 <= j < r.value ==> records[j].bucketName != bucket
    ensures r.None? ==> forall j :: 0 <= j < |records| ==> records[j].bucketName != bucket
  {
    if |records| == 0 then None
    else if records[0].bucketName == bucket then Some(0)
    else
      match FirstInBucket(records[1..], bucket)
      case None => None
      case Some(i) => Some(i + 1)
  }

  /**
   * What the handler's loop body does with a record from the target bucket: a key that does not
   * parse raises (the error dictionary does not unpack into three names), a part left empty
   * answers 400, a created object is inserted into the database before the vector store is
   * rebuilt, any other event only rebuilds it, and the first failure answers 500.
   */
  predicate Processed(record: Record, services: Services, out: Outcome, trace: seq<Action>)
  {
    var parsed := ParseS3FilePath(record.key);
    var created := StartsWith(record.eventName, CreatedPrefix);
    if parsed.None? then out == Raised && trace == []
    else
      var p := parsed.value;
      var insert := Inserted(p.categoryId, p.documentName, p.documentType, record.key);
      var update := VectorstoreUpdated(record.bucketName, p.categoryId);
      var inserts := if created then [insert] else [];
      var file := p.documentName + "." + p.documentType;
      if p.categoryId == "" || p.documentName == "" || p.documentType == "" then
        out == Returned(Response(400, Text(ParseFailed))) && trace == []
      else if created && services.insertError.Some? then
        out == Returned(Response(500, Text("Error inserting file " + file + ": " + services.insertError.value)))
        && trace == [insert]
      else if services.vectorstoreError.Some? then
        out == Returned(Response(500, Text("Document inserted, but error updating vectorstore: " + services.vectorstoreError.value)))
        && trace == inserts + [update]
      else
        out == Returned(Response(200, Location(InsertedMessage, "s3://" + record.bucketName + "/" + record.key)))
        && trace == inserts + [update]
  }

  /**
   * `handler`: records from other buckets are skipped, and the first record from the target
   * bucket decides the answer.
   */
  method Handler(records: seq<Record>, targetBucket: string, services: Services) returns (out: Outcome, trace: seq<Action>)
    ensures records == [] ==> out == Returned(Response(400, Text(NoEvent))) && trace == []
    ensures records != [] && FirstInBucket(records, targetBucket).None? ==>
              out == Returned(Response(400, Text(NoUpload))) && trace == []
    ensures FirstInBucket(records, targetBucket).Some? ==>
              Processed(records[FirstInBucket(records, targetBucket).value], services, out, trace)
  {
    trace := [];
    if records == [] {
      return Returned(Response(400, Text(NoEvent))), trace;
    }
    var i := 0;
    while i < |records|
      invariant i <= |records|
      invariant forall j :: 0 <= j < i ==> records[j].bucketName != targetBucket
    {
      var record := records[i];
      if record.bucketName != targetBucket {
        i := i + 1;
        continue;
      }
      assert FirstInBucket(records, targetBucket) == Some(i);
      out, trace := ProcessRecord(record, services);
      return;
    }
    return Returned(Response(400, Text(NoUpload))), trace;
  }

  /** The body of the handler's loop for a record from the target bucket. */
  method ProcessRecord(record: Record, services: Services) returns (out: Outcome, trace: seq<Action>)
    ensures Processed(record, services, out, trace)
  {
    trace := [];
    var parsed := ParseS3FilePath(record.key);
    if parsed.None? {
      return Raised, trace;
    }
    var categoryId, documentName, documentType := parsed.value.categoryId, parsed.value.documentName, parsed.value.documentType;
    if categoryId == "" || documentName == "" || documentType == "" {
      return Returned(Response(400, Text(ParseFailed))), trace;
    }
    if StartsWith(record.eventName, CreatedPrefix) {
      trace := trace + [Inserted(categoryId, documentName, documentType, record.key)];
      if services.insertError.Some? {
        var file := documentName + "." + documentType;
        return Returned(Response(500, Text("Error inserting file " + file + ": " + services.insertError.value))), trace;
      }
    }
    trace := trace + [VectorstoreUpdated(record.bucketName, categoryId)];
    if services.vectorstoreError.Some? {
      return Returned(Response(500, Text("Document inserted, but error updating vectorstore: " + services.vectorstoreError.value))), trace;
    }
    return Returned(Response(200, Location(InsertedMessage, "s3://" + record.bucketName + "/" + record.key))), trace;
  }
}
