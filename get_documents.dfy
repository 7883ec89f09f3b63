/**
 * The document-listing Lambda: it lists a category's objects page by page, strips the category
 * prefix from each key, and answers a dictionary from document name to a presigned URL and the
 * metadata stored for it.
 */
module GetDocuments {
  import opened Common
  import opened Text
  import Evaluation

  // ---------------------------------------------------------------------------------------------
  // Prefix removal
  // ---------------------------------------------------------------------------------------------

  /** Python `s.replace(pat, '')`: every non-overlapping occurrence, scanned left to right, removed. */
  function RemoveAll(s: string, pat: string): (r: string)
    ensures |r| <= |s|
    decreases |s|
  {
    if |pat| == 0 || |s| == 0 then s
    else if OccursAt(s, pat, 0) then RemoveAll(s[|pat|..], pat)
    else [s[0]] + RemoveAll(s[1..], pat)
  }

  /** Text without the pattern is returned unchanged. */
  lemma {:induction false} RemoveAllAbsent(s: string, pat: string)
    requires !Contains(s, pat)
    ensures RemoveAll(s, pat) == s
    decreases |s|
  {
    if |pat| > 0 && |s| > 0 {
      assert !OccursAt(s, pat, 0);
      assert !Contains(s[1..], pat) by {
        forall i | 0 <= i <= |s[1..]| && OccursAt(s[1..], pat, i)
          ensures false
        {
          assert s[i + 1..i + 1 + |pat|] == s[1..][i..i + |pat|];
          assert OccursAt(s, pat, i + 1);
        }
      }
      RemoveAllAbsent(s[1..], pat);
      assert s == [s[0]] + s[1..];
    }
  }

  /**
   * A key that is the prefix followed by a name without the prefix gives that name: the leading
   * prefix goes and nothing else changes.
   */
  lemma StripPrefix(prefix: string, name: string)
    requires |prefix| > 0 && !Contains(name, prefix)
    ensures RemoveAll(prefix + name, prefix) == name
  {
    var s := prefix + name;
    assert s[..|prefix|] == prefix && s[|prefix|..] == name;
    RemoveAllAbsent(name, prefix);
  }

  /** A leading occurrence of the pattern is dropped. */
  lemma RemoveLeading(pat: string, rest: string)
    requires |pat| > 0
    ensures RemoveAll(pat + rest, pat) == RemoveAll(rest, pat)
  {
    var s := pat + rest;
    assert s[..|pat|] == pat && s[|pat|..] == rest;
  }

  /** A leading character that cannot start the pattern is kept. */
  lemma KeepLeading(c: char, rest: string, pat: string)
    requires |pat| > 0 && pat[0] != c
    ensures RemoveAll([c] + rest, pat) == [c] + RemoveAll(rest, pat)
  {
    var s := [c] + rest;
    assert s[1..] == rest;
    assert !OccursAt(s, pat, 0) by {
      if |pat| <= |s| {
        assert s[..|pat|][0] == c;
      }
    }
  }

  /**
   * The prefix is removed wherever it occurs, not only at the front: with category `c`, the key
   * "c/x/c/y" lists as "x/y".
   */
  lemma RemovesInnerPrefix(c: char, x: char, y: char)
    requires c != '/' && c != x && c != y
    ensures RemoveAll([c, '/', x, '/', c, '/', y], [c, '/']) == [x, '/', y]
  {
    var p := [c, '/'];
    var t1, t2, t3 := [x, '/', c, '/', y], ['/', c, '/', y], [c, '/', y];
    calc {
      RemoveAll([c, '/', x, '/', c, '/', y], p);
      { assert [c, '/', x, '/', c, '/', y] == p + t1; RemoveLeading(p, t1); }
      RemoveAll(t1, p);
      { assert t1 == [x] + t2; KeepLeading(x, t2, p); }
      [x] + RemoveAll(t2, p);
      { assert t2 == ['/'] + t3; KeepLeading('/', t3, p); }
      [x] + (['/'] + RemoveAll(t3, p));
      { assert t3 == p + [y]; RemoveLeading(p, [y]); assert [y] == [y] + []; KeepLeading(y, [], p); }
      [x] + (['/'] + ([y] + RemoveAll([], p)));
      [x, '/', y];
    }
  }

  // ---------------------------------------------------------------------------------------------
  // Paginated listing
  // ---------------------------------------------------------------------------------------------

  /** One `list_objects_v2` answer: its `Contents` keys, `IsTruncated` and `NextContinuationToken`. */
  datatype ListResult = ListResult(contents: Option<seq<string>>, isTruncated: bool, nextToken: Option<string>)

  /** The token sent with a request: a missing or empty token sends none. */
  function RequestToken(token: Option<string>): Option<string>
  {
    if token.Some? && token.value != "" then token else None
  }

  /** The stripped keys of one page. */
  function PageNames(result: ListResult, prefix: string): seq<string>
  {
    var keys := result.contents.GetOr([]);
    seq(|keys|, k requires 0 <= k < |keys| => RemoveAll(keys[k], prefix))
  }

  /** The names from answer `i` on, up to and including the first answer that is not truncated. */
  function ListedFrom(results: seq<ListResult>, prefix: string, i: nat): seq<string>
    requires i <= |results|
    decreases |results| - i
  {
    if i == |results| then []
    else PageNames(results[i], prefix) + (if results[i].isTruncated then ListedFrom(results, prefix, i + 1) else [])
  }

  /** The appending loop over one page. */
  method AppendNames(documents: seq<string>, result: ListResult, prefix: string) returns (r: seq<string>)
    ensures r == documents + PageNames(result, prefix)
  {
    r := documents;
    if result.contents.Some? {
      var keys := result.contents.value;
      for k := 0 to |keys|
        invariant r == documents + seq(k, m requires 0 <= m < k => RemoveAll(keys[m], prefix))
      {
        r := r + [RemoveAll(keys[k], prefix)];
      }
    }
  }

  /** The tokens of the first `n` requests: none first, then each previous answer's token. */
  function Requests(results: seq<ListResult>, n: nat): (r: seq<Option<string>>)
    requires n <= |results|
    ensures |r| == n
    ensures n > 0 ==> r[0] == None
    ensures forall k :: 0 < k < n ==> r[k] == RequestToken(results[k - 1].nextToken)
  {
    seq(n, k requires 0 <= k < n => if k == 0 then None else RequestToken(results[k - 1].nextToken))
  }

  /** One more request carries the previous answer's token, or none for the first. */
  lemma RequestsStep(results: seq<ListResult>, i: nat)
    requires i < |results|
    ensures Requests(results, i + 1) == Requests(results, i) + [RequestToken(if i == 0 then None else results[i - 1].nextToken)]
  {
    var grown := Requests(results, i) + [RequestToken(if i == 0 then None else results[i - 1].nextToken)];
    assert forall k :: 0 <= k < i + 1 ==> Requests(results, i + 1)[k] == grown[k];
  }

  /** One step of the listing: the page's names, then the rest when the page was truncated. */
  lemma ListedStep(results: seq<ListResult>, prefix: string, i: nat, documents: seq<string>)
    requires i < |results|
    ensures results[i].isTruncated ==>
              documents + ListedFrom(results, prefix, i) == (documents + PageNames(results[i], prefix)) + ListedFrom(results, prefix, i + 1)
    ensures !results[i].isTruncated ==> documents + ListedFrom(results, prefix, i) == documents + PageNames(results[i], prefix)
  {
  }

  /**
   * `list_documents_in_s3_prefix` over the answers S3 gives in turn: the names of every page
   * are collected in order until a page is not truncated, and each request after the first
   * carries the previous page's token when that token is non-empty.
   */
  method ListDocuments(results: seq<ListResult>, prefix: string) returns (documents: seq<string>, requests: seq<Option<string>>)
    ensures documents == ListedFrom(results, prefix, 0)
    ensures |requests| <= |results| && (|results| > 0 ==> |requests| > 0)
    ensures requests == Requests(results, |requests|)
    ensures forall k :: 0 <= k < |requests| - 1 ==> results[k].isTruncated
    ensures 0 < |requests| < |results| ==> !results[|requests| - 1].isTruncated
  {
    ghost var whole := ListedFrom(results, prefix, 0);
    documents := [];
    requests := [];
    var continuationToken: Option<string> := None;
    var i := 0;
    while i < |results|
      invariant i <= |results|
      invariant requests == Requests(results, i)
      invariant documents + ListedFrom(results, prefix, i) == whole
      invariant continuationToken == if i == 0 then None else results[i - 1].nextToken
      invariant forall k :: 0 <= k < i ==> results[k].isTruncated
    {
      RequestsStep(results, i);
      requests := requests + [RequestToken(continuationToken)];
      var result := results[i];
      ListedStep(results, prefix, i, documents);
      documents := AppendNames(documents, result, prefix);
      if !result.isTruncated {
        return;
      }
      continuationToken := result.nextToken;
      i := i + 1;
    }
    assert documents + [] == documents;
  }

  // ---------------------------------------------------------------------------------------------
  // The handler
  // ---------------------------------------------------------------------------------------------

  /** The value stored for a name: the presigned URL (None when presigning fails) and the metadata. */
  datatype DocumentFile = DocumentFile(url: Option<string>, metadata: Option<string>)

  datatype FileEntry = FileEntry(name: string, file: DocumentFile)

  /** The keys of the answer dictionary, in insertion order. */
  function Names(d: seq<FileEntry>): seq<string>
  {
    if d == [] then [] else [d[0].name] + Names(d[1..])
  }

  function Lookup(d: seq<FileEntry>, name: string): (r: Option<DocumentFile>)
    ensures r.Some? <==> name in Names(d)
  {
    if d == [] then None else if d[0].name == name then Some(d[0].file) else Lookup(d[1..], name)
  }

  /** `d[name] = file`: an existing name keeps its place and gets the new value. */
  function Put(d: seq<FileEntry>, name: string, file: DocumentFile): seq<FileEntry>
  {
    if d == [] then [FileEntry(name, file)]
    else if d[0].name == name then [FileEntry(name, file)] + d[1..]
    else [d[0]] + Put(d[1..], name, file)
  }

  lemma {:induction false} PutNames(d: seq<FileEntry>, name: string, file: DocumentFile)
    ensures Names(Put(d, name, file)) == if name in Names(d) then Names(d) else Names(d) + [name]
    decreases |d|
  {
    if d != [] && d[0].name != name {
      PutNames(d[1..], name, file);
    }
  }

  lemma {:induction false} PutLookup(d: seq<FileEntry>, name: string, file: DocumentFile, other: string)
    ensures Lookup(Put(d, name, file), other) == if other == name then Some(file) else Lookup(d, other)
    decreases |d|
  {
    if d != [] && d[0].name != name {
      PutLookup(d[1..], name, file, other);
    }
  }

  /** `document_name.split('.')[-1]`, the type presented: what is left once every `.` is passed. */
  function DocumentType(name: string): string
  {
    if '.' in name then DocumentType(name[1..]) else name
  }

  /** `document_name.split('.')[0]`, the name the metadata is looked up by: the text before the first `.`. */
  function LookupName(name: string): string
  {
    if name == [] || name[0] == '.' then [] else [name[0]] + LookupName(name[1..])
  }

  /** The type is the last part of the name split at `.`. */
  lemma {:induction false} DocumentTypeIsLastPart(name: string)
    ensures DocumentType(name) == AfterLast(name, '.')
    decreases |name|
  {
    if '.' in name {
      DocumentTypeIsLastPart(name[1..]);
      var rest := name[1..];
      var parts := if '.' in rest then SplitAtLast(rest, '.').value else ([], rest);
      var before := if '.' in rest then [name[0]] + parts.0 else [];
      assert name == before + ['.'] + parts.1;
      SplitAtLastOf(before, '.', parts.1);
    }
  }

  /** The lookup name is the first part of the name split at `.`. */
  lemma {:induction false} LookupNameIsFirstPart(name: string)
    ensures LookupName(name) == Split(name, '.')[0]
    decreases |name|
  {
    if name != [] && name[0] != '.' {
      LookupNameIsFirstPart(name[1..]);
    }
  }

  /** What the dictionary holds for a name, given the presigner and the metadata query. */
  function FileFor(categoryId: string, name: string, presign: string -> Option<string>,
                   metadata: (string, string, string) -> Option<string>): DocumentFile
  {
    DocumentFile(presign(categoryId + "/" + name), metadata(categoryId, LookupName(name), DocumentType(name)))
  }

  /** The file stored for each name, as one function of the name. */
  function FileOf(categoryId: string, presign: string -> Option<string>,
                  metadata: (string, string, string) -> Option<string>): string -> DocumentFile
  {
    name => FileFor(categoryId, name, presign, metadata)
  }

  /** The dictionary after storing `fileOf(name)` for each of the first `n` names in turn. */
  function PutAll(names: seq<string>, fileOf: string -> DocumentFile, n: nat): seq<FileEntry>
    requires n <= |names|
  {
    if n == 0 then [] else Put(PutAll(names, fileOf, n - 1), names[n - 1], fileOf(names[n - 1]))
  }

  /** `document_list_urls` after the first `n` names. */
  function FilesUpTo(categoryId: string, names: seq<string>, presign: string -> Option<string>,
                     metadata: (string, string, string) -> Option<string>, n: nat): seq<FileEntry>
    requires n <= |names|
  {
    PutAll(names, FileOf(categoryId, presign, metadata), n)
  }

  /** Storing names in turn keeps each name once, in order of first storing. */
  lemma {:induction false} PutAllNames(names: seq<string>, fileOf: string -> DocumentFile, n: nat)
    requires n <= |names|
    ensures Names(PutAll(names, fileOf, n)) == Evaluation.Dedup(names[..n])
    decreases n
  {
    if n > 0 {
      var x := names[n - 1];
      var before := PutAll(names, fileOf, n - 1);
      PutAllNames(names, fileOf, n - 1);
      PutNames(before, x, fileOf(x));
      assert names[..n][..n - 1] == names[..n - 1] && names[..n][n - 1] == x;
      assert Evaluation.Dedup(names[..n]) ==
             if x in Evaluation.Dedup(names[..n - 1]) then Evaluation.Dedup(names[..n - 1])
             else Evaluation.Dedup(names[..n - 1]) + [x];
    }
  }

  /** Every stored name holds the file for that name. */
  lemma {:induction false} PutAllLookup(names: seq<string>, fileOf: string -> DocumentFile, n: nat, y: string)
    requires n <= |names| && y in names[..n]
    ensures Lookup(PutAll(names, fileOf, n), y) == Some(fileOf(y))
    decreases n
  {
    var x := names[n - 1];
    var before := PutAll(names, fileOf, n - 1);
    PutLookup(before, x, fileOf(x), y);
    if y != x {
      TakeLast(names, n);
      assert y in names[..n - 1];
      PutAllLookup(names, fileOf, n - 1, y);
    }
  }

  /** The next name is stored with its presigned URL and its metadata. */
  lemma FilesStep(categoryId: string, names: seq<string>, presign: string -> Option<string>,
                  metadata: (string, string, string) -> Option<string>, i: nat)
    requires i < |names|
    ensures var name := names[i];
            FilesUpTo(categoryId, names, presign, metadata, i + 1)
              == Put(FilesUpTo(categoryId, names, presign, metadata, i), name,
                     DocumentFile(presign(categoryId + "/" + name), metadata(categoryId, LookupName(name), DocumentType(name))))
  {
  }

  /** The dictionary has each listed name once, in order of first listing. */
  lemma FilesNames(categoryId: string, names: seq<string>, presign: string -> Option<string>,
                   metadata: (string, string, string) -> Option<string>, n: nat)
    requires n <= |names|
    ensures Names(FilesUpTo(categoryId, names, presign, metadata, n)) == Evaluation.Dedup(names[..n])
  {
    PutAllNames(names, FileOf(categoryId, presign, metadata), n);
  }

  /** Every listed name holds the file for that name. */
  lemma FilesLookup(categoryId: string, names: seq<string>, presign: string -> Option<string>,
                    metadata: (string, string, string) -> Option<string>, n: nat, y: string)
    requires n <= |names| && y in names[..n]
    ensures Lookup(FilesUpTo(categoryId, names, presign, metadata, n), y) == Some(FileFor(categoryId, y, presign, metadata))
  {
    PutAllLookup(names, FileOf(categoryId, presign, metadata), n, y);
  }

  datatype Body = Text(text: string) | DocumentFiles(files: seq<FileEntry>)

  datatype Response = Response(statusCode: int, body: Body)

  datatype Outcome = Raised | Returned(response: Response)

  const MissingCategory := "Missing required parameters: category_id"
  const InternalError := "Internal server error"

  /**
   * What `get_document_metadata_from_db` does for one document. `connect_to_db` never returns
   * None: when the secret or the connection fails, its `if connection:` reads a local that was
   * never bound and raises, and the lookup calls it outside its own try (Unreachable). Once
   * connected, a failing query is swallowed and, like a missing row, gives None.
   */
  datatype MetadataAnswer = Unreachable | Answered(metadata: Option<string>)

  /** The metadata stored for each lookup that did not raise. */
  function MetadataOf(answers: (string, string, string) -> MetadataAnswer): (string, string, string) -> Option<string>
  {
    (c, n, t) => if answers(c, n, t).Answered? then answers(c, n, t).metadata else None
  }

  /** The metadata lookups of the first `n` listed names all reach the database. */
  predicate Reachable(categoryId: string, names: seq<string>, answers: (string, string, string) -> MetadataAnswer, n: nat)
    requires n <= |names|
  {
    forall k :: 0 <= k < n ==> answers(categoryId, LookupName(names[k]), DocumentType(names[k])).Answered?
  }

  /** One more name keeps every lookup reaching the database exactly when its own lookup does. */
  lemma ReachableStep(categoryId: string, names: seq<string>, answers: (string, string, string) -> MetadataAnswer, i: nat)
    requires i < |names| && Reachable(categoryId, names, answers, i)
    requires answers(categoryId, LookupName(names[i]), DocumentType(names[i])).Answered?
    ensures Reachable(categoryId, names, answers, i + 1)
  {
  }

  /** One lookup that raises is enough for the whole listing to fail. */
  lemma UnreachableAt(categoryId: string, names: seq<string>, answers: (string, string, string) -> MetadataAnswer, i: nat)
    requires i < |names| && answers(categoryId, LookupName(names[i]), DocumentType(names[i])).Unreachable?
    ensures !Reachable(categoryId, names, answers, |names|)
  {
  }

  /**
   * One more listed name: a lookup that raises fails the whole listing, and one that answers
   * keeps every lookup so far answering and stores the name's URL with that answer's metadata.
   */
  lemma FillStep(categoryId: string, names: seq<string>, presign: string -> Option<string>,
                 answers: (string, string, string) -> MetadataAnswer, i: nat)
    requires i < |names| && Reachable(categoryId, names, answers, i)
    ensures var answer := answers(categoryId, LookupName(names[i]), DocumentType(names[i]));
            && (answer.Unreachable? ==> !Reachable(categoryId, names, answers, |names|))
            && (answer.Answered? ==> Reachable(categoryId, names, answers, i + 1))
            && (answer.Answered? ==>
                  FilesUpTo(categoryId, names, presign, MetadataOf(answers), i + 1)
                    == Put(FilesUpTo(categoryId, names, presign, MetadataOf(answers), i), names[i],
                           DocumentFile(presign(categoryId + "/" + names[i]), answer.metadata)))
  {
    var answer := answers(categoryId, LookupName(names[i]), DocumentType(names[i]));
    FilesStep(categoryId, names, presign, MetadataOf(answers), i);
    if answer.Unreachable? {
      UnreachableAt(categoryId, names, answers, i);
    } else {
      ReachableStep(categoryId, names, answers, i);
    }
  }

  /**
   * The loop of `lambda_handler` over the listed names: each gets its presigned URL and its
   * metadata, until a lookup raises because the database cannot be reached.
   */
  method FillUrls(categoryId: string, documentList: seq<string>, presign: string -> Option<string>,
                  answers: (string, string, string) -> MetadataAnswer)
    returns (documentListUrls: seq<FileEntry>, raised: bool)
    ensures raised <==> !Reachable(categoryId, documentList, answers, |documentList|)
    ensures !raised ==> documentListUrls == FilesUpTo(categoryId, documentList, presign, MetadataOf(answers), |documentList|)
  {
    var documentPrefix := categoryId + "/";
    documentListUrls := [];
    for i := 0 to |documentList|
      invariant Reachable(categoryId, documentList, answers, i)
      invariant documentListUrls == FilesUpTo(categoryId, documentList, presign, MetadataOf(answers), i)
    {
      var documentName := documentList[i];
      var documentType := DocumentType(documentName);
      var presignedUrl := presign(documentPrefix + documentName);
      var answer := answers(categoryId, LookupName(documentName), documentType);
      FillStep(categoryId, documentList, presign, answers, i);
      if answer.Unreachable? {
        return documentListUrls, true;
      }
      documentListUrls := Put(documentListUrls, documentName, DocumentFile(presignedUrl, answer.metadata));
    }
    raised := false;
  }

  /**
   * `lambda_handler`: `listing` is the sequence of S3 answers, or None when listing raises;
   * `presign` stands for the presigner, which swallows its errors and gives None, and `answers`
   * for the metadata lookup of each document. Anything raised inside the try, a failed listing or
   * an unreachable database, is answered 500.
   */
  method Handler(params: QueryParams, listing: Option<seq<ListResult>>, presign: string -> Option<string>,
                 answers: (string, string, string) -> MetadataAnswer)
    returns (out: Outcome)
    ensures params.Null? ==> out == Raised
    ensures !params.Null? && params.Lookup("category_id", "") == "" ==> out == Returned(Response(400, Text(MissingCategory)))
    ensures !params.Null? && params.Lookup("category_id", "") != "" ==>
              var categoryId := params.Lookup("category_id", "");
              if listing.None? then out == Returned(Response(500, Text(InternalError)))
              else
                var names := ListedFrom(listing.value, categoryId + "/", 0);
                if Reachable(categoryId, names, answers, |names|)
                then out == Returned(Response(200, DocumentFiles(FilesUpTo(categoryId, names, presign, MetadataOf(answers), |names|))))
                else out == Returned(Response(500, Text(InternalError)))
  {
    if params.Null? {
      return Raised;
    }
    var categoryId := params.Lookup("category_id", "");
    if categoryId == "" {
      return Returned(Response(400, Text(MissingCategory)));
    }
    if listing.None? {
      return Returned(Response(500, Text(InternalError)));
    }
    var documentPrefix := categoryId + "/";
    var documentList, _ := ListDocuments(listing.value, documentPrefix);
    var documentListUrls, raised := FillUrls(categoryId, documentList, presign, answers);
    if raised {
      return Returned(Response(500, Text(InternalError)));
    }
    return Returned(Response(200, DocumentFiles(documentListUrls)));
  }

  /** The lookup name stops at the first `.`, whatever follows it. */
  lemma {:induction false} LookupNameBeforeDot(base: string, rest: string)
    requires '.' !in base
    ensures LookupName(base + "." + rest) == base
    decreases |base|
  {
    var name := base + "." + rest;
    if base == [] {
      assert name[0] == '.';
    } else {
      LookupNameBeforeDot(base[1..], rest);
      assert name[0] == base[0] && name[1..] == base[1..] + "." + rest;
    }
  }

  /** The type starts after the last `.`, whatever precedes it. */
  lemma {:induction false} DocumentTypeAfterDot(front: string, ext: string)
    requires '.' !in ext
    ensures DocumentType(front + "." + ext) == ext
    decreases |front|
  {
    var name := front + "." + ext;
    assert name[|front|] == '.';
    if front == [] {
      assert name[1..] == ext;
    } else {
      DocumentTypeAfterDot(front[1..], ext);
      assert name[1..] == front[1..] + "." + ext;
    }
  }

  /**
   * The metadata is looked up by the text before the first `.`, although ingestion stores the
   * text before the last one: for "a.b.pdf" the lookup asks for "a" while the row holds "a.b".
   */
  lemma LookupNameMismatch(a: string, b: string, ext: string)
    requires '.' !in a && '.' !in b && '.' !in ext
    ensures LookupName(a + "." + b + "." + ext) == a && DocumentType(a + "." + b + "." + ext) == ext
    ensures LookupName(a + "." + b + "." + ext) != a + "." + b
  {
    assert a + "." + b + "." + ext == a + "." + (b + "." + ext);
    LookupNameBeforeDot(a, b + "." + ext);
    DocumentTypeAfterDot(a + "." + b, ext);
  }

  /** For a name with one dot, the lookup name and the type are the two sides of it. */
  lemma LookupNameOneDot(base: string, ext: string)
    requires '.' !in base && '.' !in ext
    ensures LookupName(base + "." + ext) == base && DocumentType(base + "." + ext) == ext
  {
    LookupNameBeforeDot(base, ext);
    DocumentTypeAfterDot(base, ext);
  }
}
