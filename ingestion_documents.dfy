/**
 * The document processing of the data-ingestion Lambda: every document of a category is cut
 * into one text file per page, the page files are split into chunks that carry the recovered
 * source name and one id per page, and all chunks are indexed together.
 */
module IngestionDocuments {
  import opened Common
  import opened Text
  import ComparisonIngestion

  type ListingPage = ComparisonIngestion.ListingPage

  // ---------------------------------------------------------------------------------------------
  // Page files and the recovered source name
  // ---------------------------------------------------------------------------------------------

  const PageMarker := "_page"

  /** The key of the text file of page `pageNum` (counted from 1) of a document. */
  function PageKey(categoryId: string, documentName: string, pageNum: nat): string
  {
    categoryId + "/" + documentName + PageMarker + "_" + Decimal(pageNum) + ".txt"
  }

  /** Python `s.partition("_page")[0]`: the text before the first marker, or all of it. */
  function PartitionHead(s: string): (r: string)
    ensures |r| <= |s| && r == s[..|r|]
    ensures r == s <==> !Contains(s, PageMarker)
  {
    match Find(s, PageMarker)
    case None => s
    case Some(i) => s[..i]
  }

  /**
   * `store_doc_texts`: each page's text is uploaded under its page key, in page order, and the
   * list of those keys is returned.
   */
  method StoreDocTexts(categoryId: string, documentName: string, pageTexts: seq<string>)
    returns (keys: seq<string>, uploads: seq<(string, string)>)
    ensures |keys| == |uploads| == |pageTexts|
    ensures forall k :: 0 <= k < |keys| ==> keys[k] == PageKey(categoryId, documentName, k + 1)
    ensures forall k :: 0 <= k < |uploads| ==> uploads[k] == (keys[k], pageTexts[k])
  {
    uploads := [];
    var pageNum := 1;
    while pageNum <= |pageTexts|
      invariant 1 <= pageNum <= |pageTexts| + 1
      invariant |uploads| == pageNum - 1
      invariant forall k :: 0 <= k < |uploads| ==> uploads[k] == (PageKey(categoryId, documentName, k + 1), pageTexts[k])
    {
      uploads := uploads + [(PageKey(categoryId, documentName, pageNum), pageTexts[pageNum - 1])];
      pageNum := pageNum + 1;
    }
    keys := seq(|pageTexts|, k requires 0 <= k < |pageTexts| => PageKey(categoryId, documentName, k + 1));
  }

  /** The marker has no border, so an occurrence cannot start inside `base` and end in the suffix. */
  lemma NoStraddle(base: string, tail: string, j: nat)
    requires |tail| >= 1 && tail[0] == '_'
    requires j < |base| < j + |PageMarker|
    ensures !OccursAt(base + tail, PageMarker, j)
  {
    var s := base + tail;
    assert s[|base|] == '_';
    assert forall k :: 1 <= k < |PageMarker| ==> PageMarker[k] != '_';
  }

  /**
   * The name recovered from a page key is `{category}/{name}` exactly when that text has no
   * `_page` in it; otherwise it is cut at the first `_page`.
   */
  lemma PageKeyRecovery(categoryId: string, documentName: string, pageNum: nat)
    ensures var base := categoryId + "/" + documentName;
            (PartitionHead(PageKey(categoryId, documentName, pageNum)) == base <==> !Contains(base, PageMarker))
            && (Contains(base, PageMarker) ==> PartitionHead(PageKey(categoryId, documentName, pageNum)) == PartitionHead(base))
  {
    var base := categoryId + "/" + documentName;
    var tail := PageMarker + "_" + Decimal(pageNum) + ".txt";
    var key := base + tail;
    assert key == PageKey(categoryId, documentName, pageNum);
    assert OccursAt(key, PageMarker, |base|) by {
      assert key[|base|..|base| + |PageMarker|] == PageMarker;
    }
    // An occurrence inside the key before `|base|` lies wholly inside `base`.
    forall j | 0 <= j < |base|
      ensures OccursAt(key, PageMarker, j) <==> OccursAt(base, PageMarker, j)
    {
      if j + |PageMarker| <= |base| {
        assert key[j..j + |PageMarker|] == base[j..j + |PageMarker|];
      } else {
        NoStraddle(base, tail, j);
      }
    }
    var head := PartitionHead(key);
    if Contains(base, PageMarker) {
      var i := Find(base, PageMarker).value;
      assert Find(key, PageMarker) == Some(i) by {
        FindUnique(key, PageMarker, i);
      }
      assert |head| == i < |base|;
      assert PartitionHead(base) == base[..i] == key[..i];
    } else {
      forall j | 0 <= j < |base|
        ensures !OccursAt(key, PageMarker, j)
      {
        assert !OccursAt(base, PageMarker, j);
      }
      FindUnique(key, PageMarker, |base|);
      assert head == key[..|base|] == base;
    }
  }

  /** The first occurrence is the one with none before it. */
  lemma FindUnique(s: string, pat: string, i: nat)
    requires OccursAt(s, pat, i) && forall j :: 0 <= j < i ==> !OccursAt(s, pat, j)
    ensures Find(s, pat) == Some(i)
  {
    var r := Find(s, pat);
    assert r.Some? by {
      assert 0 <= i <= |s|;
    }
  }

  /** A name that itself holds `_page` is cut short: "c/my_pages.pdf" recovers as "c/my". */
  lemma MarkerInNameCutsShort()
    ensures PartitionHead(PageKey("c", "my_pages.pdf", 1)) == "c/my"
  {
    var key := PageKey("c", "my_pages.pdf", 1);
    assert key[..9] == "c/my_page";
    assert OccursAt(key, PageMarker, 4) by {
      assert key[4..9] == "_page";
    }
    assert key[0] == 'c' && key[1] == '/' && key[2] == 'm' && key[3] == 'y';
    assert forall j :: 0 <= j < 4 ==> !OccursAt(key, PageMarker, j);
    FindUnique(key, PageMarker, 4);
    assert key[..4] == "c/my";
  }

  // ---------------------------------------------------------------------------------------------
  // Chunks
  // ---------------------------------------------------------------------------------------------

  /** A chunk with the two metadata fields the ingestion sets. */
  datatype Chunk = Chunk(content: string, source: string, docId: string)

  /** One page file as `store_doc_chunks` meets it: its key, the splitter's chunk texts and its id. */
  datatype PageFile = PageFile(key: string, chunkTexts: seq<string>, uuid: string)

  /** The source every chunk of a page file points at. */
  function Source(bucket: string, key: string): string
  {
    "s3://" + bucket + "/" + PartitionHead(key)
  }

  /** `[x for x in doc_chunks if x.page_content]`. */
  function NonEmpty(texts: seq<string>): (r: seq<string>)
    ensures |r| <= |texts|
    ensures forall t :: t in r <==> t in texts && t != ""
  {
    if |texts| == 0 then [] else (if texts[0] == "" then [] else [texts[0]]) + NonEmpty(texts[1..])
  }

  /** The kept chunks of one page file, each with the page's source and id. */
  function PageChunks(bucket: string, p: PageFile): (r: seq<Chunk>)
  {
    var kept := NonEmpty(p.chunkTexts);
    seq(|kept|, k requires 0 <= k < |kept| => Chunk(kept[k], Source(bucket, p.key), p.uuid))
  }

  /** The chunks kept from page files `i..`, in page order. */
  function ChunksFrom(bucket: string, pages: seq<PageFile>, i: nat): seq<Chunk>
    requires i <= |pages|
    decreases |pages| - i
  {
    if i == |pages| then [] else PageChunks(bucket, pages[i]) + ChunksFrom(bucket, pages, i + 1)
  }

  /** The metadata loop over one page's kept chunks. */
  method Annotate(texts: seq<string>, source: string, uuid: string) returns (chunks: seq<Chunk>)
    ensures |chunks| == |texts|
    ensures forall k :: 0 <= k < |chunks| ==> chunks[k] == Chunk(texts[k], source, uuid)
  {
    chunks := [];
    for k := 0 to |texts|
      invariant |chunks| == k
      invariant forall m :: 0 <= m < k ==> chunks[m] == Chunk(texts[m], source, uuid)
    {
      chunks := chunks + [Chunk(texts[k], source, uuid)];
    }
  }

  /**
   * `store_doc_chunks`: the page files are handled in order; the non-empty chunks of each get the
   * recovered source and the page's id, the page file is deleted, and the chunks are collected.
   */
  method StoreDocChunks(bucket: string, pages: seq<PageFile>) returns (chunks: seq<Chunk>, deleted: seq<string>)
    ensures chunks == ChunksFrom(bucket, pages, 0)
    ensures |deleted| == |pages| && forall k :: 0 <= k < |pages| ==> deleted[k] == pages[k].key
  {
    chunks := [];
    deleted := [];
    var i := 0;
    while i < |pages|
      invariant i <= |pages|
      invariant chunks + ChunksFrom(bucket, pages, i) == ChunksFrom(bucket, pages, 0)
      invariant |deleted| == i && forall k :: 0 <= k < i ==> deleted[k] == pages[k].key
    {
      var page := pages[i];
      var kept := NonEmpty(page.chunkTexts);
      var annotated := Annotate(kept, Source(bucket, page.key), page.uuid);
      assert annotated == PageChunks(bucket, page);
      deleted := deleted + [page.key];
      assert chunks + (annotated + ChunksFrom(bucket, pages, i + 1)) == (chunks + annotated) + ChunksFrom(bucket, pages, i + 1);
      chunks := chunks + annotated;
      i := i + 1;
    }
    assert chunks + [] == chunks;
  }

  /** Every stored chunk is non-empty and carries its page's source and id. */
  lemma {:induction false} ChunksShape(bucket: string, pages: seq<PageFile>, i: nat)
    requires i <= |pages|
    ensures forall c :: c in ChunksFrom(bucket, pages, i) ==>
              c.content != "" && exists k :: i <= k < |pages| && c.source == Source(bucket, pages[k].key)
                                              && c.docId == pages[k].uuid && c.content in pages[k].chunkTexts
    decreases |pages| - i
  {
    if i < |pages| {
      ChunksShape(bucket, pages, i + 1);
      var here := PageChunks(bucket, pages[i]);
      forall c | c in here
        ensures c.content != "" && c.source == Source(bucket, pages[i].key)
                && c.docId == pages[i].uuid && c.content in pages[i].chunkTexts
      {
        var m :| 0 <= m < |here| && here[m] == c;
        var kept := NonEmpty(pages[i].chunkTexts);
        assert c.content == kept[m] && kept[m] in kept;
      }
    }
  }

  /** A chunk text of a page is stored exactly when it is non-empty. */
  lemma PageChunksKept(bucket: string, p: PageFile, t: string)
    ensures Chunk(t, Source(bucket, p.key), p.uuid) in PageChunks(bucket, p) <==> t in p.chunkTexts && t != ""
  {
    var kept := NonEmpty(p.chunkTexts);
    if t in kept {
      var k :| 0 <= k < |kept| && kept[k] == t;
      assert PageChunks(bucket, p)[k] == Chunk(t, Source(bucket, p.key), p.uuid);
    }
  }

  // ---------------------------------------------------------------------------------------------
  // Documents of a category
  // ---------------------------------------------------------------------------------------------

  /** A stored document as the text extraction and the splitter see it: per page, its text,
   *  the chunk texts and the id drawn for it. */
  datatype PageInput = PageInput(text: string, chunkTexts: seq<string>, uuid: string)

  /** `documentname.split('/')[-1]`: the text after the last `/`, or the whole key without one. */
  function LastSegment(key: string): (r: string)
    ensures '/' !in r
  {
    AfterLast(key, '/')
  }

  /** For a key directly under the category, the object read back is the listed one. */
  lemma ReadKeyOfFlatKey(categoryId: string, name: string)
    requires '/' !in name
    ensures LastSegment(categoryId + "/" + name) == name
  {
    SplitAtLastOf(categoryId, '/', name);
  }

  /** A key in a sub-folder is read from the category's top level instead. */
  lemma NestedKeyReadsTopLevel(categoryId: string, folder: string, name: string)
    requires '/' !in name
    ensures ObjectKey(categoryId, categoryId + "/" + folder + "/" + name) == categoryId + "/" + name
  {
    ReadKeyOfFlatKey(categoryId + "/" + folder, name);
  }

  /** The effects of `process_documents`: uploads and deletions of page files, and the `index` call. */
  datatype Effects = Effects(uploads: seq<(string, string)>, deleted: seq<string>, indexed: Option<seq<Chunk>>)

  /** All listed keys, pages without `Contents` skipped. */
  function ListedKeys(listing: seq<ListingPage>, i: nat): seq<string>
    requires i <= |listing|
    decreases |listing| - i
  {
    if i == |listing| then [] else listing[i].contents.GetOr([]) + ListedKeys(listing, i + 1)
  }

  /** The page files `store_doc_texts` writes for a document. */
  function PageFiles(categoryId: string, documentName: string, pages: seq<PageInput>): (r: seq<PageFile>)
  {
    seq(|pages|, k requires 0 <= k < |pages| => PageFile(PageKey(categoryId, documentName, k + 1), pages[k].chunkTexts, pages[k].uuid))
  }

  /** The keys of a list of uploads, in order. */
  function UploadKeys(uploads: seq<(string, string)>): (r: seq<string>)
    ensures |r| == |uploads| && forall k :: 0 <= k < |r| ==> r[k] == uploads[k].0
  {
    seq(|uploads|, k requires 0 <= k < |uploads| => uploads[k].0)
  }

  lemma UploadKeysAppend(a: seq<(string, string)>, b: seq<(string, string)>)
    ensures UploadKeys(a + b) == UploadKeys(a) + UploadKeys(b)
  {
    assert forall k :: 0 <= k < |b| ==> (a + b)[|a| + k] == b[k];
  }

  /** The chunks `add_document` returns for a document. */
  function DocumentChunks(categoryId: string, documentName: string, outputBucket: string, pages: seq<PageInput>): seq<Chunk>
  {
    ChunksFrom(outputBucket, PageFiles(categoryId, documentName, pages), 0)
  }

  /**
   * `add_document`: the page files are written, then chunked and deleted; every uploaded page
   * file is deleted again, in the same order.
   */
  method AddDocument(categoryId: string, documentName: string, outputBucket: string, pages: seq<PageInput>)
    returns (chunks: seq<Chunk>, uploads: seq<(string, string)>, deleted: seq<string>)
    ensures chunks == DocumentChunks(categoryId, documentName, outputBucket, pages)
    ensures |uploads| == |deleted| == |pages|
    ensures forall k :: 0 <= k < |pages| ==> uploads[k] == (PageKey(categoryId, documentName, k + 1), pages[k].text)
    ensures deleted == UploadKeys(uploads)
  {
    var texts := seq(|pages|, k requires 0 <= k < |pages| => pages[k].text);
    var keys;
    keys, uploads := StoreDocTexts(categoryId, documentName, texts);
    var files := seq(|pages|, k requires 0 <= k < |pages| => PageFile(keys[k], pages[k].chunkTexts, pages[k].uuid));
    assert files == PageFiles(categoryId, documentName, pages);
    chunks, deleted := StoreDocChunks(outputBucket, files);
  }

  /** The object `process_documents` reads for a listed key. */
  function ObjectKey(categoryId: string, key: string): string
  {
    categoryId + "/" + LastSegment(key)
  }

  /** Every listed key from `n` on names a stored object. */
  predicate Readable(categoryId: string, keys: seq<string>, documents: map<string, seq<PageInput>>, n: nat)
  {
    forall k :: n <= k < |keys| ==> ObjectKey(categoryId, keys[k]) in documents
  }

  /** The chunks of the documents of keys `n..`, in listing order. */
  function CategoryChunks(categoryId: string, outputBucket: string, keys: seq<string>,
                          documents: map<string, seq<PageInput>>, n: nat): seq<Chunk>
    requires n <= |keys| && Readable(categoryId, keys, documents, n)
    decreases |keys| - n
  {
    if n == |keys| then []
    else
      DocumentChunks(categoryId, LastSegment(keys[n]), outputBucket, documents[ObjectKey(categoryId, keys[n])])
      + CategoryChunks(categoryId, outputBucket, keys, documents, n + 1)
  }

  lemma CategoryStep(categoryId: string, outputBucket: string, keys: seq<string>,
                     documents: map<string, seq<PageInput>>, n: nat)
    requires n < |keys| && Readable(categoryId, keys, documents, n)
    ensures CategoryChunks(categoryId, outputBucket, keys, documents, n)
            == DocumentChunks(categoryId, LastSegment(keys[n]), outputBucket, documents[ObjectKey(categoryId, keys[n])])
               + CategoryChunks(categoryId, outputBucket, keys, documents, n + 1)
  {
  }

  /** The chunks gathered before key `n`, followed by that key's document, leave the keys after it. */
  lemma CategoryAccumulate(categoryId: string, outputBucket: string, keys: seq<string>,
                           documents: map<string, seq<PageInput>>, n: nat, before: seq<Chunk>)
    requires n < |keys| && Readable(categoryId, keys, documents, 0)
    requires before + CategoryChunks(categoryId, outputBucket, keys, documents, n)
             == CategoryChunks(categoryId, outputBucket, keys, documents, 0)
    ensures before + DocumentChunks(categoryId, LastSegment(keys[n]), outputBucket, documents[ObjectKey(categoryId, keys[n])])
              + CategoryChunks(categoryId, outputBucket, keys, documents, n + 1)
            == CategoryChunks(categoryId, outputBucket, keys, documents, 0)
  {
    CategoryStep(categoryId, outputBucket, keys, documents, n);
    var chunks := DocumentChunks(categoryId, LastSegment(keys[n]), outputBucket, documents[ObjectKey(categoryId, keys[n])]);
    var rest := CategoryChunks(categoryId, outputBucket, keys, documents, n + 1);
    assert before + (chunks + rest) == (before + chunks) + rest;
  }

  /** The listing loop of `process_documents`. */
  method ListKeys(listing: seq<ListingPage>) returns (keys: seq<string>)
    ensures keys == ListedKeys(listing, 0)
  {
    keys := [];
    var i := 0;
    while i < |listing|
      invariant i <= |listing|
      invariant keys + ListedKeys(listing, i) == ListedKeys(listing, 0)
    {
      if listing[i].contents.Some? {
        assert keys + (listing[i].contents.value + ListedKeys(listing, i + 1)) == (keys + listing[i].contents.value) + ListedKeys(listing, i + 1);
        keys := keys + listing[i].contents.value;
      }
      i := i + 1;
    }
    assert keys + [] == keys;
  }

  /**
   * The per-key loop of `process_documents`: every key's document is added in order, and the
   * first key that cannot be read raises.
   */
  method AddDocuments(categoryId: string, outputBucket: string, keys: seq<string>, documents: map<string, seq<PageInput>>)
    returns (raised: bool, allChunks: seq<Chunk>, uploads: seq<(string, string)>, deleted: seq<string>)
    ensures raised <==> !Readable(categoryId, keys, documents, 0)
    ensures !raised ==> allChunks == CategoryChunks(categoryId, outputBucket, keys, documents, 0)
    ensures deleted == UploadKeys(uploads)
  {
    ghost var readable := Readable(categoryId, keys, documents, 0);
    allChunks, uploads, deleted := [], [], [];
    var n := 0;
    while n < |keys|
      invariant n <= |keys|
      invariant forall k :: 0 <= k < n ==> ObjectKey(categoryId, keys[k]) in documents
      invariant readable ==> allChunks + CategoryChunks(categoryId, outputBucket, keys, documents, n)
                             == CategoryChunks(categoryId, outputBucket, keys, documents, 0)
      invariant deleted == UploadKeys(uploads)
    {
      var documentName := LastSegment(keys[n]);
      var objectKey := categoryId + "/" + documentName;
      if objectKey !in documents {
        assert ObjectKey(categoryId, keys[n]) !in documents;
        return true, allChunks, uploads, deleted;
      }
      var chunks, pageUploads, pageDeletes := AddDocument(categoryId, documentName, outputBucket, documents[objectKey]);
      UploadKeysAppend(uploads, pageUploads);
      uploads, deleted := uploads + pageUploads, deleted + pageDeletes;
      if readable {
        CategoryAccumulate(categoryId, outputBucket, keys, documents, n, allChunks);
      }
      allChunks := allChunks + chunks;
      n := n + 1;
    }
    assert allChunks + [] == allChunks;
    raised := false;
  }

  /**
   * `process_documents`: every listed key of the category is handled in listing order by its
   * last path segment, a document that cannot be read raises before the index is touched, and
   * the chunks of all documents are indexed in one call, the empty list included. Every page
   * file written is deleted again.
   */
  method ProcessDocuments(categoryId: string, outputBucket: string, listing: seq<ListingPage>,
                          documents: map<string, seq<PageInput>>)
    returns (raised: bool, effects: Effects)
    ensures raised <==> !Readable(categoryId, ListedKeys(listing, 0), documents, 0)
    ensures raised ==> effects.indexed.None?
    ensures !raised ==> effects.indexed == Some(CategoryChunks(categoryId, outputBucket, ListedKeys(listing, 0), documents, 0))
    ensures effects.deleted == UploadKeys(effects.uploads)
  {
    var keys := ListKeys(listing);
    var allChunks, uploads, deleted;
    raised, allChunks, uploads, deleted := AddDocuments(categoryId, outputBucket, keys, documents);
    effects := Effects(uploads, deleted, if raised then None else Some(allChunks));
  }
}
