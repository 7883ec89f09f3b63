/**
 * The administrator's category forms: the creation form (a name and a list of files, uploaded
 * through presigned URLs once the category exists) and the edit form (a list of files only).
 */
module CategoryForms {
  import opened Common
  import opened Text
  import opened ChatUtility

  // ---------------------------------------------------------------------------------------------
  // File names
  // ---------------------------------------------------------------------------------------------

  /**
   * `fileName.replace(/\.[^/.]+$/, "")`: a final `.ext` whose `ext` is non-empty and holds no `/`
   * (and, being final, no `.`) is removed; any other name is unchanged.
   */
  function StripExtension(fileName: string): (r: string)
  {
    match SplitAtLast(fileName, '.')
    case None => fileName
    case Some((base, ext)) => if ext != "" && '/' !in ext then base else fileName
  }

  /** `getFileType`: the last `.`-part when the split has more than one part, else "". */
  function FileType(fileName: string): (r: string)
  {
    var parts := Split(fileName, '.');
    if |parts| > 1 then parts[|parts| - 1] else ""
  }

  /** The type is the text after the last `.`, and "" for a name without one. */
  lemma FileTypeShape(fileName: string)
    ensures '.' in fileName ==> FileType(fileName) == AfterLast(fileName, '.')
    ensures '.' !in fileName ==> FileType(fileName) == ""
  {
    if '.' in fileName {
      SplitLast(fileName, '.');
      JoinSplit(fileName, '.');
    } else {
      SplitAbsent(fileName, '.');
    }
  }

  /** The extension is removed exactly when the text after the last `.` is non-empty and has no `/`. */
  lemma StripExtensionShape(fileName: string)
    ensures StripExtension(fileName) != fileName <==>
              '.' in fileName && AfterLast(fileName, '.') != "" && '/' !in AfterLast(fileName, '.')
    ensures StripExtension(fileName) != fileName ==> StripExtension(fileName) + "." + AfterLast(fileName, '.') == fileName
  {
    match SplitAtLast(fileName, '.')
    case None =>
    case Some((base, ext)) =>
      assert fileName == base + ['.'] + ext;
      assert |base| < |fileName|;
  }

  /**
   * For a name without `/` whose last `.` is followed by some text, the base name, a dot and the
   * type rebuild the name: the presigned request names the uploaded file.
   */
  lemma NameRoundTrip(fileName: string)
    requires '/' !in fileName && '.' in fileName && AfterLast(fileName, '.') != ""
    ensures StripExtension(fileName) + "." + FileType(fileName) == fileName
  {
    FileTypeShape(fileName);
    assert '/' !in AfterLast(fileName, '.') by {
      match SplitAtLast(fileName, '.')
      case Some((base, ext)) =>
        assert fileName == base + ['.'] + ext;
        assert forall x :: x in ext ==> x in fileName;
    }
    StripExtensionShape(fileName);
  }

  /** A name ending in a dot keeps the dot in its base and has an empty type. */
  lemma TrailingDotKept(base: string)
    requires '.' !in base
    ensures StripExtension(base + ".") == base + "." && FileType(base + ".") == ""
  {
    SplitAtLastOf(base, '.', "");
    assert base + ['.'] + "" == base + ".";
    FileTypeShape(base + ".");
  }

  // ---------------------------------------------------------------------------------------------
  // File validation
  // ---------------------------------------------------------------------------------------------

  /** The MIME types both forms accept. */
  const AllowedMimeTypes: seq<string> := [
    "application/pdf",
    "application/vnd.openxmlformats-officedocument.wordprocessingml.document",
    "application/vnd.ms-powerpoint",
    "text/plain",
    "application/vnd.openxmlformats-officedocument.spreadsheetml.sheet",
    "application/vnd.ms-xpsdocument",
    "application/x-mobi8",
    "application/epub+zip",
    "application/zip"
  ]

  /** A notification shown to the administrator. */
  datatype Toast = ToastError(message: string) | ToastSuccess(message: string)

  function Names(files: seq<File>): (r: seq<string>)
    ensures |r| == |files|
    ensures forall i :: 0 <= i < |files| ==> r[i] == files[i].name
  {
    if files == [] then [] else [files[0].name] + Names(files[1..])
  }

  /**
   * The creation form's filter for one file: None when the file is kept, or the error shown. The
   * type is checked first, then the name against the list as it stood before the batch.
   */
  function CreationVerdict(existing: seq<File>, file: File): (r: Option<Toast>)
    ensures r.None? <==> file.mimeType in AllowedMimeTypes && file.name !in Names(existing)
  {
    if file.mimeType !in AllowedMimeTypes then Some(ToastError(file.name + " is not an allowed document type."))
    else if file.name in Names(existing) then Some(ToastError(file.name + " is already uploaded."))
    else None
  }

  /** The edit form's filter: the type alone decides. */
  function EditVerdict(file: File): (r: Option<Toast>)
    ensures r.None? <==> file.mimeType in AllowedMimeTypes
  {
    if file.mimeType !in AllowedMimeTypes then Some(ToastError(file.name + " is not an allowed document type.")) else None
  }

  /** Which form is filtering: the creation form compares names with the files already listed. */
  datatype Form = Creation(existing: seq<File>) | Edit

  function Verdict(form: Form, file: File): (r: Option<Toast>)
  {
    match form
    case Creation(existing) => CreationVerdict(existing, file)
    case Edit => EditVerdict(file)
  }

  /** The files of the first `n` of a batch that the filter keeps, in batch order. */
  function Kept(form: Form, batch: seq<File>, n: nat): (r: seq<File>)
    requires n <= |batch|
    ensures |r| <= n
  {
    if n == 0 then [] else Kept(form, batch, n - 1) + (if Verdict(form, batch[n - 1]).None? then [batch[n - 1]] else [])
  }

  /** The errors shown for the first `n` of a batch, in batch order. */
  function Rejections(form: Form, batch: seq<File>, n: nat): (r: seq<Toast>)
    requires n <= |batch|
  {
    if n == 0 then [] else Rejections(form, batch, n - 1) + (match Verdict(form, batch[n - 1]) case None => [] case Some(t) => [t])
  }

  /** A file is kept exactly when it is in the batch and passes the filter; the kept files and the errors account for the batch. */
  lemma {:induction false} KeptIff(form: Form, batch: seq<File>, n: nat)
    requires n <= |batch|
    ensures forall f :: f in Kept(form, batch, n) <==> f in batch[..n] && Verdict(form, f).None?
    ensures |Kept(form, batch, n)| + |Rejections(form, batch, n)| == n
  {
    if n > 0 {
      KeptIff(form, batch, n - 1);
      assert batch[..n] == batch[..n - 1] + [batch[n - 1]];
    }
  }

  /**
   * The creation form does not compare a batch with itself: the same acceptable file twice in
   * one batch is listed twice.
   */
  lemma BatchDuplicatesKept(existing: seq<File>, file: File)
    requires CreationVerdict(existing, file).None?
    ensures Kept(Creation(existing), [file, file], 2) == [file, file]
  {
  }

  /** A second creation-form batch with a file already listed is rejected as already uploaded. */
  lemma SecondBatchRejected(existing: seq<File>, file: File)
    requires CreationVerdict(existing, file).None?
    ensures var listed := existing + Kept(Creation(existing), [file], 1);
            Kept(Creation(listed), [file], 1) == []
            && Rejections(Creation(listed), [file], 1) == [ToastError(file.name + " is already uploaded.")]
  {
    assert Kept(Creation(existing), [file], 1) == [file];
    var listed := existing + [file];
    assert Names(listed)[|existing|] == file.name;
    assert file.name in Names(listed);
  }

  /** `files.filter(file => file.name !== fileName)`. */
  function WithoutName(files: seq<File>, fileName: string): (r: seq<File>)
    ensures forall f :: f in r <==> f in files && f.name != fileName
    ensures |r| <= |files|
  {
    if files == [] then []
    else (if files[0].name != fileName then [files[0]] else []) + WithoutName(files[1..], fileName)
  }

  /** Removing by name keeps the order of the other files: it distributes over concatenation. */
  lemma {:induction false} WithoutNameAppend(a: seq<File>, b: seq<File>, fileName: string)
    ensures WithoutName(a + b, fileName) == WithoutName(a, fileName) + WithoutName(b, fileName)
    decreases |a|
  {
    if a != [] {
      assert (a + b)[1..] == a[1..] + b;
      WithoutNameAppend(a[1..], b, fileName);
    } else {
      assert a + b == b;
    }
  }

  /** A list without that name is left as it is. */
  lemma {:induction false} WithoutAbsentName(files: seq<File>, fileName: string)
    requires fileName !in Names(files)
    ensures WithoutName(files, fileName) == files
    decreases |files|
  {
    if files != [] {
      assert Names(files)[0] == files[0].name;
      assert Names(files[1..]) == Names(files)[1..];
      WithoutAbsentName(files[1..], fileName);
    }
  }

  /** The filtering loop shared by both forms. */
  method FilterBatch(form: Form, batch: seq<File>) returns (valid: seq<File>, errors: seq<Toast>)
    ensures valid == Kept(form, batch, |batch|)
    ensures errors == Rejections(form, batch, |batch|)
  {
    valid, errors := [], [];
    for i := 0 to |batch|
      invariant valid == Kept(form, batch, i)
      invariant errors == Rejections(form, batch, i)
    {
      match Verdict(form, batch[i])
      case None => valid := valid + [batch[i]];
      case Some(t) => errors := errors + [t];
    }
  }

  // ---------------------------------------------------------------------------------------------
  // The creation form
  // ---------------------------------------------------------------------------------------------

  /** The presigned-URL request for one file: category, type and base name of the sanitised name. */
  datatype PresignRequest = PresignRequest(categoryId: string, documentType: string, documentName: string)

  function PresignFor(categoryId: string, file: File): (r: PresignRequest)
    ensures r.categoryId == categoryId
  {
    var fileName := Sanitize(file.name);
    PresignRequest(categoryId, FileType(fileName), StripExtension(fileName))
  }

  function PresignAll(categoryId: string, files: seq<File>): (r: seq<PresignRequest>)
    ensures |r| == |files|
    ensures forall i :: 0 <= i < |files| ==> r[i] == PresignFor(categoryId, files[i])
  {
    seq(|files|, i requires 0 <= i < |files| => PresignFor(categoryId, files[i]))
  }

  const NameRequired := "Category name is required."
  const UploadFailed := "Category creation or file upload failed."
  const UploadDone := "Category created and files uploaded successfully."
  const CategoriesPage := "categories"

  /** `Category_creation`: the form's state. */
  class CategoryCreation {
    var files: seq<File>
    var categoryName: string
    var isUploading: bool
    var selectedPage: string
    var toasts: seq<Toast>

    constructor(selectedPage: string)
      ensures files == [] && categoryName == "" && !isUploading && toasts == []
      ensures this.selectedPage == selectedPage
    {
      files := [];
      categoryName := "";
      isUploading := false;
      this.selectedPage := selectedPage;
      toasts := [];
    }

    /** The name input's `onChange`. */
    method SetCategoryName(name: string)
      modifies this
      ensures categoryName == name
      ensures files == old(files) && isUploading == old(isUploading) && selectedPage == old(selectedPage) && toasts == old(toasts)
    {
      categoryName := name;
    }

    /** `validateAndSetFiles`: the kept files are appended and an error is shown for each other one. */
    method ValidateAndSetFiles(filesToUpload: seq<File>)
      modifies this
      ensures files == old(files) + Kept(Creation(old(files)), filesToUpload, |filesToUpload|)
      ensures toasts == old(toasts) + Rejections(Creation(old(files)), filesToUpload, |filesToUpload|)
      ensures categoryName == old(categoryName) && isUploading == old(isUploading) && selectedPage == old(selectedPage)
    {
      var validFiles, errors := FilterBatch(Creation(files), filesToUpload);
      toasts := toasts + errors;
      files := files + validFiles;
    }

    /** `removeFile`: every file with that name goes. */
    method RemoveFile(fileName: string)
      modifies this
      ensures files == WithoutName(old(files), fileName)
      ensures categoryName == old(categoryName) && isUploading == old(isUploading) && selectedPage == old(selectedPage) && toasts == old(toasts)
    {
      files := WithoutName(files, fileName);
    }

    /**
     * `uploadFiles`: nothing while an upload runs; a blank name shows an error and sends
     * nothing; otherwise the category is created (`created` is its id, None when creating
     * throws), one presigned request is made per file (`uploadsOk` is whether all of them and
     * the uploads succeed), and the `finally` block reports success, clears the form and returns
     * to the category list even after a failure.
     */
    method UploadFiles(created: Option<string>, uploadsOk: bool) returns (requests: seq<PresignRequest>)
      modifies this
      ensures old(isUploading) ==> requests == [] && files == old(files) && categoryName == old(categoryName)
                                   && isUploading && selectedPage == old(selectedPage) && toasts == old(toasts)
      ensures !old(isUploading) && Strip(Js, old(categoryName)) == "" ==>
                requests == [] && files == old(files) && categoryName == old(categoryName) && !isUploading
                && selectedPage == old(selectedPage) && toasts == old(toasts) + [ToastError(NameRequired)]
      ensures !old(isUploading) && Strip(Js, old(categoryName)) != "" ==>
                requests == (if created.Some? then PresignAll(created.value, old(files)) else [])
                && toasts == old(toasts) + (if created.Some? && uploadsOk then [] else [ToastError(UploadFailed)]) + [ToastSuccess(UploadDone)]
                && files == [] && categoryName == "" && selectedPage == CategoriesPage && !isUploading
    {
      requests := [];
      if isUploading {
        return;
      }
      if Strip(Js, categoryName) == "" {
        toasts := toasts + [ToastError(NameRequired)];
        return;
      }
      isUploading := true;
      var failed := false;
      if created.None? {
        failed := true;
      } else {
        requests := PresignAll(created.value, files);
        failed := !uploadsOk;
      }
      if failed {
        toasts := toasts + [ToastError(UploadFailed)];
      }
      toasts := toasts + [ToastSuccess(UploadDone)];
      files := [];
      categoryName := "";
      selectedPage := CategoriesPage;
      isUploading := false;
    }
  }

  // ---------------------------------------------------------------------------------------------
  // The edit form
  // ---------------------------------------------------------------------------------------------

  /** `Edit_Category`: the form's file list. */
  class EditCategory {
    var files: seq<File>
    var toasts: seq<Toast>

    constructor()
      ensures files == [] && toasts == []
    {
      files := [];
      toasts := [];
    }

    /** `validateAndSetFiles`: files of an allowed type are appended, with no name check. */
    method ValidateAndSetFiles(filesToUpload: seq<File>)
      modifies this
      ensures files == old(files) + Kept(Edit, filesToUpload, |filesToUpload|)
      ensures toasts == old(toasts) + Rejections(Edit, filesToUpload, |filesToUpload|)
    {
      var validFiles, errors := FilterBatch(Edit, filesToUpload);
      toasts := toasts + errors;
      files := files + validFiles;
    }

    /** `removeFile`: every file with that name goes. */
    method RemoveFile(fileName: string)
      modifies this
      ensures files == WithoutName(old(files), fileName)
      ensures toasts == old(toasts)
    {
      files := WithoutName(files, fileName);
    }
  }

  /** The edit form lists an acceptable file again when it is added again. */
  lemma EditKeepsDuplicates(file: File)
    requires file.mimeType in AllowedMimeTypes
    ensures [file] + Kept(Edit, [file], 1) == [file, file]
  {
  }

  /** Only allowed types ever enter the edit form's list. */
  lemma EditKeptAllowed(batch: seq<File>)
    ensures forall f :: f in Kept(Edit, batch, |batch|) ==> f.mimeType in AllowedMimeTypes
  {
    KeptIff(Edit, batch, |batch|);
  }
}
