/**
 * The chat front end's helpers: file-name parts and sanitising for the comparison uploads, the
 * upload pre-flight, and the role read back from a conversation's first human message.
 */
module ChatUtility {
  import opened Common
  import opened Text
  import TurnCodec
  import TextGeneration

  // ---------------------------------------------------------------------------------------------
  // File names
  // ---------------------------------------------------------------------------------------------

  /** `typeMap` of `getFileType`. */
  const TypeMap: map<string, string> := map["pdf" := "pdf", "doc" := "doc", "docx" := "docx", "txt" := "txt", "rtf" := "rtf"]

  /**
   * What `typeMap[extension] || extension` evaluates to: a string, or one of the two members an
   * object literal inherits from `Object.prototype` under an all-lower-case name, the `Object`
   * function (`constructor`) and the prototype object itself (`__proto__`).
   */
  datatype TypeValue = Str(s: string) | ObjectFunction | ObjectPrototype

  /** The inherited member an extension names, if any. */
  function InheritedMember(name: string): (r: Option<TypeValue>)
    ensures r.Some? ==> !r.value.Str?
  {
    if name == "constructor" then Some(ObjectFunction)
    else if name == "__proto__" then Some(ObjectPrototype)
    else None
  }

  /** `String(v)`, the text `encodeURIComponent` encodes: browsers render the `Object` function as its native source. */
  function ParamText(v: TypeValue): (r: string)
    ensures v.Str? ==> r == v.s
    ensures !v.Str? ==> '.' !in r && |r| > 11
  {
    match v
    case Str(s) => s
    case ObjectFunction => "function Object() { [native code] }"
    case ObjectPrototype => "[object Object]"
  }

  /**
   * `getFileType`: the last `.`-part lower-cased, looked up in the type map. The lookup sees the
   * map's own keys first, then the inherited members; every value found is truthy, so only a miss
   * falls back to the extension.
   */
  function GetFileType(fileName: string): (r: TypeValue)
    ensures r == TypeFor(Lower(AfterLast(fileName, '.')))
  {
    var parts := Split(fileName, '.');
    LastPartAfterLast(fileName);
    TypeFor(Lower(parts[|parts| - 1]))
  }

  /** `typeMap[extension] || extension` for one lower-cased extension. */
  function TypeFor(extension: string): TypeValue
  {
    if extension in TypeMap && TypeMap[extension] != "" then Str(TypeMap[extension])
    else if InheritedMember(extension).Some? then InheritedMember(extension).value
    else Str(extension)
  }

  /** An extension is its own type unless it names an inherited member, which gives that member. */
  lemma TypeForCases(extension: string)
    ensures InheritedMember(extension).None? ==> TypeFor(extension) == Str(extension)
    ensures InheritedMember(extension).Some? ==> TypeFor(extension) == InheritedMember(extension).value
  {
    TypeMapIdentity(extension);
    if extension in TypeMap {
      assert InheritedMember(extension).None?;
    }
  }

  /** `removeFileExtension`: every `.`-part but the last, joined again with `.`. */
  function RemoveFileExtension(fileName: string): (r: string)
  {
    var parts := Split(fileName, '.');
    Join(".", parts[..|parts| - 1])
  }

  /**
   * The type map sends each of its keys to itself, so, unless the extension names an inherited
   * member, the type is the text after the last `.` lower-cased, and the whole name lower-cased
   * when it has no `.`.
   */
  lemma FileTypeIsExtension(fileName: string)
    requires InheritedMember(Lower(AfterLast(fileName, '.'))).None?
    ensures GetFileType(fileName) == Str(Lower(AfterLast(fileName, '.')))
    ensures '.' !in GetFileType(fileName).s
  {
    TypeForCases(Lower(AfterLast(fileName, '.')));
    LowerKeepsDot(AfterLast(fileName, '.'));
  }

  /** An extension that names an inherited member gives that member as the type, never a string. */
  lemma InheritedFileType(fileName: string)
    requires InheritedMember(Lower(AfterLast(fileName, '.'))).Some?
    ensures GetFileType(fileName) == InheritedMember(Lower(AfterLast(fileName, '.'))).value
    ensures !GetFileType(fileName).Str?
  {
    TypeForCases(Lower(AfterLast(fileName, '.')));
  }

  /** The last `.`-part of a name is the text after its last `.`. */
  lemma LastPartAfterLast(fileName: string)
    ensures var parts := Split(fileName, '.');
            parts[|parts| - 1] == AfterLast(fileName, '.')
  {
    if '.' in fileName {
      SplitLast(fileName, '.');
    } else {
      SplitAbsent(fileName, '.');
    }
  }

  /** Each key of the type map maps to itself. */
  lemma TypeMapIdentity(e: string)
    ensures e in TypeMap ==> TypeMap[e] == e && TypeMap[e] != ""
  {
  }

  /** Lower-casing neither adds nor removes a `.`. */
  lemma LowerKeepsDot(s: string)
    ensures '.' in Lower(s) <==> '.' in s
  {
    var l := Lower(s);
    if '.' in l {
      var i :| 0 <= i < |l| && l[i] == '.';
      assert s[i] == '.';
    }
    if '.' in s {
      var i :| 0 <= i < |s| && s[i] == '.';
      assert l[i] == '.';
    }
  }

  /**
   * The base name is the text before the last `.`, and "" without one; with a `.` the base, the
   * dot and the raw extension rebuild the name.
   */
  lemma RemoveFileExtensionShape(fileName: string)
    ensures '.' !in fileName ==> RemoveFileExtension(fileName) == ""
    ensures '.' in fileName ==> SplitAtLast(fileName, '.').value.0 == RemoveFileExtension(fileName)
    ensures '.' in fileName ==> RemoveFileExtension(fileName) + "." + AfterLast(fileName, '.') == fileName
  {
    if '.' in fileName {
      SplitLast(fileName, '.');
    } else {
      SplitAbsent(fileName, '.');
    }
  }

  /** The characters `[a-zA-Z0-9._-]` that survive sanitising. */
  predicate SafeChar(c: char)
  {
    ('a' <= c <= 'z') || ('A' <= c <= 'Z') || ('0' <= c <= '9') || c == '.' || c == '_' || c == '-'
  }

  /** A code unit the pattern `[a-zA-Z0-9._-]` matches: an ASCII unit of a safe character. */
  predicate SafeUnit(u: CodeUnit)
  {
    u < 0x80 && SafeChar(u as int as char)
  }

  /**
   * `/[^a-zA-Z0-9._-]/g` without the `u` flag matches single code units: the reference meaning of
   * the replacement is that every unit outside the class becomes `_` (0x5F).
   */
  function ReplaceUnits(units: seq<CodeUnit>): (r: seq<CodeUnit>)
    ensures |r| == |units|
    ensures forall i :: 0 <= i < |units| ==> r[i] == if SafeUnit(units[i]) then units[i] else 0x5F
  {
    seq(|units|, i requires 0 <= i < |units| => if SafeUnit(units[i]) then units[i] else 0x5F)
  }

  /** What one character becomes: itself when safe, else one `_` per code unit it takes. */
  function SanitizeChar(c: char): (r: string)
    ensures Utf16(r) == ReplaceUnits(Utf16Char(c))
  {
    if SafeChar(c) then [c] else if (c as int) < 0x10000 then "_" else "__"
  }

  /**
   * `name.replace(/[^a-zA-Z0-9._-]/g, "_")`: as many characters as the name has code units, all
   * of them safe; for a name inside the Basic Multilingual Plane, every safe character is kept in
   * place and every other one becomes `_`.
   */
  function Sanitize(name: string): (r: string)
    ensures |r| == JsLength(name)
    ensures forall i :: 0 <= i < |r| ==> SafeChar(r[i])
    ensures (forall i :: 0 <= i < |name| ==> (name[i] as int) < 0x10000) ==>
              forall i :: 0 <= i < |name| ==> r[i] == if SafeChar(name[i]) then name[i] else '_'
  {
    if |name| == 0 then [] else SanitizeChar(name[0]) + Sanitize(name[1..])
  }

  /** Sanitising replaces exactly the code units outside the class, as the pattern does. */
  lemma {:induction false} SanitizeUnits(name: string)
    ensures Utf16(Sanitize(name)) == ReplaceUnits(Utf16(name))
    decreases |name|
  {
    if |name| > 0 {
      var head, rest := SanitizeChar(name[0]), Sanitize(name[1..]);
      var a, b := Utf16Char(name[0]), Utf16(name[1..]);
      assert Sanitize(name) == head + rest;
      Utf16Append(head, rest);
      SanitizeUnits(name[1..]);
      assert Utf16(Sanitize(name)) == ReplaceUnits(a) + ReplaceUnits(b);
      ReplaceUnitsAppend(a, b);
      assert Utf16(name) == a + b;
    }
  }

  /** The replacement works unit by unit, so it distributes over concatenation. */
  lemma ReplaceUnitsAppend(a: seq<CodeUnit>, b: seq<CodeUnit>)
    ensures ReplaceUnits(a + b) == ReplaceUnits(a) + ReplaceUnits(b)
  {
  }

  /**
   * A character outside the Basic Multilingual Plane becomes two `_`, one per surrogate: "😀.pdf"
   * is sanitised to "__.pdf", two characters longer than a per-character replacement would give.
   */
  lemma SanitizeAstral(c: char, rest: string)
    requires (c as int) >= 0x10000
    requires forall i :: 0 <= i < |rest| ==> SafeChar(rest[i])
    ensures Sanitize([c] + rest) == "__" + rest
  {
    assert ([c] + rest)[1..] == rest;
    SanitizeSafe(rest);
  }

  /** Sanitising a sanitised name changes nothing. */
  lemma SanitizeIdempotent(name: string)
    ensures Sanitize(Sanitize(name)) == Sanitize(name)
  {
    SanitizeSafe(Sanitize(name));
  }

  // ---------------------------------------------------------------------------------------------
  // processAndUploadFiles
  // ---------------------------------------------------------------------------------------------

  /** A browser `File`: its name, its size in bytes and its MIME type. */
  datatype File = File(name: string, size: nat, mimeType: string)

  const MaxUploadBytes: nat := 25 * 1024 * 1024
  const SyllabusName := "syllabus.txt"
  const TooLarge := "Files must be less than 25MB"

  /** The presigned-URL request made for a file: session, type and base name. */
  datatype UploadRequest = UploadRequest(sessionId: string, documentType: string, documentName: string)

  /** The request `generatePresignedUrl` makes for a file: both parts come from the sanitised name. */
  function RequestFor(file: File, sessionId: string): (r: UploadRequest)
    ensures r.sessionId == sessionId
  {
    var fileName := Sanitize(file.name);
    UploadRequest(sessionId, ParamText(GetFileType(fileName)), RemoveFileExtension(fileName))
  }

  /**
   * The files to upload: the selection, followed by `syllabus.txt` holding the pasted text when
   * that text is not blank (`textBytes` is its encoded size).
   */
  function ProcessedFiles(files: seq<File>, textSyllabus: string, textBytes: nat): (r: seq<File>)
    ensures |r| >= |files| && r[..|files|] == files
  {
    if Strip(Js, textSyllabus) != "" then files + [File(SyllabusName, textBytes, "text/plain")] else files
  }

  /**
   * `processAndUploadFiles`: any oversized file throws before anything is uploaded; otherwise
   * one presigned-URL request per file (the uploads run concurrently, so no order is implied).
   */
  function UploadPlan(files: seq<File>, textSyllabus: string, textBytes: nat, sessionId: string): (r: Result<seq<UploadRequest>>)
    ensures r.Err? <==> exists f :: f in ProcessedFiles(files, textSyllabus, textBytes) && f.size > MaxUploadBytes
    ensures r.Err? ==> r.error == TooLarge
    ensures r.Ok? ==> var processed := ProcessedFiles(files, textSyllabus, textBytes);
                      |r.value| == |processed|
                      && forall i :: 0 <= i < |processed| ==> r.value[i] == RequestFor(processed[i], sessionId)
  {
    var processed := ProcessedFiles(files, textSyllabus, textBytes);
    if exists f :: f in processed && f.size > MaxUploadBytes then Err(TooLarge)
    else Ok(seq(|processed|, i requires 0 <= i < |processed| => RequestFor(processed[i], sessionId)))
  }

  /** `syllabus.txt` is added, last, exactly when the pasted text is not blank. */
  lemma SyllabusAppendedIff(files: seq<File>, textSyllabus: string, textBytes: nat)
    ensures var r := ProcessedFiles(files, textSyllabus, textBytes);
            (|r| == |files| + 1 <==> Strip(Js, textSyllabus) != "")
            && (|r| == |files| + 1 ==> r[|files|] == File(SyllabusName, textBytes, "text/plain"))
            && (|r| == |files| ==> r == files)
  {
  }

  /** A name made only of safe characters is left as it is. */
  lemma {:induction false} SanitizeSafe(name: string)
    requires forall i :: 0 <= i < |name| ==> SafeChar(name[i])
    ensures Sanitize(name) == name
    decreases |name|
  {
    if |name| > 0 {
      assert SafeChar(name[0]);
      SanitizeSafe(name[1..]);
      assert name == [name[0]] + name[1..];
    }
  }

  /** A name with one dot and a lower-case extension has that extension after its last `.` and the rest before it. */
  lemma OneDotParts(base: string, ext: string)
    requires '.' !in base && '.' !in ext
    requires forall i :: 0 <= i < |ext| ==> !('A' <= ext[i] <= 'Z')
    ensures Lower(AfterLast(base + "." + ext, '.')) == ext && RemoveFileExtension(base + "." + ext) == base
  {
    var n := base + "." + ext;
    assert n == base + ['.'] + ext;
    SplitAtLastOf(base, '.', ext);
    RemoveFileExtensionShape(n);
    LowerNoUpper(ext);
  }

  /**
   * A name with one dot and a lower-case extension that names no inherited member splits into
   * the text before and after it.
   */
  lemma PlainNameParts(base: string, ext: string)
    requires '.' !in base && '.' !in ext && InheritedMember(ext).None?
    requires forall i :: 0 <= i < |ext| ==> !('A' <= ext[i] <= 'Z')
    ensures GetFileType(base + "." + ext) == Str(ext) && RemoveFileExtension(base + "." + ext) == base
  {
    OneDotParts(base, ext);
    FileTypeIsExtension(base + "." + ext);
  }

  /**
   * A safe name with one dot and a lower-case extension is requested under the text before the
   * dot, with the extension as its type.
   */
  lemma PlainNameRequest(base: string, ext: string, size: nat, mimeType: string, sessionId: string)
    requires '.' !in base && '.' !in ext && InheritedMember(ext).None?
    requires forall i :: 0 <= i < |base| ==> SafeChar(base[i])
    requires forall i :: 0 <= i < |ext| ==> SafeChar(ext[i]) && !('A' <= ext[i] <= 'Z')
    ensures RequestFor(File(base + "." + ext, size, mimeType), sessionId) == UploadRequest(sessionId, ext, base)
  {
    SafeOneDot(base, ext);
    PlainNameParts(base, ext);
  }

  /**
   * A safe name whose extension names an inherited member is requested under the text before the
   * dot, with that member's text as its type.
   */
  lemma InheritedNameRequest(base: string, ext: string, size: nat, mimeType: string, sessionId: string)
    requires '.' !in base && InheritedMember(ext).Some?
    requires forall i :: 0 <= i < |base| ==> SafeChar(base[i])
    ensures RequestFor(File(base + "." + ext, size, mimeType), sessionId) == UploadRequest(sessionId, ParamText(InheritedMember(ext).value), base)
  {
    InheritedNamesPlain(ext);
    SafeOneDot(base, ext);
    OneDotParts(base, ext);
    InheritedFileType(base + "." + ext);
  }

  /** The names of the inherited members are lower-case, hold no `.` and survive sanitising. */
  lemma InheritedNamesPlain(name: string)
    requires InheritedMember(name).Some?
    ensures '.' !in name && forall i :: 0 <= i < |name| ==> SafeChar(name[i]) && !('A' <= name[i] <= 'Z')
  {
    if name == "constructor" {
      assert forall i :: 0 <= i < |name| ==> 'a' <= name[i] <= 'z';
    } else {
      assert forall i :: 0 <= i < |name| ==> ('a' <= name[i] <= 'z') || name[i] == '_';
    }
  }

  /** A safe base, a dot and a safe extension make a name that sanitising keeps. */
  lemma SafeOneDot(base: string, ext: string)
    requires forall i :: 0 <= i < |base| ==> SafeChar(base[i])
    requires forall i :: 0 <= i < |ext| ==> SafeChar(ext[i])
    ensures Sanitize(base + "." + ext) == base + "." + ext
  {
    SafeJoin(base, ext);
    SanitizeSafe(base + "." + ext);
  }

  /** Every character of a safe base, a dot and a safe extension is safe. */
  lemma SafeJoin(base: string, ext: string)
    requires forall i :: 0 <= i < |base| ==> SafeChar(base[i])
    requires forall i :: 0 <= i < |ext| ==> SafeChar(ext[i])
    ensures forall i :: 0 <= i < |base + "." + ext| ==> SafeChar((base + "." + ext)[i])
  {
    var n := base + "." + ext;
    assert forall i :: 0 <= i < |n| ==> if i < |base| then n[i] == base[i] else if i == |base| then n[i] == '.' else n[i] == ext[i - |base| - 1];
  }

  /** The pasted text is requested as type "txt" under the name "syllabus". */
  lemma SyllabusRequest(sessionId: string, textBytes: nat)
    ensures RequestFor(File(SyllabusName, textBytes, "text/plain"), sessionId) == UploadRequest(sessionId, "txt", "syllabus")
  {
    var base, ext := "syllabus", "txt";
    assert base + "." + ext == SyllabusName;
    assert forall i :: 0 <= i < |base| ==> 'a' <= base[i] <= 'z';
    assert forall i :: 0 <= i < |ext| ==> 'a' <= ext[i] <= 'z';
    PlainNameRequest(base, ext, textBytes, "text/plain", sessionId);
  }

  // ---------------------------------------------------------------------------------------------
  // getUserRole
  // ---------------------------------------------------------------------------------------------

  /** A message of the conversation history: its `Type` and `Content`. */
  datatype Message = Message(msgType: string, content: string)

  /** `messageHistory.find(msg => msg.Type === "human")`, as an index. */
  function FirstHuman(history: seq<Message>): (r: Option<nat>)
    ensures r.Some? ==> r.value < |history| && history[r.value].msgType == "human"
                        && forall j :: 0 <= j < r.value ==> history[j].msgType != "human"
    ensures r.None? ==> forall j :: 0 <= j < |history| ==> history[j].msgType != "human"
  {
    if |history| == 0 then None
    else if history[0].msgType == "human" then Some(0)
    else
      match FirstHuman(history[1..])
      case None => None
      case Some(i) => Some(i + 1)
  }

  /** The role named by a message's text, checked in the order student, educator, admin. */
  function RoleFromContent(content: string): (r: string)
    ensures r == "" || TextGeneration.KnownRole(r)
  {
    var lowered := Lower(content);
    if Contains(lowered, "student") then "public"
    else if Contains(lowered, "educator") || Contains(lowered, "educational") then "educator"
    else if Contains(lowered, "admin") then "admin"
    else ""
  }

  /** `getUserRole`: the role named by the first human message, or "" without one. */
  function GetUserRole(history: seq<Message>): (r: string)
    ensures FirstHuman(history).None? ==> r == ""
    ensures FirstHuman(history).Some? ==> r == RoleFromContent(history[FirstHuman(history).value].content)
  {
    match FirstHuman(history)
    case None => ""
    case Some(i) => RoleFromContent(history[i].content)
  }

  /** A pattern whose first character is missing from every possible start does not occur. */
  lemma AbsentByFirstChar(s: string, pat: string)
    requires |pat| > 0
    requires forall i :: 0 <= i && i + |pat| <= |s| ==> s[i] != pat[0]
    ensures !Contains(s, pat)
  {
    forall i | 0 <= i <= |s|
      ensures !OccursAt(s, pat, i)
    {
      if i + |pat| <= |s| {
        assert s[i..i + |pat|][0] == s[i];
      }
    }
  }

  /** Lower-casing a prefix is the prefix of the lower-cased text. */
  lemma LowerSlice(s: string, k: nat)
    requires k <= |s|
    ensures Lower(s)[..k] == Lower(s[..k])
  {
  }

  /** "Student" lower-cases to "student". */
  lemma StudentLower()
    ensures Lower("Student") == "student"
  {
  }

  /** "Educator" lower-cases to "educator". */
  lemma EducatorLower()
    ensures Lower("Educator") == "educator"
  {
  }

  /** "Admin" lower-cases to "admin". */
  lemma AdminLower()
    ensures Lower("Admin") == "admin"
  {
  }

  /** A text starting with "Student" names the public role. */
  lemma StartsWithStudent(content: string)
    requires |content| >= 7 && content[..7] == "Student"
    ensures RoleFromContent(content) == "public"
  {
    LowerSlice(content, 7);
    StudentLower();
    assert OccursAt(Lower(content), "student", 0);
  }

  /** A text starting with "Educator" and without an `s` early enough to start "student" names the educator role. */
  lemma StartsWithEducator(content: string)
    requires |content| >= 8 && content[..8] == "Educator"
    requires 's' !in content[..|content| - 6] && 'S' !in content[..|content| - 6]
    ensures RoleFromContent(content) == "educator"
  {
    var lowered := Lower(content);
    forall i | 0 <= i && i + 7 <= |lowered|
      ensures lowered[i] != 's'
    {
      assert content[i] == content[..|content| - 6][i];
    }
    AbsentByFirstChar(lowered, "student");
    LowerSlice(content, 8);
    EducatorLower();
    assert OccursAt(lowered, "educator", 0);
  }

  /** A five-letter text that lower-cases to "admin" names the admin role. */
  lemma IsAdmin(content: string)
    requires |content| == 5 && Lower(content) == "admin"
    ensures RoleFromContent(content) == "admin"
  {
    var lowered := Lower(content);
    TooLongAbsent(lowered, "student");
    TooLongAbsent(lowered, "educator");
    TooLongAbsent(lowered, "educational");
    assert lowered[0..5] == "admin";
    assert OccursAt(lowered, "admin", 0);
  }

  /** A pattern longer than the text does not occur in it. */
  lemma TooLongAbsent(s: string, pat: string)
    requires |pat| > |s|
    ensures !Contains(s, pat)
  {
  }

  /**
   * The three role buttons of the greeting name, in order, the roles public, educator and admin:
   * exactly the roles the prompt lookup accepts, so a greeting answered with a button always
   * finds a prompt column.
   */
  lemma GreetingChoicesNameRoles(i: nat)
    requires i < |TurnCodec.RoleChoices|
    ensures RoleFromContent(TurnCodec.RoleChoices[i]) == ["public", "educator", "admin"][i]
    ensures TextGeneration.KnownRole(RoleFromContent(TurnCodec.RoleChoices[i]))
  {
    var choices := TurnCodec.RoleChoices;
    if i == 0 {
      assert choices[0][..7] == "Student";
      StartsWithStudent(choices[0]);
    } else if i == 1 {
      assert |choices[1]| == 29;
      assert choices[1][..8] == "Educator";
      assert 's' !in choices[1][..23] && 'S' !in choices[1][..23];
      StartsWithEducator(choices[1]);
    } else {
      AdminLower();
      IsAdmin(choices[2]);
    }
  }
}
