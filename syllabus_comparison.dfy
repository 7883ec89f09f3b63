/**
 * The comparison dialog of the chat front end: the syllabus is either pasted text (at most 2000
 * words) or uploaded files, checked against the criteria the user ticks before it is submitted.
 */
module SyllabusComparison {
  import opened Common
  import opened Text
  import opened ChatUtility
  import opened Lists

  // ---------------------------------------------------------------------------------------------
  // formatFileName
  // ---------------------------------------------------------------------------------------------

  /** `n` clamped to `0..len`. */
  function Clamp(n: int, len: nat): (r: nat)
    ensures r <= len
    ensures 0 <= n <= len ==> r == n
  {
    if n < 0 then 0 else if n > len then len else n
  }

  /**
   * JavaScript `s.substring(start, end)` on the code units of `s`: both ends clamped to `0..|s|`,
   * and swapped when out of order.
   */
  function Substring<T>(s: seq<T>, start: int, end: int): (r: seq<T>)
    ensures |r| <= |s|
    ensures 0 <= start <= end <= |s| ==> r == s[start..end]
    ensures start <= 0 && end <= 0 ==> r == []
  {
    var b := Clamp(start, |s|);
    var e := Clamp(end, |s|);
    if b <= e then s[b..e] else s[e..b]
  }

  const DefaultMaxLength: nat := 30

  /** The code unit of `.`. */
  const Dot: CodeUnit := 0x2E

  /** The code units of "...". */
  const Ellipsis: seq<CodeUnit> := [Dot, Dot, Dot]

  /**
   * `formatFileName` on the code units of the name, which is what `length`, `lastIndexOf` and
   * `substring` count: a name within `maxLength` units is unchanged; a longer one without a dot is
   * cut to `maxLength` units and marked; with a dot, the base (the units before the last dot) is
   * cut to `maxLength - 3` units when longer and the extension (from the dot on) is kept.
   */
  function FormatFileName(fileName: seq<CodeUnit>, maxLength: nat): (r: seq<CodeUnit>)
    ensures |fileName| <= maxLength ==> r == fileName
  {
    if |fileName| <= maxLength then fileName
    else
      match LastIndexOfChar(fileName, Dot)
      case None => Substring(fileName, 0, maxLength) + Ellipsis
      case Some(extensionStart) =>
        var name := Substring(fileName, 0, extensionStart);
        var extension := fileName[extensionStart..];
        if |name| > maxLength - 3 then Substring(name, 0, maxLength - 3) + Ellipsis + extension
        else name + Ellipsis + extension
  }

  /**
   * A long name keeps its extension: the result is a prefix of the base, the marker and the units
   * from the last dot on; without a dot it is the first `maxLength` units and the marker.
   */
  lemma FormatFileNameShape(fileName: seq<CodeUnit>, maxLength: nat)
    requires |fileName| > maxLength
    ensures Dot !in fileName ==> FormatFileName(fileName, maxLength) == fileName[..maxLength] + Ellipsis
    ensures Dot in fileName ==>
              var (base, ext) := SplitAtLast(fileName, Dot).value;
              var kept := if |base| > maxLength - 3 then (if maxLength < 3 then 0 else maxLength - 3) else |base|;
              FormatFileName(fileName, maxLength) == base[..kept] + Ellipsis + [Dot] + ext
  {
    if Dot in fileName {
      var p := LastIndexOfChar(fileName, Dot).value;
      var base, ext := fileName[..p], fileName[p + 1..];
      assert SplitAtLast(fileName, Dot) == Some((base, ext));
      assert fileName[p..] == [Dot] + ext by {
        assert fileName[p..] == [fileName[p]] + fileName[p + 1..];
      }
      var kept := if |base| > maxLength - 3 then (if maxLength < 3 then 0 else maxLength - 3) else |base|;
      var front := if |base| > maxLength - 3 then Substring(base, 0, maxLength - 3) else base;
      assert front == base[..kept];
      assert FormatFileName(fileName, maxLength) == front + Ellipsis + ([Dot] + ext);
      AppendRegroupTail(front, Ellipsis, [Dot], ext);
    } else {
      assert Substring(fileName, 0, maxLength) == fileName[..maxLength];
    }
  }

  /** A long name whose base already fits gets longer: the marker is added and nothing is cut. */
  lemma ShortBaseLengthens(fileName: seq<CodeUnit>, maxLength: nat)
    requires |fileName| > maxLength && Dot in fileName
    requires |SplitAtLast(fileName, Dot).value.0| <= maxLength - 3
    ensures |FormatFileName(fileName, maxLength)| == |fileName| + 3
  {
    FormatFileNameShape(fileName, maxLength);
    var (base, ext) := SplitAtLast(fileName, Dot).value;
    assert fileName == base + [Dot] + ext;
  }

  /** With a base that has to be cut, the result has `maxLength` units plus the extension. */
  lemma LongBaseFits(fileName: seq<CodeUnit>, maxLength: nat)
    requires |fileName| > maxLength >= 3 && Dot in fileName
    requires |SplitAtLast(fileName, Dot).value.0| > maxLength - 3
    ensures |FormatFileName(fileName, maxLength)| == maxLength + 1 + |AfterLast(fileName, Dot)|
  {
    FormatFileNameShape(fileName, maxLength);
  }

  /**
   * A name of 30 characters, one of them outside the Basic Multilingual Plane, has 31 code units
   * and so is cut at the default limit although it has only 30 characters.
   */
  lemma AstralNameCut(c: char, rest: string)
    requires (c as int) >= 0x10000 && |rest| == 29
    requires forall i :: 0 <= i < |rest| ==> (rest[i] as int) < 0x10000 && rest[i] != '.'
    ensures |[c] + rest| == DefaultMaxLength
    ensures FormatFileName(Utf16([c] + rest), DefaultMaxLength) != Utf16([c] + rest)
  {
    var name := [c] + rest;
    assert name[1..] == rest;
    BmpLength(rest);
    assert |Utf16(name)| == 31;
    var units := Utf16(name);
    NoDotUnits(rest);
    Utf16Append([c], rest);
    assert units == Utf16Char(c) + Utf16(rest);
    assert Dot !in units;
    FormatFileNameShape(units, DefaultMaxLength);
  }

  /** A text inside the Basic Multilingual Plane has one code unit per character. */
  lemma {:induction false} BmpLength(s: string)
    requires forall i :: 0 <= i < |s| ==> (s[i] as int) < 0x10000
    ensures JsLength(s) == |s|
    decreases |s|
  {
    if s != [] {
      BmpLength(s[1..]);
    }
  }

  /** A text without `.` inside the Basic Multilingual Plane has no `.` unit. */
  lemma {:induction false} NoDotUnits(s: string)
    requires forall i :: 0 <= i < |s| ==> (s[i] as int) < 0x10000 && s[i] != '.'
    ensures Dot !in Utf16(s)
    decreases |s|
  {
    if s != [] {
      NoDotUnits(s[1..]);
    }
  }

  // ---------------------------------------------------------------------------------------------
  // Word counting
  // ---------------------------------------------------------------------------------------------

  /** The length of the run of non-whitespace characters at the front. */
  function LeadingWordLength(s: string): (n: nat)
    ensures n <= |s|
    ensures forall i :: 0 <= i < n ==> !IsSpace(Js, s[i])
    ensures n < |s| ==> IsSpace(Js, s[n])
  {
    if s == [] || IsSpace(Js, s[0]) then 0 else 1 + LeadingWordLength(s[1..])
  }

  /** The maximal runs of non-whitespace characters, in order. */
  function Tokens(s: string): (r: seq<string>)
    ensures forall k :: 0 <= k < |r| ==> r[k] != [] && forall i :: 0 <= i < |r[k]| ==> !IsSpace(Js, r[k][i])
    decreases |s|
  {
    var t := LStrip(Js, s);
    if t == [] then []
    else
      var n := LeadingWordLength(t);
      [t[..n]] + Tokens(t[n..])
  }

  /**
   * `text.trim() === "" ? [] : text.trim().split(/\s+/)`: the trimmed text has no whitespace at
   * either end, so splitting it at whitespace runs gives exactly its non-whitespace runs.
   */
  function Words(text: string): (r: seq<string>)
  {
    var trimmed := Strip(Js, text);
    if trimmed == "" then [] else Tokens(trimmed)
  }

  predicate PlainWord(w: string)
  {
    w != [] && forall i :: 0 <= i < |w| ==> !IsSpace(Js, w[i])
  }

  /** The front word of a word followed by a space or by nothing is that word. */
  lemma {:induction false} LeadingWordOf(w: string, rest: string)
    requires forall i :: 0 <= i < |w| ==> !IsSpace(Js, w[i])
    requires rest == [] || IsSpace(Js, rest[0])
    ensures LeadingWordLength(w + rest) == |w|
    decreases |w|
  {
    if w != [] {
      assert (w + rest)[1..] == w[1..] + rest;
      LeadingWordOf(w[1..], rest);
    } else {
      assert w + rest == rest;
    }
  }

  /** Words joined by single spaces split back into the same words. */
  lemma {:induction false} TokensOfJoin(ws: seq<string>)
    requires forall k :: 0 <= k < |ws| ==> PlainWord(ws[k])
    ensures Tokens(Join(" ", ws)) == ws
    decreases |ws|
  {
    if ws == [] {
    } else {
      var w := ws[0];
      var s := Join(" ", ws);
      assert PlainWord(w);
      var rest := if |ws| == 1 then "" else " " + Join(" ", ws[1..]);
      assert s == w + rest;
      assert s[0] == w[0];
      LStripOfStripped(Js, s);
      BlanksAllSpace(Js, " ");
      assert rest == [] || IsSpace(Js, rest[0]);
      LeadingWordOf(w, rest);
      assert s[..|w|] == w && s[|w|..] == rest;
      if |ws| > 1 {
        TokensOfJoin(ws[1..]);
        var tail := Join(" ", ws[1..]);
        assert PlainWord(ws[1]);
        assert tail == [] || !IsSpace(Js, tail[0]) by {
          if |ws| == 2 { assert tail == ws[1]; } else { assert tail[0] == ws[1][0]; }
        }
        LStripAppendSpace(Js, " ", tail);
        LStripOfStripped(Js, tail);
        assert Tokens(rest) == Tokens(tail) by {
          assert LStrip(Js, rest) == tail;
          assert LStrip(Js, tail) == tail;
        }
      } else {
        assert Tokens(rest) == [];
      }
    }
  }

  /** The truncated text has exactly the words it was cut to. */
  lemma WordsOfJoin(ws: seq<string>)
    requires forall k :: 0 <= k < |ws| ==> PlainWord(ws[k])
    ensures Words(Join(" ", ws)) == ws
  {
    var s := Join(" ", ws);
    if ws != [] {
      assert PlainWord(ws[0]) && PlainWord(ws[|ws| - 1]);
      JoinEnds(ws);
      StripOfStripped(Js, s);
    }
    TokensOfJoin(ws);
  }

  /** A join of plain words starts with the first word's first character and ends with the last word's last. */
  lemma {:induction false} JoinEnds(ws: seq<string>)
    requires |ws| > 0 && forall k :: 0 <= k < |ws| ==> PlainWord(ws[k])
    requires ws[0] != [] && ws[|ws| - 1] != []
    ensures var s := Join(" ", ws);
            |s| > 0 && s[0] == ws[0][0] && s[|s| - 1] == ws[|ws| - 1][|ws[|ws| - 1]| - 1]
    decreases |ws|
  {
    assert PlainWord(ws[0]);
    if |ws| > 1 {
      JoinEnds(ws[1..]);
      assert ws[1..][|ws| - 2] == ws[|ws| - 1];
    }
  }

  // ---------------------------------------------------------------------------------------------
  // The dialog
  // ---------------------------------------------------------------------------------------------

  const MaxWordCount: nat := 2000
  const TextTab := "text"
  const FilesTab := "files"

  const NoCriteria := "Please select at least one criterion for comparison"
  const NoText := "Please enter text"
  const NoFiles := "Please upload at least one file"
  const WordLimit := "Text exceeds the 2000 word limit. Please shorten your text or upload a file."

  /** The callbacks the dialog invokes. */
  datatype Call = Closed | Submitted

  /** `SyllabusComparisonModal` with the state it owns and the parent state it sets. */
  class SyllabusComparisonModal {
    var activeTab: string
    var selectedCriteria: seq<string>
    var files: seq<File>
    var textSyllabus: string
    var wordCount: nat
    var toasts: seq<string>
    var calls: seq<Call>

    /** The word count never exceeds the limit. */
    predicate Valid()
      reads this
    {
      wordCount <= MaxWordCount
    }

    /** Opening the dialog: the text tab is active, and its effect clears the files. */
    constructor(selectedCriteria: seq<string>, textSyllabus: string)
      ensures Valid()
      ensures activeTab == TextTab && files == [] && wordCount == 0 && toasts == [] && calls == []
      ensures this.selectedCriteria == selectedCriteria && this.textSyllabus == textSyllabus
    {
      activeTab := TextTab;
      this.selectedCriteria := selectedCriteria;
      files := [];
      this.textSyllabus := textSyllabus;
      wordCount := 0;
      toasts := [];
      calls := [];
    }

    /** `handleCriteriaChange`: a ticked criterion is appended, an unticked one removed everywhere. */
    method HandleCriteriaChange(criteriaName: string, checked: bool)
      requires Valid()
      modifies this
      ensures Valid()
      ensures selectedCriteria == if checked then old(selectedCriteria) + [criteriaName] else Without(old(selectedCriteria), criteriaName)
      ensures activeTab == old(activeTab) && files == old(files) && textSyllabus == old(textSyllabus)
      ensures wordCount == old(wordCount) && toasts == old(toasts) && calls == old(calls)
    {
      if checked {
        selectedCriteria := selectedCriteria + [criteriaName];
      } else {
        selectedCriteria := Without(selectedCriteria, criteriaName);
      }
    }

    /**
     * `setActiveTab` followed by the tab effect, which runs only when the tab changes: the text
     * tab clears the files and the files tab clears the text.
     */
    method SelectTab(tab: string)
      requires Valid()
      modifies this
      ensures Valid()
      ensures activeTab == tab
      ensures files == if tab != old(activeTab) && tab == TextTab then [] else old(files)
      ensures textSyllabus == if tab != old(activeTab) && tab == FilesTab then "" else old(textSyllabus)
      ensures selectedCriteria == old(selectedCriteria) && wordCount == old(wordCount)
      ensures toasts == old(toasts) && calls == old(calls)
    {
      if tab != activeTab {
        activeTab := tab;
        if activeTab == TextTab {
          files := [];
        } else if activeTab == FilesTab {
          textSyllabus := "";
        }
      }
    }

    /** `handleFileChange`: any file over 25 MiB rejects the whole selection; otherwise it replaces the files and the files tab opens. */
    method HandleFileChange(newFiles: seq<File>)
      requires Valid()
      modifies this
      ensures Valid()
      ensures (exists f :: f in newFiles && f.size > MaxUploadBytes) ==>
                files == old(files) && activeTab == old(activeTab) && textSyllabus == old(textSyllabus)
                && toasts == old(toasts) + [TooLarge]
      ensures (forall f :: f in newFiles ==> f.size <= MaxUploadBytes) ==>
                files == newFiles && activeTab == FilesTab && toasts == old(toasts)
                && textSyllabus == (if old(activeTab) != FilesTab then "" else old(textSyllabus))
      ensures selectedCriteria == old(selectedCriteria) && wordCount == old(wordCount) && calls == old(calls)
    {
      if exists f :: f in newFiles && f.size > MaxUploadBytes {
        toasts := toasts + [TooLarge];
        return;
      }
      files := newFiles;
      SelectTab(FilesTab);
    }

    /** `removeFile`: only the file at that index goes. */
    method RemoveFile(indexToRemove: int)
      requires Valid()
      modifies this
      ensures Valid()
      ensures files == RemoveAt(old(files), indexToRemove)
      ensures activeTab == old(activeTab) && selectedCriteria == old(selectedCriteria) && textSyllabus == old(textSyllabus)
      ensures wordCount == old(wordCount) && toasts == old(toasts) && calls == old(calls)
    {
      files := RemoveAt(files, indexToRemove);
    }

    /** `handleTextChange`: text within the limit is kept as typed; longer text is cut to its first 2000 words. */
    method HandleTextChange(text: string)
      requires Valid()
      modifies this
      ensures Valid()
      ensures var words := Words(text);
              if |words| <= MaxWordCount then textSyllabus == text && wordCount == |words| && toasts == old(toasts)
              else textSyllabus == Join(" ", words[..MaxWordCount]) && wordCount == MaxWordCount
                   && toasts == old(toasts) + [WordLimit]
      ensures activeTab == old(activeTab) && selectedCriteria == old(selectedCriteria) && files == old(files)
      ensures calls == old(calls)
    {
      var words := Words(text);
      var count := |words|;
      if count <= MaxWordCount {
        textSyllabus := text;
        wordCount := count;
      } else {
        textSyllabus := Join(" ", words[..MaxWordCount]);
        wordCount := MaxWordCount;
        toasts := toasts + [WordLimit];
      }
    }

    /**
     * `handleSubmit`: no criteria, then blank text on the text tab, then no files on the files
     * tab stop with an error; otherwise the dialog closes and then submits.
     */
    method HandleSubmit()
      requires Valid()
      modifies this
      ensures Valid()
      ensures |selectedCriteria| == 0 ==> toasts == old(toasts) + [NoCriteria] && calls == old(calls)
      ensures |selectedCriteria| > 0 && activeTab == TextTab && Strip(Js, textSyllabus) == "" ==>
                toasts == old(toasts) + [NoText] && calls == old(calls)
      ensures |selectedCriteria| > 0 && activeTab == FilesTab && |files| == 0 ==>
                toasts == old(toasts) + [NoFiles] && calls == old(calls)
      ensures |selectedCriteria| > 0 && !(activeTab == TextTab && Strip(Js, textSyllabus) == "")
              && !(activeTab == FilesTab && |files| == 0) ==>
                toasts == old(toasts) && calls == old(calls) + [Closed, Submitted]
      ensures activeTab == old(activeTab) && selectedCriteria == old(selectedCriteria) && files == old(files)
      ensures textSyllabus == old(textSyllabus) && wordCount == old(wordCount)
    {
      if |selectedCriteria| == 0 {
        toasts := toasts + [NoCriteria];
        return;
      }
      if activeTab == TextTab && Strip(Js, textSyllabus) == "" {
        toasts := toasts + [NoText];
        return;
      }
      if activeTab == FilesTab && |files| == 0 {
        toasts := toasts + [NoFiles];
        return;
      }
      calls := calls + [Closed];
      calls := calls + [Submitted];
    }
  }

  /** Ticking a criterion that is not selected and then unticking it restores the selection. */
  lemma TickUntickRestores(criteria: seq<string>, name: string)
    requires name !in criteria
    ensures Without(criteria + [name], name) == criteria
  {
    AppendThenWithout(criteria, name);
  }

  /** Text cut at the limit is kept as it is when it is entered again: its 2000 words are within the limit. */
  lemma TruncationStable(text: string)
    requires |Words(text)| > MaxWordCount
    ensures var cut := Join(" ", Words(text)[..MaxWordCount]);
            Words(cut) == Words(text)[..MaxWordCount] && |Words(cut)| == MaxWordCount
  {
    var ws := Words(text)[..MaxWordCount];
    assert forall k :: 0 <= k < |ws| ==> PlainWord(ws[k]) by {
      assert forall k :: 0 <= k < |ws| ==> ws[k] == Words(text)[k];
    }
    WordsOfJoin(ws);
  }
}
