/**
 * Character-level string operations of Python and JavaScript used throughout the system:
 * whitespace classes, strip/trim, search, split/join, ASCII lower-casing and decimal rendering.
 */
module Text {
  import opened Common

  /** Which language's notion of whitespace an operation uses. */
  datatype Flavor = Py | Js

  /**
   * Whitespace as Python's `str.isspace` (used by `str.strip` and the regular-expression class `\s`)
   * and as JavaScript's WhiteSpace/LineTerminator productions (used by `trim` and `/\s/`).
   */
  predicate IsSpace(f: Flavor, c: char)
  {
    SpaceCode(f, c as int, 1)
  }

  /**
   * The code-point table behind `IsSpace`. It is reached through one level of recursion on `depth`
   * so that the prover unfolds the table only where a proof needs a concrete character's class.
   */
  predicate SpaceCode(f: Flavor, n: int, depth: nat)
    decreases depth
  {
    if depth > 0 then SpaceCode(f, n, depth - 1)
    else
    (0x09 <= n <= 0x0d) || n == 0x20 || n == 0xa0 || n == 0x1680 || (0x2000 <= n <= 0x200a)
    || n == 0x2028 || n == 0x2029 || n == 0x202f || n == 0x205f || n == 0x3000
    || (f == Py && ((0x1c <= n <= 0x1f) || n == 0x85))
    || (f == Js && n == 0xfeff)
  }

  /** Visible ASCII characters (`!` to `~`) are not whitespace in either flavour. */
  lemma VisibleNotSpace(f: Flavor, s: string)
    requires forall i :: 0 <= i < |s| ==> '!' <= s[i] <= '~'
    ensures forall i :: 0 <= i < |s| ==> !IsSpace(f, s[i])
  {
  }

  /** Blanks are whitespace in either flavour. */
  lemma BlanksAllSpace(f: Flavor, s: string)
    requires forall i :: 0 <= i < |s| ==> s[i] == ' '
    ensures AllSpace(f, s)
  {
  }

  predicate AllSpace(f: Flavor, s: string)
  {
    forall i :: 0 <= i < |s| ==> IsSpace(f, s[i])
  }

  /** A string with no whitespace at either end. */
  predicate IsStripped(f: Flavor, s: string)
  {
    s == [] || (!IsSpace(f, s[0]) && !IsSpace(f, s[|s| - 1]))
  }

  /** Leading whitespace removed (Python `lstrip()`). */
  function LStrip(f: Flavor, s: string): (r: string)
    ensures |r| <= |s|
    ensures r == [] || !IsSpace(f, r[0])
  {
    if |s| > 0 && IsSpace(f, s[0]) then LStrip(f, s[1..]) else s
  }

  /** `LStrip` keeps a suffix of its input. */
  lemma {:induction false} LStripSuffix(f: Flavor, s: string)
    ensures LStrip(f, s) == s[|s| - |LStrip(f, s)|..]
    decreases |s|
  {
    if |s| > 0 && IsSpace(f, s[0]) {
      LStripSuffix(f, s[1..]);
      assert s[1..][|s| - 1 - |LStrip(f, s)|..] == s[|s| - |LStrip(f, s)|..];
    }
  }

  /** Trailing whitespace removed (Python `rstrip()`). */
  function RStrip(f: Flavor, s: string): (r: string)
    ensures |r| <= |s|
    ensures r == [] || !IsSpace(f, r[|r| - 1])
  {
    if |s| > 0 && IsSpace(f, s[|s| - 1]) then RStrip(f, s[..|s| - 1]) else s
  }

  /** `RStrip` keeps a prefix of its input. */
  lemma {:induction false} RStripPrefix(f: Flavor, s: string)
    ensures RStrip(f, s) == s[..|RStrip(f, s)|]
    decreases |s|
  {
    if |s| > 0 && IsSpace(f, s[|s| - 1]) {
      RStripPrefix(f, s[..|s| - 1]);
      assert s[..|s| - 1][..|RStrip(f, s)|] == s[..|RStrip(f, s)|];
    }
  }

  /** `LStrip` drops only whitespace. */
  lemma {:induction false} LStripDropsSpace(f: Flavor, s: string)
    ensures AllSpace(f, s[..|s| - |LStrip(f, s)|])
    decreases |s|
  {
    if |s| > 0 && IsSpace(f, s[0]) {
      var t := s[1..];
      LStripDropsSpace(f, t);
      var k := |s| - |LStrip(f, s)|;
      assert LStrip(f, s) == LStrip(f, t);
      assert k - 1 == |t| - |LStrip(f, t)|;
      forall i | 0 <= i < k ensures IsSpace(f, s[..k][i]) {
        if i > 0 { assert s[..k][i] == t[..k - 1][i - 1]; }
      }
    }
  }

  /** `RStrip` drops only whitespace. */
  lemma {:induction false} RStripDropsSpace(f: Flavor, s: string)
    ensures AllSpace(f, s[|RStrip(f, s)|..])
    decreases |s|
  {
    if |s| > 0 && IsSpace(f, s[|s| - 1]) {
      var s' := s[..|s| - 1];
      RStripDropsSpace(f, s');
      var k := |RStrip(f, s)|;
      forall i | 0 <= i < |s| - k ensures IsSpace(f, s[k..][i]) {
        if k + i < |s| - 1 { assert s[k..][i] == s'[k..][i]; }
      }
    }
  }

  /** Python `str.strip()` / JavaScript `String.prototype.trim()`. */
  function Strip(f: Flavor, s: string): (r: string)
    ensures IsStripped(f, r)
    ensures |r| <= |s|
  {
    var l := LStrip(f, s);
    RStripPrefix(f, l);
    RStrip(f, l)
  }

  /** Every character `Strip` keeps comes from its input. */
  lemma StripChars(f: Flavor, s: string)
    ensures forall c :: c in Strip(f, s) ==> c in s
  {
    var l := LStrip(f, s);
    var r := Strip(f, s);
    var i := |s| - |l|;
    LStripSuffix(f, s);
    RStripPrefix(f, l);
    assert r == s[i..i + |r|];
    forall c | c in r ensures c in s {
      var j :| 0 <= j < |r| && r[j] == c;
      assert s[i + j] == c;
    }
  }

  lemma {:induction false} LStripOfStripped(f: Flavor, s: string)
    requires s == [] || !IsSpace(f, s[0])
    ensures LStrip(f, s) == s
  {
  }

  lemma {:induction false} RStripOfStripped(f: Flavor, s: string)
    requires s == [] || !IsSpace(f, s[|s| - 1])
    ensures RStrip(f, s) == s
  {
  }

  /** Stripping a stripped string changes nothing; in particular `Strip` is idempotent. */
  lemma StripOfStripped(f: Flavor, s: string)
    requires IsStripped(f, s)
    ensures Strip(f, s) == s
  {
    LStripOfStripped(f, s);
    RStripOfStripped(f, s);
  }

  lemma StripIdempotent(f: Flavor, s: string)
    ensures Strip(f, Strip(f, s)) == Strip(f, s)
  {
    StripOfStripped(f, Strip(f, s));
  }

  lemma {:induction false} LStripAllSpace(f: Flavor, s: string)
    requires AllSpace(f, s)
    ensures LStrip(f, s) == []
    decreases |s|
  {
    if |s| > 0 {
      LStripAllSpace(f, s[1..]);
    }
  }

  lemma {:induction false} RStripAllSpace(f: Flavor, s: string)
    requires AllSpace(f, s)
    ensures RStrip(f, s) == []
    decreases |s|
  {
    if |s| > 0 {
      RStripAllSpace(f, s[..|s| - 1]);
    }
  }

  lemma StripAllSpace(f: Flavor, s: string)
    requires AllSpace(f, s)
    ensures Strip(f, s) == []
  {
    LStripAllSpace(f, s);
  }

  /** Leading whitespace of a concatenation whose first part is all whitespace. */
  lemma {:induction false} LStripAppendSpace(f: Flavor, a: string, b: string)
    requires AllSpace(f, a)
    ensures LStrip(f, a + b) == LStrip(f, b)
    decreases |a|
  {
    if |a| == 0 {
      assert a + b == b;
    } else {
      assert (a + b)[1..] == a[1..] + b;
      LStripAppendSpace(f, a[1..], b);
    }
  }

  /** Leading whitespace of a concatenation whose first part has a non-space character. */
  lemma {:induction false} LStripAppendText(f: Flavor, a: string, b: string)
    requires !AllSpace(f, a)
    ensures LStrip(f, a + b) == LStrip(f, a) + b
    decreases |a|
  {
    if IsSpace(f, a[0]) {
      assert (a + b)[1..] == a[1..] + b;
      LStripAppendText(f, a[1..], b);
    } else {
      assert (a + b)[0] == a[0];
    }
  }

  lemma LStripAppend(f: Flavor, a: string, b: string)
    ensures AllSpace(f, a) ==> LStrip(f, a + b) == LStrip(f, b)
    ensures !AllSpace(f, a) ==> LStrip(f, a + b) == LStrip(f, a) + b
  {
    if AllSpace(f, a) { LStripAppendSpace(f, a, b); } else { LStripAppendText(f, a, b); }
  }

  /** Trailing whitespace of a concatenation: the second part's when it has a non-space character. */
  lemma {:induction false} RStripAppendSpace(f: Flavor, a: string, b: string)
    requires AllSpace(f, b)
    ensures RStrip(f, a + b) == RStrip(f, a)
    decreases |b|
  {
    if |b| == 0 {
      assert a + b == a;
    } else {
      assert (a + b)[..|a + b| - 1] == a + b[..|b| - 1];
      RStripAppendSpace(f, a, b[..|b| - 1]);
    }
  }

  lemma {:induction false} RStripAppendText(f: Flavor, a: string, b: string)
    requires !AllSpace(f, b)
    ensures RStrip(f, a + b) == a + RStrip(f, b)
    decreases |b|
  {
    if IsSpace(f, b[|b| - 1]) {
      assert (a + b)[..|a + b| - 1] == a + b[..|b| - 1];
      assert !AllSpace(f, b[..|b| - 1]);
      RStripAppendText(f, a, b[..|b| - 1]);
    } else {
      assert (a + b)[|a + b| - 1] == b[|b| - 1];
    }
  }

  lemma RStripAppend(f: Flavor, a: string, b: string)
    ensures AllSpace(f, b) ==> RStrip(f, a + b) == RStrip(f, a)
    ensures !AllSpace(f, b) ==> RStrip(f, a + b) == a + RStrip(f, b)
  {
    if AllSpace(f, b) { RStripAppendSpace(f, a, b); } else { RStripAppendText(f, a, b); }
  }

  /** Whitespace padding on either side does not survive `Strip`. */
  lemma StripPadded(f: Flavor, pre: string, s: string, post: string)
    requires AllSpace(f, pre) && AllSpace(f, post)
    ensures Strip(f, pre + s + post) == Strip(f, s)
  {
    LStripAppend(f, pre, s + post);
    assert pre + s + post == pre + (s + post);
    LStripAppend(f, s, post);
    if AllSpace(f, s) {
      LStripAllSpace(f, post);
      LStripAllSpace(f, s);
      assert AllSpace(f, s + post);
      LStripAllSpace(f, s + post);
    } else {
      var l := LStrip(f, s);
      RStripAppend(f, l, post);
    }
  }

  /** ASCII lower-casing of one character (the part of `lower()`/`toLowerCase()` this model covers). */
  function LowerChar(c: char): (r: char)
    ensures ('A' <= c <= 'Z') ==> r as int == c as int + 32
    ensures !('A' <= c <= 'Z') ==> r == c
  {
    if 'A' <= c <= 'Z' then (c as int + 32) as char else c
  }

  function Lower(s: string): (r: string)
    ensures |r| == |s|
    ensures forall i :: 0 <= i < |s| ==> r[i] == LowerChar(s[i])
  {
    if |s| == 0 then [] else [LowerChar(s[0])] + Lower(s[1..])
  }

  /** Text without upper-case letters is its own lower case. */
  lemma LowerNoUpper(s: string)
    requires forall i :: 0 <= i < |s| ==> !('A' <= s[i] <= 'Z')
    ensures Lower(s) == s
  {
    assert forall i :: 0 <= i < |s| ==> Lower(s)[i] == s[i];
  }

  lemma LowerKeepsSpace(f: Flavor, c: char)
    ensures IsSpace(f, LowerChar(c)) <==> IsSpace(f, c)
  {
  }

  /** `pat` occurs in `s` starting at index `i`. */
  predicate OccursAt(s: string, pat: string, i: int)
  {
    0 <= i && i + |pat| <= |s| && s[i..i + |pat|] == pat
  }

  /** Python `pat in s` / JavaScript `s.includes(pat)`. */
  predicate Contains(s: string, pat: string)
  {
    exists i :: 0 <= i <= |s| && OccursAt(s, pat, i)
  }

  /** The first occurrence of `pat` in `s` at or after `from` (Python `s.find(pat, from)`). */
  function FindFrom(s: string, pat: string, from: nat): (r: Option<nat>)
    ensures r.Some? ==> from <= r.value && OccursAt(s, pat, r.value)
    ensures r.Some? ==> forall j :: from <= j < r.value ==> !OccursAt(s, pat, j)
    ensures r.None? ==> forall j :: from <= j ==> !OccursAt(s, pat, j)
    decreases |s| - from
  {
    if from + |pat| > |s| then None
    else if OccursAt(s, pat, from) then Some(from)
    else FindFrom(s, pat, from + 1)
  }

  function Find(s: string, pat: string): (r: Option<nat>)
    ensures r.Some? ==> OccursAt(s, pat, r.value) && forall j :: 0 <= j < r.value ==> !OccursAt(s, pat, j)
    ensures r.None? <==> !Contains(s, pat)
  {
    FindFrom(s, pat, 0)
  }

  /** The last occurrence of `pat` in `s` that starts below `bound`. */
  function FindLastBelow(s: string, pat: string, bound: nat): (r: Option<nat>)
    ensures r.Some? ==> r.value < bound && OccursAt(s, pat, r.value)
    ensures r.Some? ==> forall j :: r.value < j < bound ==> !OccursAt(s, pat, j)
    ensures r.None? ==> forall j :: j < bound ==> !OccursAt(s, pat, j)
  {
    if bound == 0 then None
    else if OccursAt(s, pat, bound - 1) then Some(bound - 1)
    else FindLastBelow(s, pat, bound - 1)
  }

  /** Python `s.rfind(pat)` / JavaScript `s.lastIndexOf(pat)`. */
  function FindLast(s: string, pat: string): (r: Option<nat>)
    ensures r.Some? ==> OccursAt(s, pat, r.value) && forall j :: r.value < j ==> !OccursAt(s, pat, j)
    ensures r.None? <==> !Contains(s, pat)
  {
    FindLastBelow(s, pat, |s| + 1)
  }

  /** An occurrence with none after it is the one `FindLast` returns. */
  lemma FindLastAt(s: string, pat: string, i: nat)
    requires OccursAt(s, pat, i) && forall j :: i < j ==> !OccursAt(s, pat, j)
    ensures FindLast(s, pat) == Some(i)
  {
  }

  /** The first index of a character (Python `s.find(c)`, JavaScript `s.indexOf(c)`). */
  function IndexOfChar(s: string, c: char): (r: Option<nat>)
    ensures r.Some? ==> r.value < |s| && s[r.value] == c && c !in s[..r.value]
    ensures r.None? <==> c !in s
  {
    if |s| == 0 then None
    else if s[0] == c then Some(0)
    else match IndexOfChar(s[1..], c)
      case None => None
      case Some(j) =>
        assert s[..j + 1] == [s[0]] + s[1..][..j];
        Some(j + 1)
  }

  lemma IndexOfCharUnique(s: string, c: char, i: nat)
    requires i < |s| && s[i] == c && c !in s[..i]
    ensures IndexOfChar(s, c) == Some(i)
  {
    var j := IndexOfChar(s, c).value;
    assert forall k :: 0 <= k < i ==> s[k] == s[..i][k];
    assert forall k :: 0 <= k < j ==> s[k] == s[..j][k];
  }

  /** The last index of a character (Python `s.rfind(c)`, JavaScript `s.lastIndexOf(c)`). */
  function LastIndexOfChar<T(==)>(s: seq<T>, c: T): (r: Option<nat>)
    ensures r.Some? ==> r.value < |s| && s[r.value] == c && c !in s[r.value + 1..]
    ensures r.None? <==> c !in s
  {
    if |s| == 0 then None
    else if s[|s| - 1] == c then Some(|s| - 1)
    else
      var r := LastIndexOfChar(s[..|s| - 1], c);
      assert r.Some? ==> s[r.value + 1..] == s[..|s| - 1][r.value + 1..] + [s[|s| - 1]];
      assert r.None? ==> s == s[..|s| - 1] + [s[|s| - 1]];
      r
  }

  lemma {:induction false} LastIndexOfCharUnique<T>(s: seq<T>, c: T, i: nat)
    requires i < |s| && s[i] == c && c !in s[i + 1..]
    ensures LastIndexOfChar(s, c) == Some(i)
    decreases |s|
  {
    if i < |s| - 1 {
      assert s[|s| - 1] in s[i + 1..];
      assert s[..|s| - 1][i + 1..] == s[i + 1..|s| - 1];
      assert s[i + 1..] == s[i + 1..|s| - 1] + [s[|s| - 1]];
      LastIndexOfCharUnique(s[..|s| - 1], c, i);
    }
  }

  /**
   * Python `s.rsplit(c, 1)` when it yields two parts, JavaScript `s.slice(0, s.lastIndexOf(c))` and
   * `s.slice(s.lastIndexOf(c) + 1)`: the text before and after the last `c`.
   */
  function SplitAtLast<T(==)>(s: seq<T>, c: T): (r: Option<(seq<T>, seq<T>)>)
    ensures r.None? <==> c !in s
    ensures r.Some? ==> r.value.0 + [c] + r.value.1 == s && c !in r.value.1
  {
    match LastIndexOfChar(s, c)
    case None => None
    case Some(p) =>
      assert s[..p] + [c] + s[p + 1..] == s;
      Some((s[..p], s[p + 1..]))
  }

  /** The split at the last `c` is the only one whose right part has no `c`. */
  lemma SplitAtLastOf<T>(a: seq<T>, c: T, b: seq<T>)
    requires c !in b
    ensures SplitAtLast(a + [c] + b, c) == Some((a, b))
  {
    var s := a + [c] + b;
    assert s[|a| + 1..] == b;
    LastIndexOfCharUnique(s, c, |a|);
    assert s[..|a|] == a;
  }

  /** The text after the last `c`, or all of `s` when it has none. */
  function AfterLast<T(==)>(s: seq<T>, c: T): (r: seq<T>)
    ensures c !in r
    ensures c !in s ==> r == s
    ensures c in s ==> exists i :: 0 <= i < |s| && s == s[..i] + [c] + r
  {
    match SplitAtLast(s, c)
    case None => s
    case Some((before, after)) =>
      assert s == before + [c] + after;
      assert s[..|before|] == before;
      after
  }

  /** Number of occurrences of one character. */
  function Count(s: string, c: char): (n: nat)
    ensures n <= |s|
    ensures n == 0 <==> c !in s
  {
    if |s| == 0 then 0 else (if s[0] == c then 1 else 0) + Count(s[1..], c)
  }

  lemma {:induction false} CountAppend(a: string, b: string, c: char)
    ensures Count(a + b, c) == Count(a, c) + Count(b, c)
    decreases |a|
  {
    if |a| == 0 {
      assert a + b == b;
    } else {
      assert (a + b)[1..] == a[1..] + b;
      CountAppend(a[1..], b, c);
    }
  }

  /** Parts joined with a separator (Python `sep.join(parts)`, JavaScript `parts.join(sep)`). */
  function Join(sep: string, parts: seq<string>): string
  {
    if |parts| == 0 then "" else if |parts| == 1 then parts[0] else parts[0] + sep + Join(sep, parts[1..])
  }

  /** Regrouping a concatenation of four pieces. */
  lemma AppendRegroup(a: string, b: string, c: string, d: string)
    ensures a + b + c + d == a + (b + c + d)
  {
  }

  /** Regrouping the last two of four concatenated pieces. */
  lemma AppendRegroupTail<T>(a: seq<T>, b: seq<T>, c: seq<T>, d: seq<T>)
    ensures a + b + (c + d) == a + b + c + d
  {
  }

  lemma ConsAppend<T>(s: seq<T>, x: T)
    requires |s| > 0
    ensures s + [x] == [s[0]] + (s[1..] + [x])
  {
  }

  lemma {:induction false} JoinAppend(sep: string, parts: seq<string>, last: string)
    requires |parts| > 0
    ensures Join(sep, parts + [last]) == Join(sep, parts) + sep + last
    decreases |parts|
  {
    if |parts| == 1 {
      assert parts + [last] == [parts[0], last];
    } else {
      assert (parts + [last])[1..] == parts[1..] + [last];
      JoinAppend(sep, parts[1..], last);
    }
  }

  /** A character in neither the parts nor the separator is not in their join. */
  lemma {:induction false} JoinAvoids(sep: string, parts: seq<string>, c: char)
    requires c !in sep && forall k :: 0 <= k < |parts| ==> c !in parts[k]
    ensures c !in Join(sep, parts)
    decreases |parts|
  {
    if |parts| > 1 {
      JoinAvoids(sep, parts[1..], c);
    }
  }

  /** Python `s.split(c)` / JavaScript `s.split(c)` for a one-character separator. */
  function Split(s: string, c: char): (r: seq<string>)
    ensures |r| >= 1
    ensures forall k :: 0 <= k < |r| ==> c !in r[k]
  {
    if |s| == 0 then [""]
    else
      var rest := Split(s[1..], c);
      if s[0] == c then [""] + rest else [[s[0]] + rest[0]] + rest[1..]
  }

  /** Splitting and re-joining at the same character gives the string back. */
  lemma {:induction false} JoinSplit(s: string, c: char)
    ensures Join([c], Split(s, c)) == s
    ensures |Split(s, c)| == Count(s, c) + 1
    decreases |s|
  {
    if |s| > 0 {
      JoinSplit(s[1..], c);
      var rest := Split(s[1..], c);
      if s[0] == c {
        assert s == [c] + s[1..];
      } else if |rest| == 1 {
        assert s == [s[0]] + s[1..];
      } else {
        assert ([[s[0]] + rest[0]] + rest[1..])[1..] == rest[1..];
        assert s == [s[0]] + s[1..];
      }
    }
  }

  /** Joining parts whose first part is not empty starts with that part's first character. */
  lemma JoinFirstChar(parts: seq<string>, c: char)
    requires |parts| >= 1 && |parts[0]| > 0
    ensures Join([c], parts) == [parts[0][0]] + Join([c], [parts[0][1..]] + parts[1..])
  {
    var p := parts[0];
    var tail := [p[1..]] + parts[1..];
    assert p == [p[0]] + p[1..];
    if |parts| > 1 {
      assert tail[1..] == parts[1..];
      var rest := Join([c], parts[1..]);
      assert Join([c], tail) == p[1..] + [c] + rest;
      AppendRegroup([p[0]], p[1..], [c], rest);
    }
  }

  /** Joining parts whose first part is empty starts with the separator. */
  lemma JoinEmptyFirst(parts: seq<string>, c: char)
    requires |parts| > 1 && parts[0] == ""
    ensures Join([c], parts) == [c] + Join([c], parts[1..])
  {
  }

  /** A character other than the separator extends the first part of the split. */
  lemma SplitCons(x: char, s: string, c: char)
    requires x != c
    ensures Split([x] + s, c) == [[x] + Split(s, c)[0]] + Split(s, c)[1..]
  {
    assert ([x] + s)[1..] == s;
  }

  /** The separator in front starts the split with an empty part. */
  lemma SplitSep(s: string, c: char)
    ensures Split([c] + s, c) == [""] + Split(s, c)
  {
    assert ([c] + s)[1..] == s;
  }

  /** Joining parts that do not contain the separator character and splitting again gives the parts back. */
  lemma {:induction false} SplitJoin(parts: seq<string>, c: char)
    requires |parts| >= 1
    requires forall k :: 0 <= k < |parts| ==> c !in parts[k]
    ensures Split(Join([c], parts), c) == parts
    decreases |parts|, |parts[0]|
  {
    if |parts[0]| > 0 {
      var p := parts[0];
      var tail := [p[1..]] + parts[1..];
      JoinFirstChar(parts, c);
      assert p[0] in p;
      SplitJoin(tail, c);
      SplitCons(p[0], Join([c], tail), c);
      assert [p[0]] + p[1..] == p;
      assert tail[1..] == parts[1..];
      assert parts == [p] + parts[1..];
    } else if |parts| > 1 {
      JoinEmptyFirst(parts, c);
      SplitJoin(parts[1..], c);
      SplitSep(Join([c], parts[1..]), c);
      assert parts == [""] + parts[1..];
    }
  }

  /** Without the separator, the split is the whole text. */
  lemma SplitAbsent(s: string, c: char)
    requires c !in s
    ensures Split(s, c) == [s]
  {
    JoinSplit(s, c);
  }

  /**
   * With the separator, the last part of a split is the text after the last separator and the
   * other parts joined again are the text before it (JavaScript `split(c).pop()` and
   * `split(c).slice(0, -1).join(c)`).
   */
  lemma SplitLast(s: string, c: char)
    requires c in s
    ensures var parts := Split(s, c);
            SplitAtLast(s, c) == Some((Join([c], parts[..|parts| - 1]), parts[|parts| - 1]))
  {
    var parts := Split(s, c);
    var k := |parts|;
    JoinSplit(s, c);
    var init, last := parts[..k - 1], parts[k - 1];
    assert s == Join([c], init) + [c] + last by {
      assert parts == init + [last];
      JoinAppend([c], init, last);
    }
    SplitAtLastOf(Join([c], init), c, last);
  }

  /** The first part of a split is the text before the first separator, or the whole text without one. */
  lemma {:induction false} SplitHead(s: string, c: char)
    ensures c !in s ==> Split(s, c)[0] == s
    ensures c in s ==> Split(s, c)[0] == s[..IndexOfChar(s, c).value]
    decreases |s|
  {
    if |s| > 0 && s[0] != c {
      SplitHead(s[1..], c);
      assert s == [s[0]] + s[1..];
      if c in s {
        assert c in s[1..];
        var j := IndexOfChar(s[1..], c).value;
        assert s[..j + 1] == [s[0]] + s[1..][..j];
      }
    }
  }

  /** Every occurrence of `a` replaced by `b` (JavaScript `s.replace(/a/g, b)`). */
  function ReplaceChar(s: string, a: char, b: char): (r: string)
    ensures |r| == |s|
    ensures forall i :: 0 <= i < |s| ==> r[i] == (if s[i] == a then b else s[i])
  {
    if |s| == 0 then [] else [if s[0] == a then b else s[0]] + ReplaceChar(s[1..], a, b)
  }

  /** Every occurrence of `c` removed (Python `s.replace(c, '')`). */
  function RemoveChar(s: string, c: char): (r: string)
    ensures c !in r
    ensures |r| == |s| - Count(s, c)
  {
    if |s| == 0 then [] else (if s[0] == c then [] else [s[0]]) + RemoveChar(s[1..], c)
  }

  lemma {:induction false} RemoveCharAbsent(s: string, c: char)
    requires c !in s
    ensures RemoveChar(s, c) == s
    decreases |s|
  {
    if |s| > 0 {
      RemoveCharAbsent(s[1..], c);
    }
  }

  predicate IsDigit(c: char)
  {
    '0' <= c <= '9'
  }

  /** Python `str(n)` for a non-negative integer. */
  function Decimal(n: nat): (r: string)
    ensures |r| >= 1
    ensures forall i :: 0 <= i < |r| ==> IsDigit(r[i])
  {
    if n < 10 then [('0' as int + n) as char] else Decimal(n / 10) + [('0' as int + n % 10) as char]
  }

  /** JavaScript `String(n)` for a non-negative integer is the same text. */
  lemma DecimalNoSeparators(n: nat)
    ensures '.' !in Decimal(n) && '/' !in Decimal(n) && '_' !in Decimal(n)
  {
    var d := Decimal(n);
    assert forall c :: c in d ==> IsDigit(c);
  }

  // ---------------------------------------------------------------------------------------------
  // JavaScript strings: UTF-16 code units
  // ---------------------------------------------------------------------------------------------

  /** A UTF-16 code unit, the element of a JavaScript string. */
  newtype CodeUnit = x: int | 0 <= x < 0x1_0000

  /** JavaScript `s.length`: UTF-16 code units, two for a character outside the Basic Multilingual Plane. */
  function JsLength(s: string): (n: nat)
    ensures |s| <= n <= 2 * |s|
  {
    if s == [] then 0 else (if s[0] as int >= 0x10000 then 2 else 1) + JsLength(s[1..])
  }

  /** The UTF-16 encoding of one character: itself inside the Basic Multilingual Plane, else a surrogate pair. */
  function Utf16Char(c: char): (r: seq<CodeUnit>)
    ensures (c as int) < 0x10000 ==> r == [c as int as CodeUnit]
    ensures (c as int) >= 0x10000 ==> |r| == 2 && 0xD800 <= r[0] < 0xDC00 && 0xDC00 <= r[1] < 0xE000
  {
    if (c as int) < 0x10000 then [c as int as CodeUnit]
    else
      var v := c as int - 0x10000;
      [(0xD800 + v / 0x400) as CodeUnit, (0xDC00 + v % 0x400) as CodeUnit]
  }

  /** The code units a JavaScript string holds for a text, as many as its `length`. */
  function Utf16(s: string): (r: seq<CodeUnit>)
    ensures |r| == JsLength(s)
  {
    if s == [] then [] else Utf16Char(s[0]) + Utf16(s[1..])
  }

  /** Encoding is done character by character, so it distributes over concatenation. */
  lemma {:induction false} Utf16Append(a: string, b: string)
    ensures Utf16(a + b) == Utf16(a) + Utf16(b)
    decreases |a|
  {
    if a != [] {
      assert (a + b)[1..] == a[1..] + b;
      Utf16Append(a[1..], b);
    } else {
      assert a + b == b;
    }
  }
}
