/**
 * The administrator's guideline editor: guidelines are edited locally as a header with a list of
 * points, and saving replaces every stored guideline by the local list, each body being the points
 * joined by line breaks.
 */
module GuidelinesEditor {
  import opened Common
  import opened Text
  import opened Lists

  /** A guideline as the editor holds it. */
  datatype Guideline = Guideline(header: string, points: seq<string>)

  /** A guideline as the guidelines endpoint returns it. */
  datatype StoredGuideline = StoredGuideline(header: string, body: string)

  /** The requests `saveGuidelines` sends. */
  datatype Request = DeleteAll | Post(header: string, body: string)

  const Newline: char := '\n'

  /** A point the editor keeps when reading a body back: it is not blank after `trim`. */
  predicate NonBlank(point: string)
  {
    Strip(Js, point) != ""
  }

  /** A point that survives a save and a fetch unchanged. */
  predicate PlainPoint(point: string)
  {
    NonBlank(point) && Newline !in point
  }

  /** `points.filter(point => point.trim() !== "")`. */
  function KeepNonBlank(points: seq<string>): (r: seq<string>)
    ensures |r| <= |points|
    ensures forall k :: 0 <= k < |r| ==> NonBlank(r[k]) && r[k] in points
  {
    if points == [] then []
    else (if NonBlank(points[0]) then [points[0]] else []) + KeepNonBlank(points[1..])
  }

  /** The points of a fetched body: its lines that are not blank. */
  function PointsOf(body: string): (r: seq<string>)
    ensures forall k :: 0 <= k < |r| ==> PlainPoint(r[k])
  {
    KeepNonBlank(Split(body, Newline))
  }

  /** The body saved for a list of points. */
  function BodyOf(points: seq<string>): string
  {
    Join([Newline], points)
  }

  function Format(stored: StoredGuideline): Guideline
  {
    Guideline(stored.header, PointsOf(stored.body))
  }

  /** `data.guidelines.map(...)`. */
  function FormatAll(stored: seq<StoredGuideline>): (r: seq<Guideline>)
    ensures |r| == |stored|
    ensures forall k :: 0 <= k < |r| ==> r[k] == Format(stored[k])
  {
    seq(|stored|, k requires 0 <= k < |stored| => Format(stored[k]))
  }

  lemma {:induction false} KeepNonBlankAll(points: seq<string>)
    requires forall k :: 0 <= k < |points| ==> NonBlank(points[k])
    ensures KeepNonBlank(points) == points
    decreases |points|
  {
    if points != [] {
      assert NonBlank(points[0]);
      KeepNonBlankAll(points[1..]);
    }
  }

  /** Points that are not blank and hold no line break come back unchanged from their saved body. */
  lemma PointsOfBody(points: seq<string>)
    requires forall k :: 0 <= k < |points| ==> PlainPoint(points[k])
    ensures PointsOf(BodyOf(points)) == points
  {
    if points == [] {
      assert Split("", Newline) == [""];
      assert !NonBlank("");
    } else {
      SplitJoin(points, Newline);
      KeepNonBlankAll(points);
    }
  }

  /** Reading a body back is a normal form: saving what was read and reading it again changes nothing. */
  lemma PointsOfIdempotent(body: string)
    ensures PointsOf(BodyOf(PointsOf(body))) == PointsOf(body)
  {
    PointsOfBody(PointsOf(body));
  }

  /** The requests of `saveGuidelines`: the DELETE first, then one POST per guideline. */
  function SaveRequests(guidelines: seq<Guideline>): (r: seq<Request>)
    ensures |r| == |guidelines| + 1 && r[0] == DeleteAll
    ensures forall k :: 0 <= k < |guidelines| ==>
              r[k + 1] == Post(guidelines[k].header, BodyOf(guidelines[k].points))
  {
    [DeleteAll] + seq(|guidelines|, k requires 0 <= k < |guidelines| => Post(guidelines[k].header, BodyOf(guidelines[k].points)))
  }

  /** What a store holds once it has applied the requests in order. */
  function Stored(requests: seq<Request>): (r: seq<StoredGuideline>)
  {
    if requests == [] then []
    else
      var before := Stored(requests[..|requests| - 1]);
      match requests[|requests| - 1]
      case DeleteAll => []
      case Post(header, body) => before + [StoredGuideline(header, body)]
  }

  /** A POST at the end adds its guideline after what the earlier requests left. */
  lemma StoredAfterPost(requests: seq<Request>)
    requires |requests| > 0 && requests[|requests| - 1].Post?
    ensures var last := requests[|requests| - 1];
            Stored(requests) == Stored(requests[..|requests| - 1]) + [StoredGuideline(last.header, last.body)]
  {
  }

  /**
   * After the DELETE and the first `n` POSTs to arrive, the store holds the first `n` guidelines
   * of `guidelines`, here the list in the order the POSTs arrive, not necessarily the local order.
   */
  predicate HoldsFirst(guidelines: seq<Guideline>, n: nat)
    requires n <= |guidelines|
  {
    var stored := Stored(SaveRequests(guidelines)[..n + 1]);
    |stored| == n
    && forall k :: 0 <= k < n ==> stored[k] == StoredGuideline(guidelines[k].header, BodyOf(guidelines[k].points))
  }

  /** The DELETE alone leaves the store empty. */
  lemma HoldsNone(guidelines: seq<Guideline>)
    ensures HoldsFirst(guidelines, 0)
  {
    var first := SaveRequests(guidelines)[..1];
    assert first[0] == DeleteAll;
  }

  /** One more POST to arrive adds its guideline at the end. */
  lemma HoldsNext(guidelines: seq<Guideline>, n: nat)
    requires 0 < n <= |guidelines| && HoldsFirst(guidelines, n - 1)
    ensures HoldsFirst(guidelines, n)
  {
    var reqs := SaveRequests(guidelines);
    var prefix := reqs[..n + 1];
    assert prefix[..n] == reqs[..n];
    var g := guidelines[n - 1];
    assert prefix[n] == Post(g.header, BodyOf(g.points));
    StoredAfterPost(prefix);
    var before := Stored(reqs[..n]);
    var stored := before + [StoredGuideline(g.header, BodyOf(g.points))];
    assert Stored(prefix) == stored;
    forall k | 0 <= k < n
      ensures stored[k] == StoredGuideline(guidelines[k].header, BodyOf(guidelines[k].points))
    {
      if k < n - 1 {
        assert stored[k] == before[k];
      }
    }
  }

  lemma {:induction false} StoredPosts(guidelines: seq<Guideline>, n: nat)
    requires n <= |guidelines|
    ensures HoldsFirst(guidelines, n)
    decreases n
  {
    if n > 0 {
      StoredPosts(guidelines, n - 1);
      HoldsNext(guidelines, n);
    } else {
      HoldsNone(guidelines);
    }
  }

  /** Every point of every guideline is non-blank and free of line breaks. */
  predicate PlainPoints(guidelines: seq<Guideline>)
  {
    forall k, j :: 0 <= k < |guidelines| && 0 <= j < |guidelines[k].points| ==> PlainPoint(guidelines[k].points[j])
  }

  /** A store that receives the DELETE and then the POSTs of `arrived` in that order gives `arrived` back. */
  lemma SaveInOrderThenFetch(arrived: seq<Guideline>)
    requires PlainPoints(arrived)
    ensures FormatAll(Stored(SaveRequests(arrived))) == arrived
  {
    var reqs := SaveRequests(arrived);
    StoredPosts(arrived, |arrived|);
    assert reqs[..|arrived| + 1] == reqs;
    var fetched := FormatAll(Stored(reqs));
    forall k | 0 <= k < |arrived|
      ensures fetched[k] == arrived[k]
    {
      PointsOfBody(arrived[k].points);
    }
  }

  /**
   * Saving and then fetching. The DELETE is awaited first; the POSTs, fired together and awaited
   * with `Promise.all`, reach the store in some order `arrived`, one per local guideline. The fetch
   * gives back the guidelines in that arrival order: every local guideline, as often as it was
   * saved, as long as every point is non-blank and free of line breaks. The local order comes
   * back only when the POSTs arrive in it.
   */
  lemma SaveThenFetch(guidelines: seq<Guideline>, arrived: seq<Guideline>)
    requires PlainPoints(guidelines)
    requires multiset(arrived) == multiset(guidelines)
    ensures FormatAll(Stored(SaveRequests(arrived))) == arrived
    ensures multiset(FormatAll(Stored(SaveRequests(arrived)))) == multiset(guidelines)
  {
    forall k, j | 0 <= k < |arrived| && 0 <= j < |arrived[k].points|
      ensures PlainPoint(arrived[k].points[j])
    {
      assert arrived[k] in multiset(arrived);
      var i :| 0 <= i < |guidelines| && guidelines[i] == arrived[k];
    }
    SaveInOrderThenFetch(arrived);
  }

  /** Two different guidelines whose POSTs arrive swapped come back swapped: the save does not keep the local order. */
  lemma SwappedArrival(a: Guideline, b: Guideline)
    requires a != b && PlainPoints([a, b])
    ensures FormatAll(Stored(SaveRequests([b, a]))) == [b, a] != [a, b]
  {
    SaveThenFetch([a, b], [b, a]);
  }

  /** An empty form: no header and one empty point. */
  const EmptyForm := Guideline("", [""])

  /** The `Guidelines` page with its state. */
  class GuidelinesPage {
    var guidelines: seq<Guideline>
    var currentGuideline: Guideline
    var editingIndex: Option<int>

    constructor()
      ensures guidelines == [] && currentGuideline == EmptyForm && editingIndex == None
    {
      guidelines := [];
      currentGuideline := EmptyForm;
      editingIndex := None;
    }

    /** The end of `fetchGuidelines`: an OK response replaces the list; a failed one changes nothing. */
    method Fetched(response: Option<seq<StoredGuideline>>)
      modifies this
      ensures guidelines == if response.Some? then FormatAll(response.value) else old(guidelines)
      ensures currentGuideline == old(currentGuideline) && editingIndex == old(editingIndex)
    {
      if response.Some? {
        guidelines := FormatAll(response.value);
      }
    }

    method HandleHeaderChange(value: string)
      modifies this
      ensures currentGuideline == old(currentGuideline).(header := value)
      ensures guidelines == old(guidelines) && editingIndex == old(editingIndex)
    {
      currentGuideline := currentGuideline.(header := value);
    }

    /** `handlePointChange`: only the point at `index` changes. */
    method HandlePointChange(index: int, value: string)
      requires 0 <= index < |currentGuideline.points|
      modifies this
      ensures currentGuideline.header == old(currentGuideline.header)
      ensures currentGuideline.points == old(currentGuideline.points)[index := value]
      ensures guidelines == old(guidelines) && editingIndex == old(editingIndex)
    {
      var newPoints := currentGuideline.points;
      newPoints := newPoints[index := value];
      currentGuideline := currentGuideline.(points := newPoints);
    }

    /** `addPoint`: an empty point is appended. */
    method AddPoint()
      modifies this
      ensures currentGuideline == old(currentGuideline).(points := old(currentGuideline.points) + [""])
      ensures guidelines == old(guidelines) && editingIndex == old(editingIndex)
    {
      currentGuideline := currentGuideline.(points := currentGuideline.points + [""]);
    }

    /** `removePoint`: only the point at `index` goes. */
    method RemovePoint(index: int)
      modifies this
      ensures currentGuideline == old(currentGuideline).(points := RemoveAt(old(currentGuideline.points), index))
      ensures guidelines == old(guidelines) && editingIndex == old(editingIndex)
    {
      var newPoints := RemoveAt(currentGuideline.points, index);
      currentGuideline := currentGuideline.(points := newPoints);
    }

    /**
     * `addGuideline`: a blank header changes nothing; otherwise the form replaces the guideline at
     * the editing index (none, when that index is past the end) or is appended, and the form resets.
     */
    method AddGuideline()
      modifies this
      ensures Strip(Js, old(currentGuideline.header)) == "" ==>
                guidelines == old(guidelines) && currentGuideline == old(currentGuideline) && editingIndex == old(editingIndex)
      ensures Strip(Js, old(currentGuideline.header)) != "" ==>
                guidelines == (match old(editingIndex)
                               case Some(i) => ReplaceAt(old(guidelines), i, old(currentGuideline))
                               case None => old(guidelines) + [old(currentGuideline)])
                && currentGuideline == EmptyForm && editingIndex == None
    {
      if Strip(Js, currentGuideline.header) == "" {
        return;
      }
      var newGuidelines := if editingIndex.Some? then ReplaceAt(guidelines, editingIndex.value, currentGuideline)
                           else guidelines + [currentGuideline];
      guidelines := newGuidelines;
      currentGuideline := EmptyForm;
      editingIndex := None;
    }

    /** `editGuideline`: the guideline at `index` is loaded into the form. */
    method EditGuideline(index: int)
      requires 0 <= index < |guidelines|
      modifies this
      ensures currentGuideline == old(guidelines)[index] && editingIndex == Some(index)
      ensures guidelines == old(guidelines)
    {
      currentGuideline := guidelines[index];
      editingIndex := Some(index);
    }

    /** `removeGuideline`: only the guideline at `index` goes; the editing index is left as it was. */
    method RemoveGuideline(index: int)
      modifies this
      ensures guidelines == RemoveAt(old(guidelines), index)
      ensures currentGuideline == old(currentGuideline) && editingIndex == old(editingIndex)
    {
      guidelines := RemoveAt(guidelines, index);
    }

    /** `saveGuidelines`: the requests sent, the DELETE before every POST; the local list is not changed. */
    method SaveGuidelines() returns (requests: seq<Request>)
      ensures requests == SaveRequests(guidelines)
    {
      requests := SaveRequests(guidelines);
    }
  }

  /**
   * Removing a guideline before the one being edited shifts the list under the stale editing
   * index: the edited guideline moves to `i - 1` and is kept, and the update overwrites its
   * successor, or nothing at all when the edited guideline was the last one.
   */
  lemma StaleIndexAfterRemoval(guidelines: seq<Guideline>, j: nat, i: nat, form: Guideline)
    requires j < i < |guidelines|
    ensures var after := ReplaceAt(RemoveAt(guidelines, j), i, form);
            |after| == |guidelines| - 1 && after[i - 1] == guidelines[i]
            && (i + 1 < |guidelines| ==> after[i] == form)
            && (i + 1 == |guidelines| ==> after == RemoveAt(guidelines, j))
  {
  }
}
