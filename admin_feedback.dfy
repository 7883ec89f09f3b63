/**
 * The administrator's feedback page: feedback grouped by user role, the groups in the order
 * public, educator, admin and each group's entries newest first; clicking an entry opens its session.
 */
module AdminFeedback {
  import opened Common
  import opened Sorting

  /** One feedback entry; `time` is `new Date(feedback_time)` in milliseconds. */
  datatype Feedback = Feedback(feedbackId: string, sessionId: string, rating: int, description: Option<string>, time: int)

  /** One role's group; `details` is `None` when `feedback_details` is missing or not an array. */
  datatype RoleData = RoleData(userRole: string, details: Option<seq<Feedback>>)

  /** The session the page opens. */
  datatype SelectedSession = SelectedSession(sessionId: string, role: string)

  const RoleOrder: seq<string> := ["public", "educator", "admin"]

  /** `ROLE_ORDER.indexOf(role)`: the position in the role order, or -1 for any other role. */
  function RoleIndex(role: string): (r: int)
    ensures -1 <= r < |RoleOrder|
    ensures r >= 0 ==> RoleOrder[r] == role
    ensures r == -1 <==> role !in RoleOrder
  {
    if role == "public" then 0 else if role == "educator" then 1 else if role == "admin" then 2 else -1
  }

  function RoleKey(d: RoleData): int
  {
    RoleIndex(d.userRole)
  }

  /** The sort key of `(a, b) => new Date(b.feedback_time) - new Date(a.feedback_time)`. */
  function NewestFirst(f: Feedback): int
  {
    -f.time
  }

  /** A group with its entries sorted newest first, when it has an entry list. */
  function SortDetails(d: RoleData): (r: RoleData)
    ensures r.userRole == d.userRole && r.details.Some? == d.details.Some?
    ensures d.details.Some? ==> multiset(r.details.value) == multiset(d.details.value)
  {
    match d.details
    case None => d
    case Some(fs) => d.(details := Some(SortBy(fs, NewestFirst)))
  }

  function SortAllDetails(data: seq<RoleData>): (r: seq<RoleData>)
    ensures |r| == |data|
    ensures forall i :: 0 <= i < |r| ==> r[i] == SortDetails(data[i])
  {
    seq(|data|, i requires 0 <= i < |data| => SortDetails(data[i]))
  }

  /** `sortFeedbackByTimestamp`: a stable sort of the groups by role order, then each group's entries newest first. */
  function SortFeedback(data: seq<RoleData>): (r: seq<RoleData>)
    ensures |r| == |data|
  {
    SortAllDetails(SortBy(data, RoleKey))
  }

  /** The groups of role index `k`, in their original order. */
  function Group(data: seq<RoleData>, k: int): seq<RoleData>
  {
    WithKey(data, RoleKey, k)
  }

  /** The four role groups in order. */
  lemma GroupedRoles(data: seq<RoleData>)
    ensures Grouped(data, RoleKey, -1, 4) == ((Group(data, -1) + Group(data, 0)) + Group(data, 1)) + Group(data, 2)
  {
    var a, b, c, d := Group(data, -1), Group(data, 0), Group(data, 1), Group(data, 2);
    assert Grouped(data, RoleKey, 2, 1) == d + [];
    assert Grouped(data, RoleKey, 1, 2) == c + (d + []);
    assert Grouped(data, RoleKey, 0, 3) == b + (c + (d + []));
    assert Grouped(data, RoleKey, -1, 4) == a + (b + (c + (d + [])));
    assert a + (b + (c + (d + []))) == ((a + b) + c) + d;
  }

  lemma SortAllDetailsAppend(a: seq<RoleData>, b: seq<RoleData>)
    ensures SortAllDetails(a + b) == SortAllDetails(a) + SortAllDetails(b)
  {
  }

  /**
   * The page's order: the groups of unknown roles, then public, educator and admin, each set in
   * the order the server sent it, and every group's entry list sorted newest first.
   */
  lemma SortFeedbackOrder(data: seq<RoleData>)
    ensures SortFeedback(data) == SortAllDetails(Group(data, -1)) + SortAllDetails(Group(data, 0))
                                  + SortAllDetails(Group(data, 1)) + SortAllDetails(Group(data, 2))
  {
    var a, b, c, d := Group(data, -1), Group(data, 0), Group(data, 1), Group(data, 2);
    forall i | 0 <= i < |data| ensures -1 <= RoleKey(data[i]) < -1 + 4 { }
    assert SortBy(data, RoleKey) == ((a + b) + c) + d by {
      SortByIsGrouped(data, RoleKey, -1, 4);
      GroupedRoles(data);
    }
    SortAllDetailsAppend((a + b) + c, d);
    SortAllDetailsAppend(a + b, c);
    SortAllDetailsAppend(a, b);
  }

  /** A group's sorted entries are newest first. */
  lemma DetailsNewestFirst(d: RoleData)
    requires d.details.Some?
    ensures var fs := SortDetails(d).details.value;
            forall i, j :: 0 <= i < j < |fs| ==> fs[i].time >= fs[j].time
  {
    var fs := SortBy(d.details.value, NewestFirst);
    SortBySorted(d.details.value, NewestFirst);
    forall i, j | 0 <= i < j < |fs|
      ensures fs[i].time >= fs[j].time
    {
      assert NewestFirst(fs[i]) <= NewestFirst(fs[j]);
    }
  }

  /** Entries are newest first, and entries with the same time keep the server's order. */
  lemma SortDetailsNewestFirst(d: RoleData, t: int)
    requires d.details.Some?
    ensures var fs := SortDetails(d).details.value;
            (forall i, j :: 0 <= i < j < |fs| ==> fs[i].time >= fs[j].time)
            && WithKey(fs, NewestFirst, -t) == WithKey(d.details.value, NewestFirst, -t)
  {
    var fs := d.details.value;
    assert SortDetails(d).details.value == SortBy(fs, NewestFirst);
    DetailsNewestFirst(d);
    SortByStable(fs, NewestFirst, -t);
  }

  // ---------------------------------------------------------------------------------------------
  // Rendering rules
  // ---------------------------------------------------------------------------------------------

  datatype Badge = Green | Yellow | Red

  /** The rating badge's colour. */
  function RatingBadge(rating: int): (b: Badge)
  {
    if rating >= 4 then Green else if rating >= 3 then Yellow else Red
  }

  function BadgeRank(b: Badge): nat
  {
    match b
    case Red => 0
    case Yellow => 1
    case Green => 2
  }

  /** Green exactly from 4 up, yellow exactly at 3 (for whole ratings), red below 3, and a higher rating never gets a worse badge. */
  lemma RatingBadgeBands(rating: int, higher: int)
    requires rating <= higher
    ensures RatingBadge(rating) == Green <==> rating >= 4
    ensures RatingBadge(rating) == Red <==> rating < 3
    ensures RatingBadge(rating) == Yellow <==> rating == 3
    ensures BadgeRank(RatingBadge(rating)) <= BadgeRank(RatingBadge(higher))
  {
  }

  const NoDescription := "None"

  /** The description shown: a missing, empty or `"null"` description shows as `None`. */
  function DescriptionText(description: Option<string>): (r: string)
    ensures r != "" && r != "null"
    ensures r != NoDescription ==> description == Some(r)
  {
    if description.Some? && description.value != "" && description.value != "null" then description.value
    else NoDescription
  }

  /** The description is shown as sent exactly when it is present, non-empty and not `"null"`. */
  lemma DescriptionShownIff(description: Option<string>)
    ensures DescriptionText(description) == description.GetOr("")
            <==> description.Some? && description.value != "" && description.value != "null"
  {
  }

  /** `getRoleLabel`. */
  function RoleLabel(role: string): (r: string)
    ensures role !in RoleOrder ==> r == role
  {
    match role
    case "public" => "Student/General Public"
    case "educator" => "Educator/Educational Designer"
    case "admin" => "Post-Secondary Institution Admin/Leader"
    case _ => role
  }

  /** A role is shown as itself exactly when it is not one of the three known roles, whose labels are distinct. */
  lemma RoleLabelIff(role: string, other: string)
    ensures RoleLabel(role) == role <==> role !in RoleOrder
    ensures role in RoleOrder && other in RoleOrder && role != other ==> RoleLabel(role) != RoleLabel(other)
  {
  }

  /** A group shows the empty view when its entry list is missing or empty. */
  predicate ShowsEmptyView(d: RoleData)
  {
    d.details.None? || |d.details.value| == 0
  }

  // ---------------------------------------------------------------------------------------------
  // The page
  // ---------------------------------------------------------------------------------------------

  /** What a click on a session does: select it under a group's role, find no group, or fail on a group without an entry list. */
  datatype ClickOutcome = Select(role: string) | NoMatch | Fails

  predicate HasSession(fs: seq<Feedback>, sessionId: string)
  {
    exists f :: f in fs && f.sessionId == sessionId
  }

  /** The loop of `handleSessionClick` from group `from` on. */
  function ClickFrom(data: seq<RoleData>, sessionId: string, from: nat): (r: ClickOutcome)
    requires from <= |data|
    decreases |data| - from
  {
    if from == |data| then NoMatch
    else if data[from].details.None? then Fails
    else if HasSession(data[from].details.value, sessionId) then Select(data[from].userRole)
    else ClickFrom(data, sessionId, from + 1)
  }

  /**
   * A click selects the role of the first group holding the session, after only groups with entry
   * lists that do not hold it; it finds nothing exactly when every group has an entry list
   * without the session.
   */
  lemma {:induction false} ClickFirstGroup(data: seq<RoleData>, sessionId: string, from: nat)
    requires from <= |data|
    ensures ClickFrom(data, sessionId, from).Select? ==>
              exists g :: from <= g < |data| && data[g].details.Some? && HasSession(data[g].details.value, sessionId)
                && data[g].userRole == ClickFrom(data, sessionId, from).role
                && forall h :: from <= h < g ==> data[h].details.Some? && !HasSession(data[h].details.value, sessionId)
    ensures ClickFrom(data, sessionId, from) == NoMatch <==>
              forall g :: from <= g < |data| ==> data[g].details.Some? && !HasSession(data[g].details.value, sessionId)
    decreases |data| - from
  {
    if from < |data| && data[from].details.Some? && !HasSession(data[from].details.value, sessionId) {
      ClickFirstGroup(data, sessionId, from + 1);
      if ClickFrom(data, sessionId, from).Select? {
        var g :| from + 1 <= g < |data| && data[g].details.Some? && HasSession(data[g].details.value, sessionId)
                && data[g].userRole == ClickFrom(data, sessionId, from).role
                && forall h :: from + 1 <= h < g ==> data[h].details.Some? && !HasSession(data[h].details.value, sessionId);
        assert forall h :: from <= h < g ==> data[h].details.Some? && !HasSession(data[h].details.value, sessionId);
      }
    }
  }

  datatype View = Loading | SessionView(session: SelectedSession) | NoFeedback | Groups(groups: seq<RoleData>)

  /** The `Feedback` page with its state. */
  class FeedbackPage {
    var feedbackData: seq<RoleData>
    var loading: bool
    var selectedSession: Option<SelectedSession>

    constructor()
      ensures feedbackData == [] && loading && selectedSession == None
    {
      feedbackData := [];
      loading := true;
      selectedSession := None;
    }

    /** The end of `fetchFeedbackData`: a successful response is sorted and stored; loading ends either way. */
    method Loaded(response: Option<seq<RoleData>>)
      modifies this
      ensures feedbackData == if response.Some? then SortFeedback(response.value) else old(feedbackData)
      ensures !loading && selectedSession == old(selectedSession)
    {
      if response.Some? {
        feedbackData := SortFeedback(response.value);
      }
      loading := false;
    }

    /** `handleSessionClick`; `failed` is the `TypeError` thrown on a group without an entry list. */
    method HandleSessionClick(sessionId: string) returns (failed: bool)
      modifies this
      ensures var outcome := ClickFrom(old(feedbackData), sessionId, 0);
              failed == outcome.Fails?
              && selectedSession == (if outcome.Select? then Some(SelectedSession(sessionId, outcome.role)) else old(selectedSession))
      ensures feedbackData == old(feedbackData) && loading == old(loading)
    {
      failed := false;
      var i := 0;
      while i < |feedbackData|
        invariant 0 <= i <= |feedbackData|
        invariant ClickFrom(feedbackData, sessionId, i) == ClickFrom(feedbackData, sessionId, 0)
        invariant selectedSession == old(selectedSession)
        decreases |feedbackData| - i
      {
        var roleData := feedbackData[i];
        if roleData.details.None? {
          failed := true;
          return;
        }
        if HasSession(roleData.details.value, sessionId) {
          selectedSession := Some(SelectedSession(sessionId, roleData.userRole));
          break;
        }
        i := i + 1;
      }
    }

    /** The back button of the session view. */
    method Back()
      modifies this
      ensures selectedSession == None && feedbackData == old(feedbackData) && loading == old(loading)
    {
      selectedSession := None;
    }

    /** What the page renders. */
    function CurrentView(): (v: View)
      reads this
      ensures v.Groups? ==> !loading && selectedSession == None && |feedbackData| > 0 && v.groups == feedbackData
    {
      if loading then Loading
      else if selectedSession.Some? then SessionView(selectedSession.value)
      else if |feedbackData| == 0 then NoFeedback
      else Groups(feedbackData)
    }
  }
}
