/**
 * The feedback card of the chat: a five-star rating with hover preview and, for ratings between
 * one and four stars, a set of improvement options the user toggles.
 */
module ChatFeedback {
  import opened Lists

  const StarCount: nat := 5
  const Options: seq<string> := ["Not enough information", "Confusing to use", "Inaccurate reviews"]

  /** `prev.description.includes(option) ? filter(...) : [...prev.description, option]`. */
  function Toggle(description: seq<string>, option: string): (r: seq<string>)
    ensures option in description ==> option !in r
    ensures option !in description ==> option in r && |r| == |description| + 1
    ensures forall x :: x != option ==> (x in r <==> x in description)
  {
    if option in description then Without(description, option) else description + [option]
  }

  /** Toggling an unselected option twice restores the selection; toggling a selected one drops every copy of it. */
  lemma ToggleTwice(description: seq<string>, option: string)
    ensures option !in description ==> Toggle(Toggle(description, option), option) == description
    ensures option in description ==> Toggle(description, option) == Without(description, option)
  {
    if option !in description {
      AppendThenWithout(description, option);
    }
  }

  /** `hoverRating || rating`: the hover preview wins unless it is 0. */
  function ShownRating(hoverRating: int, rating: int): (r: int)
    ensures hoverRating != 0 ==> r == hoverRating
    ensures hoverRating == 0 ==> r == rating
  {
    if hoverRating != 0 then hoverRating else rating
  }

  /** Star `index` (from 0) is drawn highlighted. */
  predicate Highlighted(hoverRating: int, rating: int, index: nat)
  {
    ShownRating(hoverRating, rating) > index
  }

  /** The highlighted stars are a prefix: exactly the first `ShownRating` stars, all or none at the extremes. */
  lemma HighlightedPrefix(hoverRating: int, rating: int, i: nat, j: nat)
    requires i <= j
    ensures Highlighted(hoverRating, rating, j) ==> Highlighted(hoverRating, rating, i)
    ensures 0 <= ShownRating(hoverRating, rating) <= StarCount && i < StarCount ==>
              (Highlighted(hoverRating, rating, i) <==> i < ShownRating(hoverRating, rating))
  {
  }

  /** The text beside the stars. */
  function RatingLabel(rating: int): (r: string)
  {
    if rating == 0 then "Not Good" else if rating == 5 then "Great" else ""
  }

  lemma RatingLabelIff(rating: int)
    ensures RatingLabel(rating) == "Not Good" <==> rating == 0
    ensures RatingLabel(rating) == "Great" <==> rating == 5
    ensures RatingLabel(rating) == "" <==> rating != 0 && rating != 5
  {
  }

  /** The improvement options are offered for a rating strictly between 0 and 5. */
  predicate ShowsOptions(rating: int)
  {
    rating > 0 && rating < 5
  }

  /** The submit button's text. */
  function SubmitLabel(isSubmitting: bool): (r: string)
  {
    if isSubmitting then "Sending..." else "Send Feedback"
  }

  /** `FeedbackComponent` with its own hover state and the feedback state it sets on the chat page. */
  class FeedbackCard {
    var rating: int
    var description: seq<string>
    var hoverRating: int

    constructor(rating: int, description: seq<string>)
      ensures this.rating == rating && this.description == description && hoverRating == 0
    {
      this.rating := rating;
      this.description := description;
      hoverRating := 0;
    }

    /** `handleOptionClick`. */
    method HandleOptionClick(option: string)
      modifies this
      ensures description == Toggle(old(description), option)
      ensures rating == old(rating) && hoverRating == old(hoverRating)
    {
      description := Toggle(description, option);
    }

    /** The click handler of star `index`: one of the five stars rendered. */
    method ClickStar(index: nat)
      requires index < StarCount
      modifies this
      ensures rating == index + 1 && 1 <= rating <= StarCount
      ensures ShowsOptions(rating) <==> index < StarCount - 1
      ensures description == old(description) && hoverRating == old(hoverRating)
    {
      rating := index + 1;
    }

    method EnterStar(index: nat)
      requires index < StarCount
      modifies this
      ensures hoverRating == index + 1
      ensures rating == old(rating) && description == old(description)
    {
      hoverRating := index + 1;
    }

    /** Leaving a star ends the preview: the stars show the rating again. */
    method LeaveStar()
      modifies this
      ensures hoverRating == 0
      ensures forall i: nat :: Highlighted(hoverRating, rating, i) <==> rating > i
      ensures rating == old(rating) && description == old(description)
    {
      hoverRating := 0;
    }
  }
}
