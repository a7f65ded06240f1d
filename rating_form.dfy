/**
 * The rating form: one 1..5 rating per summary, submitted as one batch.
 *
 * The component's state is the three fields of `RatingForm`. The network
 * call splits a submit attempt in two: `BeginSubmit` runs up to the request
 * and returns the batch it posts (or `None` when no request is made), and
 * `FinishSubmit` takes the request's outcome as an input and runs the
 * response, error and `finally` handling. Between the two the form is in
 * flight (`isSubmitting`), which is when clicks are ignored.
 */
module SummaryRatingForm {
  import opened Util

  /** A summary pair the form shows; the catalogue is static. */
  datatype Summary = Summary(id: int, originalText: string, aiSummary: string)

  /** One element of the posted batch. */
  datatype RatingSubmission = RatingSubmission(promptText: string, aiSummary: string, rating: int)

  datatype MessageKind = Plain | Success | Failure

  datatype Message = Message(kind: MessageKind, text: string)

  /** A status axios resolves with rather than rejects. */
  type SuccessStatus = s: int | 200 <= s < 300 witness 200

  /** What the post request came back with. */
  datatype PostOutcome =
      /** the server answered with a 2xx status */
    | Answered(code: SuccessStatus)
      /** the server answered with any other status; `error` is the body's `error` field, if any */
    | Refused(status: int, error: Option<string>)
      /** no answer at all */
    | Unreachable

  const NO_MESSAGE := Message(Plain, "")
  const INCOMPLETE := "Please rate all summaries before submitting."
  const SUBMITTED := "Ratings submitted successfully! Thank you for your feedback."
  const GENERIC_FAILURE := "Failed to submit ratings. Please try again."

  /** The values offered for each summary. */
  const SCALE := [1, 2, 3, 4, 5]

  /** The ids of the catalogue's summaries. */
  function IdSet(summaries: seq<Summary>): set<int> {
    set i | 0 <= i < |summaries| :: summaries[i].id
  }

  predicate DistinctIds(summaries: seq<Summary>) {
    forall i, j :: 0 <= i < j < |summaries| ==> summaries[i].id != summaries[j].id
  }

  /** The id set of a catalogue is its first id plus the id set of the rest. */
  lemma {:induction false} IdSetSplit(summaries: seq<Summary>)
    requires |summaries| > 0
    ensures IdSet(summaries) == {summaries[0].id} + IdSet(summaries[1..])
  {
    var rest := summaries[1..];
    forall x | x in IdSet(summaries) ensures x in {summaries[0].id} + IdSet(rest) {
      var i :| 0 <= i < |summaries| && summaries[i].id == x;
      if i > 0 { assert rest[i - 1].id == x; }
    }
  }

  /** A catalogue without repeated ids has as many ids as summaries. */
  lemma {:induction false} IdSetSize(summaries: seq<Summary>)
    requires DistinctIds(summaries)
    ensures |IdSet(summaries)| == |summaries|
  {
    if |summaries| > 0 {
      IdSetSplit(summaries);
      IdSetSize(summaries[1..]);
      assert summaries[0].id !in IdSet(summaries[1..]);
    }
  }

  /**
   * A set of catalogue ids has at most as many elements as the catalogue has
   * summaries, and only the whole id set has as many.
   */
  lemma {:induction false} IdSubsetSize(summaries: seq<Summary>, keys: set<int>)
    requires DistinctIds(summaries)
    requires keys <= IdSet(summaries)
    ensures |keys| <= |summaries|
    ensures |keys| == |summaries| ==> keys == IdSet(summaries)
  {
    if |summaries| == 0 {
      assert keys == {};
    } else {
      var h := summaries[0].id;
      var rest := summaries[1..];
      IdSetSplit(summaries);
      assert DistinctIds(rest);
      assert h !in IdSet(rest);
      var others := keys - {h};
      assert others <= IdSet(rest);
      IdSubsetSize(rest, others);
      RemoveOne(keys, h);
      if |keys| == |summaries| {
        assert h in keys;
        assert others == IdSet(rest);
      }
    }
  }

  /** Taking one value out of a set shrinks it by one exactly when the value was in it. */
  lemma RemoveOne(keys: set<int>, h: int)
    ensures |keys - {h}| == if h in keys then |keys| - 1 else |keys|
    ensures h in keys ==> keys == (keys - {h}) + {h}
  {
    if h in keys {
      assert keys == (keys - {h}) + {h};
    } else {
      assert keys - {h} == keys;
    }
  }

  /**
   * The form counts rated keys rather than comparing key sets. Because only
   * catalogue ids are ever rated and the ids are distinct, the count matches
   * exactly when every summary has a rating.
   */
  lemma CountCheckMeansComplete(summaries: seq<Summary>, ratings: map<int, int>)
    requires DistinctIds(summaries)
    requires ratings.Keys <= IdSet(summaries)
    ensures |ratings| == |summaries| <==> ratings.Keys == IdSet(summaries)
  {
    IdSetSize(summaries);
    IdSubsetSize(summaries, ratings.Keys);
  }

  /**
   * The posted batch: one element per summary, in catalogue order, carrying
   * the summary's texts and its rating.
   */
  function BuildBatch(summaries: seq<Summary>, ratings: map<int, int>): (batch: seq<RatingSubmission>)
    requires forall i :: 0 <= i < |summaries| ==> summaries[i].id in ratings
    ensures |batch| == |summaries|
    ensures forall i :: 0 <= i < |summaries| ==>
              batch[i] == RatingSubmission(summaries[i].originalText, summaries[i].aiSummary, ratings[summaries[i].id])
  {
    seq(|summaries|, i requires 0 <= i < |summaries| =>
      RatingSubmission(summaries[i].originalText, summaries[i].aiSummary, ratings[summaries[i].id]))
  }

  /** A batch built from in-range ratings carries only in-range ratings. */
  lemma BatchInRange(summaries: seq<Summary>, ratings: map<int, int>)
    requires forall i :: 0 <= i < |summaries| ==> summaries[i].id in ratings
    requires forall id :: id in ratings ==> 1 <= ratings[id] <= 5
    ensures forall i :: 0 <= i < |summaries| ==> 1 <= BuildBatch(summaries, ratings)[i].rating <= 5
  {
  }

  /**
   * The message a failed attempt shows: the server's `error` text when it
   * sent a non-empty one, the generic text otherwise.
   */
  function FailureText(outcome: PostOutcome): (text: string)
    ensures text != ""
    ensures outcome.Refused? && outcome.error.Some? && outcome.error.value != "" ==> text == outcome.error.value
    ensures !(outcome.Refused? && outcome.error.Some? && outcome.error.value != "") ==> text == GENERIC_FAILURE
  {
    if outcome.Refused? && outcome.error.Some? && outcome.error.value != "" then outcome.error.value
    else GENERIC_FAILURE
  }

  class RatingForm {
    const summaries: seq<Summary>
    var ratings: map<int, int>
    var message: Message
    var isSubmitting: bool

    /** Only catalogue ids are rated, and only with values from the scale. */
    ghost predicate Valid()
      reads this
    {
      && DistinctIds(summaries)
      && ratings.Keys <= IdSet(summaries)
      && forall id :: id in ratings ==> 1 <= ratings[id] <= 5
    }

    /** The submit button is disabled. */
    function SubmitDisabled(): bool
      reads this
    {
      isSubmitting || |ratings| != |summaries|
    }

    constructor (summaries: seq<Summary>)
      requires DistinctIds(summaries)
      ensures Valid()
      ensures this.summaries == summaries
      ensures ratings == map[] && message == NO_MESSAGE && !isSubmitting
    {
      this.summaries := summaries;
      ratings := map[];
      message := NO_MESSAGE;
      isSubmitting := false;
    }

    /** `handleRating`: records one rating, overwriting any earlier one, and clears the message. */
    method HandleRating(id: int, value: int)
      requires Valid()
      requires id in IdSet(summaries) && 1 <= value <= 5
      modifies this
      ensures Valid()
      ensures ratings == old(ratings)[id := value]
      ensures message == NO_MESSAGE
      ensures isSubmitting == old(isSubmitting)
    {
      ratings := ratings[id := value];
      message := NO_MESSAGE;
    }

    /** A click on value `SCALE[v]` of summary `k`; ignored while a submission is in flight. */
    method Click(k: nat, v: nat)
      requires Valid()
      requires k < |summaries| && v < |SCALE|
      modifies this
      ensures Valid()
      ensures old(isSubmitting) ==> ratings == old(ratings) && message == old(message)
      ensures !old(isSubmitting) ==> ratings == old(ratings)[summaries[k].id := SCALE[v]] && message == NO_MESSAGE
      ensures isSubmitting == old(isSubmitting)
    {
      if !isSubmitting {
        HandleRating(summaries[k].id, SCALE[v]);
      }
    }

    /**
     * `handleSubmit` up to the request: an incomplete form gets the
     * validation message and no request; a complete one goes in flight and
     * yields the batch to post.
     */
    method BeginSubmit() returns (batch: Option<seq<RatingSubmission>>)
      requires Valid()
      modifies this
      ensures Valid()
      ensures ratings == old(ratings)
      ensures batch.Some? <==> |ratings| == |summaries|
      ensures batch.Some? ==> ratings.Keys == IdSet(summaries)
      ensures batch.None? ==> message == Message(Failure, INCOMPLETE) && isSubmitting == old(isSubmitting)
      ensures batch.Some? ==> && (forall i :: 0 <= i < |summaries| ==> summaries[i].id in ratings)
                              && batch.value == BuildBatch(summaries, ratings)
                              && message == old(message) && isSubmitting
    {
      if |ratings| != |summaries| {
        message := Message(Failure, INCOMPLETE);
        return None;
      }
      CountCheckMeansComplete(summaries, ratings);
      assert forall i :: 0 <= i < |summaries| ==> summaries[i].id in IdSet(summaries);
      isSubmitting := true;
      batch := Some(BuildBatch(summaries, ratings));
    }

    /**
     * `handleSubmit` after the request: only a 201 answer counts as success
     * and clears the ratings; anything else keeps them for a retry. Either
     * way the form leaves the in-flight state.
     */
    method FinishSubmit(outcome: PostOutcome)
      requires Valid()
      modifies this
      ensures Valid()
      ensures !isSubmitting
      ensures outcome == Answered(201) ==> ratings == map[] && message == Message(Success, SUBMITTED)
      ensures outcome != Answered(201) ==>
                ratings == old(ratings) && message == Message(Failure, FailureText(outcome))
    {
      if outcome.Answered? && outcome.code == 201 {
        message := Message(Success, SUBMITTED);
        ratings := map[];
      } else {
        message := Message(Failure, FailureText(outcome));
      }
      isSubmitting := false;
    }

    /** A whole submit attempt made with the button, whose request (if any) ends in `outcome`. */
    method HandleSubmit(outcome: PostOutcome) returns (posted: Option<seq<RatingSubmission>>)
      requires Valid() && !SubmitDisabled()
      modifies this
      ensures Valid()
      ensures !isSubmitting
      ensures && posted.Some?
              && (forall i :: 0 <= i < |summaries| ==> summaries[i].id in old(ratings))
              && posted.value == BuildBatch(summaries, old(ratings))
      ensures outcome == Answered(201) ==> ratings == map[] && message == Message(Success, SUBMITTED)
      ensures outcome != Answered(201) ==>
                ratings == old(ratings) && message == Message(Failure, FailureText(outcome))
    {
      posted := BeginSubmit();
      FinishSubmit(outcome);
    }
  }

  /**
   * While only catalogue ids are rated, the button is enabled exactly when
   * no submission is in flight and every summary of the catalogue has a rating.
   */
  lemma EnabledExactlyWhenComplete(form: RatingForm)
    requires form.Valid()
    ensures !form.SubmitDisabled() <==> !form.isSubmitting && form.ratings.Keys == IdSet(form.summaries)
  {
    CountCheckMeansComplete(form.summaries, form.ratings);
  }
}
