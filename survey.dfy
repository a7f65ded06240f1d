/**
 * The survey end to end: the rating form posts its batch as the JSON body of
 * `POST /api/ratings`, and the backend stores it.
 *
 * The backend numbers a batch's rows `summary_id = 1, 2, ...` by position,
 * while the form sends the summaries in catalogue order. The two agree
 * because the catalogue lists the summaries with ids 1, 2, ... in order.
 */
module Survey {
  import opened Util
  import opened RatingsApi
  import opened SummaryRatingForm

  /** The JSON array the form posts, as the backend reads it. */
  function ToPayload(batch: seq<RatingSubmission>): (p: Payload)
    ensures p.EntryList? && |p.entries| == |batch|
    ensures forall i :: 0 <= i < |batch| ==>
              p.entries[i] == Entry(Some(batch[i].promptText), Some(batch[i].aiSummary),
                                    Some(IntRating(batch[i].rating)))
  {
    EntryList(seq(|batch|, i requires 0 <= i < |batch| =>
      Entry(Some(batch[i].promptText), Some(batch[i].aiSummary), Some(IntRating(batch[i].rating)))))
  }

  /** The catalogue lists its summaries with ids 1, 2, ... in order. */
  predicate NumberedByPosition(summaries: seq<Summary>) {
    forall i :: 0 <= i < |summaries| ==> summaries[i].id == i + 1
  }

  /**
   * Every batch the form can post from a non-empty catalogue passes the
   * backend's validation: all three fields are present in every entry and
   * every rating is an integer on the 1..5 scale.
   */
  lemma FormBatchAccepted(summaries: seq<Summary>, ratings: map<int, int>)
    requires |summaries| > 0
    requires forall i :: 0 <= i < |summaries| ==> summaries[i].id in ratings
    requires forall id :: id in ratings ==> 1 <= ratings[id] <= 5
    ensures Accepts(ToPayload(BuildBatch(summaries, ratings)))
  {
    var p := ToPayload(BuildBatch(summaries, ratings));
    BatchInRange(summaries, ratings);
    assert forall i :: 0 <= i < |p.entries| ==> EntryError(p.entries[i]).None?;
  }

  /**
   * `added` holds one row per catalogue summary, in catalogue order, under
   * one session id: row i is numbered `i + 1` and carries summary i's texts
   * and its rating.
   */
  predicate StoredBatch(added: seq<Rating>, summaries: seq<Summary>, ratings: map<int, int>, sessionId: string) {
    && |added| == |summaries|
    && forall i :: 0 <= i < |summaries| ==>
         && summaries[i].id in ratings
         && added[i].sessionId == sessionId
         && added[i].summaryId == i + 1
         && added[i].promptText == summaries[i].originalText
         && added[i].aiSummary == summaries[i].aiSummary
         && added[i].ratingValue == ratings[summaries[i].id]
  }

  /** Rows stored from the form's posted array are the form's batch. */
  lemma PayloadStored(added: seq<Rating>, summaries: seq<Summary>, ratings: map<int, int>, sessionId: string)
    requires forall i :: 0 <= i < |summaries| ==> summaries[i].id in ratings
    requires |added| == |summaries|
    requires forall i :: 0 <= i < |added| ==>
               && added[i].sessionId == sessionId
               && added[i].summaryId == i + 1
               && StoredAs(added[i], ToPayload(BuildBatch(summaries, ratings)).entries[i])
    ensures StoredBatch(added, summaries, ratings, sessionId)
  {
    var entries := ToPayload(BuildBatch(summaries, ratings)).entries;
    forall i | 0 <= i < |summaries|
      ensures && added[i].promptText == summaries[i].originalText
              && added[i].aiSummary == summaries[i].aiSummary
              && added[i].ratingValue == ratings[summaries[i].id]
    {
      assert StoredAs(added[i], entries[i]);
    }
  }

  /** With a catalogue numbered by position, every stored row names the summary that was rated. */
  lemma StoredIdsMatch(added: seq<Rating>, summaries: seq<Summary>, ratings: map<int, int>, sessionId: string)
    requires StoredBatch(added, summaries, ratings, sessionId)
    requires NumberedByPosition(summaries)
    ensures forall i :: 0 <= i < |added| ==> added[i].summaryId == summaries[i].id
  {
  }

  /**
   * The backend's side of a submission: posting the batch built from a
   * complete set of in-range ratings stores it, unless the catalogue is
   * empty, in which case the format error comes back and nothing changes.
   */
  method PostBatch(table: RatingTable, summaries: seq<Summary>, ratings: map<int, int>, sessionId: string, now: int)
    returns (reply: Reply)
    requires table.Valid()
    requires forall i :: 0 <= i < |summaries| ==> summaries[i].id in ratings
    requires forall id :: id in ratings ==> 1 <= ratings[id] <= 5
    modifies table
    ensures table.Valid()
    ensures |summaries| == 0 ==>
              && reply == BadRequest(INVALID_FORMAT)
              && table.rows == old(table.rows)
              && table.nextRatingId == old(table.nextRatingId)
    ensures |summaries| > 0 ==>
              && reply == Created(ADDED, sessionId)
              && |old(table.rows)| <= |table.rows|
              && table.rows[..|old(table.rows)|] == old(table.rows)
              && StoredBatch(table.rows[|old(table.rows)|..], summaries, ratings, sessionId)
  {
    var base := |table.rows|;
    if |summaries| > 0 {
      FormBatchAccepted(summaries, ratings);
    }
    var payload := ToPayload(BuildBatch(summaries, ratings));
    assert |payload.entries| == |summaries|;
    reply := table.AddRatings(payload, sessionId, now);
    if reply.Created? {
      var added := table.rows[base..];
      assert |added| == |summaries|;
      forall i | 0 <= i < |added|
        ensures && added[i].sessionId == sessionId
                && added[i].summaryId == i + 1
                && StoredAs(added[i], payload.entries[i])
      {
        assert added[i] == table.rows[base + i];
      }
      PayloadStored(added, summaries, ratings, sessionId);
    }
  }

  /**
   * A complete form submitted to the backend: the batch is stored with one
   * row per summary under the fresh session id, and the form then shows the
   * success message and clears its ratings. An empty catalogue is refused
   * with the format error, which the form shows.
   */
  method SubmitEndToEnd(form: RatingForm, table: RatingTable, sessionId: string, now: int)
    returns (reply: Reply)
    requires form.Valid() && !form.SubmitDisabled()
    requires table.Valid()
    modifies form, table
    ensures form.Valid() && table.Valid()
    ensures !form.isSubmitting
    ensures |form.summaries| == 0 ==>
              && reply == BadRequest(INVALID_FORMAT)
              && table.rows == old(table.rows)
              && table.nextRatingId == old(table.nextRatingId)
              && form.ratings == old(form.ratings)
              && form.message == Message(Failure, INVALID_FORMAT)
    ensures |form.summaries| > 0 ==>
              && reply == Created(ADDED, sessionId)
              && form.ratings == map[]
              && form.message == Message(Success, SUBMITTED)
              && |old(table.rows)| <= |table.rows|
              && table.rows[..|old(table.rows)|] == old(table.rows)
              && StoredBatch(table.rows[|old(table.rows)|..], form.summaries, old(form.ratings), sessionId)
  {
    var batch := form.BeginSubmit();
    reply := PostBatch(table, form.summaries, form.ratings, sessionId, now);
    var outcome := if reply.Created? then Answered(201) else Refused(400, Some(reply.error));
    form.FinishSubmit(outcome);
  }
}
