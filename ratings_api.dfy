/**
 * The write side of the ratings backend: the `ratings` table, batch
 * ingestion (`POST /api/ratings`) and the development reset
 * (`POST /api/reset_ratings`).
 *
 * The database table is the sequence `RatingTable.rows`, in insertion order;
 * the primary-key sequence of the table is `RatingTable.nextRatingId`.
 * The fresh session UUID and the insertion clock are parameters.
 */
module RatingsApi {
  import opened Util

  /** One row of the `ratings` table (the fields `Rating.to_dict` reports). */
  datatype Rating = Rating(
    ratingId: nat,
    sessionId: string,
    summaryId: int,
    promptText: string,
    aiSummary: string,
    ratingValue: int,
    createdAt: int)

  /** The JSON value found under an entry's `rating` key. */
  datatype RatingField = IntRating(n: int) | NonIntRating

  /** One object of the posted array; a key absent from the object is `None`. */
  datatype Entry = Entry(promptText: Option<string>, aiSummary: Option<string>, rating: Option<RatingField>)

  /**
   * The request body, once parsed as JSON: an array of entries, or any other
   * JSON value. A body that is not JSON at all is not part of this type.
   */
  datatype Payload = EntryList(entries: seq<Entry>) | NotAList

  datatype Reply =
    | Created(message: string, sessionId: string)
    | BadRequest(error: string)
    | Cleared(message: string)

  const INVALID_FORMAT := "Invalid data format. Expected a list of ratings."
  const MISSING_FIELDS := "Missing required fields in rating entry"
  const BAD_RATING := "Rating must be an integer between 1 and 5"
  const ADDED := "Ratings added successfully"
  const CLEARED := "All ratings have been cleared successfully"

  /** The HTTP status code the handler sends with a reply. */
  function Status(reply: Reply): int {
    match reply
    case Created(_, _) => 201
    case BadRequest(_) => 400
    case Cleared(_) => 200
  }

  /** The rejection an entry earns on its own: missing keys are reported before a bad rating. */
  function EntryError(e: Entry): Option<string> {
    if e.promptText.None? || e.aiSummary.None? || e.rating.None? then Some(MISSING_FIELDS)
    else if !(e.rating.value.IntRating? && 1 <= e.rating.value.n <= 5) then Some(BAD_RATING)
    else None
  }

  /** The rejection of the first entry, in array order, that has one. */
  function FirstInvalid(es: seq<Entry>): (r: Option<string>)
    ensures r.None? <==> forall i :: 0 <= i < |es| ==> EntryError(es[i]).None?
    ensures r.Some? ==> exists i :: 0 <= i < |es| && EntryError(es[i]) == r &&
                         forall j :: 0 <= j < i ==> EntryError(es[j]).None?
  {
    if |es| == 0 then None
    else if EntryError(es[0]).Some? then EntryError(es[0])
    else
      var r := FirstInvalid(es[1..]);
      assert forall i :: 1 <= i < |es| ==> es[i] == es[1..][i - 1];
      r
  }

  /** Scanning entries in order, the first failing one decides the rejection. */
  lemma {:induction false} FirstInvalidAt(es: seq<Entry>, i: nat)
    requires i < |es|
    requires forall j :: 0 <= j < i ==> EntryError(es[j]).None?
    ensures EntryError(es[i]).Some? ==> FirstInvalid(es) == EntryError(es[i])
  {
    if i > 0 {
      FirstInvalidAt(es[1..], i - 1);
    }
  }

  /** The batch passes every check of `add_ratings`. */
  predicate Accepts(p: Payload) {
    p.EntryList? && |p.entries| > 0 && FirstInvalid(p.entries).None?
  }

  /** Row `r` holds exactly the text and rating that entry `e` posted. */
  predicate StoredAs(r: Rating, e: Entry) {
    && e.promptText == Some(r.promptText)
    && e.aiSummary == Some(r.aiSummary)
    && e.rating == Some(IntRating(r.ratingValue))
  }

  /** Every stored rating is in 1..5 and rating ids grow strictly below `nextId`. */
  predicate TableInvariant(rows: seq<Rating>, nextId: nat) {
    && (forall i :: 0 <= i < |rows| ==> 1 <= rows[i].ratingValue <= 5)
    && (forall i :: 0 <= i < |rows| ==> 1 <= rows[i].ratingId < nextId)
    && (forall i, j :: 0 <= i < j < |rows| ==> rows[i].ratingId < rows[j].ratingId)
  }

  class RatingTable {
    var rows: seq<Rating>
    var nextRatingId: nat

    ghost predicate Valid()
      reads this
    {
      1 <= nextRatingId && TableInvariant(rows, nextRatingId)
    }

    /** An empty table whose id sequence starts at 1. */
    constructor ()
      ensures Valid()
      ensures rows == [] && nextRatingId == 1
    {
      rows := [];
      nextRatingId := 1;
    }

    /**
     * `add_ratings`: all-or-nothing insertion of a batch under one session id.
     * The rows are staged while the entries are checked in order and are
     * appended only when every entry has passed.
     */
    method AddRatings(payload: Payload, sessionId: string, now: int) returns (reply: Reply)
      requires Valid()
      modifies this
      ensures Valid()
      ensures reply.Created? <==> Accepts(payload)
      ensures Status(reply) == if Accepts(payload) then 201 else 400
      ensures !payload.EntryList? || payload.entries == [] ==> reply == BadRequest(INVALID_FORMAT)
      ensures payload.EntryList? && payload.entries != [] && FirstInvalid(payload.entries).Some? ==>
                reply == BadRequest(FirstInvalid(payload.entries).value)
      ensures !reply.Created? ==> rows == old(rows) && nextRatingId == old(nextRatingId)
      ensures reply.Created? ==>
                && reply == Created(ADDED, sessionId)
                && |rows| == |old(rows)| + |payload.entries|
                && rows[..|old(rows)|] == old(rows)
                && nextRatingId == old(nextRatingId) + |payload.entries|
      ensures reply.Created? ==>
                forall k :: |old(rows)| <= k < |rows| ==>
                  && rows[k].ratingId == old(nextRatingId) + (k - |old(rows)|)
                  && rows[k].sessionId == sessionId
                  && rows[k].summaryId == k - |old(rows)| + 1
                  && rows[k].createdAt == now
                  && StoredAs(rows[k], payload.entries[k - |old(rows)|])
    {
      if !payload.EntryList? || |payload.entries| == 0 {
        return BadRequest(INVALID_FORMAT);
      }
      var entries := payload.entries;
      var staged: seq<Rating> := [];
      var i := 0;
      while i < |entries|
        invariant 0 <= i <= |entries|
        invariant forall j :: 0 <= j < i ==> EntryError(entries[j]).None?
        invariant |staged| == i
        invariant forall j :: 0 <= j < i ==>
                    && staged[j].ratingId == nextRatingId + j
                    && staged[j].sessionId == sessionId
                    && staged[j].summaryId == j + 1
                    && staged[j].createdAt == now
                    && StoredAs(staged[j], entries[j])
      {
        var entry := entries[i];
        if entry.promptText.None? || entry.aiSummary.None? || entry.rating.None? {
          FirstInvalidAt(entries, i);
          return BadRequest(MISSING_FIELDS);
        }
        if !entry.rating.value.IntRating? || !(1 <= entry.rating.value.n <= 5) {
          FirstInvalidAt(entries, i);
          return BadRequest(BAD_RATING);
        }
        var row := Rating(nextRatingId + i, sessionId, i + 1, entry.promptText.value,
                          entry.aiSummary.value, entry.rating.value.n, now);
        staged := staged + [row];
        i := i + 1;
      }
      rows := rows + staged;
      nextRatingId := nextRatingId + |entries|;
      reply := Created(ADDED, sessionId);
    }

    /** `reset_ratings`: deletes every row; the id sequence is not rewound. */
    method ResetRatings() returns (reply: Reply)
      requires Valid()
      modifies this
      ensures Valid()
      ensures rows == []
      ensures nextRatingId == old(nextRatingId)
      ensures reply == Cleared(CLEARED) && Status(reply) == 200
    {
      rows := [];
      reply := Cleared(CLEARED);
    }
  }
}
