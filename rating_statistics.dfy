/**
 * The read side of the ratings backend: `GET /api/ratings/stats`, the
 * aggregate report the admin dashboard polls. The report is a function of
 * the table's rows; the averages are kept as (sum, count) pairs.
 */
module RatingStatistics {
  import opened Util
  import opened RatingsApi

  /** COUNT, SUM, MIN and MAX of a column. */
  datatype Agg = Agg(count: nat, sum: int, min: int, max: int)

  /** The `overall_statistics` object; the average is `ratingSum / totalRatings`. */
  datatype Overall = Overall(totalRatings: nat, totalSessions: nat, ratingSum: int, minRating: int, maxRating: int)

  /** One `individual_submissions` element; its average is `ratingSum / |ratings|`. */
  datatype Submission = Submission(sessionId: string, submittedAt: int, ratings: seq<Rating>, ratingSum: int)

  datatype Stats = Stats(
    overall: Overall,
    distribution: map<int, nat>,
    summaryStatistics: map<int, Agg>,
    individualSubmissions: seq<Submission>)

  /** At most this many sessions are listed in the report. */
  const MAX_LISTED: nat := 20

  function RatingValueOf(r: Rating): int { r.ratingValue }
  function SummaryIdOf(r: Rating): int { r.summaryId }

  /** Sorting by this key puts the most recent submission first. */
  function NewestFirstKey(s: Submission): int { -s.submittedAt }

  /** The values of one integer column, in row order. */
  function Column(rows: seq<Rating>, key: Rating -> int): (c: seq<int>)
    ensures |c| == |rows|
    ensures forall i :: 0 <= i < |rows| ==> c[i] == key(rows[i])
  {
    if |rows| == 0 then [] else [key(rows[0])] + Column(rows[1..], key)
  }

  /**
   * The aggregate of a column. MIN and MAX of no rows are SQL NULL, which
   * the handler reports as 0.
   */
  function Aggregate(vals: seq<int>): Agg {
    Agg(|vals|, Sum(vals), if |vals| == 0 then 0 else Min(vals), if |vals| == 0 then 0 else Max(vals))
  }

  /** The distinct values of a column (the groups of a `GROUP BY`). */
  function KeyList(rows: seq<Rating>, key: Rating -> int): seq<int> {
    Distinct(Column(rows, key))
  }

  /** The ratings of the rows whose `key` column equals `k`, in row order. */
  function Select(rows: seq<Rating>, key: Rating -> int, k: int): seq<int> {
    if |rows| == 0 then []
    else (if key(rows[0]) == k then [rows[0].ratingValue] else []) + Select(rows[1..], key, k)
  }

  /** `distribution`: rating value to number of rows carrying it. */
  function Distribution(rows: seq<Rating>): map<int, nat> {
    map k | k in KeyList(rows, RatingValueOf) :: |Select(rows, RatingValueOf, k)|
  }

  /** `summary_statistics`: summary id to the aggregate of its ratings. */
  function SummaryStatistics(rows: seq<Rating>): map<int, Agg> {
    map k | k in KeyList(rows, SummaryIdOf) :: Aggregate(Select(rows, SummaryIdOf, k))
  }

  /** The rows of one session, in table order. */
  function SessionRows(rows: seq<Rating>, sid: string): seq<Rating> {
    if |rows| == 0 then []
    else (if rows[0].sessionId == sid then [rows[0]] else []) + SessionRows(rows[1..], sid)
  }

  /** The distinct session ids, in order of first appearance. */
  function SessionIds(rows: seq<Rating>): seq<string> {
    Distinct(seq(|rows|, i requires 0 <= i < |rows| => rows[i].sessionId))
  }

  /**
   * The report entry of a session, given the table ordered by summary id
   * (`byId`): the session's rows in that order, so the query's filter on the
   * session and its `ORDER BY summary_id` are applied together.
   */
  function SubmissionOf(byId: seq<Rating>, sid: string): Submission
    requires |SessionRows(byId, sid)| > 0
  {
    var ordered := SessionRows(byId, sid);
    Submission(sid, ordered[0].createdAt, ordered, Sum(Column(ordered, RatingValueOf)))
  }

  /** The submissions list before sorting: one entry per listed session that has rows. */
  function Collected(byId: seq<Rating>, ids: seq<string>): seq<Submission> {
    if |ids| == 0 then []
    else
      var last := ids[|ids| - 1];
      Collected(byId, ids[..|ids| - 1]) +
      (if |SessionRows(byId, last)| > 0 then [SubmissionOf(byId, last)] else [])
  }

  /** The table ordered by summary id (stable, so a session's order is that of its rows). */
  function ById(rows: seq<Rating>): seq<Rating> {
    SortBy(rows, SummaryIdOf)
  }

  lemma CollectedStep(byId: seq<Rating>, ids: seq<string>, i: nat)
    requires i < |ids|
    ensures Collected(byId, ids[..i + 1]) == Collected(byId, ids[..i]) +
              (if |SessionRows(byId, ids[i])| > 0 then [SubmissionOf(byId, ids[i])] else [])
  {
    assert ids[..i + 1][..i] == ids[..i];
  }

  /** Every session's submission, most recent first. */
  function AllSubmissions(rows: seq<Rating>): seq<Submission> {
    SortBy(Collected(ById(rows), SessionIds(rows)), NewestFirstKey)
  }

  /** The whole report. */
  function StatsOf(rows: seq<Rating>): Stats {
    var overall := Aggregate(Column(rows, RatingValueOf));
    var all := AllSubmissions(rows);
    Stats(
      Overall(overall.count, |all|, overall.sum, overall.min, overall.max),
      Distribution(rows),
      SummaryStatistics(rows),
      all[..if |all| <= MAX_LISTED then |all| else MAX_LISTED])
  }

  /**
   * `get_rating_stats`: builds the submissions list one session at a time,
   * skipping sessions without rows, then sorts it newest first.
   */
  method GetRatingStats(rows: seq<Rating>) returns (st: Stats)
    ensures st == StatsOf(rows)
  {
    var ids := SessionIds(rows);
    var byId := ById(rows);
    var submissions: seq<Submission> := [];
    var i := 0;
    while i < |ids|
      invariant 0 <= i <= |ids|
      invariant submissions == Collected(byId, ids[..i])
    {
      CollectedStep(byId, ids, i);
      var sessionRatings := SessionRows(byId, ids[i]);
      if |sessionRatings| > 0 {
        submissions := submissions + [Submission(ids[i], sessionRatings[0].createdAt, sessionRatings,
                                                 Sum(Column(sessionRatings, RatingValueOf)))];
      }
      i := i + 1;
    }
    assert ids[..i] == ids;
    submissions := SortBy(submissions, NewestFirstKey);
    var overall := Aggregate(Column(rows, RatingValueOf));
    var listed := if |submissions| <= MAX_LISTED then |submissions| else MAX_LISTED;
    st := Stats(
      Overall(overall.count, |submissions|, overall.sum, overall.min, overall.max),
      Distribution(rows),
      SummaryStatistics(rows),
      submissions[..listed]);
  }

  // ---------------------------------------------------------------------
  // Overall statistics

  /** `total_ratings` is the row count; MIN and MAX are attained bounds, 0 on an empty table. */
  lemma OverallFacts(rows: seq<Rating>)
    ensures var o := StatsOf(rows).overall;
      && o.totalRatings == |rows|
      && o.minRating <= o.maxRating
      && (|rows| == 0 ==> o.minRating == 0 && o.maxRating == 0 && o.ratingSum == 0)
      && (|rows| > 0 ==>
            && (exists i :: 0 <= i < |rows| && rows[i].ratingValue == o.minRating)
            && (exists i :: 0 <= i < |rows| && rows[i].ratingValue == o.maxRating)
            && (forall i :: 0 <= i < |rows| ==> o.minRating <= rows[i].ratingValue <= o.maxRating))
  {
    var vals := Column(rows, RatingValueOf);
    if |rows| > 0 {
      var lo, hi := Min(vals), Max(vals);
      var a :| 0 <= a < |vals| && vals[a] == lo;
      var b :| 0 <= b < |vals| && vals[b] == hi;
      assert rows[a].ratingValue == lo && rows[b].ratingValue == hi;
      forall i | 0 <= i < |rows| ensures lo <= rows[i].ratingValue <= hi {
        assert vals[i] in vals;
      }
    }
  }

  /** On a table of validated rows, a non-empty report has 1 <= min <= max <= 5. */
  lemma OverallRange(rows: seq<Rating>)
    requires forall i :: 0 <= i < |rows| ==> 1 <= rows[i].ratingValue <= 5
    requires |rows| > 0
    ensures 1 <= StatsOf(rows).overall.minRating <= StatsOf(rows).overall.maxRating <= 5
  {
    OverallFacts(rows);
  }

  // ---------------------------------------------------------------------
  // Grouping: distribution and per-summary statistics

  /** The size of a group is the number of rows whose key is the group's key. */
  lemma {:induction false} SelectCount(rows: seq<Rating>, key: Rating -> int, k: int)
    ensures |Select(rows, key, k)| == multiset(Column(rows, key))[k]
  {
    if |rows| > 0 {
      SelectCount(rows[1..], key, k);
      assert Column(rows, key) == [key(rows[0])] + Column(rows[1..], key);
    }
  }

  /** Bounds that hold of every rating hold of every rating in a group. */
  lemma {:induction false} SelectWithin(rows: seq<Rating>, key: Rating -> int, k: int, lo: int, hi: int)
    requires forall i :: 0 <= i < |rows| ==> lo <= rows[i].ratingValue <= hi
    ensures forall v :: v in Select(rows, key, k) ==> lo <= v <= hi
  {
    if |rows| > 0 {
      SelectWithin(rows[1..], key, k, lo, hi);
    }
  }

  /** The group sizes, summed over a list of keys. */
  function SumSizes(rows: seq<Rating>, key: Rating -> int, ks: seq<int>): nat {
    if |ks| == 0 then 0 else |Select(rows, key, ks[0])| + SumSizes(rows, key, ks[1..])
  }

  /** The values of a map, summed over a list of keys. */
  function CountTotal(m: map<int, nat>, ks: seq<int>): nat {
    if |ks| == 0 then 0 else (if ks[0] in m then m[ks[0]] else 0) + CountTotal(m, ks[1..])
  }

  /** The row counts of the per-summary aggregates. */
  function Counts(m: map<int, Agg>): map<int, nat> {
    map k | k in m :: m[k].count
  }

  lemma {:induction false} SumSizesEmpty(key: Rating -> int, ks: seq<int>)
    ensures SumSizes([], key, ks) == 0
  {
    if |ks| > 0 {
      SumSizesEmpty(key, ks[1..]);
    }
  }

  /** Taking off the first row takes one off the group of that row's key, once per occurrence of the key. */
  lemma {:induction false} SumSizesStep(rows: seq<Rating>, key: Rating -> int, ks: seq<int>)
    requires |rows| > 0
    ensures SumSizes(rows, key, ks) == multiset(ks)[key(rows[0])] + SumSizes(rows[1..], key, ks)
  {
    if |ks| > 0 {
      SumSizesStep(rows, key, ks[1..]);
      assert ks == [ks[0]] + ks[1..];
    }
  }

  /** Groups over distinct keys that cover every row partition the rows. */
  lemma {:induction false} GroupSizesSum(rows: seq<Rating>, key: Rating -> int, ks: seq<int>)
    requires NoDuplicates(ks)
    requires forall i :: 0 <= i < |rows| ==> key(rows[i]) in ks
    ensures SumSizes(rows, key, ks) == |rows|
  {
    if |rows| == 0 {
      SumSizesEmpty(key, ks);
    } else {
      SumSizesStep(rows, key, ks);
      OnceCountsOnce(ks, key(rows[0]));
      assert key(rows[0]) in multiset(ks);
      GroupSizesSum(rows[1..], key, ks);
    }
  }

  lemma {:induction false} TotalOfSizes(m: map<int, nat>, rows: seq<Rating>, key: Rating -> int, ks: seq<int>)
    requires forall i :: 0 <= i < |ks| ==> ks[i] in m && m[ks[i]] == |Select(rows, key, ks[i])|
    ensures CountTotal(m, ks) == SumSizes(rows, key, ks)
  {
    if |ks| > 0 {
      TotalOfSizes(m, rows, key, ks[1..]);
    }
  }

  /** The keys of a `GROUP BY` are the column's values, each once. */
  lemma KeyListFacts(rows: seq<Rating>, key: Rating -> int)
    ensures NoDuplicates(KeyList(rows, key))
    ensures forall i :: 0 <= i < |rows| ==> key(rows[i]) in KeyList(rows, key)
    ensures forall k :: k in KeyList(rows, key) ==> exists i :: 0 <= i < |rows| && key(rows[i]) == k
  {
    var col := Column(rows, key);
    forall k | k in KeyList(rows, key) ensures exists i :: 0 <= i < |rows| && key(rows[i]) == k {
      var j :| 0 <= j < |col| && col[j] == k;
    }
  }

  /** Each group holds as many ratings as rows carry its key, at least one. */
  lemma GroupSizes(rows: seq<Rating>, key: Rating -> int)
    ensures forall k :: k in KeyList(rows, key) ==>
              0 < |Select(rows, key, k)| == multiset(Column(rows, key))[k]
  {
    forall k | k in KeyList(rows, key) ensures 0 < |Select(rows, key, k)| == multiset(Column(rows, key))[k] {
      SelectCount(rows, key, k);
    }
  }

  /**
   * `distribution` has a key for exactly the rating values present, maps each
   * to the number of rows with that value, and its counts add up to
   * `total_ratings`.
   */
  lemma DistributionFacts(rows: seq<Rating>)
    ensures var d := Distribution(rows); var ks := KeyList(rows, RatingValueOf);
      && NoDuplicates(ks)
      && (forall k :: k in d <==> k in ks)
      && (forall k :: k in d <==> exists i :: 0 <= i < |rows| && rows[i].ratingValue == k)
      && (forall k :: k in d ==> d[k] == multiset(Column(rows, RatingValueOf))[k])
      && CountTotal(d, ks) == |rows|
  {
    var ks := KeyList(rows, RatingValueOf);
    KeyListFacts(rows, RatingValueOf);
    GroupSizes(rows, RatingValueOf);
    GroupSizesSum(rows, RatingValueOf, ks);
    TotalOfSizes(Distribution(rows), rows, RatingValueOf, ks);
  }

  /**
   * `summary_statistics` has a key for exactly the summary ids present; each
   * aggregate counts the rows of its summary, has min <= max, and the counts
   * add up to `total_ratings`.
   */
  lemma SummaryFacts(rows: seq<Rating>)
    ensures var s := SummaryStatistics(rows); var ks := KeyList(rows, SummaryIdOf);
      && NoDuplicates(ks)
      && (forall k :: k in s <==> k in ks)
      && (forall k :: k in s <==> exists i :: 0 <= i < |rows| && rows[i].summaryId == k)
      && (forall k :: k in s ==> s[k].count == multiset(Column(rows, SummaryIdOf))[k])
      && (forall k :: k in s ==> 0 < s[k].count && s[k].min <= s[k].max)
      && CountTotal(Counts(s), ks) == |rows|
  {
    var ks := KeyList(rows, SummaryIdOf);
    KeyListFacts(rows, SummaryIdOf);
    GroupSizes(rows, SummaryIdOf);
    GroupSizesSum(rows, SummaryIdOf, ks);
    TotalOfSizes(Counts(SummaryStatistics(rows)), rows, SummaryIdOf, ks);
  }

  /** On a table of validated rows, every per-summary min and max lies in 1..5. */
  lemma SummaryRange(rows: seq<Rating>)
    requires forall i :: 0 <= i < |rows| ==> 1 <= rows[i].ratingValue <= 5
    ensures forall k :: k in SummaryStatistics(rows) ==>
              1 <= SummaryStatistics(rows)[k].min <= SummaryStatistics(rows)[k].max <= 5
  {
    forall k | k in SummaryStatistics(rows)
      ensures 1 <= SummaryStatistics(rows)[k].min <= SummaryStatistics(rows)[k].max <= 5
    {
      SelectWithin(rows, SummaryIdOf, k, 1, 5);
      SummaryFacts(rows);
    }
  }

  // ---------------------------------------------------------------------
  // Sessions

  /** A session's rows are the table's rows of that session, with their multiplicities. */
  lemma {:induction false} SessionRowsCount(rows: seq<Rating>, sid: string, x: Rating)
    ensures multiset(SessionRows(rows, sid))[x] == if x.sessionId == sid then multiset(rows)[x] else 0
  {
    if |rows| > 0 {
      SessionRowsCount(rows[1..], sid, x);
      assert rows == [rows[0]] + rows[1..];
    }
  }

  /** Filtering a table ordered by some key keeps it ordered by that key. */
  lemma {:induction false} SessionRowsSorted(rows: seq<Rating>, sid: string, key: Rating -> int)
    requires SortedBy(rows, key)
    ensures SortedBy(SessionRows(rows, sid), key)
  {
    if |rows| > 0 {
      SessionRowsSorted(rows[1..], sid, key);
      SessionRowsBounded(rows[1..], sid, key, key(rows[0]));
    }
  }

  /** A lower bound on the key of every row bounds the key of every row of a session. */
  lemma {:induction false} SessionRowsBounded(rows: seq<Rating>, sid: string, key: Rating -> int, lo: int)
    requires forall m :: 0 <= m < |rows| ==> lo <= key(rows[m])
    ensures forall j :: 0 <= j < |SessionRows(rows, sid)| ==> lo <= key(SessionRows(rows, sid)[j])
  {
    if |rows| > 0 {
      SessionRowsBounded(rows[1..], sid, key, lo);
    }
  }

  /**
   * What a report entry promises about its session: the session's rows,
   * ordered by summary id, time-stamped by the first of them, with the sum of
   * their ratings.
   */
  predicate Describes(rows: seq<Rating>, s: Submission) {
    && |s.ratings| > 0
    && SortedBy(s.ratings, SummaryIdOf)
    && multiset(s.ratings) == multiset(SessionRows(rows, s.sessionId))
    && s.submittedAt == s.ratings[0].createdAt
    && s.ratingSum == Sum(Column(s.ratings, RatingValueOf))
  }

  /** A session's rows have the same multiset in any ordering of the table. */
  lemma SessionRowsPermuted(rows: seq<Rating>, other: seq<Rating>, sid: string)
    requires multiset(other) == multiset(rows)
    ensures multiset(SessionRows(other, sid)) == multiset(SessionRows(rows, sid))
  {
    forall x ensures multiset(SessionRows(other, sid))[x] == multiset(SessionRows(rows, sid))[x] {
      SessionRowsCount(other, sid, x);
      SessionRowsCount(rows, sid, x);
    }
  }

  /** The entry built for a session describes it. */
  lemma SubmissionOfDescribes(rows: seq<Rating>, sid: string)
    requires |SessionRows(ById(rows), sid)| > 0
    ensures SubmissionOf(ById(rows), sid).sessionId == sid
    ensures Describes(rows, SubmissionOf(ById(rows), sid))
  {
    SessionRowsSorted(ById(rows), sid, SummaryIdOf);
    SessionRowsPermuted(rows, ById(rows), sid);
  }

  /** A session id occurs in the table exactly when it is one of `SessionIds`, and then it has rows. */
  lemma SessionIdsFacts(rows: seq<Rating>)
    ensures NoDuplicates(SessionIds(rows))
    ensures forall i :: 0 <= i < |rows| ==> rows[i].sessionId in SessionIds(rows)
    ensures forall k :: 0 <= k < |SessionIds(rows)| ==> |SessionRows(ById(rows), SessionIds(rows)[k])| > 0
  {
    var col := seq(|rows|, i requires 0 <= i < |rows| => rows[i].sessionId);
    var ids := SessionIds(rows);
    forall i | 0 <= i < |rows| ensures rows[i].sessionId in ids {
      assert col[i] == rows[i].sessionId;
    }
    forall k | 0 <= k < |ids| ensures |SessionRows(ById(rows), ids[k])| > 0 {
      var i :| 0 <= i < |col| && col[i] == ids[k];
      SessionRowsCount(rows, ids[k], rows[i]);
      assert rows[i] in multiset(SessionRows(rows, ids[k]));
      SessionRowsPermuted(rows, ById(rows), ids[k]);
    }
  }

  /** When every listed session has rows, each is collected at its own position. */
  lemma {:induction false} CollectedAll(byId: seq<Rating>, ids: seq<string>)
    requires forall k :: 0 <= k < |ids| ==> |SessionRows(byId, ids[k])| > 0
    ensures |Collected(byId, ids)| == |ids|
    ensures forall k :: 0 <= k < |ids| ==> Collected(byId, ids)[k] == SubmissionOf(byId, ids[k])
  {
    if |ids| > 0 {
      var front := ids[..|ids| - 1];
      CollectedAll(byId, front);
      assert Collected(byId, ids) == Collected(byId, front) + [SubmissionOf(byId, ids[|ids| - 1])];
    }
  }

  /** Some entry of `all` is for session `sid`. */
  predicate HasEntry(all: seq<Submission>, sid: string) {
    exists j :: 0 <= j < |all| && all[j].sessionId == sid
  }

  /** Some row of the table belongs to session `sid`. */
  predicate HasRow(rows: seq<Rating>, sid: string) {
    exists i :: 0 <= i < |rows| && rows[i].sessionId == sid
  }

  /** What the facts about sessions ask of a list of report entries. */
  predicate ListsSessions(rows: seq<Rating>, all: seq<Submission>) {
    && (forall i, j :: 0 <= i < j < |all| ==> all[i].sessionId != all[j].sessionId)
    && (forall i :: 0 <= i < |rows| ==> HasEntry(all, rows[i].sessionId))
    && (forall j :: 0 <= j < |all| ==> HasRow(rows, all[j].sessionId))
    && (forall j :: 0 <= j < |all| ==> Describes(rows, all[j]))
  }

  /** Any reordering of the collected entries lists every session once. */
  lemma PermutedEntries(rows: seq<Rating>, ids: seq<string>, c: seq<Submission>, all: seq<Submission>)
    requires NoDuplicates(ids)
    requires forall i :: 0 <= i < |rows| ==> rows[i].sessionId in ids
    requires forall k :: 0 <= k < |ids| ==> |SessionRows(ById(rows), ids[k])| > 0
    requires |c| == |ids|
    requires forall k :: 0 <= k < |ids| ==> c[k] == SubmissionOf(ById(rows), ids[k])
    requires multiset(all) == multiset(c)
    ensures ListsSessions(rows, all)
  {
    EntriesAreSubmissions(rows, ids, c, all);
    forall j | 0 <= j < |all| ensures Describes(rows, all[j]) {
      SubmissionOfDescribes(rows, all[j].sessionId);
    }
    EverySessionListed(rows, ids, c, all);
    EveryEntryHasRows(rows, all);
  }

  /** Each entry of a reordering is the submission of its own session, and no session occurs twice. */
  lemma EntriesAreSubmissions(rows: seq<Rating>, ids: seq<string>, c: seq<Submission>, all: seq<Submission>)
    requires NoDuplicates(ids)
    requires forall k :: 0 <= k < |ids| ==> |SessionRows(ById(rows), ids[k])| > 0
    requires |c| == |ids|
    requires forall k :: 0 <= k < |ids| ==> c[k] == SubmissionOf(ById(rows), ids[k])
    requires multiset(all) == multiset(c)
    ensures forall j :: 0 <= j < |all| ==>
              |SessionRows(ById(rows), all[j].sessionId)| > 0 && all[j] == SubmissionOf(ById(rows), all[j].sessionId)
    ensures forall i, j :: 0 <= i < j < |all| ==> all[i].sessionId != all[j].sessionId
  {
    var byId := ById(rows);
    assert NoDuplicates(c) by {
      forall i, j | 0 <= i < j < |c| ensures c[i] != c[j] {
        assert c[i].sessionId == ids[i] && c[j].sessionId == ids[j];
      }
    }
    PermutationKeepsNoDuplicates(c, all);
    forall j | 0 <= j < |all|
      ensures |SessionRows(byId, all[j].sessionId)| > 0 && all[j] == SubmissionOf(byId, all[j].sessionId)
    {
      assert all[j] in multiset(c);
      var k :| 0 <= k < |c| && c[k] == all[j];
    }
    forall i, j | 0 <= i < j < |all| ensures all[i].sessionId != all[j].sessionId {
      assert all[i] != all[j];
    }
  }

  /** Every session of the table has an entry in any reordering of the collected list. */
  lemma EverySessionListed(rows: seq<Rating>, ids: seq<string>, c: seq<Submission>, all: seq<Submission>)
    requires forall i :: 0 <= i < |rows| ==> rows[i].sessionId in ids
    requires forall k :: 0 <= k < |ids| ==> |SessionRows(ById(rows), ids[k])| > 0
    requires |c| == |ids|
    requires forall k :: 0 <= k < |ids| ==> c[k] == SubmissionOf(ById(rows), ids[k])
    requires multiset(all) == multiset(c)
    ensures forall i :: 0 <= i < |rows| ==> HasEntry(all, rows[i].sessionId)
  {
    forall i | 0 <= i < |rows| ensures HasEntry(all, rows[i].sessionId) {
      var j := ListedAt(rows, ids, c, all, rows[i].sessionId);
    }
  }

  lemma ListedAt(rows: seq<Rating>, ids: seq<string>, c: seq<Submission>, all: seq<Submission>, sid: string)
    returns (j: nat)
    requires sid in ids
    requires forall k :: 0 <= k < |ids| ==> |SessionRows(ById(rows), ids[k])| > 0
    requires |c| == |ids|
    requires forall k :: 0 <= k < |ids| ==> c[k] == SubmissionOf(ById(rows), ids[k])
    requires multiset(all) == multiset(c)
    ensures j < |all| && all[j].sessionId == sid
  {
    var k :| 0 <= k < |ids| && ids[k] == sid;
    assert c[k].sessionId == sid;
    assert c[k] in multiset(all);
    j :| 0 <= j < |all| && all[j] == c[k];
  }

  /** Every entry's session occurs in the table. */
  lemma EveryEntryHasRows(rows: seq<Rating>, all: seq<Submission>)
    requires forall j :: 0 <= j < |all| ==> |SessionRows(ById(rows), all[j].sessionId)| > 0
    ensures forall j :: 0 <= j < |all| ==> HasRow(rows, all[j].sessionId)
  {
    var byId := ById(rows);
    forall j | 0 <= j < |all| ensures HasRow(rows, all[j].sessionId) {
      var sid := all[j].sessionId;
      var r := SessionRows(byId, sid)[0];
      SessionRowsPermuted(rows, byId, sid);
      assert r in multiset(SessionRows(rows, sid));
      SessionRowsCount(rows, sid, r);
      assert r in rows;
      var i :| 0 <= i < |rows| && rows[i] == r;
    }
  }

  /**
   * The full submissions list (before truncation) has one entry per distinct
   * session of the table and no other, each describing its session, sorted
   * most recent first.
   */
  lemma SessionsListed(rows: seq<Rating>)
    ensures var all := AllSubmissions(rows);
      && |all| == |SessionIds(rows)|
      && ListsSessions(rows, all)
      && (forall i, j :: 0 <= i < j < |all| ==> all[i].submittedAt >= all[j].submittedAt)
  {
    var ids := SessionIds(rows);
    var c := Collected(ById(rows), ids);
    var all := AllSubmissions(rows);
    SessionIdsFacts(rows);
    CollectedAll(ById(rows), ids);
    assert multiset(all) == multiset(c);
    PermutedEntries(rows, ids, c, all);
    AllSubmissionsShape(rows);
  }

  /** The full list has one entry per session id and is sorted most recent first. */
  lemma AllSubmissionsShape(rows: seq<Rating>)
    ensures |AllSubmissions(rows)| == |SessionIds(rows)|
    ensures forall i, j :: 0 <= i < j < |AllSubmissions(rows)| ==>
              AllSubmissions(rows)[i].submittedAt >= AllSubmissions(rows)[j].submittedAt
  {
    SessionIdsFacts(rows);
    CollectedAll(ById(rows), SessionIds(rows));
    NewestFirst(AllSubmissions(rows));
  }

  lemma NewestFirst(all: seq<Submission>)
    requires SortedBy(all, NewestFirstKey)
    ensures forall i, j :: 0 <= i < j < |all| ==> all[i].submittedAt >= all[j].submittedAt
  {
    forall i, j | 0 <= i < j < |all| ensures all[i].submittedAt >= all[j].submittedAt {
      assert NewestFirstKey(all[i]) <= NewestFirstKey(all[j]);
    }
  }

  /**
   * `total_sessions` counts every session; the report lists the first 20 of
   * the newest-first list, so no unlisted session is newer than a listed one.
   */
  lemma ListingFacts(rows: seq<Rating>)
    ensures var st := StatsOf(rows); var all := AllSubmissions(rows); var listed := st.individualSubmissions;
      && st.overall.totalSessions == |all| == |SessionIds(rows)|
      && |listed| <= MAX_LISTED
      && |listed| == (if |all| <= MAX_LISTED then |all| else MAX_LISTED)
      && listed == all[..|listed|]
      && (forall i, j :: 0 <= i < |listed| <= j < |all| ==> listed[i].submittedAt >= all[j].submittedAt)
  {
    var all := AllSubmissions(rows);
    var st := StatsOf(rows);
    AllSubmissionsShape(rows);
    assert st.overall.totalSessions == |all|;
    assert st.individualSubmissions == all[..if |all| <= MAX_LISTED then |all| else MAX_LISTED];
    PrefixKeepsNewest(all, |st.individualSubmissions|);
  }

  lemma PrefixKeepsNewest(all: seq<Submission>, n: nat)
    requires n <= |all|
    requires forall i, j :: 0 <= i < j < |all| ==> all[i].submittedAt >= all[j].submittedAt
    ensures forall i, j :: 0 <= i < n <= j < |all| ==> all[..n][i].submittedAt >= all[j].submittedAt
  {
  }
}
