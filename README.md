# EHR summary rating survey — verified model

The survey shows clinicians a fixed list of EHR summaries next to
AI-generated summaries. Each AI summary is rated on a 1–5 scale, and the
ratings are posted as one batch to a Flask backend. The backend stores them
under a fresh session id. An admin dashboard polls an aggregate report of
all stored ratings.

The model has six modules:

- `Util` (`util.dfy`) holds the sequence helpers the others share: an
  option type, first-appearance `Distinct`, `SortBy`, and `Sum`, `Min` and
  `Max` of a column.

- `RatingsApi` (`ratings_api.dfy`) is the write side of the backend. The
  `ratings` table is the sequence `RatingTable.rows`, and the primary-key
  sequence is `RatingTable.nextRatingId`. `AddRatings` is the all-or-nothing
  batch ingestion of `POST /api/ratings`. `ResetRatings` is
  `POST /api/reset_ratings`.
- `RatingStatistics` (`rating_statistics.dfy`) is `GET /api/ratings/stats`.
  The report is the function `StatsOf` of the table's rows. The method
  `GetRatingStats` builds the submissions list session by session, as the
  handler does, and is proved equal to it. Lemmas state what the report
  means: counts that sum to the row count, attained minimum and maximum,
  one entry per session, newest first, at most 20 listed.
- `SummaryRatingForm` (`rating_form.dfy`) is the rating form component. Its
  state is the fields `ratings`, `message` and `isSubmitting`. A submit
  attempt is split at the network call. `BeginSubmit` runs the validation
  and builds the batch. `FinishSubmit` takes the request's outcome as an
  input and runs the response and error handling.
- `AdminDashboard` (`admin_dashboard.dfy`) is the dashboard component. Its
  state is `stats`, `error` and the expanded-session set. It covers the
  render-state choice, the header toggle, one poll's effect and the
  200-character preview of original texts.
- `Survey` (`survey.dfy`) connects the two ends. Every batch the form can
  post from a non-empty catalogue passes the backend's validation, and a
  complete submission from such a catalogue stores one row per summary, after
  which the form clears. An empty catalogue posts `[]`, which is refused. Because the catalogue's ids are
  1, 2, … in list order, each stored `summary_id` is the id of the summary
  that was rated.

The session UUID, the insertion clock and every network response are
parameters of the operations that use them.

## Model

| member | source | states |
|---|---|---|
| `Util.Distinct` | BackEnd/app.py:161 | The distinct session ids: no repetitions, every value of the column occurs, and nothing else. |
| `Util.SortBy` | BackEnd/app.py:175 | Sort by an integer key: the result is ordered by the key and is a permutation of the input. |
| `Util.Min` | BackEnd/app.py:141 | `MIN` of a non-empty column is one of its values and is at most every value. |
| `Util.Max` | BackEnd/app.py:142 | `MAX` of a non-empty column is one of its values and is at least every value. |
| `RatingsApi.FirstInvalid` | BackEnd/app.py:90-95 | No rejection exactly when every entry passes. Otherwise the rejection is the one earned by the first failing entry. |
| `RatingsApi.FirstInvalidAt` | BackEnd/app.py:90-95 | When entries before position i pass and entry i fails, entry i's error is the reply. |
| `RatingsApi.RatingTable.constructor` | BackEnd/app.py:31-40 | The table starts empty, and the id sequence starts at 1. |
| `RatingsApi.RatingTable.AddRatings` | BackEnd/app.py:80-108 | Reply 201 exactly when the payload is a non-empty list whose entries all pass. An empty payload or a non-list gets the format error. A failing entry gets the first failing entry's error (missing fields before bad rating). A rejected batch leaves the table and id sequence unchanged. An accepted batch appends one row per entry: fresh consecutive ids, one session id, `summary_id = i+1`, and the entry's texts and rating. The table invariant (ratings 1..5, increasing ids) is kept. |
| `RatingsApi.RatingTable.ResetRatings` | BackEnd/app.py:66-73 | The table is empty, the id sequence is not rewound, and the reply is 200 with the cleared message. |
| `RatingStatistics.GetRatingStats` | BackEnd/app.py:134-197 | The loop that collects a session at a time and the newest-first sort yield exactly the report `StatsOf`. |
| `RatingStatistics.CollectedStep` | BackEnd/app.py:164-172 | One more session id extends the collected list by that session's entry, or by nothing when it has no rows. |
| `RatingStatistics.OverallFacts` | BackEnd/app.py:138-183 | `total_ratings` is the row count. Min and max are attained bounds of the ratings with min ≤ max. An empty table reports 0 for both. |
| `RatingStatistics.OverallRange` | BackEnd/app.py:138-143 | On a table of validated rows that is not empty, 1 ≤ min ≤ max ≤ 5. |
| `RatingStatistics.SelectCount` | BackEnd/app.py:146-149 | A group holds as many ratings as there are rows with its key. |
| `RatingStatistics.SelectWithin` | BackEnd/app.py:152-158 | Bounds that hold of every rating hold of every rating in a group. |
| `RatingStatistics.GroupSizesSum` | BackEnd/app.py:146-158 | Groups over distinct keys that cover every row partition the rows, so their sizes add up to the row count. |
| `RatingStatistics.KeyListFacts` | BackEnd/app.py:146-158 | The `GROUP BY` keys are exactly the column's values, each once. |
| `RatingStatistics.GroupSizes` | BackEnd/app.py:146-158 | Every group is non-empty and counts the rows carrying its key. |
| `RatingStatistics.DistributionFacts` | BackEnd/app.py:146-149 | `distribution` has a key for exactly the rating values present. Each count is the number of rows with that value. The counts sum to `total_ratings`. |
| `RatingStatistics.SummaryFacts` | BackEnd/app.py:152-158 | `summary_statistics` has a key for exactly the summary ids present. Each count is that summary's row count, is positive and has min ≤ max. The counts sum to `total_ratings`. |
| `RatingStatistics.SummaryRange` | BackEnd/app.py:152-158 | On validated rows, every per-summary min and max lies in 1..5. |
| `RatingStatistics.SessionRowsCount` | BackEnd/app.py:165 | A session's rows are the table's rows of that session, with their multiplicities. |
| `RatingStatistics.SessionRowsSorted` | BackEnd/app.py:165 | Filtering a table ordered by summary id keeps it ordered by summary id. |
| `RatingStatistics.SubmissionOfDescribes` | BackEnd/app.py:165-172 | A session's entry holds the session's rows ordered by summary id. It is stamped with the first row's time and carries the sum of its ratings. |
| `RatingStatistics.SessionIdsFacts` | BackEnd/app.py:161 | The distinct session ids have no repetitions, cover every row, and each has rows. |
| `RatingStatistics.CollectedAll` | BackEnd/app.py:164-172 | When every session has rows (the `if session_ratings` guard never skips), the list has one entry per id, in id order. |
| `RatingStatistics.PermutedEntries` | BackEnd/app.py:161-175 | Any reordering of the collected entries lists each session of the table once and describes it. |
| `RatingStatistics.EntriesAreSubmissions` | BackEnd/app.py:164-175 | In any reordering of the collected list, each entry is its own session's entry, and no session occurs twice. |
| `RatingStatistics.EverySessionListed` | BackEnd/app.py:161-175 | Every session that has a row in the table has an entry. |
| `RatingStatistics.EveryEntryHasRows` | BackEnd/app.py:164-166 | Every entry's session has a row in the table. |
| `RatingStatistics.SessionsListed` | BackEnd/app.py:161-175 | The full submissions list has one entry per distinct session and no other. Each entry describes its session, and the list is sorted newest first. |
| `RatingStatistics.AllSubmissionsShape` | BackEnd/app.py:174-175 | The full list is as long as the distinct session list and is newest first. |
| `RatingStatistics.ListingFacts` | BackEnd/app.py:175-196 | `total_sessions` counts every session before truncation. At most 20 entries are listed, as a prefix of the newest-first list, so no unlisted session is newer than a listed one. |
| `SummaryRatingForm.CountCheckMeansComplete` | FrontEnd/frontend/frontend/src/components/SummaryRatingForm.js:21 | With only catalogue ids rated and distinct ids, the key-count check passes exactly when every summary is rated. |
| `SummaryRatingForm.BuildBatch` | FrontEnd/frontend/frontend/src/components/SummaryRatingForm.js:31-35 | The batch has one element per summary in catalogue order. Element i carries summary i's texts and its rating. |
| `SummaryRatingForm.BatchInRange` | FrontEnd/frontend/frontend/src/components/SummaryRatingForm.js:31-35 | A batch built from ratings on the scale carries only ratings on the scale. |
| `SummaryRatingForm.FailureText` | FrontEnd/frontend/frontend/src/components/SummaryRatingForm.js:49-54 | The failure message is the server's `error` text when it is present and non-empty. Otherwise, including an empty `error` string, it is the generic text. It is never empty. |
| `SummaryRatingForm.RatingForm.constructor` | FrontEnd/frontend/frontend/src/components/SummaryRatingForm.js:6-8 | No ratings, an empty message, and not submitting. |
| `SummaryRatingForm.RatingForm.HandleRating` | FrontEnd/frontend/frontend/src/components/SummaryRatingForm.js:10-17 | Sets one key, keeps every other key and clears the message. |
| `SummaryRatingForm.RatingForm.Click` | FrontEnd/frontend/frontend/src/components/SummaryRatingForm.js:84-88 | A click on a scale value rates the summary unless a submission is in flight, in which case nothing changes. Only 1..5 can be chosen. |
| `SummaryRatingForm.RatingForm.BeginSubmit` | FrontEnd/frontend/frontend/src/components/SummaryRatingForm.js:19-35 | An incomplete form gets the validation message, no request is made, and `isSubmitting` is untouched. A complete form goes in flight and posts the batch built from its ratings. |
| `SummaryRatingForm.RatingForm.FinishSubmit` | FrontEnd/frontend/frontend/src/components/SummaryRatingForm.js:37-57 | A 201 answer clears the ratings and shows the success text. Any other outcome keeps the ratings and shows `FailureText`. `isSubmitting` ends false. |
| `SummaryRatingForm.RatingForm.HandleSubmit` | FrontEnd/frontend/frontend/src/components/SummaryRatingForm.js:19-58 | A whole attempt from the enabled button posts the batch of the ratings held before the attempt. It ends with the success or failure state above and not in flight. |
| `SummaryRatingForm.EnabledExactlyWhenComplete` | FrontEnd/frontend/frontend/src/components/SummaryRatingForm.js:107 | The button is enabled exactly when no submission is in flight and every catalogue summary is rated. |
| `AdminDashboard.ViewOf` | FrontEnd/frontend/frontend/src/components/Dashboard.js:39-40 | A non-empty error wins. Without one, missing statistics mean loading, and otherwise the statistics are shown. |
| `AdminDashboard.Toggled` | FrontEnd/frontend/frontend/src/components/Dashboard.js:29-37 | The clicked id's membership flips, and every other id's membership is unchanged. |
| `AdminDashboard.ToggleTwice` | FrontEnd/frontend/frontend/src/components/Dashboard.js:29-37 | Toggling the same id twice restores the set. |
| `AdminDashboard.TogglesCommute` | FrontEnd/frontend/frontend/src/components/Dashboard.js:29-37 | Toggles of two ids commute. |
| `AdminDashboard.Preview` | FrontEnd/frontend/frontend/src/components/Dashboard.js:163-164 | A text of at most 200 characters is shown unchanged. A longer one is shown as its first 200 characters followed by `...`. |
| `AdminDashboard.PreviewIdempotent` | FrontEnd/frontend/frontend/src/components/Dashboard.js:163-164 | Previewing a preview changes nothing. |
| `AdminDashboard.PreviewBounds` | FrontEnd/frontend/frontend/src/components/Dashboard.js:163-164 | A preview has at most 203 characters and starts like the text. |
| `AdminDashboard.DetailsOf` | FrontEnd/frontend/frontend/src/components/Dashboard.js:159-175 | One details row per rating of the session, in order, showing the previewed original text. |
| `AdminDashboard.Cards` | FrontEnd/frontend/frontend/src/components/Dashboard.js:123-181 | One card per listed submission, numbered from 1. A card carries its details table exactly when its session is expanded. |
| `AdminDashboard.ToggleChangesOnlyThatSession` | FrontEnd/frontend/frontend/src/components/Dashboard.js:143-147 | A header click opens or closes only the cards of that session. |
| `AdminDashboard.Dashboard.constructor` | FrontEnd/frontend/frontend/src/components/Dashboard.js:4-6 | No statistics, no error, nothing expanded, and the view is loading. |
| `AdminDashboard.Dashboard.ToggleSession` | FrontEnd/frontend/frontend/src/components/Dashboard.js:29-37 | The expanded set becomes `Toggled` of the old one. Statistics and error are untouched. |
| `AdminDashboard.Dashboard.ApplyFetch` | FrontEnd/frontend/frontend/src/components/Dashboard.js:9-22 | A JSON response replaces the statistics and keeps the error, so a shown error stays shown. A non-JSON response, an unparsable body or a network failure sets the error and keeps the statistics. |
| `AdminDashboard.Dashboard.ApplyFetchRecovering` | FrontEnd/frontend/frontend/src/components/Dashboard.js:18 | The corrected poll handling: a successful poll also clears the error, so the new statistics are shown. |
| `AdminDashboard.StaleErrorScenario` | FrontEnd/frontend/frontend/src/components/Dashboard.js:18-22 | A non-JSON poll followed by a successful one still shows the non-JSON error. |
| `AdminDashboard.RecoveryScenario` | FrontEnd/frontend/frontend/src/components/Dashboard.js:18-22 | With recovery, the same two polls show the second poll's statistics. |
| `AdminDashboard.ErrorPersists` | FrontEnd/frontend/frontend/src/components/Dashboard.js:39 | While an error is shown, replacing the statistics does not change the view. |
| `AdminDashboard.ReadyAfterSuccess` | FrontEnd/frontend/frontend/src/components/Dashboard.js:18 | Without an error, a successful poll shows exactly the statistics received. |
| `AdminDashboard.CharsetStillJson` | FrontEnd/frontend/frontend/src/components/Dashboard.js:12 | The content-type test is a substring test: `application/json; charset=utf-8` passes, while `text/html` and a missing header do not. |
| `Survey.ToPayload` | FrontEnd/frontend/frontend/src/components/SummaryRatingForm.js:31-37 | The posted array has one entry per batch element, with all three fields and an integer rating. |
| `Survey.FormBatchAccepted` | BackEnd/app.py:84-95 | Every batch the form can post from a non-empty catalogue passes all of the backend's checks. |
| `Survey.PayloadStored` | BackEnd/app.py:97-103 | Rows stored from the form's posted array, one per entry with the entry's texts and rating, are the form's batch (`StoredBatch`). |
| `Survey.StoredIdsMatch` | BackEnd/app.py:99 | When the catalogue's ids are 1.. in list order, each stored `summary_id` is the id of the summary that was rated. |
| `Survey.PostBatch` | BackEnd/app.py:80-108 | Posting the form's batch of a complete, in-range set of ratings stores it as `StoredBatch` after the old rows and replies 201. From an empty catalogue it replies with the format error and leaves the rows and the id sequence unchanged. |
| `Survey.SubmitEndToEnd` | FrontEnd/frontend/frontend/src/components/SummaryRatingForm.js:19-58 | A complete submission appends `StoredBatch` of the ratings held before the attempt under the fresh session id. The form then clears and shows success. An empty catalogue is refused with the format error, leaving the rows and the id sequence unchanged, and the form shows the error with its ratings kept. |

## Left out

- Flask routing, SQLAlchemy sessions, commits and rollbacks, CORS, logging and `init_db` are not modelled. The table is a sequence and a commit is the append of the staged rows.
- The 500 replies of every handler are not modelled. Besides a database failure, `add_ratings` answers 500 when:
  - the body is not valid JSON, or (on Flask 2.1 and later) the request lacks a JSON content type, since reading `request.json` raises inside the `try`; `RatingsApi.Payload` holds only parsed JSON values;
  - an entry is not a JSON object and the key test raises (a number in the array);
  - an entry is a string or a list holding all three key names, which passes the key test, and then indexing it by `'rating'` raises.
- `uuid.uuid4()` and `datetime.utcnow` are parameters: every row of a batch gets the same `now`. In the source `datetime.utcnow` is a column default (app.py:40) evaluated once per inserted row, so the rows of one batch may differ by microseconds; the model ignores that difference.
- `RatingStatistics.GetRatingStats` reads one snapshot of the rows. The source runs separate queries (app.py:138, 146, 152, 161, 165) and `app.run` serves requests on threads, so a concurrent post or reset can make its figures disagree with one another. That interleaving is also the only way the `if session_ratings` guard (app.py:166) skips a session; the model keeps the guard but, on one snapshot, it never skips.
- `get_ratings` (`GET /api/ratings`) is not modelled: its pagination comes from a library whose behaviour is not part of this model.
- `BackEnd/test_dashboard.py`, `App.js` and `New Files/data-dashboard.js` are not part of this model. They are a seeding script, routing, and an older copy of the dashboard that the app does not route to.
- Python's bool-is-int quirk in `isinstance(entry['rating'], int)` is not modelled: `RatingField` separates integers from everything else.
- Payload entries that are not JSON objects are not modelled; each entry is an object with some of the three keys. The source answers such entries with the 500 reply above or, for a list or string lacking a key name, with the missing-fields error.
- `RatingsApi.Entry`: the `prompt_text` and `ai_summary` values are strings; the model cannot express an entry whose key holds another JSON value. The source's checks let such an entry through. A `null` then fails at commit on the non-null text columns (app.py:37-38) with the 500 reply, and a number, list or object is handed to the database driver, whose conversion is not part of this model.
- `Util.SortBy`: its contract states ordered and a permutation, not stability. The model's insertion sort does keep ties in input order, and `RatingStatistics` relies on that only through `GetRatingStats` being proved equal to `StatsOf`, which uses the same sort.
- `AdminDashboard.Dashboard.ApplyFetch`: a JSON body that is not a statistics document is not modelled. The source stores any JSON body as `stats` whatever the HTTP status, so the backend's own 500 reply `{"error": ...}` becomes `stats`, and the ready view then reads `overall_statistics` of undefined and the render throws.
- SQL `SELECT DISTINCT` has no defined order. The model lists sessions in order of first appearance, and the later newest-first sort is stable.
- `RatingStatistics.GetRatingStats`: averages (`average_rating`, `session_average`) are kept as a sum and a count rather than floats. `submitted_at` is an integer time rather than an ISO string, because strings of one format sort as their times do.
- `RatingStatistics.GetRatingStats`: the per-session query is modelled as filtering the table after a stable sort by summary id. That is the same as sorting each session's rows by summary id while keeping the table order for ties.
- The form's `message` kind `''` is `Plain`; the markup, styling and `console.error` calls are not modelled.
- `fetch`, `axios` and the 5-second `setInterval` and its clean-up on unmount are not modelled. Each poll result and each post outcome is an input value.
- The dashboard's float presentation (`toFixed`, the percentage column), `toLocaleString` dates and the JSX tables of overall, per-summary and distribution figures are not modelled beyond the submissions list.
- Characters are Dafny `char`s; JavaScript's UTF-16 code units (which `substring` and `length` count) are not distinguished from them.
- The summary catalogue's texts are not modelled: the form takes any catalogue with distinct ids, and `Survey.NumberedByPosition` states the id layout the catalogue has.

## Findings

| source | as written | input that shows it | evidently intended | confidence | as-written member | corrected member |
|---|---|---|---|---|---|---|
| FrontEnd/frontend/frontend/src/components/Dashboard.js:18 | A successful poll sets the statistics but never clears `error`, and the view checks `error` first, so the dashboard shows a past failure for as long as it stays mounted. | A poll whose response lacks a JSON content type, then a poll that returns statistics. | The polling recovers: a successful poll shows the new statistics. | not executed; medium: the five-second polling only makes sense if a later poll can replace an error | `AdminDashboard.StaleErrorScenario` | `AdminDashboard.Dashboard.ApplyFetchRecovering` |
