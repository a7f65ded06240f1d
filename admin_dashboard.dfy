/**
 * The admin dashboard's view state: the last statistics received, the last
 * fetch error, and the set of sessions whose details are expanded.
 *
 * Each poll of the statistics endpoint is handled by `ApplyFetch`, which takes
 * the poll's outcome as an input; the timer that repeats the poll is not part
 * of the model. The statistics document has the shape the backend's
 * statistics endpoint produces.
 */
module AdminDashboard {
  import opened Util
  import opened RatingsApi
  import opened RatingStatistics

  /** What reading the body of a response as JSON gave. */
  datatype Body = Parsed(data: Stats) | Unparsable(reason: string)

  /** The outcome of one poll of the statistics endpoint. */
  datatype FetchResult =
      /** a response arrived, with its `content-type` header if it had one */
    | Response(contentType: Option<string>, body: Body)
      /** the request failed before any response arrived */
    | NetworkFailure(reason: string)

  /** What the component renders. */
  datatype View = ErrorView(message: string) | Loading | Ready(stats: Stats)

  const JSON_TYPE := "application/json"
  const NON_JSON := "Received non-JSON response"
  const PREVIEW_LENGTH: nat := 200
  const ELLIPSIS := "..."

  /** `sub` occurs in `s` starting at index `i`. */
  predicate OccursAt(s: string, sub: string, i: int) {
    0 <= i <= |s| - |sub| && s[i..i + |sub|] == sub
  }

  /** `sub` occurs somewhere in `s` as a contiguous run (JavaScript's `includes`). */
  predicate Contains(s: string, sub: string) {
    exists i :: 0 <= i <= |s| - |sub| && OccursAt(s, sub, i)
  }

  /** The header announces JSON; a missing header does not. */
  predicate AnnouncesJson(contentType: Option<string>) {
    contentType.Some? && Contains(contentType.value, JSON_TYPE)
  }

  /**
   * The render-state choice: a set, non-empty error wins, then missing
   * statistics mean loading, otherwise the statistics are shown. An empty
   * error text is falsy in JavaScript and so does not count as an error.
   */
  function ViewOf(error: Option<string>, stats: Option<Stats>): (v: View)
    ensures v.ErrorView? <==> error.Some? && error.value != ""
    ensures v.ErrorView? ==> v.message == error.value
    ensures v.Loading? <==> (error.None? || error.value == "") && stats.None?
    ensures v.Ready? <==> (error.None? || error.value == "") && stats.Some?
    ensures v.Ready? ==> v.stats == stats.value
  {
    if error.Some? && error.value != "" then ErrorView(error.value)
    else if stats.None? then Loading
    else Ready(stats.value)
  }

  /** The expanded set after clicking the header of session `id`. */
  function Toggled(expanded: set<string>, id: string): (r: set<string>)
    ensures id in r <==> id !in expanded
    ensures forall other :: other != id ==> (other in r <==> other in expanded)
  {
    if id in expanded then expanded - {id} else expanded + {id}
  }

  /** Clicking the same header twice restores the expanded set. */
  lemma ToggleTwice(expanded: set<string>, id: string)
    ensures Toggled(Toggled(expanded, id), id) == expanded
  {
    var once := Toggled(expanded, id);
    var twice := Toggled(once, id);
    forall x ensures x in twice <==> x in expanded {
      if x == id {
        assert x in twice <==> x !in once;
      }
    }
  }

  /** Clicks on two different headers commute. */
  lemma TogglesCommute(expanded: set<string>, a: string, b: string)
    ensures Toggled(Toggled(expanded, a), b) == Toggled(Toggled(expanded, b), a)
  {
    var ab := Toggled(Toggled(expanded, a), b);
    var ba := Toggled(Toggled(expanded, b), a);
    forall x ensures x in ab <==> x in ba {
    }
  }

  /**
   * The original text as the details table shows it: the first 200
   * characters, followed by an ellipsis exactly when the text is longer.
   */
  function Preview(text: string): (r: string)
    ensures |text| <= PREVIEW_LENGTH ==> r == text
    ensures |text| > PREVIEW_LENGTH ==> |r| == PREVIEW_LENGTH + |ELLIPSIS| &&
                                        r[..PREVIEW_LENGTH] == text[..PREVIEW_LENGTH] &&
                                        r[PREVIEW_LENGTH..] == ELLIPSIS
  {
    if |text| > PREVIEW_LENGTH then text[..PREVIEW_LENGTH] + ELLIPSIS else text
  }

  /** A preview of a preview is the same preview. */
  lemma PreviewIdempotent(text: string)
    ensures Preview(Preview(text)) == Preview(text)
  {
    if |text| > PREVIEW_LENGTH {
      var p := Preview(text);
      assert p[..PREVIEW_LENGTH] == text[..PREVIEW_LENGTH];
    }
  }

  /** A preview is never longer than 203 characters and starts like the text. */
  lemma PreviewBounds(text: string)
    ensures |Preview(text)| <= PREVIEW_LENGTH + |ELLIPSIS|
    ensures var n := if |text| < PREVIEW_LENGTH then |text| else PREVIEW_LENGTH;
            Preview(text)[..n] == text[..n]
  {
  }

  /** One row of an expanded submission's details table. */
  datatype DetailRow = DetailRow(summaryId: int, originalText: string, aiSummary: string, ratingValue: int)

  /** One card of the submissions list. */
  datatype Card = Card(number: nat, sessionId: string, submittedAt: int, details: Option<seq<DetailRow>>)

  function DetailRowOf(r: Rating): DetailRow {
    DetailRow(r.summaryId, Preview(r.promptText), r.aiSummary, r.ratingValue)
  }

  function DetailsOf(ratings: seq<Rating>): (rows: seq<DetailRow>)
    ensures |rows| == |ratings|
    ensures forall k :: 0 <= k < |ratings| ==> rows[k] == DetailRowOf(ratings[k])
  {
    seq(|ratings|, k requires 0 <= k < |ratings| => DetailRowOf(ratings[k]))
  }

  /**
   * The submission cards, numbered from 1 in list order; a card carries its
   * details table exactly when its session is expanded.
   */
  function Cards(subs: seq<Submission>, expanded: set<string>): (cards: seq<Card>)
    ensures |cards| == |subs|
    ensures forall i :: 0 <= i < |subs| ==>
              && cards[i].number == i + 1
              && cards[i].sessionId == subs[i].sessionId
              && cards[i].submittedAt == subs[i].submittedAt
              && (cards[i].details.Some? <==> subs[i].sessionId in expanded)
              && (cards[i].details.Some? ==> cards[i].details.value == DetailsOf(subs[i].ratings))
  {
    seq(|subs|, i requires 0 <= i < |subs| =>
      Card(i + 1, subs[i].sessionId, subs[i].submittedAt,
           if subs[i].sessionId in expanded then Some(DetailsOf(subs[i].ratings)) else None))
  }

  /** Clicking one card's header opens or closes that session's cards and no other card. */
  lemma ToggleChangesOnlyThatSession(subs: seq<Submission>, expanded: set<string>, id: string)
    ensures var before := Cards(subs, expanded);
            var after := Cards(subs, Toggled(expanded, id));
            forall i :: 0 <= i < |subs| ==>
              if subs[i].sessionId == id then after[i].details.Some? == before[i].details.None?
              else after[i] == before[i]
  {
  }

  class Dashboard {
    var stats: Option<Stats>
    var error: Option<string>
    var expanded: set<string>

    /** A freshly mounted dashboard: nothing received, no error, nothing expanded. */
    constructor ()
      ensures stats == None && error == None && expanded == {}
      ensures CurrentView() == Loading
    {
      stats := None;
      error := None;
      expanded := {};
    }

    /** What the component renders in its current state. */
    function CurrentView(): View
      reads this
    {
      ViewOf(error, stats)
    }

    /** `toggleSession`: flips one session's membership in the expanded set. */
    method ToggleSession(id: string)
      modifies this
      ensures expanded == Toggled(old(expanded), id)
      ensures stats == old(stats) && error == old(error)
    {
      var next := expanded;
      if id in next {
        next := next - {id};
      } else {
        next := next + {id};
      }
      expanded := next;
    }

    /**
     * One poll of the statistics endpoint. A JSON response replaces the
     * statistics wholesale and leaves any earlier error in place; a response
     * without a JSON content type, a body that does not parse and a network
     * failure each set the error to their message and leave the statistics.
     */
    method ApplyFetch(result: FetchResult)
      modifies this
      ensures expanded == old(expanded)
      ensures result.Response? && AnnouncesJson(result.contentType) && result.body.Parsed? ==>
                stats == Some(result.body.data) && error == old(error)
      ensures result.Response? && !AnnouncesJson(result.contentType) ==>
                stats == old(stats) && error == Some(NON_JSON)
      ensures result.Response? && AnnouncesJson(result.contentType) && result.body.Unparsable? ==>
                stats == old(stats) && error == Some(result.body.reason)
      ensures result.NetworkFailure? ==> stats == old(stats) && error == Some(result.reason)
      ensures old(CurrentView()).ErrorView? && result.Response? && AnnouncesJson(result.contentType) &&
              result.body.Parsed? ==>
                CurrentView() == old(CurrentView())
    {
      match result {
        case NetworkFailure(reason) =>
          error := Some(reason);
        case Response(contentType, body) =>
          if contentType.Some? && Contains(contentType.value, JSON_TYPE) {
            match body {
              case Parsed(data) => stats := Some(data);
              case Unparsable(reason) => error := Some(reason);
            }
          } else {
            error := Some(NON_JSON);
          }
      }
    }

    /**
     * Poll handling with recovery: as `ApplyFetch`, except that a successful
     * poll also clears any earlier error, so the new statistics are shown.
     */
    method ApplyFetchRecovering(result: FetchResult)
      modifies this
      ensures expanded == old(expanded)
      ensures result.Response? && AnnouncesJson(result.contentType) && result.body.Parsed? ==>
                stats == Some(result.body.data) && error == None && CurrentView() == Ready(result.body.data)
      ensures result.Response? && !AnnouncesJson(result.contentType) ==>
                stats == old(stats) && error == Some(NON_JSON)
      ensures result.Response? && AnnouncesJson(result.contentType) && result.body.Unparsable? ==>
                stats == old(stats) && error == Some(result.body.reason)
      ensures result.NetworkFailure? ==> stats == old(stats) && error == Some(result.reason)
    {
      ApplyFetch(result);
      if result.Response? && AnnouncesJson(result.contentType) && result.body.Parsed? {
        error := None;
      }
    }
  }

  lemma JsonTypeIsJson()
    ensures AnnouncesJson(Some(JSON_TYPE))
  {
    assert OccursAt(JSON_TYPE, JSON_TYPE, 0);
  }

  /**
   * A freshly mounted dashboard whose first poll comes back without a JSON
   * content type and whose second poll succeeds: the view still shows the
   * first poll's error.
   */
  method StaleErrorScenario(data: Stats) returns (view: View)
    ensures view == ErrorView(NON_JSON)
  {
    var dashboard := new Dashboard();
    dashboard.ApplyFetch(Response(None, Parsed(data)));
    JsonTypeIsJson();
    dashboard.ApplyFetch(Response(Some(JSON_TYPE), Parsed(data)));
    view := dashboard.CurrentView();
  }

  /** The same two polls with recovery: the view shows the second poll's statistics. */
  method RecoveryScenario(data: Stats) returns (view: View)
    ensures view == Ready(data)
  {
    var dashboard := new Dashboard();
    dashboard.ApplyFetchRecovering(Response(None, Parsed(data)));
    JsonTypeIsJson();
    dashboard.ApplyFetchRecovering(Response(Some(JSON_TYPE), Parsed(data)));
    view := dashboard.CurrentView();
  }

  /** A successful poll never clears a shown error: the error stays on screen. */
  lemma ErrorPersists(error: Option<string>, stats: Option<Stats>, data: Stats)
    requires ViewOf(error, stats).ErrorView?
    ensures ViewOf(error, Some(data)) == ViewOf(error, stats)
  {
  }

  /** Without an earlier error, a successful poll shows exactly the statistics received. */
  lemma ReadyAfterSuccess(error: Option<string>, data: Stats)
    requires error.None?
    ensures ViewOf(error, Some(data)) == Ready(data)
  {
  }

  /** The JSON content type with a charset parameter still counts as JSON. */
  lemma CharsetStillJson()
    ensures AnnouncesJson(Some("application/json; charset=utf-8"))
    ensures !AnnouncesJson(Some("text/html")) && !AnnouncesJson(None)
  {
    assert OccursAt("application/json; charset=utf-8", JSON_TYPE, 0);
  }
}
