/**
 * The search button handler (`on_fetch_button_clicked`): it checks the API
 * key, marks the window as loading, runs the search, unpacks its three
 * results and either shows the error or shows the ranked table. The
 * window is modelled as the value of the few parts the handler changes.
 */
module FetchAction {
  import opened Wrappers
  import opened Places
  import opened Pagination
  import opened Search
  import opened ResultsTable
  import opened Longitude

  const MissingKeyMessage := "API key is not set. Please set it in Settings."
  const LoadingText := "Loading..."
  const UnpackError := "ValueError: not enough values to unpack (expected 3, got 2)"

  /** The tuple the search returns: two items on its error path, three otherwise. */
  datatype Returned =
    | Pair(first: Option<seq<Place>>, second: string)
    | Triple(originalOrder: Option<seq<Place>>, places: Option<seq<Place>>, error: Option<string>)

  /** The search's return statements as written: `None, error_msg` on failure. */
  function ReturnAsWritten(outcome: Result<SearchResult, string>): Returned {
    match outcome
    case Failure(msg) => Pair(None, msg)
    case Success(res) => Triple(Some(res.originalOrder), Some(res.ranked), None)
  }

  /** The error return with the arity the caller unpacks: `None, None, error_msg`. */
  function ReturnCorrected(outcome: Result<SearchResult, string>): Returned {
    match outcome
    case Failure(msg) => Triple(None, None, Some(msg))
    case Success(res) => Triple(Some(res.originalOrder), Some(res.ranked), None)
  }

  /** The parts of the window the handler changes. */
  datatype Window = Window(
    statusText: string,
    fetchEnabled: bool,
    errorsShown: seq<string>,
    lastPlaces: seq<Place>,
    lastOriginalOrder: seq<Place>,
    table: seq<RankCell>)

  /** How the handler ends: normally, or by an exception escaping it. */
  datatype HandlerEnd = Completed(window: Window) | Raised(window: Window, exception: string)

  /**
   * The handler after the search has returned `returned`. An exception
   * leaves the window as it was when raised: still loading, button disabled.
   * A missing original order is the empty list, as in the results table.
   * (A three-item return with no error and no ranked list, which no search
   * produces, raises at `len(places)` after saving the original order.)
   */
  function OnFetchClicked(w: Window, apiKey: string, returned: Returned): HandlerEnd {
    if apiKey == "" then Completed(w.(errorsShown := w.errorsShown + [MissingKeyMessage]))
    else
      var loading := w.(statusText := LoadingText, fetchEnabled := false);
      match returned
      case Pair(_, _) => Raised(loading, UnpackError)
      case Triple(originalOrder, places, error) =>
        if error.Some? && error.value != "" then
          Completed(loading.(errorsShown := w.errorsShown + [error.value], statusText := "", fetchEnabled := true))
        else if places.None? then
          Raised(loading.(lastOriginalOrder := originalOrder.GetOr([])),
                 "TypeError: object of type 'NoneType' has no len()")
        else
          var orig := originalOrder.GetOr([]);
          var n := TableSize(places.value, orig);
          Completed(loading.(
            lastPlaces := places.value,
            lastOriginalOrder := orig,
            table := seq(|places.value|, row requires 0 <= row < |places.value| =>
                           RowCell(places.value[row], row, orig, n)),
            statusText := "",
            fetchEnabled := true))
  }

  /** Every search failure carries a non-empty message (it starts with "Error: "). */
  lemma SearchErrorNonEmpty(pages: seq<Response>, latitude: real, longitude: real, radius: real,
                            minReviews: int, dist: (real, real, real, real) -> real)
    requires Ends(pages)
    requires TextSearch(pages, latitude, longitude, radius, minReviews, dist).Failure?
    ensures var e := TextSearch(pages, latitude, longitude, radius, minReviews, dist).error;
      e == ErrorMessage(pages[LastPage(pages)]) && |e| > 0
  {
  }

  /**
   * As written, a failed search never reaches the error dialog: unpacking
   * the two-item tuple raises, and the window stays "Loading..." with the
   * search button disabled.
   */
  lemma AsWrittenSearchErrorEscapes(w: Window, apiKey: string, pages: seq<Response>, latitude: real,
                                    longitude: real, radius: real, dist: (real, real, real, real) -> real)
    requires apiKey != "" && Ends(pages)
    requires TextSearch(pages, latitude, longitude, radius, 0, dist).Failure?
    ensures var end := OnFetchClicked(w, apiKey, ReturnAsWritten(TextSearch(pages, latitude, longitude, radius, 0, dist)));
      && end.Raised?
      && end.window.statusText == LoadingText
      && !end.window.fetchEnabled
      && end.window.errorsShown == w.errorsShown
  {
  }

  /** A provider answering 403 to the first request: the as-written handler raises. */
  lemma AsWrittenForbiddenExample(w: Window, dist: (real, real, real, real) -> real)
    ensures var pages := [Response(403, "denied", [], None)];
      Ends(pages) &&
      OnFetchClicked(w, "key", ReturnAsWritten(TextSearch(pages, 48.0, 2.0, 50000.0, 0, dist))).Raised?
  {
  }

  /**
   * With the three-item error return, every failed search shows its
   * message and restores the window; successful searches are handled as
   * before.
   */
  lemma CorrectedSearchErrorShown(w: Window, apiKey: string, pages: seq<Response>, latitude: real,
                                  longitude: real, radius: real, dist: (real, real, real, real) -> real)
    requires apiKey != "" && Ends(pages)
    ensures var outcome := TextSearch(pages, latitude, longitude, radius, 0, dist);
      var end := OnFetchClicked(w, apiKey, ReturnCorrected(outcome));
      && end.Completed?
      && end.window.statusText == ""
      && end.window.fetchEnabled
      && (outcome.Failure? ==> end.window.errorsShown == w.errorsShown + [outcome.error])
      && (outcome.Success? ==> end == OnFetchClicked(w, apiKey, ReturnAsWritten(outcome)))
  {
  }

  /**
   * The whole button press with the corrected return: the centre longitude
   * is normalised, the radius converted from kilometres, the search run
   * with no review minimum, and its result shown.
   */
  function FetchButtonClicked(w: Window, apiKey: string, latitude: real, longitude: real, radiusKm: int,
                              pages: seq<Response>, dist: (real, real, real, real) -> real): HandlerEnd
    requires Ends(pages)
  {
    var outcome := TextSearch(pages, latitude, NormalizeLongitude(longitude), (radiusKm * 1000) as real, 0, dist);
    OnFetchClicked(w, apiKey, ReturnCorrected(outcome))
  }

  /**
   * After a successful search, the table rows are the ranked records; each
   * shows a rank in 1..n and a relevance in [0, 1], and a record with a
   * non-empty id shows the position of its id's last occurrence in the
   * original order.
   */
  lemma FetchedTableRanks(w: Window, apiKey: string, latitude: real, longitude: real, radiusKm: int,
                          pages: seq<Response>, dist: (real, real, real, real) -> real)
    requires apiKey != "" && Ends(pages)
    requires TextSearch(pages, latitude, NormalizeLongitude(longitude), (radiusKm * 1000) as real, 0, dist).Success?
    ensures var end := FetchButtonClicked(w, apiKey, latitude, longitude, radiusKm, pages, dist);
      var win := end.window;
      var n := |win.lastOriginalOrder|;
      && end.Completed?
      && |win.table| == |win.lastPlaces|
      && (forall row :: 0 <= row < |win.table| ==>
            && 1 <= win.table[row].rank <= n
            && 0.0 <= win.table[row].relevance <= 1.0
            && (win.lastPlaces[row].id.Some? && win.lastPlaces[row].id.value != "" ==>
                  && OriginalIndex(win.lastPlaces[row], win.lastOriginalOrder).Some?
                  && win.table[row].rank == OriginalIndex(win.lastPlaces[row], win.lastOriginalOrder).value + 1))
  {
    var lon := NormalizeLongitude(longitude);
    var radius := (radiusKm * 1000) as real;
    var res := TextSearch(pages, latitude, lon, radius, 0, dist).value;
    SearchResultProperties(pages, latitude, lon, radius, 0, dist);
    RankedRows(res.ranked, res.originalOrder);
  }
}
