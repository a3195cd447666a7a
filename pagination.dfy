/**
 * The page loop of the text search: successive provider responses are
 * consumed until one fails or carries no next-page token; the places of
 * every successful page are filtered by review count, tagged with their
 * plus code and accumulated in arrival order.
 */
module Pagination {
  import opened Wrappers
  import opened Places

  /** Page size requested from the provider. */
  const MaxResultCount := 20

  /** The request body sent for one page. */
  datatype Request = Request(
    textQuery: string,
    latitude: real,
    longitude: real,
    radius: real,
    maxResultCount: int,
    pageToken: Option<string>)

  /**
   * One HTTP response: status code, raw body text, the decoded `places`
   * list (an absent key is the empty list) and the optional `nextPageToken`.
   */
  datatype Response = Response(
    statusCode: int,
    text: string,
    places: seq<Place>,
    nextPageToken: Option<string>)

  /** The request sent for page `i`: the first has no token, each later one the previous page's token. */
  function RequestFor(textQuery: string, latitude: real, longitude: real, radius: real,
                      pages: seq<Response>, i: nat): Request
    requires i <= |pages|
  {
    Request(textQuery, latitude, longitude, radius, MaxResultCount,
            if i == 0 then None else pages[i - 1].nextPageToken)
  }

  /** A response after which no further request is sent. */
  predicate Final(r: Response) {
    r.statusCode != 200 || r.nextPageToken.None?
  }

  /** The provider eventually answers with an error or with a last page. */
  predicate Ends(pages: seq<Response>) {
    exists i :: 0 <= i < |pages| && Final(pages[i])
  }

  lemma EndsTail(pages: seq<Response>)
    requires Ends(pages) && !Final(pages[0])
    ensures Ends(pages[1..])
  {
  }

  /** Index of the response that ends the loop: the first final one. */
  function LastPage(pages: seq<Response>): (k: nat)
    requires Ends(pages)
    ensures k < |pages| && Final(pages[k])
    ensures forall j :: 0 <= j < k ==> !Final(pages[j])
  {
    if Final(pages[0]) then 0
    else
      EndsTail(pages);
      var k := 1 + LastPage(pages[1..]);
      assert forall j :: 1 <= j < k ==> pages[j] == pages[1..][j - 1];
      k
  }

  /** The places of the given pages, page after page. */
  function AllPlaces(pages: seq<Response>): seq<Place> {
    if pages == [] then [] else AllPlaces(pages[..|pages| - 1]) + pages[|pages| - 1].places
  }

  lemma {:induction false} AllPlacesCons(r: Response, pages: seq<Response>)
    ensures AllPlaces([r] + pages) == r.places + AllPlaces(pages)
    decreases |pages|
  {
    if pages != [] {
      assert ([r] + pages)[..|pages|] == [r] + pages[..|pages| - 1];
      AllPlacesCons(r, pages[..|pages| - 1]);
    }
  }

  /** The places a page contributes: those with enough reviews, tagged. */
  function KeepPlaces(places: seq<Place>, minReviews: int): seq<Place> {
    if places == [] then []
    else
      var last := places[|places| - 1];
      KeepPlaces(places[..|places| - 1], minReviews)
        + (if ReviewCount(last) >= minReviews then [Tagged(last)] else [])
  }

  /** Keeping distributes over concatenation: arrival order is preserved. */
  lemma {:induction false} KeepPlacesAppend(a: seq<Place>, b: seq<Place>, minReviews: int)
    ensures KeepPlaces(a + b, minReviews) == KeepPlaces(a, minReviews) + KeepPlaces(b, minReviews)
    decreases |b|
  {
    if b == [] {
      assert a + b == a;
    } else {
      assert (a + b)[..|a + b| - 1] == a + b[..|b| - 1];
      KeepPlacesAppend(a, b[..|b| - 1], minReviews);
    }
  }

  /**
   * A record is kept exactly when some input record has at least
   * `minReviews` reviews (missing count = 0) and the kept record is that
   * input record tagged with its plus code.
   */
  lemma {:induction false} KeepPlacesMembers(places: seq<Place>, minReviews: int)
    ensures |KeepPlaces(places, minReviews)| <= |places|
    ensures forall x :: x in KeepPlaces(places, minReviews) <==>
      exists i :: 0 <= i < |places| && ReviewCount(places[i]) >= minReviews && x == Tagged(places[i])
    ensures forall x :: x in KeepPlaces(places, minReviews) ==>
      ReviewCount(x) >= minReviews && x.plusCodeValue == Some(PlusCodeText(x))
    decreases |places|
  {
    if places != [] {
      var init := places[..|places| - 1];
      KeepPlacesMembers(init, minReviews);
      forall i | 0 <= i < |init| ensures init[i] == places[i] { }
    }
  }

  /** `"Error: {status_code} - {text}"` */
  function ErrorMessage(r: Response): string {
    "Error: " + IntText(r.statusCode) + " - " + r.text
  }

  function DigitText(n: nat): string
    decreases n
  {
    var d := "0123456789"[n % 10];
    if n < 10 then [d] else DigitText(n / 10) + [d]
  }

  /** Decimal text of an integer, as Python's `str` writes it. */
  function IntText(i: int): string {
    if i < 0 then "-" + DigitText(-i) else DigitText(i)
  }

  /**
   * The outcome of the page loop, page by page: a failed page aborts with
   * its error message, a successful one contributes its kept places and,
   * when it carries a token, is followed by the rest.
   * Its contract gives the closed form: everything hinges on the first
   * final page; on failure nothing accumulated so far survives.
   */
  function Accumulate(pages: seq<Response>, minReviews: int): (r: Result<seq<Place>, string>)
    requires Ends(pages)
    ensures var k := LastPage(pages);
      if pages[k].statusCode == 200
      then r == Success(KeepPlaces(AllPlaces(pages[..k + 1]), minReviews))
      else r == Failure(ErrorMessage(pages[k]))
  {
    var page := pages[0];
    if page.statusCode != 200 then Failure(ErrorMessage(page))
    else
      var kept := KeepPlaces(page.places, minReviews);
      if page.nextPageToken.None? then
        assert pages[..1] == [page] + [];
        AllPlacesCons(page, []);
        assert page.places + AllPlaces([]) == page.places;
        assert LastPage(pages) == 0;
        Success(kept)
      else
        EndsTail(pages);
        match Accumulate(pages[1..], minReviews)
        case Failure(e) => Failure(e)
        case Success(rest) =>
          var k := LastPage(pages);
          assert pages[..k + 1] == [page] + pages[1..][..k];
          AllPlacesCons(page, pages[1..][..k]);
          KeepPlacesAppend(page.places, AllPlaces(pages[1..][..k]), minReviews);
          Success(kept + rest)
  }
}
