/**
 * The text search: the page loop, the distance filter and the ranking.
 * The great-circle distance is a parameter `dist(lat1, lon1, lat2, lon2)`
 * (metres); nothing is assumed about it.
 */
module Search {
  import opened Wrappers
  import opened Places
  import opened Pagination
  import opened Ranking

  /** Both coordinates are present and the record lies within `radius` of the centre. */
  predicate WithinRadius(p: Place, latitude: real, longitude: real, radius: real,
                         dist: (real, real, real, real) -> real)
  {
    HasCoordinates(p) &&
    dist(latitude, longitude, p.location.value.latitude.value, p.location.value.longitude.value) <= radius
  }

  /** The records of `s` within range, in their order in `s`. */
  function Nearby(s: seq<Place>, latitude: real, longitude: real, radius: real,
                  dist: (real, real, real, real) -> real): seq<Place>
  {
    if s == [] then []
    else
      var last := s[|s| - 1];
      Nearby(s[..|s| - 1], latitude, longitude, radius, dist)
        + (if WithinRadius(last, latitude, longitude, radius, dist) then [last] else [])
  }

  /**
   * The distance filter keeps exactly the records within range, keeps them
   * in order, and keeps nothing that was not in its input.
   */
  lemma {:induction false} NearbyMembers(s: seq<Place>, latitude: real, longitude: real, radius: real,
                                         dist: (real, real, real, real) -> real)
    ensures forall p :: p in Nearby(s, latitude, longitude, radius, dist) <==>
      p in s && WithinRadius(p, latitude, longitude, radius, dist)
    ensures multiset(Nearby(s, latitude, longitude, radius, dist)) <= multiset(s)
    decreases |s|
  {
    if s != [] {
      NearbyMembers(s[..|s| - 1], latitude, longitude, radius, dist);
      assert s == s[..|s| - 1] + [s[|s| - 1]];
    }
  }

  lemma {:induction false} NearbyAppend(a: seq<Place>, b: seq<Place>, latitude: real, longitude: real,
                                        radius: real, dist: (real, real, real, real) -> real)
    ensures Nearby(a + b, latitude, longitude, radius, dist)
         == Nearby(a, latitude, longitude, radius, dist) + Nearby(b, latitude, longitude, radius, dist)
    decreases |b|
  {
    if b == [] {
      assert a + b == a;
    } else {
      assert (a + b)[..|a + b| - 1] == a + b[..|b| - 1];
      NearbyAppend(a, b[..|b| - 1], latitude, longitude, radius, dist);
    }
  }

  /** The two lists the search hands back. */
  datatype SearchResult = SearchResult(originalOrder: seq<Place>, ranked: seq<Place>)

  /** What the search returns for the given provider responses. */
  function TextSearch(pages: seq<Response>, latitude: real, longitude: real, radius: real,
                      minReviews: int, dist: (real, real, real, real) -> real): Result<SearchResult, string>
    requires Ends(pages)
  {
    match Accumulate(pages, minReviews)
    case Failure(e) => Failure(e)
    case Success(places) =>
      Success(SearchResult(places, StableSort(Nearby(places, latitude, longitude, radius, dist))))
  }

  /**
   * Every ranked record was accumulated, has both coordinates, lies within
   * the radius, has enough reviews and carries its plus code; the ranked
   * list is sorted by review count then rating, is a permutation of the
   * records of the accumulated list that lie within range, and keeps the
   * records of equal keys in the order they arrived in.
   */
  lemma SearchResultProperties(pages: seq<Response>, latitude: real, longitude: real, radius: real,
                               minReviews: int, dist: (real, real, real, real) -> real)
    requires Ends(pages)
    requires TextSearch(pages, latitude, longitude, radius, minReviews, dist).Success?
    ensures var res := TextSearch(pages, latitude, longitude, radius, minReviews, dist).value;
      && multiset(res.ranked) <= multiset(res.originalOrder)
      && (forall p :: p in res.ranked <==> p in res.originalOrder && WithinRadius(p, latitude, longitude, radius, dist))
      && (forall p :: p in res.ranked ==> ReviewCount(p) >= minReviews && p.plusCodeValue == Some(PlusCodeText(p)))
      && SortedByRank(res.ranked)
      && multiset(res.ranked) == multiset(Nearby(res.originalOrder, latitude, longitude, radius, dist))
      && (forall k :: WithKey(res.ranked, k) == WithKey(Nearby(res.originalOrder, latitude, longitude, radius, dist), k))
  {
    var places := Accumulate(pages, minReviews).value;
    var near := Nearby(places, latitude, longitude, radius, dist);
    var k := LastPage(pages);
    KeepPlacesMembers(AllPlaces(pages[..k + 1]), minReviews);
    NearbyMembers(places, latitude, longitude, radius, dist);
    StableSortCorrect(near);
    assert forall p :: p in StableSort(near) <==> p in multiset(near);
  }

  /** The records of one page that the search keeps, tagged (lines 429-436). */
  method KeepPagePlaces(pagePlaces: seq<Place>, minReviews: int) returns (kept: seq<Place>)
    ensures kept == KeepPlaces(pagePlaces, minReviews)
  {
    kept := [];
    var j := 0;
    while j < |pagePlaces|
      invariant 0 <= j <= |pagePlaces|
      invariant kept == KeepPlaces(pagePlaces[..j], minReviews)
    {
      var place := pagePlaces[j];
      if ReviewCount(place) >= minReviews {
        kept := kept + [Tagged(place)];
      }
      assert pagePlaces[..j + 1][..j] == pagePlaces[..j];
      j := j + 1;
    }
    assert pagePlaces[..j] == pagePlaces;
  }

  /**
   * The page loop: one request per page, each after the first carrying
   * the previous page's token, until a page fails or has no token.
   */
  method FetchPages(searchString: string, latitude: real, longitude: real, radius: real,
                    minReviews: int, pages: seq<Response>)
    returns (outcome: Result<seq<Place>, string>, requests: seq<Request>)
    requires Ends(pages)
    ensures outcome == Accumulate(pages, minReviews)
    ensures |requests| == LastPage(pages) + 1
    ensures forall i :: 0 <= i < |requests| ==>
      requests[i] == RequestFor(searchString, latitude, longitude, radius, pages, i)
  {
    var body := Request(searchString, latitude, longitude, radius, MaxResultCount, None);
    var places: seq<Place> := [];
    var i := 0;
    requests := [];
    while true
      invariant 0 <= i <= LastPage(pages)
      invariant places == KeepPlaces(AllPlaces(pages[..i]), minReviews)
      invariant body == RequestFor(searchString, latitude, longitude, radius, pages, i)
      invariant |requests| == i
      invariant forall j :: 0 <= j < i ==>
        requests[j] == RequestFor(searchString, latitude, longitude, radius, pages, j)
      decreases LastPage(pages) - i
    {
      requests := requests + [body];
      var response := pages[i];
      if response.statusCode != 200 {
        assert i == LastPage(pages);
        outcome := Failure(ErrorMessage(response));
        return;
      }
      var kept := KeepPagePlaces(response.places, minReviews);
      assert pages[..i + 1] == pages[..i] + [response];
      KeepPlacesAppend(AllPlaces(pages[..i]), response.places, minReviews);
      places := places + kept;
      if response.nextPageToken.None? {
        assert i == LastPage(pages);
        outcome := Success(places);
        return;
      }
      body := body.(pageToken := response.nextPageToken);
      i := i + 1;
    }
  }

  /** The distance filter (lines 447-455). */
  method FilterByDistance(places: seq<Place>, latitude: real, longitude: real, radius: real,
                          dist: (real, real, real, real) -> real)
    returns (filtered: seq<Place>)
    ensures filtered == Nearby(places, latitude, longitude, radius, dist)
  {
    filtered := [];
    var j := 0;
    while j < |places|
      invariant 0 <= j <= |places|
      invariant filtered == Nearby(places[..j], latitude, longitude, radius, dist)
    {
      var place := places[j];
      if WithinRadius(place, latitude, longitude, radius, dist) {
        filtered := filtered + [place];
      }
      assert places[..j + 1][..j] == places[..j];
      j := j + 1;
    }
    assert places[..j] == places;
  }

  /**
   * `google_maps_text_search`: fetches and accumulates the pages, keeps a
   * copy of the accumulated list as the original order, filters by
   * distance and ranks. `requests` are the request bodies in the order sent.
   */
  method GoogleMapsTextSearch(searchString: string, latitude: real, longitude: real, radius: real,
                              minReviews: int, pages: seq<Response>, dist: (real, real, real, real) -> real)
    returns (outcome: Result<SearchResult, string>, requests: seq<Request>)
    requires Ends(pages)
    ensures outcome == TextSearch(pages, latitude, longitude, radius, minReviews, dist)
    ensures |requests| == LastPage(pages) + 1
    ensures forall i :: 0 <= i < |requests| ==>
      requests[i] == RequestFor(searchString, latitude, longitude, radius, pages, i)
  {
    var fetched;
    fetched, requests := FetchPages(searchString, latitude, longitude, radius, minReviews, pages);
    if fetched.Failure? {
      outcome := Failure(fetched.error);
      return;
    }
    var places := fetched.value;
    var originalOrder := places;
    var filtered := FilterByDistance(places, latitude, longitude, radius, dist);
    filtered := StableSort(filtered);
    outcome := Success(SearchResult(originalOrder, filtered));
  }

  /**
   * Two pages, the second holding a record 60 km from the centre of a
   * 50 km search: two requests are sent, the far record stays in the
   * original order and is left out of the ranked list. A reduced form of
   * the 20-then-3-record scenario: one record on the first page, two on
   * the second.
   */
  lemma FarRecordExample(near1: Place, near2: Place, far: Place)
    requires near1.location == Some(Location(Some(48.0), Some(2.0))) && near1.userRatingCount.None?
    requires near2.location == Some(Location(Some(48.1), Some(2.1))) && near2.userRatingCount.None?
    requires far.location == Some(Location(Some(48.5), Some(2.5))) && far.userRatingCount.None?
    ensures var pages := [Response(200, "", [near1], Some("t1")), Response(200, "", [near2, far], None)];
      var dist := (lat1: real, lon1: real, lat2: real, lon2: real) => if lat2 == 48.5 then 60000.0 else 1000.0;
      && Ends(pages)
      && LastPage(pages) + 1 == 2
      && TextSearch(pages, 48.0, 2.0, 50000.0, 0, dist).Success?
      && Tagged(far) in TextSearch(pages, 48.0, 2.0, 50000.0, 0, dist).value.originalOrder
      && Tagged(far) !in TextSearch(pages, 48.0, 2.0, 50000.0, 0, dist).value.ranked
  {
    var pages := [Response(200, "", [near1], Some("t1")), Response(200, "", [near2, far], None)];
    var dist := (lat1: real, lon1: real, lat2: real, lon2: real) => if lat2 == 48.5 then 60000.0 else 1000.0;
    assert Final(pages[1]) && !Final(pages[0]);
    assert LastPage(pages) == 1;
    assert pages[..2] == pages;
    var all := [near1, near2, far];
    assert AllPlaces(pages) == all by {
      assert pages[..1] == [pages[0]];
      assert AllPlaces(pages[..1]) == [near1];
    }
    KeepPlacesMembers(all, 0);
    assert Tagged(far) in KeepPlaces(all, 0) by { assert all[2] == far; }
    var res := TextSearch(pages, 48.0, 2.0, 50000.0, 0, dist).value;
    SearchResultProperties(pages, 48.0, 2.0, 50000.0, 0, dist);
    assert !WithinRadius(Tagged(far), 48.0, 2.0, 50000.0, dist);
  }
}
