# SearchMaps search pipeline, in Dafny

SearchMaps is a desktop tool. The user picks a centre and a radius on a map and
runs a text search against a places-search web API. The results are shown in a
table, ranked by review count and then rating. This project models the part of
`src/search_maps.py` that handles the records:

- **Page loop** (`Pagination`, `Search.FetchPages`). The provider's responses are
  an input sequence. Each response has a status code, a body text, a list of
  place records and an optional next-page token. Records with at least
  `min_reviews` reviews are kept (a missing count is 0). Each kept record is
  tagged with its plus code, or `"N/A"` when it has none. Kept records are
  accumulated in arrival order. A non-200 response aborts the search with
  `"Error: <status> - <text>"` and discards everything accumulated. The loop stops
  at the first response without a token. Each later request carries the previous
  response's token.
- **Distance filter and ranking** (`Search`, `Ranking`). The original order is the
  accumulated list, unchanged. The ranked list keeps the records that have both
  coordinates and lie within the radius (inclusive). It is then sorted stably by
  review count, descending, and then by rating, descending. Missing values count
  as 0.
- **Rank projection** (`ResultsTable`). This is the non-widget part of the results
  table. It maps each non-empty id to its last index in the original order. Each
  row gets a displayed rank and a relevance `1 - idx/(n-1)`. When the row's id is
  not found, both fall back to the row's own position.
- **Longitude normalisation** (`Longitude`): `((lon + 180) % 360) - 180`, using
  Python's floored remainder.
- **The search button handler** (`FetchAction`). It is modelled only as far as it
  consumes the search's return value. This exposes the defect listed under
  Findings.

The great-circle distance is a parameter `dist(lat1, lon1, lat2, lon2)`, and
nothing is assumed about it. Coordinates, ratings and relevance are `real`s.

The docstring of `normalize_longitude` promises the range [-180, 180]. The code
yields [-180, 180): 180 maps to -180. The model follows the code
(`Longitude.NormalizeLongitudeExamples`).

## Model

| member | source | states |
|---|---|---|
| `Pagination.LastPage` | src/search_maps.py:419-442 | The loop ends at the first response that is non-200 or has no next-page token. No earlier response is final. |
| `Pagination.KeepPlacesAppend` | src/search_maps.py:429-436 | Keeping records distributes over concatenation, so records stay in page order and then within-page order. |
| `Pagination.KeepPlacesMembers` | src/search_maps.py:429-436 | A record is kept iff some input record has `userRatingCount` (default 0) ≥ `min_reviews`, and the kept record is that input tagged with `plusCode.globalCode`, or "N/A" when absent. Every kept record has enough reviews and carries its plus code. |
| `Pagination.Accumulate` | src/search_maps.py:418-442 | Page by page, the outcome depends only on the first final page. If it is non-200, the result is that page's error message and no records. Otherwise the result is the kept records of all pages up to and including it. |
| `Search.KeepPagePlaces` | src/search_maps.py:429-436 | The per-page loop appends exactly the kept, tagged records of the page. |
| `Search.FetchPages` | src/search_maps.py:418-442 | The page loop returns `Accumulate`'s outcome. It sends one request per page up to the final one. The first request has no token and request i carries response i-1's token. |
| `Search.FilterByDistance` | src/search_maps.py:447-455 | The distance loop returns exactly the in-range records, in order. |
| `Search.NearbyMembers` | src/search_maps.py:447-455 | A record survives the distance filter iff it is in the input, has both coordinates, and `dist ≤ radius`. The output is a sub-multiset of the input. |
| `Search.NearbyAppend` | src/search_maps.py:447-455 | The distance filter distributes over concatenation, so it preserves order. |
| `Search.GoogleMapsTextSearch` | src/search_maps.py:418-460 | The whole search returns `TextSearch`: the original order is the accumulated list, unchanged, and the ranked list is the sorted distance-filtered list. It sends the requests described above. |
| `Search.SearchResultProperties` | src/search_maps.py:444-460 | Every ranked record comes from the original order, has both coordinates, lies within the radius, has enough reviews and carries its plus code. Records missing a coordinate never appear. The ranked list is sorted, is a permutation of the in-range records, and keeps equal-key records in arrival order. |
| `Search.FarRecordExample` | src/search_maps.py:444-455 | With two pages and a record 60 km from a 50 km search, two requests are sent. The far record is in the original order but not in the ranked list. |
| `Ranking.StableSortCorrect` | src/search_maps.py:458 | The sort result is ordered by review count, then rating, both descending. It is a permutation of the input. For every key, the records with that key keep their input order (stability). |
| `Ranking.SortedDeterminedByKeys` | src/search_maps.py:458 | Two sorted sequences with the same per-key subsequences are equal. |
| `Ranking.StableSortUnique` | src/search_maps.py:458 | Any sorted, stable rearrangement (such as Python's `list.sort` with this key) equals `StableSort`. |
| `Ranking.RankingExample` | src/search_maps.py:458 | A record with 50 reviews rated 4.0 ranks above one with 10 reviews rated 4.9. |
| `ResultsTable.LastIndexOf` | src/search_maps.py:483-488 | Returns the index of the last record with the given id. It returns none exactly when no record has that id. |
| `ResultsTable.BuildIdIndex` | src/search_maps.py:483-488 | The `id_to_index` loop maps exactly the non-empty ids of the original order, each to its last index (last write wins). |
| `ResultsTable.Relevance` | src/search_maps.py:500-510 | Relevance is 1 when n ≤ 1. An index in [0, n-1] gives a value in [0, 1]. When n > 1, the value is 1 exactly at index 0 and 0 exactly at index n-1. |
| `ResultsTable.RelevanceDecreasing` | src/search_maps.py:500-510 | When n > 1, relevance strictly decreases with the index. |
| `ResultsTable.UpdateResultsTable` | src/search_maps.py:479-511 | There is one cell per row. A row whose non-empty id is found in the original order gets rank orig_idx+1 and that index's relevance. Any other row falls back to row+1 and the row's relevance. n is the original order's length, or the row count when there is no original order. |
| `ResultsTable.RowCellBounds` | src/search_maps.py:481-511 | When no row lies beyond the original order, every rank is in 1..n and every relevance is in [0, 1]. A found row's rank points at a record with the same id. |
| `ResultsTable.FoundInOriginalOrder` | src/search_maps.py:495-499 | A record that occurs in the original order with a non-empty id is always found, so it never uses the fallback. |
| `ResultsTable.RankedRows` | src/search_maps.py:479-511 | For rows drawn from the original order, every rank is in 1..n and every relevance is in [0, 1]. Each row with a non-empty id shows the last original position of its id + 1. |
| `Longitude.NormalizeLongitude` | src/search_maps.py:475-477 | The result lies in [-180, 180) and differs from the input by a whole number of turns (multiples of 360). |
| `Longitude.NormalizeLongitudeUnique` | src/search_maps.py:477 | The result is the only value in [-180, 180) on the same meridian, so in-range inputs are unchanged. |
| `Longitude.NormalizeLongitudeExamples` | src/search_maps.py:477 | 200 ↦ -160, -200 ↦ 160, 0 ↦ 0, 180 ↦ -180. |
| `FetchAction.SearchErrorNonEmpty` | src/search_maps.py:422-425 | A failed search's message is the final page's `"Error: …"` text, which is never empty. |
| `FetchAction.AsWrittenSearchErrorEscapes` | src/search_maps.py:357-369 | As written, unpacking the two-item error return raises. The error is never shown, and the window stays "Loading..." with the button disabled. |
| `FetchAction.AsWrittenForbiddenExample` | src/search_maps.py:422-425 | A single 403 response makes the as-written handler raise. |
| `FetchAction.CorrectedSearchErrorShown` | src/search_maps.py:357-369 | With a three-item error return, every failure shows its message and resets the label and button. Successful searches behave as before. |
| `FetchAction.FetchedTableRanks` | src/search_maps.py:337-380 | After a successful search, the table has one cell per ranked record. Each rank is in 1..n and each relevance is in [0, 1]. A record with a non-empty id shows its last original position + 1. |

## Findings

| source | as written | input that shows it | evidently intended | confidence | as-written member | corrected member |
|---|---|---|---|---|---|---|
| src/search_maps.py:425 | `return None, error_msg`: two values, but the only caller (line 357) unpacks three | any non-200 response, e.g. a single 403 page | `return None, None, error_msg`, so that lines 365-369 show the error and restore the window | high, not executed | `FetchAction.AsWrittenSearchErrorEscapes` | `FetchAction.CorrectedSearchErrorShown` |

## Left out

- HTTP I/O is not modelled. That covers `requests.post`, the headers, the field mask, JSON decoding and the 2-second `time.sleep` between pages. Responses are an input sequence, and transport exceptions and undecodable bodies are not modelled.
- The API key, sent in the `X-Goog-Api-Key` request header, is not modelled. The `Request` value holds only the body: query, centre, radius, page size and token.
- Search.GoogleMapsTextSearch: it requires that some response is final (`Pagination.Ends`). A provider that hands out next-page tokens forever makes the source loop forever, and that case is not modelled.
- The body of `haversine_distance` is not modelled. It is floating-point trigonometry, so the distance is an unconstrained parameter.
- Floating-point rounding is not modelled. Coordinates, ratings, relevance and longitudes are exact reals.
- The displayed rank is an integer, not its decimal text.
- The colour interpolation `int(255*…)` and `QColor` are left out, along with the other table columns and all widget calls.
- The update of each provider record in place (`place['plusCodeValue'] = …`) is modelled on values. So is the aliasing between the accumulated list, its copy and the ranked list. Nothing later mutates the records, so the values are the same.
- `list.sort` is a runtime primitive. It is modelled by the value-level stable insertion sort `Ranking.StableSort`, not as an in-place sort. `Ranking.StableSortUnique` shows that any stable sort with this key gives the same list.
- The handler's reads of the API key from settings, the query text (`strip()`) and the map centre are inputs. `print` logging is left out.
- `update_results_table` on the restore path may receive `original_order=None`. It is modelled as the empty list, which behaves the same in that function.
- FetchAction.OnFetchClicked: on a three-item return with no error and no ranked list, the source saves `None` into `last_places` before raising at `len(places)`. The model leaves `lastPlaces` unchanged because it holds a list. No search produces such a return. A missing original order is the empty list, which the results table treats the same way.
- Settings persistence (`closeEvent`, `restore_settings`), `open_place_in_maps`, `update_map_radius`, the Leaflet page, the map bridge, the results-table key handling and the API-key dialog are not modelled. They are UI, storage or OS I/O.
