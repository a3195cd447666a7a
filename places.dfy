/**
 * A place record as the places-search provider returns it, with the
 * defaults the search code applies when a field is absent.
 */
module Places {
  import opened Wrappers

  /** The `location` object; either coordinate may be absent. */
  datatype Location = Location(latitude: Option<real>, longitude: Option<real>)

  /** The `plusCode` object; its `globalCode` may be absent. */
  datatype PlusCode = PlusCode(globalCode: Option<string>)

  /**
   * One place record. `plusCodeValue` is the key the search adds to every
   * record it keeps; it is `None` in a record fresh from the provider.
   * Display name and address are carried but never inspected by the core.
   */
  datatype Place = Place(
    id: Option<string>,
    displayName: string,
    formattedAddress: string,
    rating: Option<real>,
    userRatingCount: Option<int>,
    location: Option<Location>,
    plusCode: Option<PlusCode>,
    plusCodeValue: Option<string>)

  /** `place.get('userRatingCount', 0)` */
  function ReviewCount(p: Place): int {
    p.userRatingCount.GetOr(0)
  }

  /** `place.get('rating', 0)` */
  function RatingOf(p: Place): real {
    p.rating.GetOr(0.0)
  }

  /** `place.get('plusCode', {}).get('globalCode', 'N/A')` */
  function PlusCodeText(p: Place): string {
    match p.plusCode
    case None => "N/A"
    case Some(pc) => pc.globalCode.GetOr("N/A")
  }

  /** The record with `plusCodeValue` set, as the search stores it. */
  function Tagged(p: Place): Place {
    p.(plusCodeValue := Some(PlusCodeText(p)))
  }

  /** Both coordinates are present (`plat is not None and plon is not None`). */
  predicate HasCoordinates(p: Place) {
    p.location.Some? && p.location.value.latitude.Some? && p.location.value.longitude.Some?
  }
}
