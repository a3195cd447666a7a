/** Longitude normalisation applied to the map centre before a search. */
module Longitude {

  /** `d` is a whole number of turns. */
  predicate WholeTurns(d: real) {
    (d / 360.0).Floor as real == d / 360.0
  }

  /**
   * `((lon + 180) % 360) - 180` with Python's floored remainder: the result
   * lies in [-180, 180) and names the same meridian as `lon`.
   */
  function NormalizeLongitude(lon: real): (r: real)
    ensures -180.0 <= r < 180.0
    ensures WholeTurns(lon - r)
  {
    var x := lon + 180.0;
    x - 360.0 * (x / 360.0).Floor as real - 180.0
  }

  /**
   * The result is the only longitude in [-180, 180) on the same meridian:
   * in-range values are unchanged and whole turns are removed.
   */
  lemma NormalizeLongitudeUnique(lon: real, r: real)
    requires -180.0 <= r < 180.0 && WholeTurns(lon - r)
    ensures NormalizeLongitude(lon) == r
  {
    var n := NormalizeLongitude(lon);
    var a := (lon - r) / 360.0;
    var b := (lon - n) / 360.0;
    assert (n - r) / 360.0 == a - b;
    assert -1.0 < a - b < 1.0;
    assert a.Floor - b.Floor == 0;
  }

  lemma NormalizeLongitudeExamples()
    ensures NormalizeLongitude(200.0) == -160.0
    ensures NormalizeLongitude(-200.0) == 160.0
    ensures NormalizeLongitude(0.0) == 0.0
    ensures NormalizeLongitude(180.0) == -180.0
  {
  }
}
