/**
 * The manipulation-score bands shared by every view: a score above 66 is
 * high, above 33 medium, anything else low. The extension's tags, the popup,
 * the dashboard and the backend's audio digest all classify with these
 * thresholds; each of them maps the band to its own colours or words.
 */
module Scores {

  const HIGH_ABOVE: int := 66
  const MEDIUM_ABOVE: int := 33

  datatype Band = Low | Medium | High

  function Rank(b: Band): (r: nat) {
    match b
    case Low => 0
    case Medium => 1
    case High => 2
  }

  /** The band of a score; the boundaries 66 and 33 belong to the lower band. */
  function BandOf(score: int): (b: Band)
    ensures b == High <==> score > HIGH_ABOVE
    ensures b == Medium <==> MEDIUM_ABOVE < score <= HIGH_ABOVE
    ensures b == Low <==> score <= MEDIUM_ABOVE
  {
    if score > HIGH_ABOVE then High
    else if score > MEDIUM_ABOVE then Medium
    else Low
  }

  /** A higher score never falls into a lower band. */
  lemma BandMonotone(s: int, t: int)
    requires s <= t
    ensures Rank(BandOf(s)) <= Rank(BandOf(t))
  {
  }
}
