/**
 * The closed set of sentence types the dispatcher knows, and the field
 * positions named in data_types/nmea.py.
 */
module Nmea {
  import opened Wrappers

  /** `NMEASentence`: each member's value is the 5-letter sentence identifier. */
  datatype SentenceType = GPGGA | GPRMC | GPGSA | GNGSA

  const AllSentenceTypes: seq<SentenceType> := [GPGGA, GPRMC, GPGSA, GNGSA]

  /** The enum member's `.value`. */
  function Value(t: SentenceType): (v: string)
    ensures |v| == 5
  {
    match t
    case GPGGA => "GPGGA"
    case GPRMC => "GPRMC"
    case GPGSA => "GPGSA"
    case GNGSA => "GNGSA"
  }

  /** The member whose value equals `token`, if any (`NMEASentence(token)` without the exception). */
  function FromToken(token: string): (r: Option<SentenceType>)
    ensures r.Some? ==> Value(r.value) == token
  {
    if token == "GPGGA" then Some(GPGGA)
    else if token == "GPRMC" then Some(GPRMC)
    else if token == "GPGSA" then Some(GPGSA)
    else if token == "GNGSA" then Some(GNGSA)
    else None
  }

  /** The four values are pairwise distinct, so a value names exactly one member. */
  lemma ValueInjective(s: SentenceType, t: SentenceType)
    ensures Value(s) == Value(t) <==> s == t
  {
  }

  /** The lookup recovers a member from its value and finds nothing for any other token. */
  lemma FromTokenExact(token: string)
    ensures FromToken(token).Some? <==> exists t :: Value(t) == token
    ensures forall t :: Value(t) == token ==> FromToken(token) == Some(t)
  {
  }

  /** `NMEAField`: named positions in a sentence's field list. */
  datatype Field = UtcTime | Latitude | Longitude | SatellitesTracked | FixStatus

  /** The position each named field has in a sentence's field list. */
  function Index(f: Field): (r: nat)
    ensures f == UtcTime <==> r == 1
    ensures f == Latitude <==> r == 2
    ensures f == Longitude <==> r == 3
    ensures f == FixStatus <==> r == 6
    ensures f == SatellitesTracked <==> r == 7
  {
    match f
    case UtcTime => 1
    case Latitude => 2
    case Longitude => 3
    case SatellitesTracked => 7
    case FixStatus => 6
  }
}
