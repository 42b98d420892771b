/** Fix quality and satellites in use from a position-fix (GGA) sentence. */
module GpggaParser {
  import opened Wrappers
  import opened Builtins
  import Nmea

  /** The dictionary the extractor returns; every key is always present. */
  datatype GgaRecord = GgaRecord(timestamp: real, fixStatus: Option<string>, satellitesTracked: Option<int>)

  /** Descriptive text for each GGA fix-quality code. */
  const FixQualityMap: map<string, string> := map[
    "0" := "No Fix",
    "1" := "GPS Fix",
    "2" := "DGPS Fix",
    "3" := "PPS Fix",
    "4" := "Real Time Kinematic",
    "5" := "Float RTK",
    "6" := "Estimated (dead reckoning)",
    "7" := "Manual input mode",
    "8" := "Simulation mode"
  ]

  /** `fix_status_map.get(code, "Unknown")`. */
  function FixQualityText(code: string): (r: string)
    ensures r == "Unknown" <==> code !in FixQualityMap
    ensures code in FixQualityMap ==> r == FixQualityMap[code]
  {
    if code in FixQualityMap then FixQualityMap[code] else "Unknown"
  }

  /**
   * `GPGGAParser.parse`. The fix status is stored before the count is
   * converted, so a malformed count keeps the status; with fewer than eight
   * fields nothing is read.
   */
  function Parse(timestamp: real, fields: seq<string>): (r: GgaRecord)
    ensures r.timestamp == timestamp
    ensures r.fixStatus.None? <==> |fields| < 8
    ensures |fields| < 8 ==> r.satellitesTracked.None?
  {
    if |fields| >= 8 then
      GgaRecord(timestamp, Some(FixQualityText(fields[6])), IntOrZero(fields[7]))
    else
      GgaRecord(timestamp, None, None)
  }

  /** Exactly the codes "0" to "8" have a descriptive text; every other string, "" included, is "Unknown". */
  lemma FixQualityUnknownExactly(code: string)
    ensures FixQualityText(code) == "Unknown" <==> code !in {"0", "1", "2", "3", "4", "5", "6", "7", "8"}
  {
  }

  /** With eight or more fields the status is the mapped text of fields[6]. */
  lemma FixStatusOfCode(timestamp: real, fields: seq<string>)
    requires |fields| >= 8
    ensures Parse(timestamp, fields).fixStatus == Some(FixQualityText(fields[6]))
    ensures fields[6] == "1" ==> Parse(timestamp, fields).fixStatus == Some("GPS Fix")
    ensures fields[6] == "" ==> Parse(timestamp, fields).fixStatus == Some("Unknown")
  {
  }

  /** The count is 0 for an empty field, the integer value for numeric text, and absent otherwise. */
  lemma SatelliteCountCases(timestamp: real, fields: seq<string>)
    requires |fields| >= 8
    ensures fields[7] == "" ==> Parse(timestamp, fields).satellitesTracked == Some(0)
    ensures fields[7] != "" ==> Parse(timestamp, fields).satellitesTracked == ParseInt(fields[7])
    ensures ParseInt(fields[7]).None? && fields[7] != "" ==>
      Parse(timestamp, fields).satellitesTracked.None? && Parse(timestamp, fields).fixStatus.Some?
  {
  }

  /** A count written as `str(n)` is read back as `n`, negative counts included. */
  lemma SatelliteCountOfRendered(timestamp: real, fields: seq<string>, n: int)
    requires |fields| >= 8 && fields[7] == IntToString(n)
    ensures Parse(timestamp, fields).satellitesTracked == Some(n)
  {
    ParseIntToString(n);
  }

  /** Only the field count and fields[6] and fields[7] influence the result. */
  lemma DependsOnlyOnStatusAndCount(timestamp: real, f: seq<string>, g: seq<string>)
    requires (|f| >= 8) == (|g| >= 8)
    requires |f| >= 8 ==> f[6] == g[6] && f[7] == g[7]
    ensures Parse(timestamp, f) == Parse(timestamp, g)
  {
  }

  /** The `NMEAField` indices name the two positions this extractor reads. */
  lemma ReadsNamedFields(timestamp: real, fields: seq<string>)
    requires |fields| >= 8
    ensures Parse(timestamp, fields).fixStatus == Some(FixQualityText(fields[Nmea.Index(Nmea.FixStatus)]))
    ensures Parse(timestamp, fields).satellitesTracked == IntOrZero(fields[Nmea.Index(Nmea.SatellitesTracked)])
  {
  }
}
