/** Fix mode from a GPS satellite-status (GPGSA) sentence. */
module GpgsaParser {
  import opened Wrappers
  import opened Builtins

  /** The dictionary both GSA extractors return: exactly `timestamp` and `fix_status`. */
  datatype GsaRecord = GsaRecord(timestamp: real, fixStatus: Option<string>)

  /** The text for an integer mode code; codes other than 1, 2 and 3 leave the status absent. */
  function ModeText(mode: int): (r: Option<string>)
    ensures r.Some? <==> 1 <= mode <= 3
  {
    if mode == 1 then Some("No Fix")
    else if mode == 2 then Some("2D Fix")
    else if mode == 3 then Some("3D Fix")
    else None
  }

  /**
   * `GPGSAParser.parse`: an empty mode field is "No Mode"; otherwise the field
   * goes through `int()`, whose failure, like a missing field, is caught and
   * leaves the status absent.
   */
  function Parse(timestamp: real, fields: seq<string>): (r: GsaRecord)
    ensures r.timestamp == timestamp
    ensures |fields| < 3 ==> r.fixStatus.None?
  {
    if |fields| < 3 then GsaRecord(timestamp, None)
    else if fields[2] == "" then GsaRecord(timestamp, Some("No Mode"))
    else
      match ParseInt(fields[2])
      case None => GsaRecord(timestamp, None)
      case Some(mode) => GsaRecord(timestamp, ModeText(mode))
  }

  /** The status as a function of the mode field: every case of the extractor. */
  lemma ModeCases(timestamp: real, fields: seq<string>)
    requires |fields| >= 3
    ensures fields[2] == "" ==> Parse(timestamp, fields).fixStatus == Some("No Mode")
    ensures fields[2] == "1" ==> Parse(timestamp, fields).fixStatus == Some("No Fix")
    ensures fields[2] == "2" ==> Parse(timestamp, fields).fixStatus == Some("2D Fix")
    ensures fields[2] == "3" ==> Parse(timestamp, fields).fixStatus == Some("3D Fix")
    ensures fields[2] != "" && ParseInt(fields[2]).None? ==> Parse(timestamp, fields).fixStatus.None?
    ensures ParseInt(fields[2]).Some? && !(1 <= ParseInt(fields[2]).value <= 3) ==>
      Parse(timestamp, fields).fixStatus.None?
  {
    if |fields[2]| == 1 && IsDigit(fields[2][0]) {
      ParseIntOneDigit(fields[2]);
    }
  }

  /** A status is present exactly when the mode field is empty or an integer from 1 to 3. */
  lemma StatusPresentExactly(timestamp: real, fields: seq<string>)
    ensures Parse(timestamp, fields).fixStatus.Some? <==>
      |fields| >= 3 && (fields[2] == "" || (ParseInt(fields[2]).Some? && 1 <= ParseInt(fields[2]).value <= 3))
  {
  }
}
