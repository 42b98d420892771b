/** Fix mode from a combined-constellation satellite-status (GNGSA) sentence. */
module GngsaParser {
  import opened Wrappers
  import opened Builtins
  import GpgsaParser

  /**
   * `GNGSAParser.parse`: the mode field goes straight through `int()`, so an
   * empty field is a caught `ValueError` and leaves the status absent.
   */
  function Parse(timestamp: real, fields: seq<string>): (r: GpgsaParser.GsaRecord)
    ensures r.timestamp == timestamp
    ensures |fields| < 3 ==> r.fixStatus.None?
  {
    if |fields| < 3 then GpgsaParser.GsaRecord(timestamp, None)
    else
      match ParseInt(fields[2])
      case None => GpgsaParser.GsaRecord(timestamp, None)
      case Some(mode) => GpgsaParser.GsaRecord(timestamp, GpgsaParser.ModeText(mode))
  }

  lemma ModeCases(timestamp: real, fields: seq<string>)
    requires |fields| >= 3
    ensures fields[2] == "" ==> Parse(timestamp, fields).fixStatus.None?
    ensures fields[2] == "1" ==> Parse(timestamp, fields).fixStatus == Some("No Fix")
    ensures fields[2] == "2" ==> Parse(timestamp, fields).fixStatus == Some("2D Fix")
    ensures fields[2] == "3" ==> Parse(timestamp, fields).fixStatus == Some("3D Fix")
    ensures ParseInt(fields[2]).Some? && !(1 <= ParseInt(fields[2]).value <= 3) ==>
      Parse(timestamp, fields).fixStatus.None?
  {
    if |fields[2]| == 1 && IsDigit(fields[2][0]) {
      ParseIntOneDigit(fields[2]);
    }
  }

  /** The GN and GP extractors disagree exactly on an empty mode field ("No Mode" against absent). */
  lemma AgreesWithGpgsa(timestamp: real, fields: seq<string>)
    ensures Parse(timestamp, fields) != GpgsaParser.Parse(timestamp, fields) <==> |fields| >= 3 && fields[2] == ""
  {
  }
}
