/** Validity flag from a recommended-minimum (RMC) sentence. */
module GprmcParser {
  import opened Wrappers

  /** The dictionary the extractor returns: `timestamp` and `fix_status`, never a satellite count. */
  datatype RmcRecord = RmcRecord(timestamp: real, fixStatus: string)

  /**
   * `GPRMCParser.parse`: fields[2] copied verbatim ('A', 'V' or anything else);
   * a missing field is a caught `IndexError` and the whole result is `None`.
   */
  function Parse(timestamp: real, fields: seq<string>): (r: Option<RmcRecord>)
    ensures r.Some? <==> |fields| >= 3
    ensures r.Some? ==> r.value.timestamp == timestamp && r.value.fixStatus == fields[2]
  {
    if |fields| >= 3 then Some(RmcRecord(timestamp, fields[2])) else None
  }
}
