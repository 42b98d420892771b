/** Message counters and satellite identifiers from a satellites-in-view (GSV) sentence. */
module GpgsvParser {
  import opened Wrappers
  import opened Builtins

  datatype GsvRecord = GsvRecord(
    timestamp: real,
    totalMessages: int,
    messageNumber: int,
    satellitesInView: int,
    satelliteIds: seq<string>)

  /** Only `ValueError` is caught, so an index past the end escapes the extractor. */
  datatype GsvOutcome = IndexErrorRaised | Returned(record: Option<GsvRecord>)

  /** `data[i]` for `i` in `range(0, len(data), 4)`: every fourth entry, starting with the first. */
  function EveryFourth(data: seq<string>): (r: seq<string>)
    ensures |r| == (|data| + 3) / 4
    decreases |data|
  {
    if |data| == 0 then [] else [data[0]] + EveryFourth(data[if |data| < 4 then |data| else 4..])
  }

  /** Entry `k` of the stride is entry `4 * k` of the input, and there are ceil(|data| / 4) of them. */
  lemma {:induction false} EveryFourthAt(data: seq<string>)
    ensures |EveryFourth(data)| == (|data| + 3) / 4
    ensures forall k :: 0 <= k < |EveryFourth(data)| ==> EveryFourth(data)[k] == data[4 * k]
    decreases |data|
  {
    if |data| > 0 {
      var tail := data[if |data| < 4 then |data| else 4..];
      EveryFourthAt(tail);
      forall k | 1 <= k < |EveryFourth(data)|
        ensures EveryFourth(data)[k] == data[4 * k]
      {
        assert EveryFourth(data)[k] == EveryFourth(tail)[k - 1];
      }
    }
  }

  /**
   * `GPGSVParser.parse`, evaluating fields[0], fields[1] and fields[2] in that
   * order: a conversion failure returns `None` before a later index is tried.
   */
  function Parse(timestamp: real, fields: seq<string>): (r: GsvOutcome)
    ensures r.Returned? && r.record.Some? ==> r.record.value.timestamp == timestamp && |fields| >= 3
  {
    if |fields| == 0 then IndexErrorRaised
    else match IntOrZero(fields[0])
    case None => Returned(None)
    case Some(total) =>
      if |fields| == 1 then IndexErrorRaised
      else match IntOrZero(fields[1])
      case None => Returned(None)
      case Some(number) =>
        if |fields| == 2 then IndexErrorRaised
        else match IntOrZero(fields[2])
        case None => Returned(None)
        case Some(inView) => Returned(Some(GsvRecord(timestamp, total, number, inView, EveryFourth(fields[3..]))))
  }

  /** With three or more fields the extractor returns a record exactly when all three counters convert. */
  lemma CountersDecideRecord(timestamp: real, fields: seq<string>)
    requires |fields| >= 3
    ensures Parse(timestamp, fields).Returned?
    ensures Parse(timestamp, fields).record.Some? <==>
      IntOrZero(fields[0]).Some? && IntOrZero(fields[1]).Some? && IntOrZero(fields[2]).Some?
  {
  }

  /** The counters of a returned record are the converted fields. */
  lemma CounterFields(timestamp: real, fields: seq<string>)
    requires Parse(timestamp, fields).Returned? && Parse(timestamp, fields).record.Some?
    ensures Parse(timestamp, fields).record.value.totalMessages == IntOrZero(fields[0]).value
    ensures Parse(timestamp, fields).record.value.messageNumber == IntOrZero(fields[1]).value
    ensures Parse(timestamp, fields).record.value.satellitesInView == IntOrZero(fields[2]).value
  {
  }

  /** `IndexError` escapes exactly when the list is short and every counter before the gap converts. */
  lemma RaisesIndexErrorExactly(timestamp: real, fields: seq<string>)
    ensures Parse(timestamp, fields).IndexErrorRaised? <==>
      |fields| < 3 && forall j :: 0 <= j < |fields| ==> IntOrZero(fields[j]).Some?
  {
  }

  /** The identifiers are fields[3], fields[7], fields[11], ..., ceil((|fields| - 3) / 4) of them. */
  lemma SatelliteIdsStride(timestamp: real, fields: seq<string>)
    requires Parse(timestamp, fields).Returned? && Parse(timestamp, fields).record.Some?
    ensures |Parse(timestamp, fields).record.value.satelliteIds| == (|fields[3..]| + 3) / 4
    ensures forall k :: 0 <= k < |Parse(timestamp, fields).record.value.satelliteIds| ==>
      Parse(timestamp, fields).record.value.satelliteIds[k] == fields[3 + 4 * k]
  {
    EveryFourthAt(fields[3..]);
  }
}
