/**
 * The sentence parser's session: tokenising a timestamped log line,
 * dispatching on the sentence identifier, and accumulating the
 * (timestamp, satellites tracked) series together with the first-fix
 * timestamp.
 *
 * `Step` is the specification of one `parse_sentence` call on the session
 * state; the class `NMEAParser` below implements it in place.
 */
module NmeaParser {
  import opened Wrappers
  import opened Builtins
  import opened Nmea
  import GpggaParser
  import GpgsaParser
  import GngsaParser
  import GprmcParser
  import Ttff

  /** The three configuration strings read from the log-file section of the configuration. */
  datatype Config = Config(timestampPrefix: string, logDelimiter: string, fieldSeparator: string)

  /** The defaults used when the configuration leaves a key out. */
  const DefaultConfig := Config("t=", ", ", ",")

  /** One point of the series: a timestamp and the satellites-tracked count, `None` when the count was unreadable. */
  type Entry = (real, Option<int>)

  datatype Session = Session(data: seq<Entry>, ttff: Option<real>)

  const Initial := Session([], None)

  // ----- tokenising -----

  datatype Tokens =
    | NoPrefix      // the line does not start with the timestamp prefix
    | Malformed     // a `ValueError` while splitting or converting the timestamp
    | Tokens(timestampText: string, timestamp: real, rest: string, fields: seq<string>)

  /**
   * The first lines of `parse_sentence`: check the prefix, split once on the
   * log delimiter (an empty delimiter or a missing one is a `ValueError`),
   * strip the prefix from the head and convert it with `float()`, then split
   * the rest on the field separator (an empty separator is a `ValueError`).
   * Slicing past the end of the head gives "" as Python's slicing does.
   */
  function Tokenize(cfg: Config, line: string): (r: Tokens)
    ensures r.Tokens? ==> |r.fields| >= 1
  {
    if !StartsWith(line, cfg.timestampPrefix) then NoPrefix
    else if |cfg.logDelimiter| == 0 then Malformed
    else
      match SplitOnce(line, cfg.logDelimiter)
      case None => Malformed
      case Some((head, rest)) =>
        var text := Suffix(head, |cfg.timestampPrefix|);
        match ParseFloat(text)
        case None => Malformed
        case Some(timestamp) =>
          if |cfg.fieldSeparator| == 0 then Malformed
          else Tokens(text, timestamp, rest, Split(rest, cfg.fieldSeparator))
  }

  /**
   * Tokenising is lossless: prefix, timestamp text, delimiter and rest make up
   * the line, the delimiter used is its first occurrence, and the fields joined
   * with the separator give back the rest.
   */
  lemma TokenizeLossless(cfg: Config, line: string)
    requires Tokenize(cfg, line).Tokens?
    ensures var t := Tokenize(cfg, line);
      line == cfg.timestampPrefix + t.timestampText + cfg.logDelimiter + t.rest &&
      ParseFloat(t.timestampText) == Some(t.timestamp) &&
      (forall j :: 0 <= j < |cfg.timestampPrefix + t.timestampText| ==> !OccursAt(line, cfg.logDelimiter, j)) &&
      Join(t.fields, cfg.fieldSeparator) == t.rest
  {
    var t := Tokenize(cfg, line);
    var (head, rest) := SplitOnce(line, cfg.logDelimiter).value;
    assert head == cfg.timestampPrefix + t.timestampText by {
      assert line[..|cfg.timestampPrefix|] == cfg.timestampPrefix;
      assert head == line[..|head|];
    }
    JoinSplit(rest, cfg.fieldSeparator);
  }

  /**
   * Conversely, a line made of the prefix, a timestamp text that `float()`
   * accepts, the delimiter and a rest is tokenised into exactly those parts,
   * provided the delimiter's first character occurs in neither prefix nor text.
   */
  lemma TokenizeComposed(cfg: Config, text: string, timestamp: real, rest: string)
    requires |cfg.logDelimiter| > 0 && |cfg.fieldSeparator| > 0
    requires cfg.logDelimiter[0] !in cfg.timestampPrefix + text
    requires ParseFloat(text) == Some(timestamp)
    ensures Tokenize(cfg, cfg.timestampPrefix + text + cfg.logDelimiter + rest) ==
      Tokens(text, timestamp, rest, Split(rest, cfg.fieldSeparator))
  {
    var head := cfg.timestampPrefix + text;
    var line := head + cfg.logDelimiter + rest;
    assert line == cfg.timestampPrefix + text + cfg.logDelimiter + rest;
    FindFirstAfterFreeText(head, cfg.logDelimiter, rest);
    assert line[..|head|] == head;
    assert line[|head| + |cfg.logDelimiter|..] == rest;
    assert SplitOnce(line, cfg.logDelimiter) == Some((head, rest));
    assert line[..|cfg.timestampPrefix|] == cfg.timestampPrefix;
    assert head[|cfg.timestampPrefix|..] == text;
  }

  // ----- dispatch -----

  /** What the dispatched extractor returns; RMC's result can be Python's `None`. */
  datatype ExtractResult =
    | GgaResult(gga: GpggaParser.GgaRecord)
    | RmcResult(rmc: Option<GprmcParser.RmcRecord>)
    | GsaResult(gsa: GpgsaParser.GsaRecord)

  /** The dispatch table: one extractor per member of the sentence enum. */
  function Extract(t: SentenceType, timestamp: real, fields: seq<string>): (r: ExtractResult)
    ensures r.GgaResult? <==> t == GPGGA
    ensures r.RmcResult? <==> t == GPRMC
    ensures r.GgaResult? ==> r.gga.timestamp == timestamp
    ensures r.RmcResult? && r.rmc.Some? ==> r.rmc.value.timestamp == timestamp
    ensures r.GsaResult? ==> r.gsa.timestamp == timestamp
    ensures t == GPGGA ==> r == GgaResult(GpggaParser.Parse(timestamp, fields))
    ensures t == GPRMC ==> r == RmcResult(GprmcParser.Parse(timestamp, fields))
    ensures t == GPGSA ==> r == GsaResult(GpgsaParser.Parse(timestamp, fields))
    ensures t == GNGSA ==> r == GsaResult(GngsaParser.Parse(timestamp, fields))
  {
    match t
    case GPGGA => GgaResult(GpggaParser.Parse(timestamp, fields))
    case GPRMC => RmcResult(GprmcParser.Parse(timestamp, fields))
    case GPGSA => GsaResult(GpgsaParser.Parse(timestamp, fields))
    case GNGSA => GsaResult(GngsaParser.Parse(timestamp, fields))
  }

  /** The keys of the returned dictionary; `None` when the extractor returned `None`. */
  function Keys(r: ExtractResult): (keys: Option<set<string>>)
    ensures keys.None? <==> r == RmcResult(None)
    ensures keys.Some? ==> "timestamp" in keys.value && "fix_status" in keys.value
    ensures keys.Some? && "satellites_tracked" in keys.value <==> r.GgaResult?
  {
    match r
    case GgaResult(_) => Some({"timestamp", "fix_status", "satellites_tracked"})
    case RmcResult(None) => None
    case RmcResult(Some(_)) => Some({"timestamp", "fix_status"})
    case GsaResult(_) => Some({"timestamp", "fix_status"})
  }

  predicate HasCountKeys(keys: set<string>) {
    "timestamp" in keys && "satellites_tracked" in keys
  }

  /** Only the GGA result carries both keys that make `parse_sentence` record a point. */
  lemma CountKeysOnlyForGga(t: SentenceType, timestamp: real, fields: seq<string>)
    ensures var keys := Keys(Extract(t, timestamp, fields));
      (keys.Some? && HasCountKeys(keys.value)) <==> t == GPGGA
    ensures Keys(Extract(t, timestamp, fields)).None? <==> t == GPRMC && |fields| < 3
  {
  }

  // ----- one parse_sentence call -----

  /** How a `parse_sentence` call ended. */
  datatype Outcome =
    | BadPrefix    // logged, nothing changed
    | BadLine      // `ValueError` caught, nothing changed
    | Unhandled    // no extractor for fields[0], nothing changed
    | NoEntry      // extracted, but the result has no satellite count
    | Recorded     // a point was appended
    | TypeError    // an uncaught `TypeError` escapes the call

  /** The state change made by an extractor's result (the body of `if parser:`). */
  function Apply(st: Session, result: ExtractResult): (r: (Session, Outcome))
    ensures r.1 in {NoEntry, TypeError} && !result.GgaResult? ==> r.0 == st
    ensures st.data <= r.0.data && |r.0.data| <= |st.data| + 1
    ensures r.0.data != st.data <==> result.GgaResult?
    ensures st.ttff.Some? ==> r.0.ttff == st.ttff
  {
    match Keys(result)
    case None => (st, TypeError)  // `'timestamp' in None`
    case Some(keys) =>
      if !HasCountKeys(keys) then (st, NoEntry)
      else
        var g := result.gga;
        var data := st.data + [(g.timestamp, g.satellitesTracked)];
        if st.ttff.Some? then (Session(data, st.ttff), Recorded)
        else
          match g.satellitesTracked
          case None => (Session(data, None), TypeError)  // `None > 0`, after the append
          case Some(count) => (Session(data, if count > 0 then Some(g.timestamp) else None), Recorded)
  }

  /** One `parse_sentence` call, with the extractor lookup given as a parameter. */
  function StepWith(cfg: Config, st: Session, line: string, lookup: string -> Option<SentenceType>): (r: (Session, Outcome))
    ensures r.1 in {BadPrefix, BadLine, Unhandled, NoEntry} ==> r.0 == st
    ensures st.data <= r.0.data && |r.0.data| <= |st.data| + 1
    ensures st.ttff.Some? ==> r.0.ttff == st.ttff
  {
    match Tokenize(cfg, line)
    case NoPrefix => (st, BadPrefix)
    case Malformed => (st, BadLine)
    case Tokens(_, timestamp, _, fields) =>
      match lookup(fields[0])
      case None => (st, Unhandled)
      case Some(t) => Apply(st, Extract(t, timestamp, fields))
  }

  /**
   * One `parse_sentence` call, looking the extractor up by the enum value that
   * equals fields[0]. The table as written is keyed by enum members and looked
   * up with a string, which never matches (see `LookupAsWritten`); this is the
   * lookup the table was evidently meant to perform.
   */
  function Step(cfg: Config, st: Session, line: string): (r: (Session, Outcome))
    ensures r.0 != st ==>
      Tokenize(cfg, line).Tokens? && FromToken(Tokenize(cfg, line).fields[0]) == Some(GPGGA)
  {
    StepWith(cfg, st, line, FromToken)
  }

  /** Timestamp of the first point whose count is present and positive. */
  function FirstPositive(data: seq<Entry>): (r: Option<real>)
    ensures r.None? <==> forall i :: 0 <= i < |data| ==> !(data[i].1.Some? && data[i].1.value > 0)
    decreases |data|
  {
    if data == [] then None
    else if data[0].1.Some? && data[0].1.value > 0 then Some(data[0].0)
    else FirstPositive(data[1..])
  }

  /** The session invariant: `ttff` is the timestamp of the first positive point, if any. */
  predicate Consistent(st: Session) {
    st.ttff == FirstPositive(st.data)
  }

  lemma {:induction false} FirstPositiveSnoc(data: seq<Entry>, e: Entry)
    ensures FirstPositive(data + [e]) ==
      if FirstPositive(data).Some? then FirstPositive(data)
      else if e.1.Some? && e.1.value > 0 then Some(e.0)
      else None
    decreases |data|
  {
    if data != [] {
      assert (data + [e])[1..] == data[1..] + [e];
      FirstPositiveSnoc(data[1..], e);
    }
  }

  /** A line without the timestamp prefix is reported and changes nothing; no other line is reported so. */
  lemma StepBadPrefix(cfg: Config, st: Session, line: string)
    ensures Step(cfg, st, line).1 == BadPrefix <==> !StartsWith(line, cfg.timestampPrefix)
    ensures !StartsWith(line, cfg.timestampPrefix) ==> Step(cfg, st, line).0 == st
  {
  }

  /** A prefixed line without the delimiter, or whose timestamp text is not a number, changes nothing. */
  lemma StepBadLine(cfg: Config, st: Session, line: string)
    requires StartsWith(line, cfg.timestampPrefix)
    ensures |cfg.logDelimiter| > 0 && SplitOnce(line, cfg.logDelimiter).None? ==> Step(cfg, st, line) == (st, BadLine)
    ensures (|cfg.logDelimiter| > 0 && SplitOnce(line, cfg.logDelimiter).Some? &&
             ParseFloat(Suffix(SplitOnce(line, cfg.logDelimiter).value.0, |cfg.timestampPrefix|)).None?) ==>
      Step(cfg, st, line) == (st, BadLine)
    ensures Step(cfg, st, line).1 == BadLine ==> Step(cfg, st, line).0 == st
  {
  }

  /** Python's `s[k:]` for `k >= 0`. */
  function Suffix(s: string, k: nat): (r: string)
    ensures |r| == if k <= |s| then |s| - k else 0
  {
    if k <= |s| then s[k..] else ""
  }

  /** A sentence type outside the table changes nothing. */
  lemma StepUnknownType(cfg: Config, st: Session, line: string)
    requires Tokenize(cfg, line).Tokens? && FromToken(Tokenize(cfg, line).fields[0]).None?
    ensures Step(cfg, st, line) == (st, Unhandled)
  {
  }

  /**
   * The series only grows at its end, by at most one point, and only for a GGA
   * sentence, whose point is its timestamp and extracted count; RMC and both
   * GSA types never change the state.
   */
  lemma StepAppendsOnlyGga(cfg: Config, st: Session, line: string)
    ensures var data := Step(cfg, st, line).0.data;
      st.data <= data && |data| <= |st.data| + 1
    ensures var tok := Tokenize(cfg, line);
      Step(cfg, st, line).0.data != st.data <==> tok.Tokens? && FromToken(tok.fields[0]) == Some(GPGGA)
    ensures var tok := Tokenize(cfg, line);
      tok.Tokens? && FromToken(tok.fields[0]) == Some(GPGGA) ==>
      Step(cfg, st, line).0.data ==
        st.data + [(tok.timestamp, GpggaParser.Parse(tok.timestamp, tok.fields).satellitesTracked)]
    ensures var tok := Tokenize(cfg, line);
      tok.Tokens? && FromToken(tok.fields[0]) in {Some(GPRMC), Some(GPGSA), Some(GNGSA)} ==>
      Step(cfg, st, line).0 == st
  {
    var tok := Tokenize(cfg, line);
    if tok.Tokens? && FromToken(tok.fields[0]).Some? {
      CountKeysOnlyForGga(FromToken(tok.fields[0]).value, tok.timestamp, tok.fields);
    }
  }

  /**
   * The first-fix latch: an unset `ttff` becomes the timestamp of the appended
   * point exactly when its count is positive; a set `ttff` never changes.
   */
  lemma StepLatch(cfg: Config, st: Session, line: string)
    ensures st.ttff.Some? ==> Step(cfg, st, line).0.ttff == st.ttff
    ensures var st' := Step(cfg, st, line).0;
      st.ttff.None? ==>
        (st'.ttff.Some? <==> |st'.data| == |st.data| + 1 && st'.data[|st.data|].1.Some? && st'.data[|st.data|].1.value > 0)
    ensures var st' := Step(cfg, st, line).0;
      st.ttff.None? && st'.ttff.Some? ==> st'.ttff == Some(st'.data[|st.data|].0)
  {
    StepAppendsOnlyGga(cfg, st, line);
  }

  /**
   * The uncaught `TypeError`s: an RMC line too short for its extractor (whose
   * `None` result is probed with `in`), and a GGA line with no readable count
   * while `ttff` is unset (`None > 0`), whose point has already been appended.
   */
  lemma StepTypeError(cfg: Config, st: Session, line: string)
    ensures var tok := Tokenize(cfg, line);
      Step(cfg, st, line).1 == TypeError <==>
        tok.Tokens? &&
        ((FromToken(tok.fields[0]) == Some(GPRMC) && |tok.fields| < 3) ||
         (FromToken(tok.fields[0]) == Some(GPGGA) && st.ttff.None? &&
          GpggaParser.Parse(tok.timestamp, tok.fields).satellitesTracked.None?))
    ensures var tok := Tokenize(cfg, line);
      Step(cfg, st, line).1 == TypeError && FromToken(tok.fields[0]) == Some(GPGGA) ==>
        Step(cfg, st, line).0 == Session(st.data + [(tok.timestamp, None)], None)
  {
    var tok := Tokenize(cfg, line);
    if tok.Tokens? && FromToken(tok.fields[0]).Some? {
      CountKeysOnlyForGga(FromToken(tok.fields[0]).value, tok.timestamp, tok.fields);
    }
  }

  /** Every call keeps `ttff` equal to the timestamp of the first positive point. */
  lemma StepKeepsConsistent(cfg: Config, st: Session, line: string)
    requires Consistent(st)
    ensures Consistent(Step(cfg, st, line).0)
  {
    StepAppendsOnlyGga(cfg, st, line);
    var st' := Step(cfg, st, line).0;
    if st'.data != st.data {
      FirstPositiveSnoc(st.data, st'.data[|st.data|]);
      assert st'.data == st.data + [st'.data[|st.data|]];
    }
  }

  // ----- a run of calls -----

  /** The session after feeding `lines` to `parse_sentence` in order, whatever each call returned or raised. */
  function Run(cfg: Config, st: Session, lines: seq<string>): (r: Session)
    ensures st.data <= r.data
    decreases |lines|
  {
    if lines == [] then st else Run(cfg, Step(cfg, st, lines[0]).0, lines[1..])
  }

  /** Over any run the existing points are kept as a prefix and at most one point is added per line. */
  lemma {:induction false} RunAppendOnly(cfg: Config, st: Session, lines: seq<string>)
    ensures st.data <= Run(cfg, st, lines).data
    ensures |Run(cfg, st, lines).data| <= |st.data| + |lines|
    decreases |lines|
  {
    if lines != [] {
      StepAppendsOnlyGga(cfg, st, lines[0]);
      RunAppendOnly(cfg, Step(cfg, st, lines[0]).0, lines[1..]);
    }
  }

  /** Once set, `ttff` survives every later line. */
  lemma {:induction false} RunLatched(cfg: Config, st: Session, lines: seq<string>)
    requires st.ttff.Some?
    ensures Run(cfg, st, lines).ttff == st.ttff
    decreases |lines|
  {
    if lines != [] {
      StepLatch(cfg, st, lines[0]);
      RunLatched(cfg, Step(cfg, st, lines[0]).0, lines[1..]);
    }
  }

  /** A run from a consistent session ends consistent: the invariant holds after any sequence of lines. */
  lemma {:induction false} RunConsistent(cfg: Config, st: Session, lines: seq<string>)
    requires Consistent(st)
    ensures Consistent(Run(cfg, st, lines))
    decreases |lines|
  {
    if lines != [] {
      StepKeepsConsistent(cfg, st, lines[0]);
      RunConsistent(cfg, Step(cfg, st, lines[0]).0, lines[1..]);
    }
  }

  /** After any run from a fresh session, `ttff` is unset or the timestamp of the first positive point. */
  lemma RunFromInitial(cfg: Config, lines: seq<string>)
    ensures Run(cfg, Initial, lines).ttff == FirstPositive(Run(cfg, Initial, lines).data)
  {
    RunConsistent(cfg, Initial, lines);
  }

  // ----- agreement with the first-fix service -----

  function Counts(data: seq<Entry>): (r: seq<(real, int)>)
    requires forall i :: 0 <= i < |data| ==> data[i].1.Some?
    ensures |r| == |data|
    decreases |data|
  {
    if data == [] then [] else [(data[0].0, data[0].1.value)] + Counts(data[1..])
  }

  /** When every count is present, the parser's latch picks the same timestamp as `TTFFService`. */
  lemma {:induction false} LatchAgreesWithService(data: seq<Entry>)
    requires forall i :: 0 <= i < |data| ==> data[i].1.Some?
    ensures FirstPositive(data) == Ttff.FirstFix(Counts(data))
    decreases |data|
  {
    if data != [] {
      LatchAgreesWithService(data[1..]);
      assert Counts(data)[1..] == Counts(data[1..]);
    }
  }

  // ----- the lookup as written -----

  /** A dictionary key or lookup argument: a string, or a member of the (plain) sentence enum. */
  datatype PyKey = Str(s: string) | Member(t: SentenceType)

  /** Python `==` on keys: a plain `Enum` member equals only itself and never a string. */
  predicate PyEquals(a: PyKey, b: PyKey) {
    match (a, b)
    case (Str(x), Str(y)) => x == y
    case (Member(s), Member(t)) => s == t
    case _ => false
  }

  /** Scan of the table's keys (enum members, in declaration order) for one equal to `key`. */
  function FindKey(keys: seq<SentenceType>, key: PyKey): (r: Option<SentenceType>)
    ensures r.Some? ==> r.value in keys && PyEquals(Member(r.value), key)
    ensures (exists k :: k in keys && PyEquals(Member(k), key)) ==> r.Some?
    decreases |keys|
  {
    if keys == [] then None
    else if PyEquals(Member(keys[0]), key) then Some(keys[0])
    else FindKey(keys[1..], key)
  }

  /** Looked up by an enum member, the table finds that member: the scan itself is sound. */
  lemma FindKeyFindsMembers(t: SentenceType)
    ensures FindKey(AllSentenceTypes, Member(t)) == Some(t)
  {
  }

  /** `self.parsers.get(sentence_type)` as written: the string token is compared with enum-member keys. */
  function LookupAsWritten(token: string): (r: Option<SentenceType>)
    ensures r.Some? ==> r.value in AllSentenceTypes && PyEquals(Member(r.value), Str(token))
  {
    FindKey(AllSentenceTypes, Str(token))
  }

  /** As written, the lookup finds no extractor for any token, the four sentence identifiers included. */
  lemma LookupAsWrittenNeverMatches(token: string)
    ensures LookupAsWritten(token) == None
  {
  }

  /** `parse_sentence` as written. */
  function StepAsWritten(cfg: Config, st: Session, line: string): (r: (Session, Outcome))
    ensures r.1 in {BadPrefix, BadLine, Unhandled}
  {
    var tok := Tokenize(cfg, line);
    if tok.Tokens? then LookupAsWrittenNeverMatches(tok.fields[0]); StepWith(cfg, st, line, LookupAsWritten)
    else StepWith(cfg, st, line, LookupAsWritten)
  }

  /** As written, no line ever changes the session: the series stays empty and `ttff` unset. */
  lemma StepAsWrittenChangesNothing(cfg: Config, st: Session, line: string)
    ensures StepAsWritten(cfg, st, line).0 == st
  {
    var tok := Tokenize(cfg, line);
    if tok.Tokens? {
      LookupAsWrittenNeverMatches(tok.fields[0]);
    }
  }

  // ----- a concrete line -----

  const SampleFields: seq<string> := ["GPGGA", "123519", "", "", "", "", "1", "08"]

  /** `t=12.5, GPGGA,123519,,,,,1,08` in the default log format: no position yet, GPS fix, 8 satellites. */
  const SampleLine: string := "t=" + "12.5" + ", " + Join(SampleFields, ",")

  lemma SampleTimestamp()
    ensures ParseFloat("12.5") == Some(12.5)
  {
    FindFirstAfterFreeText("12", ".", "5");
    assert "12.5"[..2] == "12" && "12.5"[3..] == "5";
    assert DigitsValue("12") == 12 by {
      assert "12"[..1] == "1";
      assert "1"[..0] == "";
    }
    assert DigitsValue("5") == 5 by {
      assert "5"[..0] == "";
    }
  }

  lemma SampleTokens()
    ensures Tokenize(DefaultConfig, SampleLine) == Tokens("12.5", 12.5, Join(SampleFields, ","), SampleFields)
  {
    SampleTimestamp();
    TokenizeComposed(DefaultConfig, "12.5", 12.5, Join(SampleFields, ","));
    SampleSplit();
  }

  lemma SampleSplit()
    ensures Split(Join(SampleFields, ","), ",") == SampleFields
  {
    assert ',' !in SampleFields[0] && ',' !in SampleFields[1] && ',' !in SampleFields[6] && ',' !in SampleFields[7];
    SplitJoin(SampleFields, ",");
  }

  /**
   * From a fresh session the sample line records the point (12.5, 8) and,
   * 8 being positive, latches `ttff` to 12.5; as written, the same line finds
   * no extractor and leaves the session empty.
   */
  lemma SampleLineFirstFix()
    ensures Step(DefaultConfig, Initial, SampleLine) == (Session([(12.5, Some(8))], Some(12.5)), Recorded)
    ensures StepAsWritten(DefaultConfig, Initial, SampleLine) == (Initial, Unhandled)
  {
    SampleTokens();
    assert SampleFields[0] == "GPGGA";
    assert FromToken(SampleFields[0]) == Some(GPGGA);
    SampleCount();
    var r := Extract(GPGGA, 12.5, SampleFields);
    assert r.gga.satellitesTracked == Some(8);
    assert r.gga.timestamp == 12.5;
    ApplyFirstPositiveGga(Initial, r.gga);
    assert Initial.data + [(12.5, Some(8))] == [(12.5, Some(8))];
    assert StepWith(DefaultConfig, Initial, SampleLine, FromToken) == Apply(Initial, r);
    LookupAsWrittenNeverMatches("GPGGA");
  }

  lemma ApplyFirstPositiveGga(st: Session, g: GpggaParser.GgaRecord)
    requires st.ttff.None? && g.satellitesTracked.Some? && g.satellitesTracked.value > 0
    ensures Apply(st, GgaResult(g)) ==
      (Session(st.data + [(g.timestamp, g.satellitesTracked)], Some(g.timestamp)), Recorded)
  {
  }

  lemma SampleCount()
    ensures GpggaParser.Parse(12.5, SampleFields).satellitesTracked == Some(8)
  {
    assert SampleFields[7] == "08";
    assert DigitsValue("08") == 8 by {
      assert "08"[..1] == "0";
      assert "0"[..0] == "";
    }
    assert ParseInt("08") == Some(8);
  }

  // ----- the session object -----

  /** `NMEAParser`: the configuration fixed at construction, the series and the first-fix timestamp updated in place. */
  class NMEAParser {
    const timestampPrefix: string
    const logDelimiter: string
    const fieldSeparator: string
    var data: seq<Entry>
    var ttff: Option<real>

    function Settings(): Config {
      Config(timestampPrefix, logDelimiter, fieldSeparator)
    }

    function State(): Session
      reads this
    {
      Session(data, ttff)
    }

    ghost predicate Valid()
      reads this
    {
      Consistent(State())
    }

    constructor (timestampPrefix: string := "t=", logDelimiter: string := ", ", fieldSeparator: string := ",")
      ensures Valid()
      ensures Settings() == Config(timestampPrefix, logDelimiter, fieldSeparator)
      ensures data == [] && ttff == None
    {
      this.timestampPrefix := timestampPrefix;
      this.logDelimiter := logDelimiter;
      this.fieldSeparator := fieldSeparator;
      data := [];
      ttff := None;
    }

    /** `parse_sentence`: the new state and the way the call ends are those `Step` specifies. */
    method ParseSentence(sentence: string) returns (outcome: Outcome)
      requires Valid()
      modifies this
      ensures Valid()
      ensures (State(), outcome) == Step(Settings(), old(State()), sentence)
    {
      var tokens := Tokenize(Settings(), sentence);
      if tokens.NoPrefix? {
        return BadPrefix;
      }
      if tokens.Malformed? {
        return BadLine;
      }
      var fields := tokens.fields;
      var kind := FromToken(fields[0]);
      if kind.None? {
        return Unhandled;
      }
      var result := Extract(kind.value, tokens.timestamp, fields);
      var keys := Keys(result);
      if keys.None? {
        return TypeError;
      }
      if !("timestamp" in keys.value && "satellites_tracked" in keys.value) {
        return NoEntry;
      }
      var timestamp, count := result.gga.timestamp, result.gga.satellitesTracked;
      FirstPositiveSnoc(data, (timestamp, count));
      data := data + [(timestamp, count)];
      if ttff.None? {
        if count.None? {
          return TypeError;
        }
        if count.value > 0 {
          ttff := Some(timestamp);
        }
      }
      outcome := Recorded;
    }

    /** `get_data`. */
    method GetData() returns (d: seq<Entry>)
      requires Valid()
      ensures d == data
      ensures ttff == FirstPositive(d)
    {
      d := data;
    }

    /** `get_ttff`: the absolute timestamp of the first positive count, not an elapsed time. */
    method GetTtff() returns (t: Option<real>)
      requires Valid()
      ensures t == ttff
      ensures t == FirstPositive(data)
    {
      t := ttff;
    }
  }
}
