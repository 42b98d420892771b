# NMEA sentence parser — Dafny model

This project models the sentence-parsing engine of an NMEA 0183 log analyser.
The analyser reads timestamped log lines such as `t=12.5, GPGGA,123519,,,,,1,08`.
It keeps two results: a series of `(timestamp, satellites tracked)` points and the first-fix timestamp (`ttff`).

- **Per-type extractors** (`GpggaParser`, `GprmcParser`, `GpgsaParser`, `GngsaParser`, `GpgsvParser`).
  Each is a total function from `(timestamp, fields)` to a record, or to Python's `None`.
  GSV's uncaught `IndexError` is an explicit outcome.
- **Python built-ins** (`Builtins`): `str.startswith`, `str.split(sep)`, `str.split(sep, 1)`, `sep.join`, `int()` and `float()`.
  They are written out so that splitting can be proved lossless and `int(str(n)) == n` can be proved.
- **Sentence enums** (`Nmea`): the four sentence identifiers and the named field positions.
- **The session** (`NmeaParser`).
  `Tokenize` and `Step` specify one `parse_sentence` call on the state `(data, ttff)`, and `Run` specifies a sequence of calls.
  The class `NMEAParser` implements the call in place and is proved equal to `Step`.
  Its invariant `Valid()` says that `ttff` is the timestamp of the first point with a positive count.
  Every way a call can end is an `Outcome`: a logged bad prefix, a caught `ValueError`, an unknown type, no entry, a recorded point, or an uncaught `TypeError`.
- **The first-fix service** (`Ttff`): `TTFFService` is a one-way latch.
  A ghost history of all updates shows that the latch holds the timestamp of the first positive update.

Configuration strings are constructor parameters; their defaults are `"t="`, `", "` and `","`.
Timestamps are `real`, and satellite counts are `int` (negative counts parse).

Facts about the code that the model keeps:
- `ttff` is the absolute timestamp of the first GGA point with a positive count.
  `get_ttff`'s docstring (parsers/nmea_parser.py:101) calls it a time in seconds; it is not a time elapsed since capture start.
- The series holds only GGA points, one per recorded line, with no filtering of repeated counts.
- GSA results carry no satellite count, so they record nothing. GSV sentences have no entry in the table and are never dispatched.
- The timestamp prefix must start the line, and the delimiter is a fixed string split on at its first occurrence.
- A line whose delimiter occurs inside the prefix region gives `""` as the timestamp text.
  `float("")` fails on it, so nothing changes.

## Model

| member | source | states |
|---|---|---|
| `Builtins.StartsWith` | parsers/nmea_parser.py:61 | the line starts with the prefix iff it is the prefix followed by some text |
| `Builtins.FindFirst` | parsers/nmea_parser.py:62 | the separator occurs at the returned index and at no earlier index; `None` means it occurs nowhere |
| `Builtins.SplitOnce` | parsers/nmea_parser.py:62 | the two-name unpacking succeeds exactly when the delimiter occurs; head + delimiter + rest is the line, and the head holds no earlier occurrence |
| `Builtins.Split` | parsers/nmea_parser.py:68 | `str.split` always yields at least one field |
| `Builtins.Join` | parsers/nmea_parser.py:68 | the joined text begins with the first piece |
| `Builtins.JoinSplit` | parsers/nmea_parser.py:68 | joining the fields with the separator gives back the split text |
| `Builtins.SplitPiecesAvoidSeparator` | parsers/nmea_parser.py:68 | no field contains the separator |
| `Builtins.SplitJoin` | parsers/nmea_parser.py:68 | splitting a join of pieces that lack the separator's first character gives the pieces back |
| `Builtins.ParseInt` | parsers/gpgga_parser.py:53 | `int()` succeeds iff the text is a non-empty run of ASCII digits, optionally after one `+` or `-` sign; so it fails on the empty string |
| `Builtins.IntOrZero` | parsers/gpgga_parser.py:52-54 | `int(t) if t else 0` (also the three counters at parsers/gpgsv_parser.py:15-17): empty text counts 0; the conversion succeeds iff the text is empty or `int()` accepts it |
| `Builtins.ParseIntToString` | parsers/gpgga_parser.py:53 | `int(str(n)) == n` for every integer, negatives included |
| `Builtins.ParseIntOneDigit` | parsers/gpgsa_parser.py:34 | a one-digit mode field converts to its digit value |
| `Builtins.ParseFloat` | parsers/nmea_parser.py:63 | `float()` fails on the empty string |
| `Builtins.ParseFloatOfIntText` | parsers/nmea_parser.py:63 | every text `int()` accepts is accepted by `float()` with the same value |
| `Nmea.Index` | data_types/nmea.py:9-14 | the field positions UTC_TIME=1, LATITUDE=2, LONGITUDE=3, FIX_STATUS=6, SATELLITES_TRACKED=7, pairwise distinct |
| `Nmea.Value` | data_types/nmea.py:3-7 | each sentence value is a 5-character identifier |
| `Nmea.FromToken` | data_types/nmea.py:3-7 | a token maps to a member only when it equals that member's value |
| `Nmea.ValueInjective` | data_types/nmea.py:4-7 | the four values are pairwise distinct |
| `Nmea.FromTokenExact` | data_types/nmea.py:4-7 | a token finds a member iff some member's value equals it, and then finds that member |
| `GpggaParser.FixQualityText` | parsers/gpgga_parser.py:36-48 | the text is "Unknown" iff the code is not a key of the fix-quality map, and otherwise is the mapped text |
| `GpggaParser.Parse` | parsers/gpgga_parser.py:27-59 | timestamp echoed; the fix status is present iff there are at least 8 fields; short lists give no count |
| `GpggaParser.FixQualityUnknownExactly` | parsers/gpgga_parser.py:36-48 | the status is "Unknown" iff the code is not one of "0" to "8" ("" included) |
| `GpggaParser.FixStatusOfCode` | parsers/gpgga_parser.py:34-48 | with 8+ fields the status is the mapped text of fields[6] ("1" gives "GPS Fix", "" gives "Unknown") |
| `GpggaParser.SatelliteCountCases` | parsers/gpgga_parser.py:47-55 | an empty count is 0, other text is `int()` of it, and a failed conversion leaves the count absent but keeps the status |
| `GpggaParser.SatelliteCountOfRendered` | parsers/gpgga_parser.py:51-54 | a count written as `str(n)` reads back as `n` |
| `GpggaParser.DependsOnlyOnStatusAndCount` | parsers/gpgga_parser.py:33-59 | only the length threshold, fields[6] and fields[7] influence the result |
| `GpggaParser.ReadsNamedFields` | parsers/gpgga_parser.py:47-54 | the `FIX_STATUS` and `SATELLITES_TRACKED` indices are the positions the extractor reads |
| `GpgsaParser.ModeText` | parsers/gpgsa_parser.py:35-40 | a mode has a text iff it is 1, 2 or 3 |
| `GpgsaParser.Parse` | parsers/gpgsa_parser.py:24-45 | timestamp echoed; fewer than 3 fields gives no status |
| `GpgsaParser.ModeCases` | parsers/gpgsa_parser.py:29-43 | "" gives "No Mode"; "1", "2", "3" give "No Fix", "2D Fix", "3D Fix"; non-integer text and other integers give no status |
| `GpgsaParser.StatusPresentExactly` | parsers/gpgsa_parser.py:29-45 | a status is present iff fields[2] exists and is empty or an integer from 1 to 3 |
| `GngsaParser.Parse` | parsers/gngsa_parser.py:24-41 | timestamp echoed; fewer than 3 fields gives no status |
| `GngsaParser.ModeCases` | parsers/gngsa_parser.py:29-39 | "" gives no status; "1", "2", "3" give "No Fix", "2D Fix", "3D Fix"; other integers give no status |
| `GngsaParser.AgreesWithGpgsa` | parsers/gngsa_parser.py:29-37 | the GN and GP results differ iff fields[2] exists and is empty |
| `GprmcParser.Parse` | parsers/gprmc_parser.py:23-32 | the record exists iff there are at least 3 fields, and then carries the timestamp and fields[2] verbatim |
| `GpgsvParser.EveryFourth` | parsers/gpgsv_parser.py:20-23 | `range(0, n, 4)` picks ceil(n/4) entries |
| `GpgsvParser.Parse` | parsers/gpgsv_parser.py:14-34 | a returned record echoes the timestamp and comes from a list of at least 3 fields |
| `GpgsvParser.EveryFourthAt` | parsers/gpgsv_parser.py:20-23 | the stride has ceil(n/4) entries, and entry k is input entry 4k |
| `GpgsvParser.CountersDecideRecord` | parsers/gpgsv_parser.py:14-17 | with 3+ fields a record is returned iff all three counters convert (empty counts as 0) |
| `GpgsvParser.CounterFields` | parsers/gpgsv_parser.py:15-17 | the record's counters are the converted fields[0..2] |
| `GpgsvParser.RaisesIndexErrorExactly` | parsers/gpgsv_parser.py:14-17 | `IndexError` escapes iff the list has fewer than 3 fields and every present counter converts |
| `GpgsvParser.SatelliteIdsStride` | parsers/gpgsv_parser.py:20-23 | the ids are fields[3], fields[7], ..., ceil((n-3)/4) of them |
| `NmeaParser.Extract` | parsers/nmea_parser.py:39-44 | GPGGA goes to the GGA extractor, GPRMC to the RMC one, GPGSA to the GP GSA one and GNGSA to the GN GSA one; GGA and RMC results only for their types; every record echoes the timestamp |
| `NmeaParser.Keys` | parsers/nmea_parser.py:77 | only a short RMC line gives `None` (no keys); every record has `timestamp` and `fix_status`; `satellites_tracked` exists iff the result is GGA |
| `NmeaParser.FirstPositive` | parsers/nmea_parser.py:78-82 | there is no first positive point iff no point has a positive count |
| `NmeaParser.Apply` | parsers/nmea_parser.py:75-82 | the series grows at its end by at most one point, exactly for a GGA result; non-GGA results that record nothing leave the state; a set `ttff` stays |
| `NmeaParser.StepWith` | parsers/nmea_parser.py:59-85 | for any lookup: a bad prefix, a caught `ValueError`, an unknown type or no entry leaves the state; the series only grows at its end, by at most one point; a set `ttff` stays |
| `NmeaParser.Step` | parsers/nmea_parser.py:59-85 | with the intended lookup, a call that changes the state was a well-formed GGA line |
| `NmeaParser.Tokenize` | parsers/nmea_parser.py:61-68 | a tokenised line always has a sentence-type field |
| `NmeaParser.TokenizeLossless` | parsers/nmea_parser.py:61-68 | prefix + timestamp text + delimiter + rest is the line; the delimiter is the first one; the timestamp is `float()` of the text; joined fields are the rest |
| `NmeaParser.TokenizeComposed` | parsers/nmea_parser.py:61-68 | a line built from prefix, a number, the delimiter and a rest tokenises into exactly those parts |
| `NmeaParser.CountKeysOnlyForGga` | parsers/nmea_parser.py:76-77 | only the GGA result has both `timestamp` and `satellites_tracked`; only a short RMC line gives `None` |
| `NmeaParser.StepBadPrefix` | parsers/nmea_parser.py:61-66 | a line ends as a bad prefix iff it lacks the timestamp prefix, and then nothing changes |
| `NmeaParser.StepBadLine` | parsers/nmea_parser.py:62-63 | a missing delimiter or an unparseable timestamp is a caught `ValueError` that changes nothing |
| `NmeaParser.StepUnknownType` | parsers/nmea_parser.py:72-75 | a sentence type without an extractor changes nothing |
| `NmeaParser.StepAppendsOnlyGga` | parsers/nmea_parser.py:72-78 | the series only grows at its end, by at most one point, iff the line is GGA, and that point is its timestamp and count; RMC/GSA lines change nothing |
| `NmeaParser.StepLatch` | parsers/nmea_parser.py:80-82 | a set `ttff` never changes; an unset one becomes the appended timestamp iff the appended count is positive |
| `NmeaParser.StepTypeError` | parsers/nmea_parser.py:76-84 | `TypeError` escapes iff the line is a short RMC or a countless GGA with `ttff` unset; the latter follows the append |
| `NmeaParser.FirstPositiveSnoc` | parsers/nmea_parser.py:78-82 | appending a point changes the first positive timestamp only when there was none and the point is positive |
| `NmeaParser.StepKeepsConsistent` | parsers/nmea_parser.py:77-82 | every call keeps `ttff` equal to the timestamp of the first positive point |
| `NmeaParser.Run` | parsers/nmea_parser.py:52-85 | over a sequence of lines, the existing points stay a prefix of the series |
| `NmeaParser.RunAppendOnly` | parsers/nmea_parser.py:77-78 | over any run, existing points stay as a prefix, with at most one new point per line |
| `NmeaParser.RunLatched` | parsers/nmea_parser.py:81-82 | once set, `ttff` survives every later line |
| `NmeaParser.RunConsistent` | parsers/nmea_parser.py:77-82 | the invariant holds after any run |
| `NmeaParser.RunFromInitial` | parsers/nmea_parser.py:47-50 | from a fresh session, `ttff` is always unset or the first positive point's timestamp |
| `NmeaParser.LatchAgreesWithService` | parsers/nmea_parser.py:81-82 | with all counts present, the parser's latch and `TTFFService` pick the same timestamp |
| `NmeaParser.FindKey` | parsers/nmea_parser.py:72 | a key found in the table is Python-equal to the looked-up key, and a key is found whenever some table key is Python-equal to it |
| `NmeaParser.FindKeyFindsMembers` | parsers/nmea_parser.py:39-44 | looking up any enum member in the table finds that member |
| `NmeaParser.LookupAsWritten` | parsers/nmea_parser.py:72 | a found extractor key is a table member Python-equal to the token string |
| `NmeaParser.LookupAsWrittenNeverMatches` | parsers/nmea_parser.py:72 | as written, the lookup finds no extractor for any token |
| `NmeaParser.StepAsWritten` | parsers/nmea_parser.py:72-75 | as written, every call ends as a bad prefix, a caught `ValueError` or an unknown type |
| `NmeaParser.StepAsWrittenChangesNothing` | parsers/nmea_parser.py:72-75 | as written, no line ever changes the session |
| `NmeaParser.ApplyFirstPositiveGga` | parsers/nmea_parser.py:77-82 | a GGA result with a positive count and `ttff` unset appends its point and latches its timestamp |
| `NmeaParser.SampleLineFirstFix` | parsers/nmea_parser.py:59-82 | the sample GGA line records (12.5, 8) and sets `ttff` to 12.5; as written it records nothing |
| `NmeaParser.NMEAParser.constructor` | parsers/nmea_parser.py:22-50 | the configuration is the given strings (defaults `t=`, `, `, `,`); empty series; `ttff` unset |
| `NmeaParser.NMEAParser.ParseSentence` | parsers/nmea_parser.py:52-85 | the new state and the outcome are those of `Step`; the invariant is kept |
| `NmeaParser.NMEAParser.GetData` | parsers/nmea_parser.py:87-94 | returns the series, whose first positive point gives `ttff` |
| `NmeaParser.NMEAParser.GetTtff` | parsers/nmea_parser.py:96-103 | returns `ttff`, the first positive point's timestamp (absolute, not elapsed) |
| `Ttff.FirstFix` | services/ttff.py:5-11 | a first fix is the timestamp of some update with a positive count |
| `Ttff.FirstFixSnoc` | services/ttff.py:5-8 | an update changes the first fix only when none was set and its count is positive |
| `Ttff.FirstFixNone` | services/ttff.py:5-11 | there is no first fix iff no update had a positive count |
| `Ttff.FirstFixAt` | services/ttff.py:5-11 | the first fix is the timestamp of the earliest positive update |
| `Ttff.TTFFService.constructor` | services/ttff.py:2-3 | `first_fix_time` starts unset, with no updates |
| `Ttff.TTFFService.Update` | services/ttff.py:5-8 | sets the latch iff it was unset and the count is positive, and otherwise leaves it; keeps the invariant |
| `Ttff.TTFFService.GetTtff` | services/ttff.py:10-11 | returns the latch, the first fix over all updates, and changes nothing |

## Left out

- Logging: every `logger.error` call is a diagnostic with no effect on results, so it is not modelled.
- Configuration loading from YAML: the three strings are constructor parameters instead.
- `float()` accepts only decimal notation with an optional sign (`12`, `12.5`, `.5`, `12.`).
  Exponents, `inf`/`nan`, surrounding whitespace, underscores and non-ASCII decimal digits are left out.
  Such a timestamp is treated as a `ValueError`.
- `int()` accepts only an optional sign and ASCII digits.
  Surrounding whitespace, underscores and non-ASCII digits are left out.
- Timestamps are exact reals, so `float64` rounding is not modelled.
- `NmeaParser.NMEAParser.GetData` returns a copy of the series.
  `get_data` returns the list object itself, so a caller could mutate it; that aliasing is not modelled.
- `NmeaParser.Run` feeds the next line whatever the previous call did, including raising `TypeError`.
  What the driver does with an escaping exception belongs to the drivers, which are not part of this model.
- Ttff.TTFFService.Update: takes an integer count. A `None` count, for which `update` would raise `TypeError`, is not modelled.
- The drivers (offline and live), plotting, UART settings, the CLI and the abstract parser base class are not part of this model.

## Findings

| source | as written | input that shows it | evidently intended | confidence | as-written member | corrected member |
|---|---|---|---|---|---|---|
| parsers/nmea_parser.py:72 | `self.parsers.get(sentence_type)` looks up the string `fields[0]` in a dictionary keyed by plain `NMEASentence` members. A plain enum member never equals a string, so no extractor is ever found. | `t=12.5, GPGGA,123519,,,,,1,08`: as written, nothing is recorded and `ttff` stays unset | look up the member whose value equals the token, so the line records (12.5, 8) and sets `ttff` to 12.5 | not executed | `NmeaParser.LookupAsWritten` (`NmeaParser.LookupAsWrittenNeverMatches`, `NmeaParser.StepAsWrittenChangesNothing`, `NmeaParser.SampleLineFirstFix`) | `NmeaParser.Step` (`NmeaParser.SampleLineFirstFix`, `NmeaParser.StepAppendsOnlyGga`) |
