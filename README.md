# yxhoo-transit-rs core, modelled in Dafny

The crate asks a route-search site for transit routes, then normalises the page's embedded
`__NEXT_DATA__` JSON into a `TransitDto`. This project models the parts of that pipeline that
are pure data logic:

- **Route normaliser** (`src/parser.rs`), in module `Parser`. It walks serde_json's untyped
  `Value` (module `Json`) and builds routes, summaries and segments. Bare `HH:MM` strings become
  full date-times anchored on the search date. One cursor is threaded through each route's
  segments, and the day rolls over by exactly one calendar day when a time of day is earlier
  than the cursor's. Around it sit the loose number, duration, distance and mode parsers.
  `build_segments_from_edges` and the route loop of `next_data_to_transit_dto` are imperative
  in the crate. They are methods here (`BuildSegmentsFromEdges`, `NextSegment`, `BuildRoutes`,
  `NextDataToTransitDto`), proved equal to the functions that specify them (`BuildSegments`,
  `Routes`, `TransitDtoOf`).
- **Minute-precision timestamp codec** (`src/dt_minute_tz.rs`), in module `DtMinuteTz`.
  `serialize` truncates to the minute and prints `YYYY-MM-DDTHH:MM±HH:MM`. `parse_str` accepts
  a full date-time with optional seconds and `Z` or `±HH:MM`, or a bare date followed directly
  by an offset. chrono's format engine is modelled by its fixed-width ASCII profile.
- **Request encoder** (`src/yxhoo.rs`, the query-building part of `transit`), in module
  `Yxhoo`. It maps `TransitArgs` to the ordered list of query pairs. The pushes onto `q` are
  methods that append to a sequence, each proved equal to the pairs function it implements.
- **Argument code tables** (`src/args.rs`), in module `Args`. These are the `as_u32` and
  `as_str` wire codes and the `Default` values.

The shared pieces are in their own modules:

- `Wrappers` holds `Option` and `Result`.
- `Text` holds Rust's `str` operations the crate uses: `parse::<u32>`, `parse::<i32>`,
  `to_string`, `trim`, `find` and the ASCII-digit filter.
- `Calendar` holds chrono's proleptic Gregorian dates with their year range (-262143-01-01
  through 262142-12-31, as `NaiveDate::MIN` and `NaiveDate::MAX` of current chrono 0.4), times of day,
  `succ_opt`, and a date-time as local fields plus a fixed offset in minutes.

A JSON object is a `map<string, Value>`, because serde_json's default map keeps one value per
key. `as_str()` answers absent for a non-string, so a numeric `"y"` counts as missing.

## Model

| member | source | states |
|---|---|---|
| Json.Get | src/parser.rs:202-204 | `v.get(key)` is present exactly when `v` is an object holding `key`, and then it is that member |
| Json.Index | src/parser.rs:106-107 | an object holding `key` yields exactly that member; anything else yields null |
| Json.GetStr | src/parser.rs:148-150 | `v.get(key).and_then(as_str)` is present exactly when the member exists and is a string, and then it is that string |
| Json.GetBool | src/parser.rs:164-166 | `v.get(key).and_then(as_bool)` is present exactly when the member exists and is a boolean, and then it is that boolean |
| Json.GetArray | src/parser.rs:238-239 | `v.get(key).and_then(as_array)` is present exactly when the member exists and is an array, and then it is that array's items |
| Text.DecimalOfDigits | src/parser.rs:302 | a string reads as a decimal exactly when it is all ASCII digits, and then its value is the positional value of the digits |
| Text.ParseU32Digits | src/parser.rs:302 | `parse::<u32>` accepts an optional `+` and then a non-empty run of digits whose value fits in u32, and yields that value |
| Text.ParseI32Digits | src/parser.rs:353 | `parse::<i32>` accepts an optional sign and then a non-empty run of digits whose signed value fits in i32 |
| Text.NatToStringValue | src/yxhoo.rs:78-95 | `to_string` of a number is a digit string whose decimal value is that number |
| Text.ParseU32OfNatToString | src/yxhoo.rs:79-95 | `parse::<u32>` inverts `to_string` on every u32 |
| Text.ParseI32OfIntToString | src/yxhoo.rs:78 | `parse::<i32>` inverts `to_string` on every i32, negative years included |
| Text.ParseI32OfDigits | src/parser.rs:353 | a digit run with an optional `-` sign parses to its signed value when that value fits in i32 |
| Text.DigitsAppend | src/parser.rs:298 | the ASCII-digit filter distributes over concatenation |
| Text.DigitsOfAllDigits | src/parser.rs:298 | the filter keeps a digit string whole |
| Text.DigitsOfNoDigits | src/parser.rs:298 | the filter empties a string with no digit |
| Text.DigitsOfSeparated | src/parser.rs:298 | the filter joins two digit runs around a separator with no digits and drops a digit-free tail |
| Text.TrimStartIsSuffix | src/parser.rs:87 | `trim_start` returns a suffix of its input |
| Text.TrimStartDropsWhitespace | src/parser.rs:87 | everything `trim_start` drops is whitespace, and what it keeps does not start with whitespace |
| Text.TrimEndIsPrefix | src/parser.rs:293 | the end trim returns a prefix of its input |
| Text.TrimEndDropsWhitespace | src/parser.rs:293 | everything the end trim drops is whitespace, and what it keeps does not end with whitespace |
| Text.TrimOfTrimmed | src/parser.rs:293 | a string with no whitespace at either end is its own trim |
| Text.TrimEnds | src/parser.rs:293 | a non-empty trim neither starts nor ends with whitespace |
| Text.Find | src/parser.rs:311 | `find` returns the first index where the pattern occurs, or none when it occurs nowhere |
| Text.ContainsIffFind | src/parser.rs:277 | `contains` holds exactly when `find` finds the pattern |
| Text.FindAfter | src/parser.rs:311-318 | when a prefix cannot start the pattern, `find` over the whole string is `find` over the rest, shifted by the prefix's length |
| Text.FirstShifted | src/parser.rs:311-318 | the first occurrence in `a + b` is the first occurrence in `b` moved by the length of `a`, when `a` holds no first character of the pattern |
| Text.FindPrefix | src/parser.rs:311 | a string that starts with the pattern finds it at 0 |
| Text.FindAbsent | src/parser.rs:330 | a string without the pattern's first character does not find it |
| Text.ContainsInfix | src/parser.rs:277-284 | a string that contains the keyword somewhere reports it |
| Calendar.DaysInMonth | src/parser.rs:371 | every month has 28 to 31 days, as `NaiveDate::from_ymd_opt` checks |
| Calendar.Succ | src/parser.rs:400 | `succ_opt` fails only on the last representable date; otherwise it is a valid later date |
| Calendar.RangeEnds | src/parser.rs:371-400 | dates run from -262143-01-01 through 262142-12-31; `from_ymd_opt` refuses the years just outside, and `succ_opt` of the last date is none |
| Calendar.SuccIsNextDate | src/parser.rs:400 | `succ_opt` is the very next date: it is at or before every later valid date |
| Calendar.LocalLeTransitive | src/parser.rs:399 | ordering of local date-times is transitive |
| Args.DateKindCodes | src/args.rs:140-152 | the five date kinds have the distinct codes 1 to 5, DepartureTime 1, LastTrain 2, FirstTrain 3, ArrivalTime 4, NotSpecified 5 |
| Args.CriteriaCodes | src/args.rs:156-172 | the criteria codes are distinct and at most 2, and the default is EarliestArrival with code 0 |
| Args.SeatAndWalkingCodes | src/args.rs:36-73 | seat codes are distinct within 1 to 3, walking codes distinct within 1 to 4, and the defaults have codes 1 and 3 |
| Args.TicketStrings | src/args.rs:14-32 | the ticket strings are "normal" and "ic", distinct, and the default is "normal" |
| Args.MeansKeys | src/args.rs:77-99 | `AvailableMeans::as_str` is injective onto al, shin, ex, hb, lb and sr |
| Args.TicketPreference.AsStr | src/args.rs:25-32 | the ticket string is "normal" or "ic", and "ic" exactly for the IC card |
| Args.SeatPreference.AsU32 | src/args.rs:36-46 | a seat code is between 1 and 3 |
| Args.WalkingSpeed.AsU32 | src/args.rs:56-67 | a walking-speed code is between 1 and 4 |
| Args.AvailableMeans.AsStr | src/args.rs:88-99 | a mean's key is one of al, shin, ex, hb, lb and sr |
| Args.DateKind.AsU32 | src/args.rs:140-152 | a date-kind code is between 1 and 5 |
| Args.TransitCriteria.AsU32 | src/args.rs:156-166 | a criteria code is at most 2, and 0 exactly for EarliestArrival |
| Args.OptionDefaults | src/args.rs:102-177 | the default means hold all six, `TransitOptions::default` sets every preference to its default, and the default rank is 1 |
| DtMinuteTz.Pad2 | src/dt_minute_tz.rs:4 | `%m`, `%d`, `%H` and `%M` print exactly two digits |
| DtMinuteTz.Pad4 | src/dt_minute_tz.rs:4 | `%Y` prints exactly four digits for years 0 through 9999 |
| DtMinuteTz.FormatYear | src/dt_minute_tz.rs:4 | `%Y` is four characters exactly for years 0 through 9999 and longer otherwise, with `-` exactly for negative years and `+` exactly for years past 9999 |
| DtMinuteTz.FormatOffset | src/dt_minute_tz.rs:4 | `%:z` is six characters, `-` exactly for a negative offset and `+` otherwise, with the colon at index 3 |
| DtMinuteTz.Format | src/dt_minute_tz.rs:4 | the printed text is at least 22 characters, exactly 22 for years 0 through 9999 |
| DtMinuteTz.Serialize | src/dt_minute_tz.rs:8-14 | the serialized text is at least 22 characters, exactly 22 for years 0 through 9999 |
| DtMinuteTz.NormalizeZ | src/dt_minute_tz.rs:27-31 | the normalised text never ends in `Z`; a trailing `Z` becomes `+00:00` with the rest kept, and any other text is unchanged |
| DtMinuteTz.SerializeOption | src/dt_minute_tz.rs:60-68 | none is serialized as none and a value as a text of at least 22 characters |
| DtMinuteTz.DeserializeOption | src/dt_minute_tz.rs:71-82 | none reads as none; a text fails exactly when `parse_str` fails, and a value read is valid and truncated to the minute |
| DtMinuteTz.Digits2OfPad2 | src/dt_minute_tz.rs:4 | reading two digits back from a two-digit field gives its value |
| DtMinuteTz.Digits4OfPad4 | src/dt_minute_tz.rs:4 | reading four digits back from a four-digit year gives its value |
| DtMinuteTz.Pad4Halves | src/dt_minute_tz.rs:4 | a four-digit field is the two-digit fields of its hundreds and of its remainder |
| DtMinuteTz.ParseOffset | src/dt_minute_tz.rs:4 | an accepted `%:z` is an offset under a day with minutes under 60 |
| DtMinuteTz.ParseOffsetOfFormat | src/dt_minute_tz.rs:4 | reading a printed offset back gives the offset |
| DtMinuteTz.ParseFields | src/dt_minute_tz.rs:4-5 | an accepted date-time has a valid calendar date, hour and minute, and the given second |
| DtMinuteTz.ParseMinTz | src/dt_minute_tz.rs:34 | an accepted minute-precision text is a valid date-time at second 0 |
| DtMinuteTz.ParseSecTz | src/dt_minute_tz.rs:35 | an accepted text with seconds is a valid date-time |
| DtMinuteTz.CharsInBytes | src/dt_minute_tz.rs:43-44 | a byte position that is a character boundary is reached by a prefix of exactly that many UTF-8 bytes |
| DtMinuteTz.AsciiUtf8Len | src/dt_minute_tz.rs:43 | an ASCII string is as many bytes long as it has characters |
| DtMinuteTz.AsciiCharsInBytes | src/dt_minute_tz.rs:44 | in an ASCII string every byte position is a character boundary |
| DtMinuteTz.AsciiSplitIsSafe | src/dt_minute_tz.rs:44 | `split_at(10)` cannot panic on ASCII input |
| DtMinuteTz.ParseStr | src/dt_minute_tz.rs:24-54 | every successful parse is a valid date-time truncated to the minute |
| DtMinuteTz.FormatShape | src/dt_minute_tz.rs:4-13 | the printed text is 22 characters laid out `YYYY-MM-DDTHH:MM±HH:MM`, each field at its place |
| DtMinuteTz.FormatOffsetIsAscii | src/dt_minute_tz.rs:4 | a printed offset is six ASCII characters |
| DtMinuteTz.RoundTrip | src/dt_minute_tz.rs:8-39 | for years 0 through 9999, parsing what `serialize` prints gives the date-time truncated to the minute, offset preserved |
| DtMinuteTz.SerializeExample | src/dt_minute_tz.rs:120-127 | 2025-12-18 09:30:45 at +09:00 prints as `2025-12-18T09:30+09:00` |
| DtMinuteTz.OptionRoundTrip | src/dt_minute_tz.rs:60-82 | the Option lifts round-trip: none stays none, a value comes back truncated to the minute |
| DtMinuteTz.ZuluIsUtc | src/dt_minute_tz.rs:27-31 | a trailing `Z` parses exactly as `+00:00` |
| DtMinuteTz.DateWithOffset | src/dt_minute_tz.rs:41-50 | a 10-character date followed by a signed offset parses exactly as that date at `T00:00` with that offset |
| DtMinuteTz.SerializeMidnight | src/dt_minute_tz.rs:12-13 | midnight of a date prints as the date, `T00:00` and the offset |
| DtMinuteTz.BareDateIsMidnight | src/dt_minute_tz.rs:41-50 | a date followed by an offset parses to 00:00 of that date at that offset |
| DtMinuteTz.OptionalSeconds | src/dt_minute_tz.rs:34-38 | adding a seconds field from 00 to 60 to an accepted text parses to the same minute |
| DtMinuteTz.FallbackRejected | src/dt_minute_tz.rs:43-53 | text that neither format accepts and that has no sign at byte 10 fails with "timezone is required" |
| DtMinuteTz.NoOffsetRejected | src/dt_minute_tz.rs:53 | text with no sign after the date fails with "timezone is required" |
| DtMinuteTz.RejectsSlashDate | src/dt_minute_tz.rs:157 | `2025/12/18` fails with "timezone is required" |
| DtMinuteTz.DashInTimeRejected | src/dt_minute_tz.rs:158 | `2025-12-18T09-30` fails with "timezone is required" |
| DtMinuteTz.RejectsSpaceSeparator | src/dt_minute_tz.rs:159 | `2025-12-18 09:30` fails with "timezone is required" |
| DtMinuteTz.RejectsSeconds61WithoutOffset | src/dt_minute_tz.rs:160 | `2025-12-18T09:30:61` fails with "timezone is required" |
| DtMinuteTz.SecondsOutOfRangeRejected | src/dt_minute_tz.rs:34-53 | `2025-12-18T09:30:61+09:00` fails with "timezone is required": neither format accepts second 61, and byte 10 is `T`, not a sign |
| DtMinuteTz.RejectsBareDate | src/dt_minute_tz.rs:161 | `2025-12-18` fails with "timezone is required" |
| DtMinuteTz.RejectsMissingOffset | src/dt_minute_tz.rs:162 | `2025-12-18T09:30` fails with "timezone is required" |
| DtMinuteTz.RejectsMissingOffsetWithSeconds | src/dt_minute_tz.rs:163 | `2025-12-18T09:30:45` fails with "timezone is required" |
| DtMinuteTz.RejectsInvalidString | src/dt_minute_tz.rs:165 | `invalid-string` fails with "timezone is required" |
| Parser.AsNonEmptyStr | src/parser.rs:292-295 | present exactly when the value is a string whose trim is non-empty, and then it is that trim, with no whitespace at either end |
| Parser.ParseU32Loose | src/parser.rs:297-304 | present exactly when the string has an ASCII digit and the digits' value fits in u32, and then it is the value of the digits in order |
| Parser.ParseU32LooseOfDecorated | src/parser.rs:297-304 | a number between two digit-free decorations reads as that number |
| Parser.ParseU32LooseSkipsSeparators | src/parser.rs:297-304 | grouping separators and a unit suffix are skipped: the digit runs are read as one number |
| Parser.ParseU32LooseGrouped | src/parser.rs:297-304 | "1,234円" reads as 1234 |
| Parser.MarkerAt | src/parser.rs:311-317 | a marker whose first character is not in the text before it is found right after that text, and the split returns that text and the tail |
| Parser.DurationSplitsAtHours | src/parser.rs:311-328 | with an hour marker, the hours come from the digits before it and the minutes from what follows it |
| Parser.MinutesAfterHoursOf | src/parser.rs:318-325 | a minute count written before the minute marker after the hours is that count |
| Parser.HoursAndMinutesOf | src/parser.rs:316-327 | hours and minutes around the markers give hours × 60 + minutes |
| Parser.DurationOfHoursAndMinutes | src/parser.rs:306-328 | "`h`時間`m`分" is `h` × 60 + `m` minutes |
| Parser.DurationOfHours | src/parser.rs:306-328 | "`h`時間" with no minute marker is `h` × 60 minutes |
| Parser.DurationOfMinutes | src/parser.rs:330-336 | "`m`分" with no hour marker is `m` minutes |
| Parser.DurationExampleHoursMinutes | src/parser.rs:307 | "1時間2分" is 62 minutes |
| Parser.DurationExampleHours | src/parser.rs:307 | "3時間" is 180 minutes |
| Parser.DurationExampleMinutes | src/parser.rs:307 | "4分" is 4 minutes |
| Parser.DurationNeedsHourDigits | src/parser.rs:312-316 | no digit before the hour marker means no duration |
| Parser.MinutesAfterHours | src/parser.rs:317-326 | the minutes after the hour marker fit in u32 when present |
| Parser.HoursAndMinutes | src/parser.rs:311-327 | a duration with an hour marker needs at least one digit before it that reads as a u32; it is those hours × 60 plus at most u32::MAX minutes |
| Parser.ParseJaDurationMinutes | src/parser.rs:306-339 | a duration is read only from text that contains 時間 or 分 |
| Parser.DurationNeedsMarker | src/parser.rs:311-338 | text with neither 時間 nor 分 is no duration |
| Parser.DurationNeedsMinuteDigits | src/parser.rs:330-335 | without an hour marker, no digit before the first 分 means no duration |
| Parser.RemoveCommas | src/parser.rs:342 | the result holds no comma and is no longer than the input |
| Parser.NoCommasKept | src/parser.rs:342 | a text with no comma is unchanged |
| Parser.SplitUnit | src/parser.rs:343-349 | a recognised unit leaves a proper prefix of the text as the number |
| Parser.SplitUnitKilometres | src/parser.rs:343 | a trailing "km" is kilometres, with the rest as the number |
| Parser.SplitUnitMetres | src/parser.rs:346 | a trailing "m" not preceded by "k" is metres |
| Parser.SplitUnitNone | src/parser.rs:349 | a text ending in neither unit has none |
| Parser.FractionValue | src/parser.rs:344 | the digits after the point contribute a value between 0 and 1 |
| Parser.DecimalPieces | src/parser.rs:344 | a decimal splits at its first point into the whole and fraction digits |
| Parser.ParseDecimal | src/parser.rs:344 | an accepted number is written only with digits, a point and a sign |
| Parser.DecimalExampleFraction | src/parser.rs:344 | "12.3" is 12.3 |
| Parser.DecimalExampleWhole | src/parser.rs:347 | "500" is 500 |
| Parser.DistanceOfSplit | src/parser.rs:341-350 | a clean text that splits into a number and a unit reads as that number in that unit, converted to kilometres |
| Parser.DistanceInKilometres | src/parser.rs:341-345 | a number followed by "km" is that many kilometres |
| Parser.DistanceInMetres | src/parser.rs:341-348 | a number followed by "m" is a thousandth of as many kilometres, and absent when the number is |
| Parser.DistanceExampleKilometres | src/parser.rs:343-344 | "12.3km" is 12.3 km |
| Parser.DistanceExampleMetres | src/parser.rs:346-347 | "500m" is 0.5 km |
| Parser.ParseDistanceKm | src/parser.rs:341-350 | a distance is read only from text that, trimmed and without commas, ends in "km" or "m" |
| Parser.InferMode | src/parser.rs:275-290 | the mode is one of walk, flight, bus, ferry, unknown and rail; it is walk exactly when the label contains 徒歩, and rail only for a non-empty label |
| Parser.WalkingWins | src/parser.rs:277-278 | a label containing 徒歩 is walk, whatever else it contains |
| Parser.FlightKeyword | src/parser.rs:277-280 | a label containing 空路, フライト or 飛行機 is walk when it also contains 徒歩, and flight otherwise |
| Parser.BusKeyword | src/parser.rs:277-282 | a label containing バス, 連絡バス or 高速 is walk when it contains 徒歩, else flight when it contains a flight keyword, else bus |
| Parser.FerryKeyword | src/parser.rs:277-284 | a label containing フェリー or 船 is walk, flight or bus when a keyword of that mode occurs, checked in that order, and ferry otherwise |
| Parser.UnknownIffNoLabel | src/parser.rs:276-286 | the mode is unknown exactly when the label is absent or empty |
| Parser.RailOtherwise | src/parser.rs:277-288 | a non-empty label with none of 徒歩, 空路, フライト, 飛行機, バス, 高速, フェリー and 船 is rail; 連絡バス needs no check of its own, since it contains バス |
| Parser.SplitColon | src/parser.rs:382-387 | splitting at `:` into exactly two pieces gives the text before the only colon and the colon-free rest |
| Parser.SplitColonOf | src/parser.rs:382-387 | two colon-free pieces joined by a colon split back into those pieces |
| Parser.ParseHhmm | src/parser.rs:381-389 | a parsed time is valid at second 0, and its hour and minute are the trimmed u32 values on each side of the only colon; ParseHhmmComplete states the converse |
| Parser.ParseU32OfPad2 | src/parser.rs:383-384 | a two-digit field reads back as its value |
| Parser.ParseHhmmComplete | src/parser.rs:381-389 | conversely, two colon-free pieces around one colon whose trims read as u32 values h < 24 and m < 60 always parse to h:m, so `9:05`, ` 9 : 5 ` and `+09:05` are accepted |
| Parser.ParseHhmmOfPad2 | src/parser.rs:381-389 | every valid `HH:MM` reads back as that time |
| Parser.Rollover | src/parser.rs:397-407 | the result is valid, carries the parsed time and is at the base's offset |
| Parser.TimeOnDateWithRollover | src/parser.rs:391-408 | the result is valid and at the base's offset |
| Parser.RolloverCases | src/parser.rs:397-405 | with no cursor the date is the base date; with one it is the cursor's date, advanced by one day exactly when the time is earlier than the cursor's; it fails only when that day is past the last date |
| Parser.TimeOnDateCases | src/parser.rs:391-408 | absent exactly when the time does not parse or the rollover runs past the last date; otherwise the parsed time on the base date, the cursor's date or the next day, by the rollover rule |
| Parser.RolloverIsEarliest | src/parser.rs:397-402 | with a cursor, the result is the earliest date-time at or after the cursor with that time of day, at most one day after it |
| Parser.StationName | src/parser.rs:202-211 | a station name is the edge's `stationName` string, or "" when missing or not a string |
| Parser.LineOf | src/parser.rs:213-217 | the line label is never empty; `railNameExcludingDestination`, trimmed, wins whenever it is non-empty, and otherwise the label is the trimmed non-empty `railName` or absent |
| Parser.EdgeTime | src/parser.rs:237-242 | an edge time is present exactly when `timeInfo` is a non-empty array whose first entry has a `time` string with a non-blank trim, and then it is that trim |
| Parser.FareOf | src/parser.rs:231-235 | a fare is present only when `priceInfo.price` is a string, and for such a string it is exactly `parse_u32_loose` of it: the value of its digits when that fits u32 |
| Parser.StampIsRoll | src/parser.rs:237-243 | reconstructing a timestamp from a time string is the rollover of its parsed time of day |
| Parser.Stamp | src/parser.rs:237-243 | a reconstructed timestamp exists only with a search date-time and a time string, and is at the search date-time's offset |
| Parser.DepartureOf | src/parser.rs:237-243 | a departure is reconstructed against the cursor and keeps the timestamps valid |
| Parser.ArrivalOf | src/parser.rs:248-254 | an arrival is reconstructed against the cursor as the departure left it |
| Parser.Clocks | src/parser.rs:237-254 | one parsed time of day per edge, each a valid time |
| Parser.ClockAt | src/parser.rs:237-254 | edge `i`'s time of day is the parse of its first `timeInfo` time |
| Parser.Cursor | src/parser.rs:196-257 | the cursor before segment `n` is always a valid date-time or absent |
| Parser.BuildSegments | src/parser.rs:186-273 | one segment per adjacent pair of edges, segment `k` built from edges `k` and `k + 1` against the cursor the earlier segments left |
| Parser.NextSegment | src/parser.rs:199-269 | one loop iteration builds segment `i` of the specification and leaves the cursor the specification has before segment `i + 1` |
| Parser.CursorAfter | src/parser.rs:244-257 | a segment advances the cursor by its departure and then its arrival, each only when reconstructed; a missing time leaves the cursor unchanged |
| Parser.SegmentStep | src/parser.rs:199-269 | a segment built from the current cursor is the specification's segment, and the cursor after it is the next one |
| Parser.BuildSegmentsFromEdges | src/parser.rs:186-273 | the loop returns exactly the specification's segments |
| Parser.SegmentFields | src/parser.rs:202-235 | segment `k` takes its station names, line, mode, destination, duration and fare from edges `k` and `k + 1` |
| Parser.SegmentCountAndNames | src/parser.rs:190-211 | `n ≥ 2` edges give `n − 1` segments and fewer give none; segment `k` runs from edge `k`'s station to edge `k + 1`'s, defaulting to "" |
| Parser.DepartureOfClock | src/parser.rs:237-246 | a departure depends on the edge only through its parsed time of day |
| Parser.ArrivalOfClock | src/parser.rs:248-257 | an arrival depends on the edges only through their parsed times of day |
| Parser.DepartureOfIsAt | src/parser.rs:237-246 | the departure built in the loop is the departure computed from the times of day alone |
| Parser.ArrivalOfIsAt | src/parser.rs:248-257 | the arrival built in the loop is the arrival computed from the times of day alone |
| Parser.SegmentIsSegmentOf | src/parser.rs:199-269 | segment `k` is the segment built from edges `k` and `k + 1` against the cursor before it |
| Parser.SegmentTimesAt | src/parser.rs:237-257 | a built segment's departure and arrival are those computed from the times of day |
| Parser.RollRepeat | src/parser.rs:248-257 | placing the same time of day again against the cursor it produced gives the same timestamp |
| Parser.DepartureRepeatsArrival | src/parser.rs:248-257 | segment `k + 1`'s departure is segment `k`'s arrival, both being edge `k + 1`'s time |
| Parser.ChainAt | src/parser.rs:237-257 | each segment after the first departs exactly when the one before it arrives |
| Parser.SegmentsChain | src/parser.rs:237-257 | every segment after the first departs exactly when the one before it arrives |
| Parser.NoAnchorNoSegmentTimes | src/parser.rs:243-254 | without a search date-time no segment has a departure or an arrival |
| Parser.StampsOfTimes | src/parser.rs:237-257 | the timestamps of a run of segments are those computed from the times of day |
| Parser.StampsAreTimes | src/parser.rs:237-257 | the timestamps of the built segments are those computed from the edges' times of day |
| Parser.RollStep | src/parser.rs:397-407 | a reconstructed timestamp is valid at the base's offset, on the base date without a cursor, and one step after the cursor otherwise |
| Parser.TimelineSnoc | src/parser.rs:244-257 | a timestamp one step after the last keeps a timeline anchored on the search date a timeline |
| Parser.TimelineAdvance | src/parser.rs:244-257 | reconstructing against the timeline's last entry extends the timeline, and the cursor is its new last entry |
| Parser.TimesTimeline | src/parser.rs:196-257 | the timestamps of the first `n` segments form a timeline, and the cursor is its last entry |
| Parser.SegmentTimeline | src/parser.rs:186-273 | the reconstructed timestamps of a route start on the search date and each is not earlier than, and at most one day after, the one before it |
| Parser.TimelineChronological | src/parser.rs:196-257 | timestamps along a timeline are non-decreasing |
| Parser.BuildSearchDateTime | src/parser.rs:352-378 | present exactly when y, m, d and hh are strings that parse, the date is valid, hh < 24 and m1 × 10 + m2 < 60 (missing minute digits are 0); then it is at +09:00, second 0, with exactly those fields |
| Parser.NumericYearIsMissing | src/parser.rs:353 | a year given as a JSON number counts as missing |
| Parser.SummaryTimes | src/parser.rs:135-147 | a summary departure is on the search date, an arrival one step after the departure or on the search date, both at its offset, and neither without a search date-time |
| Parser.SummaryOf | src/parser.rs:131-167 | the transfer count and price fit in u32; a duration or distance comes only from a `totalTime` or `distance` string; `isFast` is present exactly when the summary holds that boolean |
| Parser.SummaryFields | src/parser.rs:148-166 | the transfer count and price are `parse_u32_loose` of their strings and absent otherwise, the duration and distance are the Japanese-duration and distance readings of their strings, and `isFast`, `isEasy` and `isCheap` are the booleans given, absent when missing or not booleans |
| Parser.EdgesOf | src/parser.rs:132-133 | the edges are the `edgeInfoList` array's items, or none when that member is missing or not an array |
| Parser.RouteOf | src/parser.rs:129-175 | route `idx` has rank `idx + 1`, at least 1, and one segment per adjacent pair of its edges |
| Parser.Routes | src/parser.rs:128-176 | one route per feature, in order, route `k` built from feature `k` |
| Parser.BuildRoute | src/parser.rs:131-175 | one iteration builds the route of rank `idx + 1` from its summary and edges |
| Parser.BuildRoutes | src/parser.rs:128-176 | the loop returns exactly the routes of the features |
| Parser.NextDataToTransitDto | src/parser.rs:105-184 | the method returns exactly the normalised page |
| Parser.OnlyOneFatalError | src/parser.rs:105-184 | the only error is a missing `featureInfoList` array; otherwise there is one route per feature, in order, route `k` has rank `k + 1`, and its summary and segments come from feature `k` |
| Parser.PlaceName | src/parser.rs:109-119 | the display name wins when it is a string, the page query's name is used otherwise, and the name is empty unless one of the two is a string |
| Parser.TransitDtoOf | src/parser.rs:105-184 | the result is an error exactly when `featureInfoList` is not an array; otherwise it has one route per feature and the search date-time read from the page query |
| Parser.RoutesTimeline | src/parser.rs:121-176 | with a search date-time, every route's segment timestamps form a timeline anchored on it |
| Parser.NoAnchorNoTimestamps | src/parser.rs:121-254 | without a search date-time no summary and no segment has a departure or an arrival, even where the page gives times |
| Parser.JsonInputIsParsedWhole | src/parser.rs:87-92 | input starting with `{` after leading whitespace is parsed whole as JSON |
| Parser.HtmlWithoutScript | src/parser.rs:94-99 | HTML without the `__NEXT_DATA__` script fails with "__NEXT_DATA__ not found in HTML" |
| Parser.LoadNextData | src/parser.rs:86-103 | the page is whatever the JSON parser makes of the whole input or of the `__NEXT_DATA__` script, or the not-found error |
| Yxhoo.MinuteDigits | src/yxhoo.rs:63-66 | tens × 10 + ones is the minute with ones < 10, and tens < 6 for a minute under 60 |
| Yxhoo.Keys | src/yxhoo.rs:70 | the keys of a query, one per pair, in order |
| Yxhoo.MeanKeys | src/yxhoo.rs:109 | the set of allowed means holds the key of every listed mean |
| Yxhoo.FlagPairs | src/yxhoo.rs:111-114 | one pair per flag key, in order, valued "1" exactly when the key is in the set and "0" otherwise |
| Yxhoo.HeadPairs | src/yxhoo.rs:72-95 | the head is eleven pairs keyed from, to, y, m, d, hh, m1, m2, type, s and no, with from, to and the rank verbatim |
| Yxhoo.PreferencePairs | src/yxhoo.rs:99-107 | at most three preference pairs |
| Yxhoo.TailPairs | src/yxhoo.rs:98-128 | the tail is six to nine pairs, exactly nine without options |
| Yxhoo.QueryOf | src/yxhoo.rs:70-128 | the query has 17 to 20 pairs and starts with the eleven head keys in order |
| Yxhoo.DefaultTail | src/yxhoo.rs:115-127 | without options the tail is the default preferences followed by every flag at "1" |
| Yxhoo.PushHead | src/yxhoo.rs:72-95 | the first eleven pushes produce the head pairs |
| Yxhoo.PushFlags | src/yxhoo.rs:111-114 | the flag loop appends one pair per flag key |
| Yxhoo.PushOptions | src/yxhoo.rs:98-114 | with options, the pushes append the given preferences and the six flags |
| Yxhoo.PushDefaults | src/yxhoo.rs:115-128 | without options, the pushes append every default and every flag as "1" |
| Yxhoo.BuildQuery | src/yxhoo.rs:70-128 | the whole sequence of pushes builds the query specification |
| Yxhoo.Lookup | src/yxhoo.rs:70-128 | the first value a query gives a key is one of its pairs, and absent exactly when no pair has that key |
| Yxhoo.LookupFirst | src/yxhoo.rs:70-128 | the lookup answers the first pair with the key |
| Yxhoo.FirstIndex | src/yxhoo.rs:70-128 | the first pair with a key is at the first index holding that key |
| Yxhoo.LookupAppend | src/yxhoo.rs:70-128 | a key of the earlier pairs is answered there, otherwise by the later pairs |
| Yxhoo.KeysAppend | src/yxhoo.rs:70-128 | the keys of appended pairs are the keys of each part |
| Yxhoo.EchoedQuery | src/parser.rs:352-367 | the page's echoed query holds exactly the keys the request sent, each with its first value |
| Yxhoo.FlagIndex | src/yxhoo.rs:111 | every mean's key is among the six flag keys |
| Yxhoo.HeadKeysOf | src/yxhoo.rs:72-95 | the head's keys are from, to, y, m, d, hh, m1, m2, type, s and no, in order |
| Yxhoo.QueryLookup | src/yxhoo.rs:70-128 | a head key is answered by the head, any other key by the tail |
| Yxhoo.HeadKeysDistinct | src/yxhoo.rs:72-95 | the head keys are distinct |
| Yxhoo.HeadLookup | src/yxhoo.rs:72-95 | each head key is answered by its own head pair |
| Yxhoo.FlagKeysOf | src/yxhoo.rs:111-114 | the flag pairs' keys are al, shin, ex, hb, lb and sr, in order |
| Yxhoo.FlagLookup | src/yxhoo.rs:111-114 | a mean's flag is "1" exactly when its key is in the set, else "0" |
| Yxhoo.QueryHead | src/yxhoo.rs:72-95 | the query starts with exactly from, to, y, m, d, hh, m1, m2, type, s and no; from and to are verbatim, and type, s and no carry the kind's code, the criteria's code and the rank |
| Yxhoo.DefaultCriteriaQuery | src/yxhoo.rs:91-92 | with no criteria, `s` is "0" |
| Yxhoo.NoOptionsQuery | src/yxhoo.rs:115-128 | with no options, the query has 20 pairs ending in ticket=normal, expkind=1, ws=3 and the six flags at "1" |
| Yxhoo.QueryTail | src/yxhoo.rs:98-128 | after the head the query holds exactly the tail pairs of the options |
| Yxhoo.PreferenceKeys | src/yxhoo.rs:99-107 | the preference keys are ticket, expkind and ws, each only when that option is present |
| Yxhoo.ExplicitOptionsKeys | src/yxhoo.rs:98-114 | with options, after the head come the present preferences' keys, then al, shin, ex, hb, lb and sr |
| Yxhoo.MeanKeyNotInHead | src/yxhoo.rs:72-111 | no mean's key is a head key |
| Yxhoo.MeanKeyNotPreference | src/yxhoo.rs:99-111 | no mean's key is a preference key |
| Yxhoo.PreferenceKeyOutside | src/yxhoo.rs:99-111 | the preference keys are neither head keys nor flag keys |
| Yxhoo.TicketLookup | src/yxhoo.rs:99-101 | `ticket` is sent exactly when a ticket preference is given, as its string |
| Yxhoo.SeatLookup | src/yxhoo.rs:102-104 | `expkind` is sent exactly when a seat preference is given, as its code |
| Yxhoo.WalkingLookup | src/yxhoo.rs:105-107 | `ws` is sent exactly when a walking speed is given, as its code |
| Yxhoo.PreferenceInQuery | src/yxhoo.rs:98-107 | in the whole query each preference key is answered by the preferences alone |
| Yxhoo.ExplicitPreferences | src/yxhoo.rs:98-107 | with options, ticket, expkind and ws carry the given values exactly when given, with no defaulting |
| Yxhoo.FlagIsAllowed | src/yxhoo.rs:109-114 | with options, each mean's flag is "1" exactly when the mean is in `available_means`, else "0" |
| Yxhoo.DefaultFlags | src/yxhoo.rs:125-127 | with no options, every mean's flag is "1" |
| Yxhoo.SearchDateOfFields | src/parser.rs:352-375 | query fields holding a date-time's year, month, day, hour and minute digits give that date-time at +09:00, second 0 |
| Yxhoo.EchoedNumber | src/yxhoo.rs:79-85 | a number sent with `to_string` reads back as that number |
| Yxhoo.EchoedYear | src/yxhoo.rs:78 | a year sent with `to_string` reads back as that year |
| Yxhoo.EchoedDateFields | src/yxhoo.rs:77-85 | y, m, d, hh, m1 and m2 echoed back give the date-time they were taken from, at +09:00 and second 0 |
| Yxhoo.EncodedDateRoundTrip | src/yxhoo.rs:77-85 | the search date-time read from the echoed query has the request's local date, hour and minute, at +09:00 |
| Yxhoo.JstDateRoundTrip | src/yxhoo.rs:77-85 | for a +09:00 date the search date-time read back is the request's date truncated to the minute |

## Left out

- HTTP and networking are not modelled: `http_client`, `suggest_places`, and the send and receive part of `transit` (src/yxhoo.rs:130-141). The query ends where the request would be sent.
- `load_next_data`'s HTML selector and JSON text parser are library code. They are parameters of `Parser.LoadNextData`; only the dispatch on a leading `{` and the missing-script error are modelled.
- The round trip from query to page assumes the site echoes each sent key's first value into `pageQuery`. That echo is `Yxhoo.EchoedQuery`, a modelling assumption about the remote service.
- `parse_distance_km` produces an `f64`. Here it is an exact `real` over plain decimal notation. Exponents, `inf`, `nan` and binary rounding are not modelled.
- chrono's format engine is modelled only in its fixed-width ASCII profile. One-digit fields, signed or five-digit years and whitespace before the offset are not accepted here. Seconds run 00 to 60 (a leap second) and are truncated.
- Nanoseconds and offsets with seconds are not modelled: a date-time is whole seconds with an offset in whole minutes.
- `from_local_datetime(..).single()` with a fixed offset is treated as always succeeding. Overflow of the UTC instant at the very ends of chrono's date range is not modelled.
- DtMinuteTz.RoundTrip: holds for years 0 through 9999 only. Outside that range chrono prints `%Y` with a sign and five or more digits, and the fixed-width grammar here does not read that back.
- DtMinuteTz.ParseOffset: accepts only `+HH:MM` and `-HH:MM`. chrono 0.4's `%:z` also accepts `+0900` and `+09 00`, so `2025-12-18T09:30+0900` parses in the crate but fails here.
- DtMinuteTz.ParseStr: requires that `split_at(10)` does not panic, meaning byte 10 of the normalised text is a character boundary or the text is at most 10 bytes. The panic itself is not modelled; `DtMinuteTz.AsciiSplitIsSafe` discharges it for ASCII input.
- Parser.HoursAndMinutes: does not model u32 overflow of `hours * 60 + minutes`; the arithmetic is exact.
- Parser.BuildSearchDateTime: does not model u32 overflow of `m1 * 10 + m2`; the arithmetic is exact, and a huge m1 is rejected as minute ≥ 60 instead.
- The `schema` function, the serde and schemars derive attributes, the suggest response types, and `src/lib.rs` are declarative library glue with no logic to model.
- The loop bodies of `build_segments_from_edges` and `next_data_to_transit_dto` are separate methods (`Parser.NextSegment`, `Parser.BuildRoute`). The loop keeps the same order of pushes and the same cursor updates.
