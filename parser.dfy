/** The route normaliser: walks the provider's untyped `__NEXT_DATA__` JSON tree and builds a
    `TransitDto`. Bare "HH:MM" times are anchored on the search date-time and threaded through a
    route's segments with one cursor that rolls the date over by a day whenever a time of day is
    earlier than the cursor's. */
module Parser {
  import opened Wrappers
  import opened Text
  import opened Calendar
  import opened Json
  import DtMinuteTz

  // ---------------------------------------------------------------- the result types

  /** One leg between two consecutive edges. `mode` is one of "rail", "walk", "bus", "flight",
      "ferry", "unknown". */
  datatype SegmentDto = SegmentDto(
    mode: string,
    from: string,
    to: string,
    line: Option<string>,
    destination: Option<string>,
    durationMinutes: Option<nat>,
    fareYen: Option<nat>,
    departureTime: Option<DateTime>,
    arrivalTime: Option<DateTime>)

  datatype RouteSummaryDto = RouteSummaryDto(
    departureTime: Option<DateTime>,
    arrivalTime: Option<DateTime>,
    durationMinutes: Option<nat>,
    transferCount: Option<nat>,
    totalPriceYen: Option<nat>,
    distanceKm: Option<real>,
    isFast: Option<bool>,
    isEasy: Option<bool>,
    isCheap: Option<bool>)

  datatype RouteDto = RouteDto(rank: nat, summary: RouteSummaryDto, segments: seq<SegmentDto>)

  datatype TransitDto = TransitDto(
    from: string,
    to: string,
    searchDateTime: Option<DateTime>,
    routes: seq<RouteDto>)

  // ---------------------------------------------------------------- small total parsers

  /** `as_nonempty_str`: a JSON string, trimmed, unless the trimmed text is empty. */
  function AsNonEmptyStr(v: Value): (r: Option<string>)
    ensures r.Some? <==> v.Str? && Trim(v.s) != []
    ensures r.Some? ==> r.value == Trim(v.s)
    ensures r.Some? ==> !IsWhitespace(r.value[0]) && !IsWhitespace(r.value[|r.value| - 1])
  {
    match AsStr(v)
    case None => None
    case Some(s) =>
      TrimEnds(s);
      var t := Trim(s);
      if t == [] then None else Some(t)
  }

  /** `v.get(key).and_then(as_nonempty_str)`. */
  function NonEmptyField(v: Value, key: string): Option<string> {
    match Get(v, key)
    case Some(x) => AsNonEmptyStr(x)
    case None => None
  }

  /** `parse_u32_loose`: keep the ASCII digits, in order, and read them as a `u32`. */
  function ParseU32Loose(s: string): (r: Option<nat>)
    ensures r.Some? <==> Digits(s) != [] && DecimalValue(Digits(s)) <= U32Max
    ensures r.Some? ==> r.value == DecimalValue(Digits(s))
  {
    var digits := Digits(s);
    if digits == [] then None
    else
      assert IsAsciiDigit(digits[0]);
      ParseU32Digits(digits);
      ParseU32(digits)
  }

  /** A number written with any non-digit decoration around it ("1,234円" is not this shape, the
      comma being inside) reads back as that number. */
  lemma ParseU32LooseOfDecorated(a: string, n: nat, b: string)
    requires NoDigits(a) && NoDigits(b) && n <= U32Max
    ensures ParseU32Loose(a + NatToString(n) + b) == Some(n)
  {
    var ds := NatToString(n);
    DigitsAppend(a + ds, b);
    DigitsAppend(a, ds);
    DigitsOfNoDigits(a);
    DigitsOfNoDigits(b);
    DigitsOfAllDigits(ds);
    NatToStringValue(n);
    assert Digits(a + ds + b) == ds;
  }

  /** Separators between digit groups and marks around them are skipped: the digits read as
      one number. */
  lemma ParseU32LooseSkipsSeparators(x: string, sep: string, y: string, b: string)
    requires AllDigits(x) && AllDigits(y) && NoDigits(sep) && NoDigits(b)
    requires x + y != [] && DecimalValue(x + y) <= U32Max
    ensures ParseU32Loose(x + sep + y + b) == Some(DecimalValue(x + y))
  {
    DigitsOfSeparated(x, sep, y, b);
  }

  lemma DecimalValueOfLiteral()
    ensures DecimalValue("1234") == 1234
  {
    assert "1234"[..3] == "123" && "123"[..2] == "12" && "12"[..1] == "1" && "1"[..0] == [];
  }

  /** "1,234円" reads as 1234. */
  lemma ParseU32LooseGrouped()
    ensures ParseU32Loose("1,234円") == Some(1234)
  {
    assert "1" + "234" == "1234";
    DecimalValueOfLiteral();
    ParseU32LooseSkipsSeparators("1", ",", "234", "円");
    assert "1" + "," + "234" + "円" == "1,234円";
  }

  const HourMarker: string := "時間"
  const MinuteMarker: string := "分"

  /** The minutes after the hour marker: the digits before a minute marker, 0 when there is no
      minute marker or no digit before it. */
  function MinutesAfterHours(rest: string): (r: Option<nat>)
    ensures r.Some? ==> r.value <= U32Max
  {
    match Find(rest, MinuteMarker)
    case Some(m) => var ms := Digits(rest[..m]); if ms == [] then Some(0) else ParseU32(ms)
    case None => Some(0)
  }

  /** The minutes of a duration whose hour marker splits it into `before` and `after`: the
      hours are the digits before the marker. */
  function HoursAndMinutes(before: string, after: string): (r: Option<nat>)
    ensures r.Some? ==> Digits(before) != [] && DecimalValue(Digits(before)) <= U32Max
    ensures r.Some? ==> 60 * DecimalValue(Digits(before)) <= r.value <= 60 * DecimalValue(Digits(before)) + U32Max
  {
    var hs := Digits(before);
    ParseU32Digits(hs);
    assert hs != [] ==> IsAsciiDigit(hs[0]) && UnsignedBody(hs, {'+'}) == hs;
    match (ParseU32(Digits(before)), MinutesAfterHours(after))
    case (Some(hours), Some(minutes)) => Some(hours * 60 + minutes)
    case _ => None
  }

  /** The minutes of a duration with no hour marker: the digits before the minute marker. */
  function MinutesOnly(s: string): Option<nat> {
    match Find(s, MinuteMarker)
    case Some(m) => ParseU32(Digits(s[..m]))
    case None => None
  }

  /** `parse_ja_duration_minutes`: "<h>時間<m>分", "<h>時間" or "<m>分", each number read from
      the ASCII digits before its marker. An empty run of minute digits after the hour marker
      counts as 0; an empty run anywhere else fails the parse. */
  function ParseJaDurationMinutes(s: string): (r: Option<nat>)
    ensures r.Some? ==> Contains(s, HourMarker) || Contains(s, MinuteMarker)
  {
    ContainsIffFind(s, HourMarker);
    ContainsIffFind(s, MinuteMarker);
    match Find(s, HourMarker)
    case Some(h) => HoursAndMinutes(s[..h], s[h + |HourMarker|..])
    case None => MinutesOnly(s)
  }

  /** A marker whose first character does not occur in `a` is first found right after `a`. */
  lemma MarkerAt(a: string, marker: string, tail: string)
    requires marker != [] && forall i :: 0 <= i < |a| ==> a[i] != marker[0]
    ensures Find(a + marker + tail, marker) == Some(|a|)
    ensures (a + marker + tail)[..|a|] == a && (a + marker + tail)[|a| + |marker|..] == tail
  {
    assert a + marker + tail == a + (marker + tail);
    FindAfter(a, marker + tail, marker);
    FindPrefix(marker, tail);
  }

  lemma MinutesAfterHoursOf(m: nat)
    requires m <= U32Max
    ensures MinutesAfterHours(NatToString(m) + MinuteMarker) == Some(m)
  {
    var ms := NatToString(m);
    MarkerAt(ms, MinuteMarker, []);
    assert ms + MinuteMarker + [] == ms + MinuteMarker;
    DigitsOfAllDigits(ms);
    ParseU32OfNatToString(m);
  }

  /** The duration of a text with an hour marker after the digits `a` of no marker. */
  lemma DurationSplitsAtHours(a: string, tail: string)
    requires forall i :: 0 <= i < |a| ==> a[i] != HourMarker[0]
    ensures ParseJaDurationMinutes(a + HourMarker + tail) == HoursAndMinutes(a, tail)
  {
    MarkerAt(a, HourMarker, tail);
  }

  /** Printing `h` hours and `m` minutes in the provider's form and parsing it back gives the
      total number of minutes. */
  lemma DurationOfHoursAndMinutes(h: nat, m: nat)
    requires h <= U32Max && m <= U32Max
    ensures ParseJaDurationMinutes(NatToString(h) + HourMarker + NatToString(m) + MinuteMarker)
      == Some(h * 60 + m)
  {
    var hs, ms := NatToString(h), NatToString(m);
    var tail := ms + MinuteMarker;
    assert hs + HourMarker + ms + MinuteMarker == hs + HourMarker + tail;
    DurationSplitsAtHours(hs, tail);
    HoursAndMinutesOf(h, m);
  }

  lemma HoursAndMinutesOf(h: nat, m: nat)
    requires h <= U32Max && m <= U32Max
    ensures HoursAndMinutes(NatToString(h), NatToString(m) + MinuteMarker) == Some(h * 60 + m)
  {
    DigitsOfAllDigits(NatToString(h));
    ParseU32OfNatToString(h);
    MinutesAfterHoursOf(m);
  }

  /** "<h>時間" alone is `h` hours. */
  lemma DurationOfHours(h: nat)
    requires h <= U32Max
    ensures ParseJaDurationMinutes(NatToString(h) + HourMarker) == Some(h * 60)
  {
    var hs := NatToString(h);
    DurationSplitsAtHours(hs, []);
    assert hs + HourMarker + [] == hs + HourMarker;
    HoursWithoutMinutes(h);
  }

  lemma HoursWithoutMinutes(h: nat)
    requires h <= U32Max
    ensures HoursAndMinutes(NatToString(h), []) == Some(h * 60)
  {
    DigitsOfAllDigits(NatToString(h));
    ParseU32OfNatToString(h);
    FindAbsent([], MinuteMarker);
  }

  /** "<m>分" alone is `m` minutes. */
  lemma DurationOfMinutes(m: nat)
    requires m <= U32Max
    ensures ParseJaDurationMinutes(NatToString(m) + MinuteMarker) == Some(m)
  {
    var ms := NatToString(m);
    FindAbsent(ms + MinuteMarker, HourMarker);
    MarkerAt(ms, MinuteMarker, []);
    assert ms + MinuteMarker + [] == ms + MinuteMarker;
    DigitsOfAllDigits(ms);
    ParseU32OfNatToString(m);
  }

  /** "1時間2分" is 62 minutes. */
  lemma DurationExampleHoursMinutes()
    ensures ParseJaDurationMinutes("1時間2分") == Some(62)
  {
    SmallNumerals();
    HoursAndMinutesOf(1, 2);
    assert "2" + MinuteMarker == "2分";
    DurationSplitsAtHours("1", "2分");
    assert "1" + HourMarker + "2分" == "1時間2分";
  }

  lemma SmallNumerals()
    ensures NatToString(1) == "1" && NatToString(2) == "2"
  {
  }

  /** "3時間" is 180 minutes. */
  lemma DurationExampleHours()
    ensures ParseJaDurationMinutes("3時間") == Some(180)
  {
    DurationOfHours(3);
    assert NatToString(3) + HourMarker == "3時間";
  }

  /** "4分" is 4 minutes. */
  lemma DurationExampleMinutes()
    ensures ParseJaDurationMinutes("4分") == Some(4)
  {
    DurationOfMinutes(4);
    assert NatToString(4) + MinuteMarker == "4分";
  }

  /** An hour marker with no digit before it fails the parse, whatever follows. */
  lemma DurationNeedsHourDigits(a: string, b: string)
    requires NoDigits(a) && forall i :: 0 <= i < |a| ==> a[i] != HourMarker[0]
    ensures ParseJaDurationMinutes(a + HourMarker + b) == None
  {
    DurationSplitsAtHours(a, b);
    DigitsOfNoDigits(a);
  }

  /** A text with neither marker is no duration. */
  lemma DurationNeedsMarker(s: string)
    requires !Contains(s, HourMarker) && !Contains(s, MinuteMarker)
    ensures ParseJaDurationMinutes(s) == None
  {
  }

  /** Without an hour marker, a minute marker with no digit before it fails the parse, whatever
      follows. */
  lemma DurationNeedsMinuteDigits(a: string, b: string)
    requires NoDigits(a) && forall i :: 0 <= i < |a| ==> a[i] != MinuteMarker[0]
    requires !Contains(a + MinuteMarker + b, HourMarker)
    ensures ParseJaDurationMinutes(a + MinuteMarker + b) == None
  {
    var s := a + MinuteMarker + b;
    ContainsIffFind(s, HourMarker);
    MarkerAt(a, MinuteMarker, b);
    DigitsOfNoDigits(a);
  }

  // ---------------------------------------------------------------- distance

  /** `s.replace(',', "")`. */
  function RemoveCommas(s: string): (r: string)
    ensures |r| <= |s| && forall i :: 0 <= i < |r| ==> r[i] != ','
  {
    if s == [] then [] else (if s[0] == ',' then [] else [s[0]]) + RemoveCommas(s[1..])
  }

  predicate EndsWith(s: string, suffix: string) {
    |suffix| <= |s| && s[|s| - |suffix|..] == suffix
  }

  /** The value of the digits after a decimal point: `0.d1d2...`. */
  function FractionValue(ds: string): (r: real)
    requires AllDigits(ds)
    ensures 0.0 <= r <= 1.0
  {
    if ds == [] then 0.0 else (DigitValue(ds[0]) as real + FractionValue(ds[1..])) / 10.0
  }

  predicate IsDecimalChar(c: char) { IsAsciiDigit(c) || c == '.' || c == '+' || c == '-' }

  /** The two pieces of an unsigned decimal: the digits before the first `.` and those after it. */
  function DecimalPieces(body: string): (r: (string, string))
    ensures |r.0| <= |body| && (r.0 == body || body == r.0 + "." + r.1)
  {
    match Find(body, ".")
    case Some(k) =>
      assert body == body[..k] + "." + body[k + 1..] by {
        assert body[k..k + 1] == ".";
      }
      (body[..k], body[k + 1..])
    case None => (body, [])
  }

  /** The exact value of a decimal with the given sign, whole digits and fraction digits. */
  function DecimalNumber(negative: bool, whole: string, fraction: string): real
    requires AllDigits(whole) && AllDigits(fraction)
  {
    var v := DecimalValue(whole) as real + FractionValue(fraction);
    if negative then -v else v
  }

  /** `s.parse::<f64>()` restricted to plain decimal notation: an optional sign, then digits with
      at most one `.`, at least one digit in all; the value is the exact decimal. */
  function ParseDecimal(s: string): (r: Option<real>)
    ensures r.Some? ==> IsDecimalText(s)
  {
    var negative := |s| > 0 && s[0] == '-';
    var body := if |s| > 0 && (s[0] == '+' || s[0] == '-') then s[1..] else s;
    var (whole, fraction) := DecimalPieces(body);
    if (whole == [] && fraction == []) || !AllDigits(whole) || !AllDigits(fraction) then None
    else
      assert forall i :: 0 <= i < |body| ==> IsDecimalChar(body[i]);
      Some(DecimalNumber(negative, whole, fraction))
  }

  datatype DistanceUnit = Kilometres | Metres

  /** The unit suffix of a cleaned distance text: "km" first, else "m", with the text before it. */
  function SplitUnit(t: string): (r: Option<(string, DistanceUnit)>)
    ensures r.Some? ==> |r.value.0| < |t| && r.value.0 == t[..|r.value.0|]
    ensures r.Some? <==> EndsWith(t, "m")
  {
    if EndsWith(t, "km") then Some((t[..|t| - 2], Kilometres))
    else if EndsWith(t, "m") then Some((t[..|t| - 1], Metres))
    else None
  }

  /** `parse_distance_km`: trim, drop the thousands separators, then read a trailing "km" as
      kilometres and a trailing "m" as metres (divided by 1000); anything else is absent. */
  function ParseDistanceKm(s: string): (r: Option<real>)
    ensures r.Some? ==> EndsWith(RemoveCommas(Trim(s)), "m")
  {
    match SplitUnit(RemoveCommas(Trim(s)))
    case None => None
    case Some((number, unit)) => InKilometres(ParseDecimal(Trim(number)), unit)
  }

  /** A distance read in the given unit, expressed in kilometres. */
  function InKilometres(v: Option<real>, unit: DistanceUnit): Option<real> {
    match v
    case None => None
    case Some(x) => Some(if unit == Metres then x / 1000.0 else x)
  }

  lemma {:induction false} NoCommasKept(s: string)
    requires forall i :: 0 <= i < |s| ==> s[i] != ','
    ensures RemoveCommas(s) == s
  {
    if s != [] {
      NoCommasKept(s[1..]);
    }
  }

  /** The characters a plain decimal is written with. */
  predicate IsDecimalText(d: string) {
    d != [] && forall i :: 0 <= i < |d| ==> IsDecimalChar(d[i])
  }

  /** A trailing "km" is kilometres. */
  lemma SplitUnitKilometres(n: string)
    ensures SplitUnit(n + "km") == Some((n, Kilometres))
  {
    var t := n + "km";
    assert t[..|t| - 2] == n && t[|t| - 2..] == "km";
  }

  /** A trailing "m" not preceded by "k" is metres. */
  lemma SplitUnitMetres(n: string)
    requires n == [] || n[|n| - 1] != 'k'
    ensures SplitUnit(n + "m") == Some((n, Metres))
  {
    var t := n + "m";
    assert t[..|t| - 1] == n && t[|t| - 1..] == "m";
    if |n| > 0 {
      assert t[|t| - 2..][0] == n[|n| - 1];
    }
  }

  /** A text ending in neither unit has no unit. */
  lemma SplitUnitNone(n: string)
    requires n == [] || n[|n| - 1] != 'm'
    ensures SplitUnit(n) == None
  {
    if |n| > 0 {
      assert n[|n| - 1..][0] == n[|n| - 1];
      assert |n| >= 2 ==> n[|n| - 2..][1] == n[|n| - 1];
    }
  }

  /** "12.3" is the decimal 12.3. */
  lemma DecimalExampleFraction()
    ensures ParseDecimal("12.3") == Some(12.3)
  {
    MarkerAt("12", ".", "3");
    assert "12" + "." + "3" == "12.3";
    assert DecimalPieces("12.3") == ("12", "3");
    assert DecimalValue("12") == 12 by {
      assert "12"[..1] == "1" && "1"[..0] == [];
    }
    assert FractionValue("3") == 0.3 by {
      assert "3"[1..] == [];
    }
  }

  /** "500" is the decimal 500. */
  lemma DecimalExampleWhole()
    ensures ParseDecimal("500") == Some(500.0)
  {
    FindAbsent("500", ".");
    assert DecimalValue("500") == 500 by {
      assert "500"[..2] == "50" && "50"[..1] == "5" && "5"[..0] == [];
    }
  }

  /** A number with no separator that starts with a non-blank, followed by "km", is that many
      kilometres. */
  lemma DistanceInKilometres(n: string)
    requires n != [] && !IsWhitespace(n[0]) && forall i :: 0 <= i < |n| ==> n[i] != ','
    ensures ParseDistanceKm(n + "km") == ParseDecimal(Trim(n))
  {
    var t := n + "km";
    TrimOfTrimmed(t);
    assert forall i :: 0 <= i < |t| ==> t[i] != ',' by {
      forall i | 0 <= i < |t| ensures t[i] != ',' {
        if i >= |n| { assert t[i] == "km"[i - |n|]; }
      }
    }
    NoCommasKept(t);
    SplitUnitKilometres(n);
    DistanceOfSplit(t, n, Kilometres);
  }

  /** A number with no separator that starts with a non-blank and does not end in "k", followed
      by "m", is that many metres, read as a thousandth of as many kilometres. */
  lemma DistanceInMetres(n: string)
    requires n != [] && !IsWhitespace(n[0]) && n[|n| - 1] != 'k'
    requires forall i :: 0 <= i < |n| ==> n[i] != ','
    ensures ParseDecimal(Trim(n)).None? ==> ParseDistanceKm(n + "m") == None
    ensures ParseDecimal(Trim(n)).Some? ==> ParseDistanceKm(n + "m") == Some(ParseDecimal(Trim(n)).value / 1000.0)
  {
    var t := n + "m";
    TrimOfTrimmed(t);
    assert forall i :: 0 <= i < |t| ==> t[i] != ',' by {
      forall i | 0 <= i < |t| ensures t[i] != ',' {
        if i >= |n| { assert t[i] == 'm'; }
      }
    }
    NoCommasKept(t);
    SplitUnitMetres(n);
    DistanceOfSplit(t, n, Metres);
  }

  /** A text that is already clean and splits into a number and a unit reads as that number in
      that unit. */
  lemma DistanceOfSplit(t: string, n: string, unit: DistanceUnit)
    requires RemoveCommas(Trim(t)) == t && SplitUnit(t) == Some((n, unit))
    ensures ParseDistanceKm(t) == InKilometres(ParseDecimal(Trim(n)), unit)
  {
  }

  /** "12.3km" is 12.3 kilometres. */
  lemma DistanceExampleKilometres()
    ensures ParseDistanceKm("12.3km") == Some(12.3)
  {
    DistanceInKilometres("12.3");
    assert "12.3" + "km" == "12.3km";
    TrimOfTrimmed("12.3");
    DecimalExampleFraction();
  }

  /** "500m" is half a kilometre. */
  lemma DistanceExampleMetres()
    ensures ParseDistanceKm("500m") == Some(0.5)
  {
    DistanceInMetres("500");
    assert "500" + "m" == "500m";
    TrimOfTrimmed("500");
    DecimalExampleWhole();
  }

  // ---------------------------------------------------------------- mode inference

  /** `infer_mode`: first match by keyword priority, walking over flight over bus over ferry;
      an empty label is "unknown" and any other label "rail". */
  function InferMode(line: Option<string>): (mode: string)
    ensures mode in {"walk", "flight", "bus", "ferry", "unknown", "rail"}
    ensures mode == "walk" <==> WalkLabel(line.GetOr(""))
    ensures mode == "rail" ==> line.GetOr("") != []
  {
    var s := line.GetOr("");
    if WalkLabel(s) then "walk"
    else if FlightLabel(s) then "flight"
    else if BusLabel(s) then "bus"
    else if FerryLabel(s) then "ferry"
    else if s == [] then "unknown"
    else "rail"
  }

  predicate WalkLabel(s: string) { Contains(s, "徒歩") }

  predicate FlightLabel(s: string) { Contains(s, "空路") || Contains(s, "フライト") || Contains(s, "飛行機") }

  predicate BusLabel(s: string) { Contains(s, "バス") || Contains(s, "連絡バス") || Contains(s, "高速") }

  predicate FerryLabel(s: string) { Contains(s, "フェリー") || Contains(s, "船") }

  /** A walking keyword decides the mode whatever else the label holds. */
  lemma WalkingWins(a: string, b: string)
    ensures InferMode(Some(a + "徒歩" + b)) == "walk"
  {
    ContainsInfix(a, "徒歩", b);
  }

  /** A flight keyword gives "flight" unless a walking keyword is also present. */
  lemma FlightKeyword(a: string, k: string, b: string)
    requires k in {"空路", "フライト", "飛行機"}
    ensures InferMode(Some(a + k + b)) == (if WalkLabel(a + k + b) then "walk" else "flight")
  {
    ContainsInfix(a, k, b);
  }

  /** A bus keyword gives "bus" unless a walking or flight keyword is also present. */
  lemma BusKeyword(a: string, k: string, b: string)
    requires k in {"バス", "連絡バス", "高速"}
    ensures var s := a + k + b;
      InferMode(Some(s)) == (if WalkLabel(s) then "walk" else if FlightLabel(s) then "flight" else "bus")
  {
    ContainsInfix(a, k, b);
  }

  /** A ferry keyword gives "ferry" unless a keyword of higher priority is also present. */
  lemma FerryKeyword(a: string, k: string, b: string)
    requires k in {"フェリー", "船"}
    ensures var s := a + k + b;
      InferMode(Some(s)) ==
        (if WalkLabel(s) then "walk" else if FlightLabel(s) then "flight" else if BusLabel(s) then "bus" else "ferry")
  {
    ContainsInfix(a, k, b);
  }

  /** The mode is "unknown" exactly when the label is absent or empty. */
  lemma UnknownIffNoLabel(line: Option<string>)
    ensures InferMode(line) == "unknown" <==> line.GetOr("") == []
  {
  }

  /** A non-empty label with none of the keywords is "rail". "連絡バス" needs no mention of its
      own: it contains "バス". */
  lemma RailOtherwise(s: string)
    requires s != []
    requires !Contains(s, "徒歩") && !Contains(s, "空路") && !Contains(s, "フライト") && !Contains(s, "飛行機")
    requires !Contains(s, "バス") && !Contains(s, "高速") && !Contains(s, "フェリー") && !Contains(s, "船")
    ensures InferMode(Some(s)) == "rail"
  {
    ContainsWithin(s, "連絡", "バス");
    assert "連絡" + "バス" == "連絡バス";
  }

  /** A text containing `a + p` contains `p`. */
  lemma ContainsWithin(s: string, a: string, p: string)
    ensures Contains(s, a + p) ==> Contains(s, p)
  {
    if Contains(s, a + p) {
      var j: nat :| j <= |s| && OccursAt(s, a + p, j);
      assert s[j + |a|..j + |a| + |p|] == (a + p)[|a|..];
      assert OccursAt(s, p, j + |a|);
    }
  }

  // ---------------------------------------------------------------- times of day

  /** `s.split(':')` when it yields exactly two pieces. */
  function SplitColon(s: string): (r: Option<(string, string)>)
    ensures r.Some? ==> s == r.value.0 + ":" + r.value.1
    ensures r.Some? ==> (forall i :: 0 <= i < |r.value.0| ==> r.value.0[i] != ':') && !Contains(r.value.1, ":")
  {
    match Find(s, ":")
    case None => None
    case Some(k) =>
      var rest := s[k + 1..];
      if Contains(rest, ":") then None
      else
        assert s == s[..k] + ":" + rest by {
          assert s[k..k + 1] == ":";
        }
        assert forall i :: 0 <= i < k ==> s[i] != ':' by {
          forall i | 0 <= i < k ensures s[i] != ':' {
            assert !OccursAt(s, ":", i);
            assert s[i..i + 1] == [s[i]];
          }
        }
        Some((s[..k], rest))
  }

  /** Two colon-free pieces joined by one colon split back into those pieces. */
  lemma SplitColonOf(a: string, b: string)
    requires forall i :: 0 <= i < |a| ==> a[i] != ':'
    requires forall i :: 0 <= i < |b| ==> b[i] != ':'
    ensures SplitColon(a + ":" + b) == Some((a, b))
  {
    MarkerAt(a, ":", b);
    FindAbsent(b, ":");
  }

  /** `parse_hhmm`: exactly two `:`-separated pieces, each trimmed and read as a `u32`, forming a
      valid time of day. A third piece fails the parse whatever the first two hold. */
  function ParseHhmm(s: string): (r: Option<Time>)
    ensures r.Some? ==> ValidTime(r.value) && r.value.second == 0
    ensures r.Some? ==> (SplitColon(s).Some?
      && ParseU32(Trim(SplitColon(s).value.0)) == Some(r.value.hour)
      && ParseU32(Trim(SplitColon(s).value.1)) == Some(r.value.minute))
  {
    match SplitColon(s)
    case None => None
    case Some((hs, ms)) =>
      match (ParseU32(Trim(hs)), ParseU32(Trim(ms)))
      case (Some(h), Some(m)) => if h < 24 && m < 60 then Some(Time(h, m, 0)) else None
      case _ => None
  }

  /** Every `h:m` whose two colon-free pieces trim to `u32` numerals of an hour and a minute
      parses, whatever whitespace, sign or leading zeros those pieces carry. */
  lemma ParseHhmmComplete(a: string, b: string, h: nat, m: nat)
    requires forall i :: 0 <= i < |a| ==> a[i] != ':'
    requires forall i :: 0 <= i < |b| ==> b[i] != ':'
    requires ParseU32(Trim(a)) == Some(h) && ParseU32(Trim(b)) == Some(m)
    requires h < 24 && m < 60
    ensures ParseHhmm(a + ":" + b) == Some(Time(h, m, 0))
  {
    SplitColonOf(a, b);
  }

  lemma ParseU32OfPad2(n: nat)
    requires n < 100
    ensures ParseU32(Trim(DtMinuteTz.Pad2(n))) == Some(n)
  {
    var p := DtMinuteTz.Pad2(n);
    assert p == [DigitChar(n / 10), DigitChar(n % 10)];
    TrimOfTrimmed(p);
    ParseU32OfTwoDigits(p[0], p[1]);
  }

  /** A time printed as "HH:MM" parses back to itself. */
  lemma ParseHhmmOfPad2(t: Time)
    requires ValidTime(t) && t.second == 0
    ensures ParseHhmm(DtMinuteTz.Pad2(t.hour) + ":" + DtMinuteTz.Pad2(t.minute)) == Some(t)
  {
    var hs, ms := DtMinuteTz.Pad2(t.hour), DtMinuteTz.Pad2(t.minute);
    SplitColonOf(hs, ms);
    ParseU32OfPad2(t.hour);
    ParseU32OfPad2(t.minute);
  }

  // ---------------------------------------------------------------- the time cursor

  /** A search anchor, when present, is a chrono date-time and so valid. */
  predicate Anchor(base: Option<DateTime>) {
    base.Some? ==> ValidDateTime(base.value)
  }

  /** The date-time a parsed time of day stands for: on the base date when there is no cursor,
      else on the cursor's date, moved on by one day when the time of day is earlier than the
      cursor's; always at the base's offset. Absent only when that day would be past the last
      representable date. */
  function Rollover(base: DateTime, time: Time, last: Option<DateTime>): (r: Option<DateTime>)
    requires ValidDateTime(base) && ValidTime(time) && Anchor(last)
    ensures r.Some? ==> ValidDateTime(r.value) && r.value.offset == base.offset && r.value.time == time
  {
    match last
    case None => Some(DateTime(base.date, time, base.offset))
    case Some(prev) =>
      if TimeLess(time, prev.time) then
        match Succ(prev.date)
        case None => None
        case Some(next) => Some(DateTime(next, time, base.offset))
      else Some(DateTime(prev.date, time, base.offset))
  }

  /** `time_on_date_with_rollover`: the time of day read from `timeStr`, placed by the rollover
      rule above; absent when the time does not parse. */
  function TimeOnDateWithRollover(base: DateTime, timeStr: string, last: Option<DateTime>): (r: Option<DateTime>)
    requires ValidDateTime(base) && Anchor(last)
    ensures r.Some? ==> ValidDateTime(r.value) && r.value.offset == base.offset
  {
    match ParseHhmm(timeStr)
    case None => None
    case Some(time) => Rollover(base, time, last)
  }


  /** Rollover's three cases: without a cursor the base date; with one, the cursor's date for a
      time of day not earlier than the cursor's and the next date for an earlier one, which is
      missing only past the last representable date. */
  lemma RolloverCases(base: DateTime, time: Time, last: Option<DateTime>)
    requires ValidDateTime(base) && ValidTime(time) && Anchor(last)
    ensures var r := Rollover(base, time, last);
      && (r.Some? && last.None? ==> r.value.date == base.date)
      && (r.Some? && last.Some? ==>
        (TimeLess(time, last.value.time) <==> Succ(last.value.date) == Some(r.value.date))
        && (!TimeLess(time, last.value.time) <==> r.value.date == last.value.date))
      && (r.None? <==> last.Some? && last.value.date == MaxDate && TimeLess(time, last.value.time))
  {
  }

  /** The same from a bare time, which is absent besides when it does not parse; a present result
      carries the parsed time of day. */
  lemma TimeOnDateCases(base: DateTime, timeStr: string, last: Option<DateTime>)
    requires ValidDateTime(base) && Anchor(last)
    ensures var r := TimeOnDateWithRollover(base, timeStr, last);
      && (r.Some? ==> ParseHhmm(timeStr) == Some(r.value.time))
      && (r.Some? && last.None? ==> r.value.date == base.date)
      && (r.Some? && last.Some? ==>
        (TimeLess(r.value.time, last.value.time) <==> Succ(last.value.date) == Some(r.value.date))
        && (!TimeLess(r.value.time, last.value.time) <==> r.value.date == last.value.date))
      && (r.None? <==> (ParseHhmm(timeStr).None?
        || (last.Some? && last.value.date == MaxDate && TimeLess(ParseHhmm(timeStr).value, last.value.time))))
  {
    if ParseHhmm(timeStr).Some? {
      RolloverCases(base, ParseHhmm(timeStr).value, last);
    }
  }
  /** One step of a timeline: not earlier, and on the same day or the next. */
  predicate Step(a: DateTime, b: DateTime) {
    LocalLe(a, b) && ValidDate(a.date) && (b.date == a.date || Succ(a.date) == Some(b.date))
  }

  /** With a cursor, the rollover result is the earliest local date-time at or after the cursor
      that has the given time of day: it is one step from the cursor, and every valid date-time
      at or after the cursor with that time of day is at or after it. */
  lemma RolloverIsEarliest(base: DateTime, time: Time, prev: DateTime, x: DateTime)
    requires ValidDateTime(base) && ValidTime(time) && ValidDateTime(prev)
    requires Rollover(base, time, Some(prev)).Some?
    requires ValidDate(x.date) && x.time == time && LocalLe(prev, x)
    ensures Step(prev, Rollover(base, time, Some(prev)).value)
    ensures LocalLe(Rollover(base, time, Some(prev)).value, x)
  {
    if TimeLess(time, prev.time) {
      assert DateLess(prev.date, x.date);
      SuccIsNextDate(prev.date, x.date);
    }
  }

  // ---------------------------------------------------------------- segments

  /** An edge's `stationName`, or "" when it is missing or not a string. */
  function StationName(edge: Value): (name: string)
    ensures name == (if edge.Object? && "stationName" in edge.fields && edge.fields["stationName"].Str?
                     then edge.fields["stationName"].s else "")
  {
    GetStr(edge, "stationName").GetOr("")
  }

  /** The line label: "railNameExcludingDestination", else "railName", each trimmed, an empty
      label counting as absent. */
  function LineOf(edge: Value): (r: Option<string>)
    ensures r.Some? ==> r.value != [] && edge.Object?
    ensures r.Some? ==> r == NonEmptyField(edge, "railNameExcludingDestination") || r == NonEmptyField(edge, "railName")
    ensures NonEmptyField(edge, "railNameExcludingDestination").Some? ==>
              r.Some? && r.value == Trim(edge.fields["railNameExcludingDestination"].s)
    ensures NonEmptyField(edge, "railNameExcludingDestination").None? ==> r == NonEmptyField(edge, "railName")
  {
    NonEmptyField(edge, "railNameExcludingDestination").OrElse(NonEmptyField(edge, "railName"))
  }

  /** The bare time of an edge: the "time" of the first entry of its "timeInfo" list. */
  function EdgeTime(edge: Value): (r: Option<string>)
    ensures r.Some? ==> edge.Object? && "timeInfo" in edge.fields && edge.fields["timeInfo"].Array?
    ensures r.Some? ==> var infos := edge.fields["timeInfo"].items;
      infos != [] && infos[0].Object? && "time" in infos[0].fields && infos[0].fields["time"].Str?
      && r.value == Trim(infos[0].fields["time"].s) && r.value != []
    ensures edge.Object? && "timeInfo" in edge.fields && edge.fields["timeInfo"].Array? ==>
      var infos := edge.fields["timeInfo"].items;
      (infos != [] && infos[0].Object? && "time" in infos[0].fields && infos[0].fields["time"].Str?
        && Trim(infos[0].fields["time"].s) != []) ==> r == Some(Trim(infos[0].fields["time"].s))
  {
    match GetArray(edge, "timeInfo")
    case Some(infos) => if infos == [] then None else NonEmptyField(infos[0], "time")
    case None => None
  }

  /** A string member read by `parse_u32_loose`. */
  function LooseField(v: Value, key: string): Option<nat> {
    match GetStr(v, key)
    case Some(s) => ParseU32Loose(s)
    case None => None
  }

  /** The fare: "priceInfo"."price", read loosely. */
  function FareOf(edge: Value): (r: Option<nat>)
    ensures r.Some? ==> edge.Object? && "priceInfo" in edge.fields
    ensures r.Some? ==> var info := edge.fields["priceInfo"];
      info.Object? && "price" in info.fields && info.fields["price"].Str?
      && r.value == DecimalValue(Digits(info.fields["price"].s)) && r.value <= U32Max
    ensures (edge.Object? && "priceInfo" in edge.fields && edge.fields["priceInfo"].Object?
               && "price" in edge.fields["priceInfo"].fields && edge.fields["priceInfo"].fields["price"].Str?)
            ==> r == ParseU32Loose(edge.fields["priceInfo"].fields["price"].s)
  {
    match Get(edge, "priceInfo")
    case Some(info) => LooseField(info, "price")
    case None => None
  }

  /** A timestamp reconstructed from an optional bare time: only with both an anchor and a
      time. */
  function Stamp(base: Option<DateTime>, timeStr: Option<string>, last: Option<DateTime>): (r: Option<DateTime>)
    requires Anchor(base) && Anchor(last)
    ensures r.Some? ==> base.Some? && timeStr.Some? && ValidDateTime(r.value) && r.value.offset == base.value.offset
  {
    match (base, timeStr)
    case (Some(b), Some(t)) => TimeOnDateWithRollover(b, t, last)
    case _ => None
  }

  /** The time of day an optional bare time reads as, when it parses. */
  function Clock(timeStr: Option<string>): (r: Option<Time>)
    ensures r.Some? ==> ValidTime(r.value)
  {
    match timeStr
    case Some(t) => ParseHhmm(t)
    case None => None
  }

  /** A timestamp placed from an already-read time of day: only with both an anchor and a time. */
  function Roll(base: Option<DateTime>, clock: Option<Time>, last: Option<DateTime>): (r: Option<DateTime>)
    requires Anchor(base) && Anchor(last) && (clock.Some? ==> ValidTime(clock.value))
    ensures r.Some? ==> base.Some? && clock.Some? && ValidDateTime(r.value) && r.value.offset == base.value.offset
  {
    match (base, clock)
    case (Some(b), Some(t)) => Rollover(b, t, last)
    case _ => None
  }

  /** Reconstructing from a bare time is reading its time of day, then placing it. */
  lemma StampIsRoll(base: Option<DateTime>, timeStr: Option<string>, last: Option<DateTime>)
    requires Anchor(base) && Anchor(last)
    ensures Stamp(base, timeStr, last) == Roll(base, Clock(timeStr), last)
  {
  }

  /** The cursor after a reconstruction: the new timestamp when there is one, else unchanged. */
  function Advance(last: Option<DateTime>, stamp: Option<DateTime>): Option<DateTime> {
    if stamp.Some? then stamp else last
  }

  /** The departure of the segment leaving edge `cur`, reconstructed against cursor `last`. */
  function DepartureOf(cur: Value, base: Option<DateTime>, last: Option<DateTime>): (r: Option<DateTime>)
    requires Anchor(base) && Anchor(last)
    ensures Anchor(r)
  {
    Stamp(base, EdgeTime(cur), last)
  }

  /** The arrival at edge `next`, reconstructed against the cursor as the departure left it. */
  function ArrivalOf(cur: Value, next: Value, base: Option<DateTime>, last: Option<DateTime>): (r: Option<DateTime>)
    requires Anchor(base) && Anchor(last)
    ensures Anchor(r)
  {
    Stamp(base, EdgeTime(next), Advance(last, DepartureOf(cur, base, last)))
  }

  /** The segment from edge `cur` to edge `next`, its times reconstructed against cursor `last`. */
  function SegmentOf(cur: Value, next: Value, base: Option<DateTime>, last: Option<DateTime>): SegmentDto
    requires Anchor(base) && Anchor(last)
  {
    Leg(cur, next).(departureTime := DepartureOf(cur, base, last), arrivalTime := ArrivalOf(cur, next, base, last))
  }

  /** What a segment reads from its two edges alone: the stations, the line and the mode inferred
      from it, the destination, the duration and the fare. Its times are placed separately. */
  function Leg(cur: Value, next: Value): SegmentDto {
    var line := LineOf(cur);
    SegmentDto(
      InferMode(line), StationName(cur), StationName(next), line, NonEmptyField(cur, "destination"),
      LooseField(cur, "timeOnBoard"), FareOf(cur), None, None)
  }

  /** Every time of day in a reading is a valid one. */
  predicate Clocked(clocks: seq<Option<Time>>) {
    forall i :: 0 <= i < |clocks| && clocks[i].Some? ==> ValidTime(clocks[i].value)
  }

  /** The time of day each edge's bare time reads as, in edge order. */
  function Clocks(edges: seq<Value>): (r: seq<Option<Time>>)
    ensures |r| == |edges| && Clocked(r)
  {
    var r := Mapped(edges, EdgeClock);
    assert Clocked(r) by {
      forall i | 0 <= i < |r| && r[i].Some?
        ensures ValidTime(r[i].value)
      {
        MappedAt(edges, EdgeClock, i);
      }
    }
    r
  }

  /** The time of day an edge's bare time reads as. */
  function EdgeClock(edge: Value): (r: Option<Time>)
    ensures r.Some? ==> ValidTime(r.value)
  {
    Clock(EdgeTime(edge))
  }

  /** `f` applied to each edge, in order. */
  function Mapped<T>(edges: seq<Value>, f: Value -> T): (r: seq<T>)
    ensures |r| == |edges|
  {
    if edges == [] then []
    else Mapped(edges[..|edges| - 1], f) + [f(edges[|edges| - 1])]
  }

  /** Entry `i` of the mapped list is `f` of edge `i`. */
  lemma {:induction false} MappedAt<T>(edges: seq<Value>, f: Value -> T, i: nat)
    requires i < |edges|
    ensures Mapped(edges, f)[i] == f(edges[i])
    decreases |edges|
  {
    var n := |edges| - 1;
    if i < n {
      MappedAt(edges[..n], f, i);
    }
  }

  /** `f` applied to each pair of consecutive edges, in order. */
  function Pairwise<T>(edges: seq<Value>, f: (Value, Value) -> T): (r: seq<T>)
    ensures |r| == SegmentCount(edges)
  {
    if |edges| < 2 then []
    else Pairwise(edges[..|edges| - 1], f) + [f(edges[|edges| - 2], edges[|edges| - 1])]
  }

  /** Entry `k` of the pairwise list is `f` of edges `k` and `k + 1`. */
  lemma {:induction false} PairwiseAt<T>(edges: seq<Value>, f: (Value, Value) -> T, k: nat)
    requires k + 1 < |edges|
    ensures Pairwise(edges, f)[k] == f(edges[k], edges[k + 1])
    decreases |edges|
  {
    var n := |edges| - 1;
    if k + 1 < n {
      PairwiseAt(edges[..n], f, k);
    }
  }

  /** The cursor after the first `n` segments of a route, from the edges' times of day: moved to
      each departure and arrival that could be placed, in order, and left alone by those that
      could not. */
  function Cursor(clocks: seq<Option<Time>>, base: Option<DateTime>, n: nat): (r: Option<DateTime>)
    requires Anchor(base) && Clocked(clocks) && (n == 0 || n < |clocks|)
    ensures Anchor(r)
    decreases n, 0
  {
    if n == 0 then None
    else Advance(Advance(Cursor(clocks, base, n - 1), DepartureAt(clocks, base, n - 1)), ArrivalAt(clocks, base, n - 1))
  }

  /** Segment `k`'s departure: edge `k`'s time of day placed against the cursor the segments
      before it left. */
  function DepartureAt(clocks: seq<Option<Time>>, base: Option<DateTime>, k: nat): (r: Option<DateTime>)
    requires Anchor(base) && Clocked(clocks) && k + 1 < |clocks|
    ensures Anchor(r)
    decreases k, 1
  {
    Roll(base, clocks[k], Cursor(clocks, base, k))
  }

  /** Segment `k`'s arrival: edge `k + 1`'s time of day placed against the cursor as the
      departure left it. */
  function ArrivalAt(clocks: seq<Option<Time>>, base: Option<DateTime>, k: nat): (r: Option<DateTime>)
    requires Anchor(base) && Clocked(clocks) && k + 1 < |clocks|
    ensures Anchor(r)
    decreases k, 2
  {
    Roll(base, clocks[k + 1], Advance(Cursor(clocks, base, k), DepartureAt(clocks, base, k)))
  }

  /** Segment `k` of a route: it joins edges `k` and `k + 1`, its times reconstructed against the
      cursor the segments before it left. */
  function Segment(edges: seq<Value>, base: Option<DateTime>, k: nat): (r: SegmentDto)
    requires Anchor(base) && k + 1 < |edges|
  {
    var clocks := Clocks(edges);
    Pairwise(edges, Leg)[k].(departureTime := DepartureAt(clocks, base, k), arrivalTime := ArrivalAt(clocks, base, k))
  }

  /** How many segments a route with these edges has: one per consecutive pair. */
  function SegmentCount(edges: seq<Value>): nat {
    if |edges| < 2 then 0 else |edges| - 1
  }

  /** `build_segments_from_edges`, as a function of the edges and the anchor: segment `k`
      joins edges `k` and `k + 1`. */
  function BuildSegments(edges: seq<Value>, base: Option<DateTime>): (r: seq<SegmentDto>)
    requires Anchor(base)
    ensures |r| == SegmentCount(edges)
    ensures forall k :: 0 <= k < |r| ==> r[k] == Segment(edges, base, k)
  {
    seq(SegmentCount(edges), k requires 0 <= k < SegmentCount(edges) => Segment(edges, base, k))
  }

  /** Iteration `i` of `build_segments_from_edges`: the segment from edge `i` to edge `i + 1`,
      with the cursor moved to each timestamp that could be reconstructed. Started from the cursor
      the first `i` segments left, it builds segment `i` and leaves the cursor after `i + 1`. */
  method NextSegment(edges: seq<Value>, i: nat, base: Option<DateTime>, last: Option<DateTime>)
    returns (segment: SegmentDto, lastTime: Option<DateTime>)
    requires Anchor(base) && i + 1 < |edges| && last == Cursor(Clocks(edges), base, i)
    ensures segment == Segment(edges, base, i)
    ensures lastTime == Cursor(Clocks(edges), base, i + 1)
  {
    var cur, next := edges[i], edges[i + 1];
    lastTime := last;
    var from, to := StationName(cur), StationName(next);
    var line := LineOf(cur);
    var destination := NonEmptyField(cur, "destination");
    var mode := InferMode(line);
    var durationMinutes := LooseField(cur, "timeOnBoard");
    var fareYen := FareOf(cur);
    var departureTime := Stamp(base, EdgeTime(cur), lastTime);
    if departureTime.Some? {
      lastTime := departureTime;
    }
    var arrivalTime := Stamp(base, EdgeTime(next), lastTime);
    if arrivalTime.Some? {
      lastTime := arrivalTime;
    }
    segment := SegmentDto(mode, from, to, line, destination, durationMinutes, fareYen, departureTime, arrivalTime);
    SegmentStep(edges, base, i, last, segment);
  }

  /** After segment `k` the cursor has moved to its departure, then to its arrival, each where
      present. */
  lemma CursorAfter(edges: seq<Value>, base: Option<DateTime>, k: nat)
    requires Anchor(base) && k + 1 < |edges|
    ensures Cursor(Clocks(edges), base, k + 1) ==
      Advance(Advance(Cursor(Clocks(edges), base, k), Segment(edges, base, k).departureTime), Segment(edges, base, k).arrivalTime)
  {
  }

  /** One iteration's segment, built against the cursor the segments before it left, is segment
      `k`, and moving the cursor past it gives the cursor after `k + 1` segments. */
  lemma SegmentStep(edges: seq<Value>, base: Option<DateTime>, k: nat, last: Option<DateTime>, segment: SegmentDto)
    requires Anchor(base) && k + 1 < |edges| && last == Cursor(Clocks(edges), base, k)
    requires segment == SegmentOf(edges[k], edges[k + 1], base, last)
    ensures segment == Segment(edges, base, k)
    ensures Advance(Advance(last, segment.departureTime), segment.arrivalTime) == Cursor(Clocks(edges), base, k + 1)
  {
    SegmentIsSegmentOf(edges, base, k);
    CursorAfter(edges, base, k);
  }

  /** `build_segments_from_edges`: one pass over consecutive edge pairs, threading the cursor
      `lastTime` through every departure and arrival. */
  method BuildSegmentsFromEdges(edges: seq<Value>, base: Option<DateTime>) returns (out: seq<SegmentDto>)
    requires Anchor(base)
    ensures out == BuildSegments(edges, base)
  {
    out := [];
    ghost var all := BuildSegments(edges, base);
    if |edges| < 2 {
      return;
    }
    var lastTime: Option<DateTime> := None;
    for i := 0 to |edges| - 1
      invariant out == all[..i]
      invariant lastTime == Cursor(Clocks(edges), base, i)
    {
      var segment;
      segment, lastTime := NextSegment(edges, i, base, lastTime);
      TakeSnoc(all, i);
      out := out + [segment];
    }
    TakeAll(all);
  }

  lemma TakeSnoc<T>(s: seq<T>, i: nat)
    requires i < |s|
    ensures s[..i + 1] == s[..i] + [s[i]]
  {
  }

  lemma TakeAll<T>(s: seq<T>)
    ensures s[..|s|] == s
  {
  }

  // ---------------------------------------------------------------- what the segments promise

  /** Segment `k` takes its stations from edges `k` and `k + 1`, and its line, mode, destination,
      duration and fare from edge `k`. */
  lemma SegmentFields(edges: seq<Value>, base: Option<DateTime>, k: nat)
    requires Anchor(base) && k + 1 < |edges|
    ensures var s := Segment(edges, base, k);
      s.from == StationName(edges[k]) && s.to == StationName(edges[k + 1])
      && s.line == LineOf(edges[k]) && s.mode == InferMode(LineOf(edges[k]))
      && s.destination == NonEmptyField(edges[k], "destination")
      && s.durationMinutes == LooseField(edges[k], "timeOnBoard") && s.fareYen == FareOf(edges[k])
  {
    PairwiseAt(edges, Leg, k);
  }

  /** A route with n >= 2 edges has n - 1 segments and fewer edges none; segment `k` runs from
      edge `k`'s station to edge `k + 1`'s ("" where a name is missing) and takes its line, mode,
      destination, duration and fare from edge `k`. */
  lemma SegmentCountAndNames(edges: seq<Value>, base: Option<DateTime>)
    requires Anchor(base)
    ensures var r := BuildSegments(edges, base);
      |r| == (if |edges| < 2 then 0 else |edges| - 1)
      && forall k :: 0 <= k < |r| ==>
        r[k].from == StationName(edges[k]) && r[k].to == StationName(edges[k + 1])
        && r[k].line == LineOf(edges[k]) && r[k].mode == InferMode(LineOf(edges[k]))
        && r[k].destination == NonEmptyField(edges[k], "destination")
        && r[k].durationMinutes == LooseField(edges[k], "timeOnBoard") && r[k].fareYen == FareOf(edges[k])
  {
    var r := BuildSegments(edges, base);
    forall k | 0 <= k < |r|
      ensures r[k].from == StationName(edges[k]) && r[k].to == StationName(edges[k + 1])
        && r[k].line == LineOf(edges[k]) && r[k].mode == InferMode(LineOf(edges[k]))
        && r[k].destination == NonEmptyField(edges[k], "destination")
        && r[k].durationMinutes == LooseField(edges[k], "timeOnBoard") && r[k].fareYen == FareOf(edges[k])
    {
      SegmentFields(edges, base, k);
    }
  }

  // ---------------------------------------------------------------- the cursor

  /** Edge `i`'s time of day, as the reading of all the edges has it. */
  lemma ClockAt(edges: seq<Value>, i: nat)
    requires i < |edges|
    ensures Clocks(edges)[i] == Clock(EdgeTime(edges[i]))
  {
    MappedAt(edges, EdgeClock, i);
  }

  /** Against the cursor the segments before it left, the departure read from an edge whose
      time of day is `clocks[k]` is segment `k`'s. */
  lemma DepartureOfClock(cur: Value, clocks: seq<Option<Time>>, base: Option<DateTime>, k: nat)
    requires Anchor(base) && Clocked(clocks) && k + 1 < |clocks| && Clock(EdgeTime(cur)) == clocks[k]
    ensures DepartureOf(cur, base, Cursor(clocks, base, k)) == DepartureAt(clocks, base, k)
  {
    StampIsRoll(base, EdgeTime(cur), Cursor(clocks, base, k));
  }

  /** The same for the arrival, read from an edge whose time of day is `clocks[k + 1]`. */
  lemma ArrivalOfClock(cur: Value, next: Value, clocks: seq<Option<Time>>, base: Option<DateTime>, k: nat)
    requires Anchor(base) && Clocked(clocks) && k + 1 < |clocks|
    requires Clock(EdgeTime(cur)) == clocks[k] && Clock(EdgeTime(next)) == clocks[k + 1]
    ensures ArrivalOf(cur, next, base, Cursor(clocks, base, k)) == ArrivalAt(clocks, base, k)
  {
    var last := Cursor(clocks, base, k);
    DepartureOfClock(cur, clocks, base, k);
    StampIsRoll(base, EdgeTime(next), Advance(last, DepartureAt(clocks, base, k)));
  }

  /** The departure read from edge `k`'s bare time against the cursor is segment `k`'s. */
  lemma DepartureOfIsAt(edges: seq<Value>, base: Option<DateTime>, k: nat)
    requires Anchor(base) && k + 1 < |edges|
    ensures DepartureOf(edges[k], base, Cursor(Clocks(edges), base, k)) == DepartureAt(Clocks(edges), base, k)
  {
    ClockAt(edges, k);
    DepartureOfClock(edges[k], Clocks(edges), base, k);
  }

  /** The arrival read from edge `k + 1`'s bare time against the cursor is segment `k`'s. */
  lemma ArrivalOfIsAt(edges: seq<Value>, base: Option<DateTime>, k: nat)
    requires Anchor(base) && k + 1 < |edges|
    ensures ArrivalOf(edges[k], edges[k + 1], base, Cursor(Clocks(edges), base, k)) == ArrivalAt(Clocks(edges), base, k)
  {
    ClockAt(edges, k);
    ClockAt(edges, k + 1);
    ArrivalOfClock(edges[k], edges[k + 1], Clocks(edges), base, k);
  }

  /** Segment `k` is the segment one iteration builds from edges `k` and `k + 1` with the cursor
      the iterations before it left. */
  lemma SegmentIsSegmentOf(edges: seq<Value>, base: Option<DateTime>, k: nat)
    requires Anchor(base) && k + 1 < |edges|
    ensures Segment(edges, base, k) == SegmentOf(edges[k], edges[k + 1], base, Cursor(Clocks(edges), base, k))
  {
    PairwiseAt(edges, Leg, k);
    DepartureOfIsAt(edges, base, k);
    ArrivalOfIsAt(edges, base, k);
  }

  /** Segment `k` of a route departs and arrives at the clocks' placed times. */
  lemma SegmentTimesAt(edges: seq<Value>, base: Option<DateTime>, k: nat)
    requires Anchor(base) && k + 1 < |edges|
    ensures BuildSegments(edges, base)[k].departureTime == DepartureAt(Clocks(edges), base, k)
    ensures BuildSegments(edges, base)[k].arrivalTime == ArrivalAt(Clocks(edges), base, k)
  {
  }

  /** Placing the time a cursor was just moved to gives the same timestamp back. */
  lemma RollRepeat(base: Option<DateTime>, clock: Option<Time>, last: Option<DateTime>)
    requires Anchor(base) && Anchor(last) && (clock.Some? ==> ValidTime(clock.value))
    ensures Roll(base, clock, Advance(last, Roll(base, clock, last))) == Roll(base, clock, last)
  {
  }

  /** Segment `k + 1` departs at exactly segment `k`'s arrival: both place the time of edge
      `k + 1`, and the arrival moved the cursor to itself when it was placed. */
  lemma DepartureRepeatsArrival(clocks: seq<Option<Time>>, base: Option<DateTime>, k: nat)
    requires Anchor(base) && Clocked(clocks) && k + 2 < |clocks|
    ensures DepartureAt(clocks, base, k + 1) == ArrivalAt(clocks, base, k)
  {
    RollRepeat(base, clocks[k + 1], Advance(Cursor(clocks, base, k), DepartureAt(clocks, base, k)));
  }

  /** Segment `k` departs at segment `k - 1`'s arrival. */
  predicate ChainLink(segments: seq<SegmentDto>, k: nat)
    requires 0 < k < |segments|
  {
    segments[k].departureTime == segments[k - 1].arrivalTime
  }

  /** Each segment departs at its predecessor's arrival. */
  predicate Chained(segments: seq<SegmentDto>) {
    forall k :: 0 < k < |segments| ==> ChainLink(segments, k)
  }

  /** Segment `k` of a route departs at segment `k - 1`'s arrival. */
  lemma ChainAt(edges: seq<Value>, base: Option<DateTime>, k: nat)
    requires Anchor(base) && 0 < k && k + 1 < |edges|
    ensures ChainLink(BuildSegments(edges, base), k)
  {
    SegmentTimesAt(edges, base, k);
    SegmentTimesAt(edges, base, k - 1);
    DepartureRepeatsArrival(Clocks(edges), base, k - 1);
  }

  /** Over a whole route, each segment departs at its predecessor's arrival, present or not. */
  lemma SegmentsChain(edges: seq<Value>, base: Option<DateTime>)
    requires Anchor(base)
    ensures Chained(BuildSegments(edges, base))
  {
    var r := BuildSegments(edges, base);
    forall k | 0 < k < |r|
      ensures ChainLink(r, k)
    {
      ChainAt(edges, base, k);
    }
  }

  /** Without an anchor no segment has a departure or an arrival, whatever times the edges
      carry. */
  lemma NoAnchorNoSegmentTimes(edges: seq<Value>)
    ensures var r := BuildSegments(edges, None);
      forall k :: 0 <= k < |r| ==> r[k].departureTime.None? && r[k].arrivalTime.None?
  {
    var r := BuildSegments(edges, None);
    forall k | 0 <= k < |r|
      ensures r[k].departureTime.None? && r[k].arrivalTime.None?
    {
      SegmentTimesAt(edges, None, k);
    }
  }

  // ---------------------------------------------------------------- the reconstructed timeline

  /** The timestamp an optional field contributes to a timeline. */
  function Present(o: Option<DateTime>): seq<DateTime> {
    if o.Some? then [o.value] else []
  }

  /** Every timestamp a run of segments reconstructed, in order, each departure before its
      arrival. */
  function Stamps(segments: seq<SegmentDto>): seq<DateTime> {
    if segments == [] then []
    else
      var last := segments[|segments| - 1];
      Stamps(segments[..|segments| - 1]) + Present(last.departureTime) + Present(last.arrivalTime)
  }

  /** The timestamps of the first `n` segments, from the times of day alone. */
  function TimesUpTo(clocks: seq<Option<Time>>, base: Option<DateTime>, n: nat): seq<DateTime>
    requires Anchor(base) && Clocked(clocks) && (n == 0 || n < |clocks|)
  {
    if n == 0 then []
    else TimesUpTo(clocks, base, n - 1) + Present(DepartureAt(clocks, base, n - 1)) + Present(ArrivalAt(clocks, base, n - 1))
  }

  function LastOf(ds: seq<DateTime>): Option<DateTime> {
    if ds == [] then None else Some(ds[|ds| - 1])
  }

  /** Entry `i` of a timeline anchored on `b`: a valid date-time at `b`'s offset, on `b`'s date
      when it is the first, else one step (not earlier, and on the same day or the next) after
      the entry before it. */
  predicate TimelineEntry(ds: seq<DateTime>, b: DateTime, i: nat)
    requires i < |ds|
  {
    ValidDateTime(ds[i]) && ds[i].offset == b.offset
    && (if i == 0 then ds[i].date == b.date else Step(ds[i - 1], ds[i]))
  }

  /** A timeline anchored on `b`: every entry is one. */
  predicate Timeline(ds: seq<DateTime>, b: DateTime) {
    forall i :: 0 <= i < |ds| ==> TimelineEntry(ds, b, i)
  }

  /** Segments whose times are the clocks' placed times, in order, carry exactly those times. */
  lemma {:induction false} StampsOfTimes(segments: seq<SegmentDto>, clocks: seq<Option<Time>>, base: Option<DateTime>)
    requires Anchor(base) && Clocked(clocks) && (|segments| == 0 || |segments| < |clocks|)
    requires forall k :: 0 <= k < |segments| ==>
      segments[k].departureTime == DepartureAt(clocks, base, k) && segments[k].arrivalTime == ArrivalAt(clocks, base, k)
    ensures Stamps(segments) == TimesUpTo(clocks, base, |segments|)
    decreases |segments|
  {
    if |segments| > 0 {
      StampsOfTimes(segments[..|segments| - 1], clocks, base);
    }
  }

  /** The segments' timestamps are the edges' times of day placed one after the other. */
  lemma StampsAreTimes(edges: seq<Value>, base: Option<DateTime>)
    requires Anchor(base)
    ensures Stamps(BuildSegments(edges, base)) == TimesUpTo(Clocks(edges), base, SegmentCount(edges))
  {
    var segments := BuildSegments(edges, base);
    forall k | 0 <= k < |segments|
      ensures segments[k].departureTime == DepartureAt(Clocks(edges), base, k)
      ensures segments[k].arrivalTime == ArrivalAt(Clocks(edges), base, k)
    {
      SegmentTimesAt(edges, base, k);
    }
    StampsOfTimes(segments, Clocks(edges), base);
  }

  /** A placed time is valid at the anchor's offset; without a cursor it is on the anchor's date,
      with one it is one step after the cursor. */
  lemma RollStep(b: DateTime, clock: Option<Time>, last: Option<DateTime>, x: DateTime)
    requires ValidDateTime(b) && Anchor(last) && (clock.Some? ==> ValidTime(clock.value))
    requires Roll(Some(b), clock, last) == Some(x)
    ensures ValidDateTime(x) && x.offset == b.offset
    ensures last.None? ==> x.date == b.date
    ensures last.Some? ==> Step(last.value, x)
  {
  }

  /** A valid date-time at the anchor's offset extends a timeline when it is on the anchor's date
      and the timeline is empty, or one step after the timeline's last entry. */
  lemma TimelineSnoc(ds: seq<DateTime>, b: DateTime, x: DateTime)
    requires Timeline(ds, b) && ValidDateTime(x) && x.offset == b.offset
    requires ds == [] ==> x.date == b.date
    requires ds != [] ==> Step(ds[|ds| - 1], x)
    ensures Timeline(ds + [x], b)
  {
    var ds' := ds + [x];
    forall i | 0 <= i < |ds'|
      ensures TimelineEntry(ds', b, i)
    {
      if i < |ds| {
        assert TimelineEntry(ds, b, i);
        assert ds'[i] == ds[i];
        if i > 0 {
          assert ds'[i - 1] == ds[i - 1];
        }
      }
    }
  }

  /** Placing one more time of day against the end of a timeline keeps it a timeline, and its
      last entry moves the way the cursor does. */
  lemma TimelineAdvance(ds: seq<DateTime>, b: DateTime, clock: Option<Time>, last: Option<DateTime>)
    requires ValidDateTime(b) && Anchor(last) && Timeline(ds, b) && LastOf(ds) == last
    requires clock.Some? ==> ValidTime(clock.value)
    ensures Timeline(ds + Present(Roll(Some(b), clock, last)), b)
    ensures LastOf(ds + Present(Roll(Some(b), clock, last))) == Advance(last, Roll(Some(b), clock, last))
  {
    var x := Roll(Some(b), clock, last);
    if x.Some? {
      RollStep(b, clock, last, x.value);
      TimelineSnoc(ds, b, x.value);
    } else {
      assert ds + Present(x) == ds;
    }
  }

  /** The timestamps of the first `n` segments anchored on `b` form a timeline, and the cursor
      after them is the last of them. */
  lemma {:induction false} TimesTimeline(clocks: seq<Option<Time>>, b: DateTime, n: nat)
    requires ValidDateTime(b) && Clocked(clocks) && (n == 0 || n < |clocks|)
    ensures Timeline(TimesUpTo(clocks, Some(b), n), b)
    ensures LastOf(TimesUpTo(clocks, Some(b), n)) == Cursor(clocks, Some(b), n)
    decreases n
  {
    if n > 0 {
      var base := Some(b);
      var m := n - 1;
      TimesTimeline(clocks, b, m);
      var c := Cursor(clocks, base, m);
      var ds := TimesUpTo(clocks, base, m);
      TimelineAdvance(ds, b, clocks[m], c);
      var d := DepartureAt(clocks, base, m);
      TimelineAdvance(ds + Present(d), b, clocks[m + 1], Advance(c, d));
    }
  }

  /** Within a route anchored on `b`, the reconstructed timestamps form a timeline: the first is
      on the search date, each later one is not earlier than the one before it and at most one
      calendar day later, all at the search offset. */
  lemma SegmentTimeline(edges: seq<Value>, b: DateTime)
    requires ValidDateTime(b)
    ensures Timeline(Stamps(BuildSegments(edges, Some(b))), b)
  {
    StampsAreTimes(edges, Some(b));
    TimesTimeline(Clocks(edges), b, SegmentCount(edges));
  }

  /** In a timeline, every timestamp is at or after every earlier one. */
  lemma {:induction false} TimelineChronological(ds: seq<DateTime>, b: DateTime, i: nat, j: nat)
    requires Timeline(ds, b) && i <= j < |ds|
    ensures LocalLe(ds[i], ds[j])
    decreases j - i
  {
    if i < j {
      TimelineChronological(ds, b, i, j - 1);
      assert TimelineEntry(ds, b, j);
      LocalLeTransitive(ds[i], ds[j - 1], ds[j]);
    }
  }

  // ---------------------------------------------------------------- the search date-time

  /** `q.get(key)?.as_str()?.parse::<u32>().ok()`. */
  function QueryU32(q: Value, key: string): Option<nat> {
    match GetStr(q, key)
    case Some(s) => ParseU32(s)
    case None => None
  }

  /** `q.get(key)?.as_str()?.parse::<i32>().ok()`. */
  function QueryI32(q: Value, key: string): Option<int> {
    match GetStr(q, key)
    case Some(s) => ParseI32(s)
    case None => None
  }

  /** The minute `m1 * 10 + m2`, an absent or unreadable digit counting as 0. */
  function QueryMinute(q: Value): nat {
    QueryU32(q, "m1").GetOr(0) * 10 + QueryU32(q, "m2").GetOr(0)
  }

  /** `build_search_datetime`: the page query's year, month, day, hour and two minute digits as a
      local date-time at +09:00. It fails when one of y, m, d, hh is missing or unreadable, when
      the date does not exist, or when the hour or minute is out of range. */
  function BuildSearchDateTime(q: Value): (r: Option<DateTime>)
    ensures r.Some? <==>
      QueryI32(q, "y").Some? && QueryU32(q, "m").Some? && QueryU32(q, "d").Some? && QueryU32(q, "hh").Some?
      && ValidDate(Date(QueryI32(q, "y").value, QueryU32(q, "m").value, QueryU32(q, "d").value))
      && QueryU32(q, "hh").value < 24 && QueryMinute(q) < 60
    ensures r.Some? ==> ValidDateTime(r.value) && r.value.offset == JstOffset && r.value.time.second == 0
    ensures r.Some? ==>
      QueryI32(q, "y") == Some(r.value.date.year) && QueryU32(q, "m") == Some(r.value.date.month)
      && QueryU32(q, "d") == Some(r.value.date.day) && QueryU32(q, "hh") == Some(r.value.time.hour)
      && QueryMinute(q) == r.value.time.minute
  {
    var y := QueryI32(q, "y");
    var m := QueryU32(q, "m");
    var d := QueryU32(q, "d");
    var hh := QueryU32(q, "hh");
    if y.None? || m.None? || d.None? || hh.None? then None
    else
      var date := Date(y.value, m.value, d.value);
      var time := Time(hh.value, QueryMinute(q), 0);
      if ValidDate(date) && ValidTime(time) then Some(DateTime(date, time, JstOffset)) else None
  }

  /** A year given as a JSON number rather than a string counts as missing. */
  lemma NumericYearIsMissing(q: Value)
    requires q.Object? && "y" in q.fields && q.fields["y"].Number?
    ensures BuildSearchDateTime(q) == None
  {
  }

  // ---------------------------------------------------------------- routes

  /** The route summary: its departure anchored on the search date with no cursor, its arrival
      rolled over against that departure; the counters read loosely, the distance by unit. */
  function SummaryOf(summary: Value, base: Option<DateTime>): (r: RouteSummaryDto)
    requires Anchor(base)
    ensures r.transferCount.Some? ==> r.transferCount.value <= U32Max
    ensures r.totalPriceYen.Some? ==> r.totalPriceYen.value <= U32Max
    ensures r.durationMinutes.Some? ==> summary.Object? && "totalTime" in summary.fields && summary.fields["totalTime"].Str?
    ensures r.distanceKm.Some? ==> summary.Object? && "distance" in summary.fields && summary.fields["distance"].Str?
    ensures r.isFast.Some? <==> summary.Object? && "isFast" in summary.fields && summary.fields["isFast"].Bool?
  {
    var departure := Stamp(base, NonEmptyField(summary, "departureTime"), None);
    RouteSummaryDto(
      departure,
      Stamp(base, NonEmptyField(summary, "arrivalTime"), departure),
      match GetStr(summary, "totalTime") case Some(s) => ParseJaDurationMinutes(s) case None => None,
      LooseField(summary, "transferCount"),
      LooseField(summary, "totalPrice"),
      match GetStr(summary, "distance") case Some(s) => ParseDistanceKm(s) case None => None,
      GetBool(summary, "isFast"),
      GetBool(summary, "isEasy"),
      GetBool(summary, "isCheap"))
  }

  /** The summary's counters are the `u32` values of their strings' digits, its duration and
      distance the readings of their strings, and its three flags the booleans given, each
      absent when its member is missing or of another JSON type. */
  lemma SummaryFields(summary: Value, base: Option<DateTime>)
    requires Anchor(base)
    ensures var r := SummaryOf(summary, base);
      && (summary.Object? && "transferCount" in summary.fields && summary.fields["transferCount"].Str? ==>
            r.transferCount == ParseU32Loose(summary.fields["transferCount"].s))
      && (summary.Object? && "totalPrice" in summary.fields && summary.fields["totalPrice"].Str? ==>
            r.totalPriceYen == ParseU32Loose(summary.fields["totalPrice"].s))
      && (summary.Object? && "totalTime" in summary.fields && summary.fields["totalTime"].Str? ==>
            r.durationMinutes == ParseJaDurationMinutes(summary.fields["totalTime"].s))
      && (summary.Object? && "distance" in summary.fields && summary.fields["distance"].Str? ==>
            r.distanceKm == ParseDistanceKm(summary.fields["distance"].s))
      && (r.transferCount.Some? ==> "transferCount" in summary.fields && summary.fields["transferCount"].Str?)
      && (r.totalPriceYen.Some? ==> "totalPrice" in summary.fields && summary.fields["totalPrice"].Str?)
      && r.isFast == GetBool(summary, "isFast")
      && r.isEasy == GetBool(summary, "isEasy")
      && r.isCheap == GetBool(summary, "isCheap")
  {
  }

  /** A summary departure is on the search date; a summary arrival is one step after the
      departure when there is one, else on the search date; without a search date there are
      neither. */
  lemma SummaryTimes(summary: Value, base: Option<DateTime>)
    requires Anchor(base)
    ensures var r := SummaryOf(summary, base);
      (base.None? ==> r.departureTime.None? && r.arrivalTime.None?)
      && (r.departureTime.Some? ==> base.Some? && r.departureTime.value.date == base.value.date)
      && (r.departureTime.Some? && r.arrivalTime.Some? ==> Step(r.departureTime.value, r.arrivalTime.value))
      && (r.departureTime.None? && r.arrivalTime.Some? ==> base.Some? && r.arrivalTime.value.date == base.value.date)
      && (r.departureTime.Some? ==> r.departureTime.value.offset == base.value.offset)
      && (r.arrivalTime.Some? ==> r.arrivalTime.value.offset == base.value.offset)
  {
    var r := SummaryOf(summary, base);
    var dep, arr := NonEmptyField(summary, "departureTime"), NonEmptyField(summary, "arrivalTime");
    StampIsRoll(base, dep, None);
    StampIsRoll(base, arr, r.departureTime);
    if r.departureTime.Some? {
      RollStep(base.value, Clock(dep), None, r.departureTime.value);
    }
    if r.arrivalTime.Some? {
      RollStep(base.value, Clock(arr), r.departureTime, r.arrivalTime.value);
    }
  }

  /** `feature["edgeInfoList"].as_array().unwrap_or(&vec![])`. */
  function EdgesOf(feature: Value): (r: seq<Value>)
    ensures feature.Object? && "edgeInfoList" in feature.fields && feature.fields["edgeInfoList"].Array? ==>
              r == feature.fields["edgeInfoList"].items
    ensures !(feature.Object? && "edgeInfoList" in feature.fields && feature.fields["edgeInfoList"].Array?) ==>
              r == []
  {
    AsArray(Index(feature, "edgeInfoList")).GetOr([])
  }

  /** The route built from the feature at position `idx`: rank `idx + 1`. */
  function RouteOf(feature: Value, idx: nat, base: Option<DateTime>): (r: RouteDto)
    requires Anchor(base)
    ensures r.rank == idx + 1 && r.rank >= 1
    ensures |r.segments| == SegmentCount(EdgesOf(feature))
  {
    RouteDto(idx + 1, SummaryOf(Index(feature, "summaryInfo"), base), BuildSegments(EdgesOf(feature), base))
  }

  /** The routes of the features, in upstream order: route `k` built from feature `k`. */
  function Routes(features: seq<Value>, base: Option<DateTime>): (r: seq<RouteDto>)
    requires Anchor(base)
    ensures |r| == |features|
    ensures forall k :: 0 <= k < |features| ==> r[k] == RouteOf(features[k], k, base)
  {
    seq(|features|, k requires 0 <= k < |features| => RouteOf(features[k], k, base))
  }

  // ---------------------------------------------------------------- the whole page

  function PageProps(root: Value): Value {
    Index(Index(root, "props"), "pageProps")
  }

  function Navi(root: Value): Value {
    Index(PageProps(root), "naviSearchParam")
  }

  function PageQuery(root: Value): Value {
    Index(PageProps(root), "pageQuery")
  }

  /** A place name: the display name when it is a string, else the page query's, else "". */
  function PlaceName(root: Value, displayKey: string, queryKey: string): (r: string)
    ensures Index(Index(Navi(root), "displayInfo"), displayKey).Str? ==>
              r == Index(Index(Navi(root), "displayInfo"), displayKey).s
    ensures !Index(Index(Navi(root), "displayInfo"), displayKey).Str? && Index(PageQuery(root), queryKey).Str? ==>
              r == Index(PageQuery(root), queryKey).s
    ensures r != [] ==> Index(Index(Navi(root), "displayInfo"), displayKey).Str? || Index(PageQuery(root), queryKey).Str?
  {
    AsStr(Index(Index(Navi(root), "displayInfo"), displayKey))
      .OrElse(AsStr(Index(PageQuery(root), queryKey)))
      .GetOr("")
  }

  function FeaturesOf(root: Value): Option<seq<Value>> {
    AsArray(Index(Navi(root), "featureInfoList"))
  }

  const FeaturesMissing: string := "featureInfoList missing"

  /** `next_data_to_transit_dto`, as a value: one route per feature, in order. */
  function TransitDtoOf(root: Value): (r: Result<TransitDto, string>)
    ensures r.Failure? <==> FeaturesOf(root).None?
    ensures r.Success? ==> |r.value.routes| == |FeaturesOf(root).value|
    ensures r.Success? ==> r.value.searchDateTime == BuildSearchDateTime(PageQuery(root))
  {
    var base := BuildSearchDateTime(PageQuery(root));
    match FeaturesOf(root)
    case None => Failure(FeaturesMissing)
    case Some(features) =>
      Success(TransitDto(
        PlaceName(root, "fromName", "from"),
        PlaceName(root, "toName", "to"),
        base,
        Routes(features, base)))
  }

  /** One iteration of the route loop: the summary, then the segments, ranked `idx + 1`. */
  method BuildRoute(feature: Value, idx: nat, searchDateTime: Option<DateTime>) returns (route: RouteDto)
    requires Anchor(searchDateTime)
    ensures route == RouteOf(feature, idx, searchDateTime)
  {
    var summary := SummaryOf(Index(feature, "summaryInfo"), searchDateTime);
    var segments := BuildSegmentsFromEdges(EdgesOf(feature), searchDateTime);
    route := RouteDto(idx + 1, summary, segments);
  }

  /** The route loop of `next_data_to_transit_dto`: one route per feature, ranked from 1, its
      summary and segments built against the search date-time. */
  method BuildRoutes(features: seq<Value>, searchDateTime: Option<DateTime>) returns (routes: seq<RouteDto>)
    requires Anchor(searchDateTime)
    ensures routes == Routes(features, searchDateTime)
  {
    routes := [];
    for idx := 0 to |features|
      invariant |routes| == idx
      invariant forall k :: 0 <= k < idx ==> routes[k] == RouteOf(features[k], k, searchDateTime)
    {
      var route := BuildRoute(features[idx], idx, searchDateTime);
      routes := routes + [route];
    }
  }

  /** `next_data_to_transit_dto`: reads the names and the search date-time, then pushes one
      route per feature. */
  method NextDataToTransitDto(root: Value) returns (r: Result<TransitDto, string>)
    ensures r == TransitDtoOf(root)
  {
    var pageProps := Index(Index(root, "props"), "pageProps");
    var navi := Index(pageProps, "naviSearchParam");
    var from := PlaceName(root, "fromName", "from");
    var to := PlaceName(root, "toName", "to");
    var searchDateTime := BuildSearchDateTime(Index(pageProps, "pageQuery"));
    var features := AsArray(Index(navi, "featureInfoList"));
    if features.None? {
      return Failure(FeaturesMissing);
    }
    var routes := BuildRoutes(features.value, searchDateTime);
    r := Success(TransitDto(from, to, searchDateTime, routes));
  }

  /** The one fatal error: the result is an error exactly when `featureInfoList` is not an
      array. Otherwise there is one route per feature, in upstream order, route `k` ranked
      `k + 1` and built from feature `k` against the page's search date-time. */
  lemma OnlyOneFatalError(root: Value)
    ensures TransitDtoOf(root).Failure? <==> FeaturesOf(root).None?
    ensures TransitDtoOf(root).Failure? ==> TransitDtoOf(root).error == FeaturesMissing
    ensures TransitDtoOf(root).Success? ==>
      var t := TransitDtoOf(root).value;
      var features := FeaturesOf(root).value;
      t.searchDateTime == BuildSearchDateTime(PageQuery(root))
      && |t.routes| == |features|
      && forall k :: 0 <= k < |t.routes| ==>
        t.routes[k].rank == k + 1
        && t.routes[k].summary == SummaryOf(Index(features[k], "summaryInfo"), t.searchDateTime)
        && t.routes[k].segments == BuildSegments(EdgesOf(features[k]), t.searchDateTime)
  {
  }

  /** With a search date-time, every route's reconstructed segment timestamps form a timeline
      anchored on it: chronological, each at most a day after the one before. */
  lemma RoutesTimeline(root: Value)
    requires TransitDtoOf(root).Success? && TransitDtoOf(root).value.searchDateTime.Some?
    ensures var t := TransitDtoOf(root).value;
      forall k :: 0 <= k < |t.routes| ==> Timeline(Stamps(t.routes[k].segments), t.searchDateTime.value)
  {
    var t := TransitDtoOf(root).value;
    OnlyOneFatalError(root);
    forall k | 0 <= k < |t.routes|
      ensures Timeline(Stamps(t.routes[k].segments), t.searchDateTime.value)
    {
      SegmentTimeline(EdgesOf(FeaturesOf(root).value[k]), t.searchDateTime.value);
    }
  }

  /** Without a search date-time no summary and no segment has a departure or an arrival, even
      where the page gives times. */
  lemma NoAnchorNoTimestamps(root: Value)
    requires TransitDtoOf(root).Success? && BuildSearchDateTime(PageQuery(root)).None?
    ensures var t := TransitDtoOf(root).value;
      forall k :: 0 <= k < |t.routes| ==>
        t.routes[k].summary.departureTime.None? && t.routes[k].summary.arrivalTime.None?
        && forall j :: 0 <= j < |t.routes[k].segments| ==>
          t.routes[k].segments[j].departureTime.None? && t.routes[k].segments[j].arrivalTime.None?
  {
    var t := TransitDtoOf(root).value;
    var features := FeaturesOf(root).value;
    OnlyOneFatalError(root);
    forall k | 0 <= k < |t.routes|
      ensures t.routes[k].summary.departureTime.None? && t.routes[k].summary.arrivalTime.None?
      ensures forall j :: 0 <= j < |t.routes[k].segments| ==>
        t.routes[k].segments[j].departureTime.None? && t.routes[k].segments[j].arrivalTime.None?
    {
      SummaryTimes(Index(features[k], "summaryInfo"), None);
      NoAnchorNoSegmentTimes(EdgesOf(features[k]));
    }
  }

  // ---------------------------------------------------------------- loading the page

  const NextDataMissing: string := "__NEXT_DATA__ not found in HTML"

  /** `load_next_data`, with the two library parsers as parameters: `parseJson` is serde_json's
      text parser and `nextDataScript` the inner HTML of the first `script#__NEXT_DATA__` element
      of the parsed document, if there is one. Input whose first non-whitespace character is `{`
      is parsed as JSON whole, leading whitespace included. */
  function LoadNextData(input: string, parseJson: string -> Result<Value, string>,
                        nextDataScript: string -> Option<string>): (r: Result<Value, string>)
    ensures r == parseJson(input) || r == Failure(NextDataMissing)
            || (nextDataScript(input).Some? && r == parseJson(nextDataScript(input).value))
  {
    var s := TrimStart(input);
    if s != [] && s[0] == '{' then parseJson(input)
    else
      match nextDataScript(input)
      case None => Failure(NextDataMissing)
      case Some(text) => parseJson(text)
  }

  /** JSON input behind any run of leading whitespace goes to the JSON parser untrimmed, and the
      document's script is never consulted. */
  lemma JsonInputIsParsedWhole(w: string, body: string, parseJson: string -> Result<Value, string>,
                               nextDataScript: string -> Option<string>)
    requires forall i :: 0 <= i < |w| ==> IsWhitespace(w[i])
    requires body != [] && body[0] == '{'
    ensures LoadNextData(w + body, parseJson, nextDataScript) == parseJson(w + body)
  {
    var s := w + body;
    var t := TrimStart(s);
    TrimStartDropsWhitespace(s);
    TrimStartIsSuffix(s);
    assert s[|w|] == '{';
    assert |s| - |t| == |w|;
    assert t[0] == '{';
  }

  /** Input that is not JSON without a `__NEXT_DATA__` script fails with that one message. */
  lemma HtmlWithoutScript(input: string, parseJson: string -> Result<Value, string>,
                          nextDataScript: string -> Option<string>)
    requires input == [] || (!IsWhitespace(input[0]) && input[0] != '{')
    requires nextDataScript(input).None?
    ensures LoadNextData(input, parseJson, nextDataScript) == Failure(NextDataMissing)
  {
  }
}
