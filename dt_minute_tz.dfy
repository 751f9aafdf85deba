/** The minute-precision, offset-qualified timestamp codec: `serialize` truncates to the minute
    and prints `YYYY-MM-DDTHH:MM±HH:MM`; `parse_str` accepts a full date-time (optional seconds,
    `Z` or `±HH:MM`) or a bare date followed directly by an offset, and truncates to the minute.
    chrono's format strings are modelled by their fixed-width ASCII profile. */
module DtMinuteTz {
  import opened Wrappers
  import opened Text
  import opened Calendar

  /** `parse_str`'s two failure messages: the literal "timezone is required", and the text of a
      chrono parse error (whose wording is not modelled). */
  datatype ParseError = TimezoneRequired | Malformed

  /** `dt.with_second(0).unwrap().with_nanosecond(0).unwrap()`. */
  function TruncateToMinute(dt: DateTime): DateTime {
    dt.(time := dt.time.(second := 0))
  }

  // ---------------------------------------------------------------- formatting

  function Pad2(n: nat): (s: string)
    requires n < 100
    ensures |s| == 2 && AllDigits(s)
  {
    [DigitChar(n / 10), DigitChar(n % 10)]
  }

  function Pad4(n: nat): (s: string)
    requires n < 10000
    ensures |s| == 4 && AllDigits(s)
  {
    [DigitChar(n / 1000), DigitChar(n / 100 % 10), DigitChar(n / 10 % 10), DigitChar(n % 10)]
  }

  /** Left-pads a digit string with zeros to at least `width` characters. */
  function ZeroPad(ds: string, width: nat): (r: string)
    ensures |r| >= width && |r| >= |ds|
  {
    if |ds| >= width then ds else seq(width - |ds|, _ => '0') + ds
  }

  /** chrono's `%Y`: four digits for years 0 through 9999, otherwise an explicit sign and at
      least four digits. */
  function FormatYear(y: int): (r: string)
    ensures |r| >= 4 && (|r| == 4 <==> 0 <= y <= 9999)
    ensures r[0] == '-' <==> y < 0
    ensures r[0] == '+' <==> y > 9999
  {
    if 0 <= y <= 9999 then Pad4(y)
    else (if y < 0 then "-" else "+") + ZeroPad(NatToString(if y < 0 then -y else y), 4)
  }

  /** chrono's `%:z`: the sign (`+` for a zero offset), then `HH:MM`. */
  function FormatOffset(offset: int): (r: string)
    requires ValidOffset(offset)
    ensures |r| == 6 && r[3] == ':' && (r[0] == '-' <==> offset < 0) && (r[0] == '+' <==> offset >= 0)
  {
    var a := if offset < 0 then -offset else offset;
    (if offset < 0 then "-" else "+") + Pad2(a / 60) + ":" + Pad2(a % 60)
  }

  /** `dt.format("%Y-%m-%dT%H:%M%:z")`. */
  function Format(dt: DateTime): (r: string)
    requires ValidDateTime(dt)
    ensures |r| >= 22 && (|r| == 22 <==> 0 <= dt.date.year <= 9999)
  {
    FormatYear(dt.date.year) + "-" + Pad2(dt.date.month) + "-" + Pad2(dt.date.day)
    + "T" + Pad2(dt.time.hour) + ":" + Pad2(dt.time.minute) + FormatOffset(dt.offset)
  }

  /** `serialize`: truncate to the minute, then format. */
  function Serialize(dt: DateTime): (r: string)
    requires ValidDateTime(dt)
    ensures |r| >= 22 && (|r| == 22 <==> 0 <= dt.date.year <= 9999)
  {
    Format(TruncateToMinute(dt))
  }

  // ---------------------------------------------------------------- parsing

  function Digits2(s: string, i: nat): (r: Option<nat>)
    requires i + 2 <= |s|
    ensures r.Some? ==> r.value < 100
  {
    if IsAsciiDigit(s[i]) && IsAsciiDigit(s[i + 1])
    then Some(10 * DigitValue(s[i]) + DigitValue(s[i + 1]))
    else None
  }

  function Digits4(s: string, i: nat): (r: Option<nat>)
    requires i + 4 <= |s|
    ensures r.Some? ==> r.value < 10000
  {
    var hi :- Digits2(s, i);
    var lo :- Digits2(s, i + 2);
    Some(100 * hi + lo)
  }

  /** `%:z` read as exactly `±HH:MM`, with minutes below 60 and the whole offset below a day. */
  function ParseOffset(s: string): (r: Option<int>)
    ensures r.Some? ==> ValidOffset(r.value)
  {
    if |s| == 6 && (s[0] == '+' || s[0] == '-') && s[3] == ':' then
      var h :- Digits2(s, 1);
      var m :- Digits2(s, 4);
      if h < 24 && m < 60 then Some(if s[0] == '-' then -(h * 60 + m) else h * 60 + m) else None
    else None
  }

  /** `YYYY-MM-DDTHH:MM` (16 characters), the given second, and an offset text. */
  function ParseFields(local: string, second: int, offsetText: string): (r: Option<DateTime>)
    requires |local| == 16 && 0 <= second < 60
    ensures r.Some? ==> ValidDateTime(r.value) && r.value.time.second == second
  {
    if local[4] == '-' && local[7] == '-' && local[10] == 'T' && local[13] == ':' then
      var y :- Digits4(local, 0);
      var mo :- Digits2(local, 5);
      var d :- Digits2(local, 8);
      var h :- Digits2(local, 11);
      var mi :- Digits2(local, 14);
      var off :- ParseOffset(offsetText);
      if ValidDate(Date(y, mo, d)) && h < 24 && mi < 60
      then Some(DateTime(Date(y, mo, d), Time(h, mi, second), off))
      else None
    else None
  }

  /** `DateTime::parse_from_str(s, "%Y-%m-%dT%H:%M%:z")`. */
  function ParseMinTz(s: string): (r: Option<DateTime>)
    ensures r.Some? ==> ValidDateTime(r.value) && r.value.time.second == 0
  {
    if |s| == 22 then ParseFields(s[..16], 0, s[16..]) else None
  }

  /** `DateTime::parse_from_str(s, "%Y-%m-%dT%H:%M:%S%:z")`. Seconds run to 60 (a leap second,
      which chrono keeps as second 59 plus an extra second of nanoseconds). */
  function ParseSecTz(s: string): (r: Option<DateTime>)
    ensures r.Some? ==> ValidDateTime(r.value)
  {
    if |s| == 25 && s[16] == ':' then
      var sec :- Digits2(s, 17);
      if sec <= 60 then ParseFields(s[..16], if sec == 60 then 59 else sec, s[19..]) else None
    else None
  }

  /** The trailing-`Z` normalisation: `Z` is replaced by `+00:00`. */
  function NormalizeZ(s: string): (r: string)
    ensures r == [] || r[|r| - 1] != 'Z'
    ensures |s| > 0 && s[|s| - 1] == 'Z' ==> |r| == |s| + 5 && r[..|s| - 1] == s[..|s| - 1] && r[|s| - 1..] == "+00:00"
    ensures !(|s| > 0 && s[|s| - 1] == 'Z') ==> r == s
  {
    if |s| > 0 && s[|s| - 1] == 'Z' then s[..|s| - 1] + "+00:00" else s
  }

  // ------------------------------------------------ byte positions (`s.len()`, `split_at(10)`)

  function Utf8Width(c: char): nat {
    if c as int < 0x80 then 1 else if c as int < 0x800 then 2 else if c as int < 0x1_0000 then 3 else 4
  }

  /** `s.len()`: the length of the UTF-8 encoding. */
  function Utf8Len(s: string): nat {
    if s == [] then 0 else Utf8Width(s[0]) + Utf8Len(s[1..])
  }

  /** How many characters the first `b` bytes hold, when byte `b` is a character boundary. */
  function CharsInBytes(s: string, b: nat): (r: Option<nat>)
    ensures r.Some? ==> r.value <= |s| && Utf8Len(s[..r.value]) == b
  {
    if b == 0 then Some(0)
    else if s == [] || Utf8Width(s[0]) > b then None
    else
      match CharsInBytes(s[1..], b - Utf8Width(s[0]))
      case Some(k) =>
        assert s[..k + 1][1..] == s[1..][..k];
        Some(k + 1)
      case None => None
  }

  /** `split_at(10)` panics unless byte 10 is a character boundary; it is reached only when the
      normalised text is longer than 10 bytes. */
  predicate SplitAtTenIsSafe(s: string) {
    var t := NormalizeZ(s);
    Utf8Len(t) <= 10 || CharsInBytes(t, 10).Some?
  }

  lemma BoundaryBeforeEnd(t: string, k: nat)
    requires k <= |t| && Utf8Len(t[..k]) == 10 && Utf8Len(t) > 10
    ensures k < |t|
  {
    assert t[..|t|] == t;
  }

  /** `parse_str`. */
  function ParseStr(s: string): (r: Result<DateTime, ParseError>)
    requires SplitAtTenIsSafe(s)
    ensures r.Success? ==> ValidDateTime(r.value) && r.value.time.second == 0
  {
    var t := NormalizeZ(s);
    match ParseMinTz(t).OrElse(ParseSecTz(t))
    case Some(dt) => Success(TruncateToMinute(dt))
    case None =>
      if Utf8Len(t) > 10 then
        var k := CharsInBytes(t, 10).value;
        BoundaryBeforeEnd(t, k);
        if t[k] == '+' || t[k] == '-' then
          match ParseMinTz(t[..k] + "T00:00" + t[k..])
          case Some(dt) => Success(TruncateToMinute(dt))
          case None => Failure(Malformed)
        else Failure(TimezoneRequired)
      else Failure(TimezoneRequired)
  }

  /** `option::serialize`: `None` becomes JSON null (here `None`). */
  function SerializeOption(o: Option<DateTime>): (r: Option<string>)
    requires o.Some? ==> ValidDateTime(o.value)
    ensures r.None? <==> o.None?
    ensures r.Some? ==> |r.value| >= 22
  {
    match o
    case Some(dt) => Some(Serialize(dt))
    case None => None
  }

  /** `option::deserialize`: null stays absent, a string goes through `parse_str`. */
  function DeserializeOption(o: Option<string>): (r: Result<Option<DateTime>, ParseError>)
    requires o.Some? ==> SplitAtTenIsSafe(o.value)
    ensures o.None? ==> r == Success(None)
    ensures o.Some? ==> (r.Failure? <==> ParseStr(o.value).Failure?)
    ensures r.Success? && r.value.Some? ==> ValidDateTime(r.value.value) && r.value.value.time.second == 0
  {
    match o
    case None => Success(None)
    case Some(s) =>
      match ParseStr(s)
      case Success(dt) => Success(Some(dt))
      case Failure(e) => Failure(e)
  }

  // ---------------------------------------------------------------- properties

  predicate IsAscii(s: string) {
    forall i :: 0 <= i < |s| ==> s[i] as int < 0x80
  }

  lemma {:induction false} AsciiUtf8Len(s: string)
    requires IsAscii(s)
    ensures Utf8Len(s) == |s|
    decreases |s|
  {
    if s != [] {
      AsciiUtf8Len(s[1..]);
    }
  }

  lemma {:induction false} AsciiCharsInBytes(s: string, b: nat)
    requires IsAscii(s) && b <= |s|
    ensures CharsInBytes(s, b) == Some(b)
    decreases b
  {
    if b > 0 {
      AsciiCharsInBytes(s[1..], b - 1);
    }
  }

  /** On ASCII text `split_at(10)` never panics. */
  lemma AsciiSplitIsSafe(s: string)
    requires IsAscii(s)
    ensures SplitAtTenIsSafe(s)
  {
    var t := NormalizeZ(s);
    assert IsAscii(t) by {
      if |s| > 0 && s[|s| - 1] == 'Z' {
        assert t == s[..|s| - 1] + "+00:00";
      }
    }
    AsciiUtf8Len(t);
    if |t| > 10 {
      AsciiCharsInBytes(t, 10);
    }
  }

  lemma Digits2OfPad2(n: nat, s: string, i: nat)
    requires n < 100 && i + 2 <= |s| && s[i..i + 2] == Pad2(n)
    ensures Digits2(s, i) == Some(n)
  {
    assert s[i] == Pad2(n)[0] && s[i + 1] == Pad2(n)[1];
  }

  lemma Digits4OfPad4(n: nat, s: string, i: nat)
    requires n < 10000 && i + 4 <= |s| && s[i..i + 4] == Pad4(n)
    ensures Digits4(s, i) == Some(n)
  {
    Pad4Halves(n);
    assert s[i..i + 2] == s[i..i + 4][..2] && s[i + 2..i + 4] == s[i..i + 4][2..];
    Digits2OfPad2(n / 100, s, i);
    Digits2OfPad2(n % 100, s, i + 2);
  }

  /** Four digits are the two digits of the hundreds followed by the two of the remainder. */
  lemma Pad4Halves(n: nat)
    requires n < 10000
    ensures Pad4(n) == Pad2(n / 100) + Pad2(n % 100)
  {
    var h, l := n / 100, n % 100;
    var c, d := l / 10, l % 10;
    Div1000(n, h / 10, 100 * (h % 10) + l);
    Div10(n, 10 * h + c, d);
    Div10(10 * h + c, h, c);
  }

  lemma Div10(n: int, q: int, r: int)
    requires n == 10 * q + r && 0 <= r < 10
    ensures n / 10 == q && n % 10 == r
  {
  }

  lemma Div1000(n: int, q: int, r: int)
    requires n == 1000 * q + r && 0 <= r < 1000
    ensures n / 1000 == q && n % 1000 == r
  {
  }

  lemma ParseOffsetOfFormat(offset: int)
    requires ValidOffset(offset)
    ensures ParseOffset(FormatOffset(offset)) == Some(offset)
  {
    var o := FormatOffset(offset);
    var a := if offset < 0 then -offset else offset;
    Digits2OfPad2(a / 60, o, 1);
    Digits2OfPad2(a % 60, o, 4);
  }

  /** The serialized form of an in-range date-time is the 22-character minute format. */
  lemma FormatShape(dt: DateTime)
    requires ValidDateTime(dt) && 0 <= dt.date.year <= 9999
    ensures var s := Format(dt);
      |s| == 22 && s[4] == '-' && s[7] == '-' && s[10] == 'T' && s[13] == ':'
      && s[..4] == Pad4(dt.date.year) && s[5..7] == Pad2(dt.date.month) && s[8..10] == Pad2(dt.date.day)
      && s[11..13] == Pad2(dt.time.hour) && s[14..16] == Pad2(dt.time.minute)
      && s[16..] == FormatOffset(dt.offset) && IsAsciiDigit(s[21])
  {
    var off := FormatOffset(dt.offset);
    assert |off| == 6 && off[5] == Pad2((if dt.offset < 0 then -dt.offset else dt.offset) % 60)[1];
    Layout(Pad4(dt.date.year), Pad2(dt.date.month), Pad2(dt.date.day), Pad2(dt.time.hour), Pad2(dt.time.minute), off);
  }

  /** Where each field sits in `Y-M-DTH:Mo` when the fields have the widths of the format. */
  lemma Layout(y: string, mo: string, d: string, h: string, mi: string, off: string)
    requires |y| == 4 && |mo| == 2 && |d| == 2 && |h| == 2 && |mi| == 2 && |off| == 6
    ensures var s := y + "-" + mo + "-" + d + "T" + h + ":" + mi + off;
      |s| == 22 && s[4] == '-' && s[7] == '-' && s[10] == 'T' && s[13] == ':'
      && s[..4] == y && s[5..7] == mo && s[8..10] == d && s[11..13] == h && s[14..16] == mi
      && s[16..] == off && s[21] == off[5]
  {
  }

  /** Round trip: parsing what `serialize` prints gives the date-time truncated to the minute,
      offset included. */
  lemma RoundTrip(dt: DateTime)
    requires ValidDateTime(dt) && 0 <= dt.date.year <= 9999
    ensures SplitAtTenIsSafe(Serialize(dt))
    ensures ParseStr(Serialize(dt)) == Success(TruncateToMinute(dt))
  {
    var tr := TruncateToMinute(dt);
    var s := Serialize(dt);
    FormatShape(tr);
    assert NormalizeZ(s) == s;
    assert IsAscii(s) by {
      forall i | 0 <= i < |s| ensures s[i] as int < 0x80 {
        if i >= 16 {
          assert s[i] == FormatOffset(tr.offset)[i - 16];
        }
      }
    }
    AsciiSplitIsSafe(s);
    var local := s[..16];
    Digits4OfPad4(tr.date.year, local, 0);
    Digits2OfPad2(tr.date.month, local, 5);
    Digits2OfPad2(tr.date.day, local, 8);
    Digits2OfPad2(tr.time.hour, local, 11);
    Digits2OfPad2(tr.time.minute, local, 14);
    ParseOffsetOfFormat(tr.offset);
    assert ParseMinTz(s) == Some(tr);
  }

  /** The serialized text of the crate's own test: 09:30:45 at +09:00 prints without seconds. */
  lemma SerializeExample()
    ensures Serialize(DateTime(Date(2025, 12, 18), Time(9, 30, 45), JstOffset)) == "2025-12-18T09:30+09:00"
  {
    ExampleFields();
    assert "2025" + "-" + "12" + "-" + "18" + "T" + "09" + ":" + "30" + "+09:00" == "2025-12-18T09:30+09:00";
  }

  /** The fields of the example, each printed on its own. */
  lemma ExampleFields()
    ensures FormatYear(2025) == "2025" && Pad2(12) == "12" && Pad2(18) == "18"
    ensures Pad2(9) == "09" && Pad2(30) == "30" && FormatOffset(JstOffset) == "+09:00"
  {
  }

  /** A trailing `Z` means exactly `+00:00`. */
  lemma ZuluIsUtc(p: string)
    requires SplitAtTenIsSafe(p + "+00:00")
    ensures SplitAtTenIsSafe(p + "Z")
    ensures ParseStr(p + "Z") == ParseStr(p + "+00:00")
  {
    var z := p + "Z";
    assert z[..|z| - 1] == p;
    assert NormalizeZ(z) == p + "+00:00";
    assert NormalizeZ(p + "+00:00") == p + "+00:00";
  }

  /** A bare date directly followed by an offset parses as 00:00 of that date at that offset:
      it succeeds exactly when the spelled-out `T00:00` form succeeds, with the same value. */
  lemma DateWithOffset(date: string, offset: string)
    requires |date| == 10 && IsAscii(date) && IsAscii(offset)
    requires offset != [] && (offset[0] == '+' || offset[0] == '-') && offset[|offset| - 1] != 'Z'
    ensures SplitAtTenIsSafe(date + offset) && SplitAtTenIsSafe(date + "T00:00" + offset)
    ensures forall x :: ParseStr(date + offset) == Success(x) <==> ParseStr(date + "T00:00" + offset) == Success(x)
  {
    var bare := date + offset;
    var full := date + "T00:00" + offset;
    assert IsAscii(bare);
    assert IsAscii(full);
    AsciiSplitIsSafe(bare);
    AsciiSplitIsSafe(full);
    assert NormalizeZ(bare) == bare;
    assert NormalizeZ(full) == full;
    assert bare[10] == offset[0];
    assert ParseMinTz(bare) == None by {
      if |bare| == 22 {
        assert bare[..16][10] == offset[0];
      }
    }
    assert ParseSecTz(bare) == None by {
      if |bare| == 25 {
        assert bare[..16][10] == offset[0];
      }
    }
    AsciiUtf8Len(bare);
    AsciiCharsInBytes(bare, 10);
    assert bare[..10] + "T00:00" + bare[10..] == full;
    assert ParseSecTz(full) == None by {
      if |full| == 25 {
        assert full[16] == offset[0];
      }
    }
  }

  function DateText(d: Date): string
    requires ValidDate(d) && 0 <= d.year <= 9999
  {
    Pad4(d.year) + "-" + Pad2(d.month) + "-" + Pad2(d.day)
  }

  lemma FormatOffsetIsAscii(offset: int)
    requires ValidOffset(offset)
    ensures IsAscii(FormatOffset(offset)) && |FormatOffset(offset)| == 6
  {
  }

  lemma SerializeMidnight(d: Date, offset: int)
    requires ValidDate(d) && 0 <= d.year <= 9999 && ValidOffset(offset)
    ensures Serialize(DateTime(d, Time(0, 0, 0), offset)) == DateText(d) + "T00:00" + FormatOffset(offset)
  {
    var midnight := DateTime(d, Time(0, 0, 0), offset);
    assert TruncateToMinute(midnight) == midnight;
    assert Pad2(0) == "00";
  }

  /** `YYYY-MM-DD±HH:MM` is midnight of that date at that offset (the crate's test case
      `2025-12-18+09:00`, for every date and offset). */
  lemma BareDateIsMidnight(d: Date, offset: int)
    requires ValidDate(d) && 0 <= d.year <= 9999 && ValidOffset(offset)
    ensures SplitAtTenIsSafe(DateText(d) + FormatOffset(offset))
    ensures ParseStr(DateText(d) + FormatOffset(offset)) == Success(DateTime(d, Time(0, 0, 0), offset))
  {
    var midnight := DateTime(d, Time(0, 0, 0), offset);
    var date, o := DateText(d), FormatOffset(offset);
    FormatOffsetIsAscii(offset);
    assert IsAscii(date);
    assert o[5] == Pad2((if offset < 0 then -offset else offset) % 60)[1];
    DateWithOffset(date, o);
    RoundTrip(midnight);
    SerializeMidnight(d, offset);
  }

  /** A seconds field (00 to 60) is accepted and then dropped: the result is that of the same
      text without it. */
  lemma OptionalSeconds(local: string, sec: nat, offset: string)
    requires |local| == 16 && |offset| == 6 && IsAscii(local) && IsAscii(offset) && offset[5] != 'Z'
    requires sec <= 60
    ensures SplitAtTenIsSafe(local + offset) && SplitAtTenIsSafe(local + ":" + Pad2(sec) + offset)
    ensures ParseMinTz(local + offset).Some? ==>
      ParseStr(local + ":" + Pad2(sec) + offset) == ParseStr(local + offset)
  {
    var short := local + offset;
    var long := local + ":" + Pad2(sec) + offset;
    assert IsAscii(short);
    SecondsFieldIsAscii(local, sec, offset);
    AsciiSplitIsSafe(short);
    AsciiSplitIsSafe(long);
    if ParseMinTz(short).Some? {
      assert short[..16] == local && short[16..] == offset;
      assert long[..16] == local && long[19..] == offset && long[16] == ':';
      Digits2OfPad2(sec, long, 17);
      var second := if sec == 60 then 59 else sec;
      SecondIsDropped(local, second, offset);
      assert ParseSecTz(long) == ParseFields(local, second, offset);
      assert ParseStr(short) == Success(TruncateToMinute(ParseMinTz(short).value));
    }
  }

  /** Text with a two-digit seconds field spliced in stays ASCII. */
  lemma SecondsFieldIsAscii(local: string, sec: nat, offset: string)
    requires IsAscii(local) && IsAscii(offset) && sec <= 60
    ensures IsAscii(local + ":" + Pad2(sec) + offset)
  {
    var long := local + ":" + Pad2(sec) + offset;
    forall i | 0 <= i < |long| ensures long[i] as int < 0x80 {
      if i < |local| { assert long[i] == local[i]; }
      else if i == |local| { }
      else if i < |local| + 3 { assert long[i] == Pad2(sec)[i - |local| - 1]; }
      else { assert long[i] == offset[i - |local| - 3]; }
    }
  }

  /** The fields read the same whatever the second, which truncation then drops. */
  lemma SecondIsDropped(local: string, second: int, offset: string)
    requires |local| == 16 && 0 <= second < 60
    ensures ParseFields(local, second, offset).Some? == ParseFields(local, 0, offset).Some?
    ensures ParseFields(local, second, offset).Some? ==>
      TruncateToMinute(ParseFields(local, second, offset).value) == TruncateToMinute(ParseFields(local, 0, offset).value)
  {
  }

  /** When neither full date-time format matches and the character at position 10 is not an
      offset sign, the text is refused with "timezone is required". */
  lemma FallbackRejected(s: string)
    requires IsAscii(s) && (s == [] || s[|s| - 1] != 'Z')
    requires ParseMinTz(s).None? && ParseSecTz(s).None?
    requires |s| > 10 ==> s[10] != '+' && s[10] != '-'
    ensures SplitAtTenIsSafe(s) && ParseStr(s) == Failure(TimezoneRequired)
  {
    AsciiSplitIsSafe(s);
    assert NormalizeZ(s) == s;
    AsciiUtf8Len(s);
    if |s| > 10 {
      AsciiCharsInBytes(s, 10);
    }
  }

  /** Text with no `+` or `-` from position 10 on and no trailing `Z` has no offset at all, and
      is refused with "timezone is required". */
  lemma NoOffsetRejected(s: string)
    requires IsAscii(s) && (s == [] || s[|s| - 1] != 'Z')
    requires forall i :: 10 <= i < |s| ==> s[i] != '+' && s[i] != '-'
    ensures SplitAtTenIsSafe(s) && ParseStr(s) == Failure(TimezoneRequired)
  {
    assert ParseMinTz(s) == None by {
      if |s| == 22 {
        assert s[16..][0] == s[16];
      }
    }
    assert ParseSecTz(s) == None by {
      if |s| == 25 && s[16] == ':' && Digits2(s, 17).Some? {
        assert s[19..][0] == s[19];
      }
    }
    FallbackRejected(s);
  }

  // The rejections from the crate's tests, each refused with "timezone is required".

  /** Refused: slashes instead of dashes. */
  lemma RejectsSlashDate()
    ensures SplitAtTenIsSafe("2025/12/18") && ParseStr("2025/12/18") == Failure(TimezoneRequired)
  {
    NoOffsetRejected("2025/12/18");
  }

  /** Refused: a space instead of `T`, and no offset. */
  lemma RejectsSpaceSeparator()
    ensures SplitAtTenIsSafe("2025-12-18 09:30") && ParseStr("2025-12-18 09:30") == Failure(TimezoneRequired)
  {
    NoOffsetRejected("2025-12-18 09:30");
  }

  /** Refused: seconds 61 and no offset. */
  lemma RejectsSeconds61WithoutOffset()
    ensures SplitAtTenIsSafe("2025-12-18T09:30:61") && ParseStr("2025-12-18T09:30:61") == Failure(TimezoneRequired)
  {
    NoOffsetRejected("2025-12-18T09:30:61");
  }

  /** Refused: a date alone. */
  lemma RejectsBareDate()
    ensures SplitAtTenIsSafe("2025-12-18") && ParseStr("2025-12-18") == Failure(TimezoneRequired)
  {
    NoOffsetRejected("2025-12-18");
  }

  /** Refused: a date-time without an offset. */
  lemma RejectsMissingOffset()
    ensures SplitAtTenIsSafe("2025-12-18T09:30") && ParseStr("2025-12-18T09:30") == Failure(TimezoneRequired)
  {
    NoOffsetRejected("2025-12-18T09:30");
  }

  /** Refused: a date-time with seconds but without an offset. */
  lemma RejectsMissingOffsetWithSeconds()
    ensures SplitAtTenIsSafe("2025-12-18T09:30:45") && ParseStr("2025-12-18T09:30:45") == Failure(TimezoneRequired)
  {
    NoOffsetRejected("2025-12-18T09:30:45");
  }

  /** Refused: not a date at all. */
  lemma RejectsInvalidString()
    ensures SplitAtTenIsSafe("invalid-string") && ParseStr("invalid-string") == Failure(TimezoneRequired)
  {
    NoOffsetRejected("invalid-string");
  }

  /** A `-` inside the time part is not an offset: `T09-30` is refused. */
  lemma DashInTimeRejected()
    ensures SplitAtTenIsSafe("2025-12-18T09-30") && ParseStr("2025-12-18T09-30") == Failure(TimezoneRequired)
  {
    FallbackRejected("2025-12-18T09-30");
  }

  /** Seconds beyond 60 are refused even with an offset. */
  lemma SecondsOutOfRangeRejected()
    ensures SplitAtTenIsSafe("2025-12-18T09:30:61+09:00")
    ensures ParseStr("2025-12-18T09:30:61+09:00") == Failure(TimezoneRequired)
  {
    var s := "2025-12-18T09:30:61+09:00";
    assert Digits2(s, 17) == Some(61);
    FallbackRejected(s);
  }

  /** The Option lifts round-trip too: absent stays absent, present is truncated. */
  lemma OptionRoundTrip(o: Option<DateTime>)
    requires o.Some? ==> ValidDateTime(o.value) && 0 <= o.value.date.year <= 9999
    ensures SerializeOption(o).Some? ==> SplitAtTenIsSafe(SerializeOption(o).value)
    ensures DeserializeOption(SerializeOption(o))
      == Success(match o case Some(dt) => Some(TruncateToMinute(dt)) case None => None)
  {
    if o.Some? {
      RoundTrip(o.value);
    }
  }
}
