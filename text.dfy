/** The pieces of Rust's `str` and integer formatting the crate relies on, over `seq<char>`:
    `str::parse::<u32>()` and `str::parse::<i32>()`, `to_string()` on integers, `trim`,
    `find`, `contains` and the `chars().filter(|c| c.is_ascii_digit())` digit filter. */
module Text {
  import opened Wrappers

  const U32Max: int := 0xFFFF_FFFF
  const I32Min: int := -0x8000_0000
  const I32Max: int := 0x7FFF_FFFF

  predicate IsAsciiDigit(c: char) { '0' <= c <= '9' }

  predicate AllDigits(s: string) { forall i :: 0 <= i < |s| ==> IsAsciiDigit(s[i]) }

  predicate NoDigits(s: string) { forall i :: 0 <= i < |s| ==> !IsAsciiDigit(s[i]) }

  function DigitValue(c: char): (v: nat)
    requires IsAsciiDigit(c)
    ensures v < 10
  {
    (c as int) - ('0' as int)
  }

  function DigitChar(n: nat): (c: char)
    requires n < 10
    ensures IsAsciiDigit(c) && DigitValue(c) == n
  {
    (('0' as int) + n) as char
  }

  /** The number a run of decimal digits denotes, most significant digit first. */
  function DecimalValue(ds: string): nat
    requires AllDigits(ds)
    decreases |ds|
  {
    if ds == [] then 0 else 10 * DecimalValue(ds[..|ds| - 1]) + DigitValue(ds[|ds| - 1])
  }

  /** The value of a run of characters read digit by digit, or `None` at the first character
      that is not an ASCII digit. */
  function DecimalOf(s: string): Option<nat>
    decreases |s|
  {
    if s == [] then Some(0)
    else
      match DecimalOf(s[..|s| - 1])
      case None => None
      case Some(v) => if IsAsciiDigit(s[|s| - 1]) then Some(10 * v + DigitValue(s[|s| - 1])) else None
  }

  /** Reading digit by digit succeeds exactly on strings of ASCII digits, with their value. */
  lemma {:induction false} DecimalOfDigits(s: string)
    ensures DecimalOf(s).Some? <==> AllDigits(s)
    ensures AllDigits(s) ==> DecimalOf(s) == Some(DecimalValue(s))
    decreases |s|
  {
    if s != [] {
      var init := s[..|s| - 1];
      DecimalOfDigits(init);
      assert AllDigits(s) ==> AllDigits(init) by {
        if AllDigits(s) {
          forall i | 0 <= i < |init| ensures IsAsciiDigit(init[i]) {
            assert init[i] == s[i];
          }
        }
      }
      assert AllDigits(init) && IsAsciiDigit(s[|s| - 1]) ==> AllDigits(s) by {
        if AllDigits(init) && IsAsciiDigit(s[|s| - 1]) {
          forall i | 0 <= i < |s| ensures IsAsciiDigit(s[i]) {
            if i < |init| {
              assert s[i] == init[i];
            }
          }
        }
      }
    }
  }

  /** The digits after an optional leading sign, as `parse` reads them. */
  function UnsignedBody(s: string, signs: set<char>): (body: string)
    ensures |body| <= |s|
  {
    if |s| > 0 && s[0] in signs then s[1..] else s
  }

  /** `s.parse::<u32>()`: an optional `+`, then one or more ASCII digits and nothing else, with a
      value that fits in 32 bits. */
  function ParseU32(s: string): (r: Option<nat>)
    ensures r.Some? ==> r.value <= U32Max
  {
    var body := UnsignedBody(s, {'+'});
    if body == [] then None
    else
      match DecimalOf(body)
      case Some(v) => if v <= U32Max then Some(v) else None
      case None => None
  }

  /** `ParseU32` accepts exactly a non-empty digit string, after an optional `+`, whose value
      fits in 32 bits, and returns that value. */
  lemma ParseU32Digits(s: string)
    ensures var body := UnsignedBody(s, {'+'});
      ParseU32(s) == if body != [] && AllDigits(body) && DecimalValue(body) <= U32Max
                     then Some(DecimalValue(body)) else None
  {
    DecimalOfDigits(UnsignedBody(s, {'+'}));
  }

  /** `s.parse::<i32>()`: an optional sign, then one or more ASCII digits and nothing else, with a
      value in the signed 32-bit range. */
  function ParseI32(s: string): (r: Option<int>)
    ensures r.Some? ==> I32Min <= r.value <= I32Max
  {
    var negative := |s| > 0 && s[0] == '-';
    var body := UnsignedBody(s, {'+', '-'});
    if body == [] then None
    else
      match DecimalOf(body)
      case None => None
      case Some(d) =>
        var v: int := if negative then 0 - d else d;
        if I32Min <= v <= I32Max then Some(v) else None
  }

  /** `ParseI32` accepts exactly a non-empty digit string, after an optional sign, whose signed
      value is in range, and returns that value. */
  lemma ParseI32Digits(s: string)
    ensures var body := UnsignedBody(s, {'+', '-'});
      ParseI32(s) == if body == [] || !AllDigits(body) then None
        else
          var v: int := if |s| > 0 && s[0] == '-' then 0 - DecimalValue(body) else DecimalValue(body);
          if I32Min <= v <= I32Max then Some(v) else None
  {
    DecimalOfDigits(UnsignedBody(s, {'+', '-'}));
  }

  /** `n.to_string()` for an unsigned integer: its decimal digits without leading zeros. */
  function NatToString(n: nat): (s: string)
    ensures s != [] && AllDigits(s)
    decreases n
  {
    if n < 10 then [DigitChar(n)] else NatToString(n / 10) + [DigitChar(n % 10)]
  }

  /** `i.to_string()` for a signed integer. */
  function IntToString(i: int): string {
    if i < 0 then "-" + NatToString(-i) else NatToString(i)
  }

  lemma {:induction false} NatToStringValue(n: nat)
    ensures DecimalValue(NatToString(n)) == n
    decreases n
  {
    var s := NatToString(n);
    if n >= 10 {
      NatToStringValue(n / 10);
      assert s[..|s| - 1] == NatToString(n / 10);
    }
  }

  /** Printing an unsigned integer and parsing it back as a `u32` gives the integer back. */
  lemma ParseU32OfNatToString(n: nat)
    requires n <= U32Max
    ensures ParseU32(NatToString(n)) == Some(n)
  {
    NatToStringValue(n);
    ParseU32Digits(NatToString(n));
  }

  /** A digit string, with a leading `-` when negative, parses as an `i32` to its signed value
      when that is in range. */
  lemma ParseI32OfDigits(ds: string, negative: bool)
    requires ds != [] && AllDigits(ds)
    requires I32Min <= (if negative then 0 - DecimalValue(ds) else DecimalValue(ds)) <= I32Max
    ensures ParseI32((if negative then "-" else "") + ds) ==
      Some(if negative then 0 - DecimalValue(ds) else DecimalValue(ds))
  {
    var s := (if negative then "-" else "") + ds;
    ParseI32Digits(s);
    assert IsAsciiDigit(ds[0]);
    if negative {
      assert s[0] == '-' && s[1..] == ds;
    } else {
      assert s == ds;
    }
  }

  /** Printing a signed integer and parsing it back as an `i32` gives the integer back. */
  lemma ParseI32OfIntToString(i: int)
    requires I32Min <= i <= I32Max
    ensures ParseI32(IntToString(i)) == Some(i)
  {
    if i < 0 {
      NatToStringValue(-i);
      ParseI32OfDigits(NatToString(-i), true);
    } else {
      NatToStringValue(i);
      ParseI32OfDigits(NatToString(i), false);
      assert "" + NatToString(i) == NatToString(i);
    }
  }

  /** Two ASCII digits parse as the two-digit number they spell. */
  lemma ParseU32OfTwoDigits(a: char, b: char)
    requires IsAsciiDigit(a) && IsAsciiDigit(b)
    ensures ParseU32([a, b]) == Some(10 * DigitValue(a) + DigitValue(b))
  {
    var s := [a, b];
    assert s[..|s| - 1] == [a] && [a][..|[a]| - 1] == [];
    assert DecimalValue([a]) == DigitValue(a);
    assert DecimalValue(s) == 10 * DigitValue(a) + DigitValue(b);
    assert AllDigits(s) && s[0] != '+';
    ParseU32Digits(s);
  }

  /** `s.chars().filter(|c| c.is_ascii_digit()).collect::<String>()`. */
  function Digits(s: string): (r: string)
    ensures AllDigits(r) && |r| <= |s|
  {
    if s == [] then [] else (if IsAsciiDigit(s[0]) then [s[0]] else []) + Digits(s[1..])
  }

  /** The digit filter distributes over concatenation: it keeps the digits in their order. */
  lemma {:induction false} DigitsAppend(a: string, b: string)
    ensures Digits(a + b) == Digits(a) + Digits(b)
    decreases |a|
  {
    if a != [] {
      assert (a + b)[0] == a[0];
      assert (a + b)[1..] == a[1..] + b;
      DigitsAppend(a[1..], b);
    } else {
      assert a + b == b;
    }
  }

  lemma {:induction false} DigitsOfAllDigits(s: string)
    requires AllDigits(s)
    ensures Digits(s) == s
    decreases |s|
  {
    if s != [] {
      DigitsOfAllDigits(s[1..]);
    }
  }

  lemma {:induction false} DigitsOfNoDigits(s: string)
    requires NoDigits(s)
    ensures Digits(s) == []
    decreases |s|
  {
    if s != [] {
      DigitsOfNoDigits(s[1..]);
    }
  }

  /** The digit filter drops a digit-free separator between two digit groups and a digit-free
      tail after them. */
  lemma DigitsOfSeparated(x: string, sep: string, y: string, b: string)
    requires AllDigits(x) && AllDigits(y) && NoDigits(sep) && NoDigits(b)
    ensures Digits(x + sep + y + b) == x + y
  {
    var rest := sep + (y + b);
    assert x + sep + y + b == x + rest;
    assert Digits(rest) == y by {
      DigitsAppend(y, b);
      DigitsAppend(sep, y + b);
      DigitsOfAllDigits(y);
      DigitsOfNoDigits(sep);
      DigitsOfNoDigits(b);
    }
    DigitsAppend(x, rest);
    DigitsOfAllDigits(x);
  }

  /** `char::is_whitespace`: the Unicode White_Space property. */
  predicate IsWhitespace(c: char) {
    ('\t' <= c <= '\r') || c == ' ' || c == '\U{85}' || c == '\U{A0}' || c == '\U{1680}'
    || ('\U{2000}' <= c <= '\U{200A}') || c == '\U{2028}' || c == '\U{2029}' || c == '\U{202F}'
    || c == '\U{205F}' || c == '\U{3000}'
  }

  /** `s.trim_start()`: the suffix left after dropping leading whitespace. */
  function TrimStart(s: string): (r: string)
    ensures |r| <= |s|
    ensures r != [] ==> !IsWhitespace(r[0])
  {
    if s != [] && IsWhitespace(s[0]) then TrimStart(s[1..]) else s
  }

  /** What `trim_start` keeps is a suffix. */
  lemma {:induction false} TrimStartIsSuffix(s: string)
    ensures TrimStart(s) == s[|s| - |TrimStart(s)|..]
    decreases |s|
  {
    if s != [] && IsWhitespace(s[0]) {
      TrimStartIsSuffix(s[1..]);
    }
  }

  /** Everything `trim_start` drops is whitespace. */
  lemma {:induction false} TrimStartDropsWhitespace(s: string)
    ensures forall i :: 0 <= i < |s| - |TrimStart(s)| ==> IsWhitespace(s[i])
    decreases |s|
  {
    if s != [] && IsWhitespace(s[0]) {
      TrimStartDropsWhitespace(s[1..]);
    }
  }

  /** `s.trim_end()`: the prefix left after dropping trailing whitespace. */
  function TrimEnd(s: string): (r: string)
    ensures |r| <= |s|
    ensures r != [] ==> !IsWhitespace(r[|r| - 1])
  {
    if s != [] && IsWhitespace(s[|s| - 1]) then TrimEnd(s[..|s| - 1]) else s
  }

  /** What `trim_end` keeps is a prefix. */
  lemma {:induction false} TrimEndIsPrefix(s: string)
    ensures TrimEnd(s) == s[..|TrimEnd(s)|]
    decreases |s|
  {
    if s != [] && IsWhitespace(s[|s| - 1]) {
      TrimEndIsPrefix(s[..|s| - 1]);
    }
  }

  /** Everything `trim_end` drops is whitespace. */
  lemma {:induction false} TrimEndDropsWhitespace(s: string)
    ensures forall i :: |TrimEnd(s)| <= i < |s| ==> IsWhitespace(s[i])
    decreases |s|
  {
    if s != [] && IsWhitespace(s[|s| - 1]) {
      TrimEndDropsWhitespace(s[..|s| - 1]);
    }
  }

  /** `s.trim()`. */
  function Trim(s: string): string {
    TrimEnd(TrimStart(s))
  }

  /** A string with no whitespace at either end is its own trim. */
  lemma TrimOfTrimmed(s: string)
    requires s == [] || (!IsWhitespace(s[0]) && !IsWhitespace(s[|s| - 1]))
    ensures Trim(s) == s
  {
  }

  /** `p` occurs in `s` starting at index `j`. */
  predicate OccursAt(s: string, p: string, j: nat) {
    j + |p| <= |s| && s[j..j + |p|] == p
  }

  lemma OccursAtTail(s: string, p: string, j: nat)
    requires s != []
    ensures OccursAt(s[1..], p, j) <==> OccursAt(s, p, j + 1)
  {
    if j + 1 + |p| <= |s| {
      assert s[1..][j..j + |p|] == s[j + 1..j + 1 + |p|];
    }
  }

  /** `s.find(p)`: the index of the first occurrence of `p` in `s` (in characters). */
  function Find(s: string, p: string): (r: Option<nat>)
    ensures r.Some? ==> OccursAt(s, p, r.value)
    ensures r.Some? ==> forall j: nat :: j < r.value ==> !OccursAt(s, p, j)
    ensures r.None? ==> forall j: nat :: !OccursAt(s, p, j)
    decreases |s|
  {
    if |s| < |p| then None
    else if s[..|p|] == p then Some(0)
    else
      assert !OccursAt(s, p, 0);
      match Find(s[1..], p)
      case Some(k) =>
        OccursAtTail(s, p, k);
        assert forall j: nat | j < k + 1 :: !OccursAt(s, p, j) by {
          forall j: nat | 0 < j < k + 1 ensures !OccursAt(s, p, j) {
            OccursAtTail(s, p, j - 1);
          }
        }
        Some(k + 1)
      case None =>
        assert forall j: nat :: !OccursAt(s, p, j) by {
          forall j: nat | 0 < j ensures !OccursAt(s, p, j) {
            OccursAtTail(s, p, j - 1);
          }
        }
        None
  }

  /** `s.contains(p)`: `p` occurs somewhere in `s`. */
  predicate Contains(s: string, p: string) {
    exists j: nat | j <= |s| :: OccursAt(s, p, j)
  }

  /** `contains` agrees with `find`: `p` is contained exactly when `find` locates it. */
  lemma ContainsIffFind(s: string, p: string)
    ensures Contains(s, p) <==> Find(s, p).Some?
  {
    if Find(s, p).Some? {
      assert OccursAt(s, p, Find(s, p).value);
    }
  }

  /** When the first character of `p` does not occur in `a`, searching `a + b` for `p` finds
      exactly what searching `b` finds, shifted by `|a|`. */
  lemma FindAfter(a: string, b: string, p: string)
    requires p != [] && forall i :: 0 <= i < |a| ==> a[i] != p[0]
    ensures Find(a + b, p) == (match Find(b, p) case Some(k) => Some(k + |a|) case None => None)
  {
    FirstShifted(a, b, p, Find(a + b, p), Find(b, p));
  }

  /** `r` is where `p` first occurs in `s`, or `None` when it occurs nowhere. */
  ghost predicate FirstOccurrence(s: string, p: string, r: Option<nat>) {
    match r
    case Some(k) => OccursAt(s, p, k) && forall j: nat :: j < k ==> !OccursAt(s, p, j)
    case None => forall j: nat :: !OccursAt(s, p, j)
  }

  /** Prefixing `b` with characters that cannot start `p` adds no occurrence of `p` and shifts
      every occurrence in `b` by their number. */
  lemma OccursShifted(a: string, b: string, p: string)
    requires p != [] && forall i :: 0 <= i < |a| ==> a[i] != p[0]
    ensures forall j: nat :: j < |a| ==> !OccursAt(a + b, p, j)
    ensures forall j: nat :: OccursAt(a + b, p, j + |a|) <==> OccursAt(b, p, j)
  {
    var s := a + b;
    forall j: nat | j < |a|
      ensures !OccursAt(s, p, j)
    {
      if j + |p| <= |s| {
        assert s[j..j + |p|][0] == s[j];
      }
    }
    forall j: nat
      ensures OccursAt(s, p, j + |a|) <==> OccursAt(b, p, j)
    {
      if j + |p| <= |b| {
        assert s[j + |a|..j + |a| + |p|] == b[j..j + |p|];
      }
    }
  }

  /** So the first occurrence of `p` moves by the same amount. */
  lemma FirstShifted(a: string, b: string, p: string, r: Option<nat>, r': Option<nat>)
    requires p != [] && forall i :: 0 <= i < |a| ==> a[i] != p[0]
    requires FirstOccurrence(a + b, p, r) && FirstOccurrence(b, p, r')
    ensures r == (match r' case Some(k) => Some(k + |a|) case None => None)
  {
    OccursShifted(a, b, p);
    if r.Some? {
      assert r.value >= |a| && OccursAt(b, p, r.value - |a|);
    }
    if r'.Some? {
      assert OccursAt(a + b, p, r'.value + |a|);
    }
  }

  /** `p` is found at the start of `p + b`. */
  lemma FindPrefix(p: string, b: string)
    ensures Find(p + b, p) == Some(0)
  {
    assert (p + b)[..|p|] == p;
  }

  /** A pattern whose first character never occurs in `s` is not found in `s`. */
  lemma FindAbsent(s: string, p: string)
    requires p != [] && forall i :: 0 <= i < |s| ==> s[i] != p[0]
    ensures Find(s, p) == None
  {
    FindAfter(s, [], p);
    assert s + [] == s;
  }

  /** A string contains every one of its infixes. */
  lemma ContainsInfix(a: string, p: string, b: string)
    ensures Contains(a + p + b, p)
  {
    var s := a + p + b;
    assert s[|a|..|a| + |p|] == p;
    assert OccursAt(s, p, |a|);
  }

  /** A non-empty trimmed string starts and ends with non-whitespace. */
  lemma TrimEnds(s: string)
    ensures Trim(s) != [] ==> !IsWhitespace(Trim(s)[0]) && !IsWhitespace(Trim(s)[|Trim(s)| - 1])
  {
    var t := TrimStart(s);
    TrimEndIsPrefix(t);
    if Trim(s) != [] {
      assert Trim(s)[0] == t[0];
    }
  }
}
