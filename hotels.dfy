/** The hotel service: the record parser of `searchHotels` (six lines per
    hotel, with a rate read from the digits of its line, a rating read by
    `parseFloat` and a comma-separated amenity list) and `calculateTotalPrice`. */
module Hotels {
  import opened Wrappers
  import opened Text
  import opened Records
  import Seqs

  // ---------------------------------------------------------------------------
  // parseFloat

  /** A JavaScript number as `parseFloat` can produce it. */
  datatype JsFloat = NaN | Infinite(negative: bool) | Finite(value: real)

  function Pow10(n: nat): (r: nat)
    ensures r >= 1
  {
    if n == 0 then 1 else 10 * Pow10(n - 1)
  }

  /** The value of a run of digits read after a decimal point. */
  function Fraction(digits: string): real
    requires AllDigits(digits)
  {
    DigitsValue(digits) as real / Pow10(|digits|) as real
  }

  /** 10 to the power `e`, for an exponent of either sign. */
  function Scale(e: int): (r: real)
    ensures r > 0.0
  {
    if e >= 0 then Pow10(e) as real else 1.0 / Pow10(-e) as real
  }

  /** The exponent part "e", optional sign, digits at the start of `s`:
      its value and its length, or none when the digits are missing. */
  function ExponentPart(s: string): (r: Option<(int, nat)>)
    ensures r.Some? ==> r.value.1 <= |s|
  {
    if |s| >= 2 && (s[0] == 'e' || s[0] == 'E') then
      var signed := s[1] == '-' || s[1] == '+';
      var start := if signed then 2 else 1;
      var k := DigitRun(s[start..]);
      if k == 0 then None
      else
        var v: int := DigitsValue(s[start..][..k]);
        Some((if s[1] == '-' then -v else v, start + k))
    else None
  }

  /** The digits, optional point and digits at the start of `s` (at least one
      digit in all): their value and their length. */
  function Mantissa(s: string): (r: Option<(real, nat)>)
    ensures r.Some? ==> r.value.1 <= |s|
  {
    var k := DigitRun(s);
    if k < |s| && s[k] == '.' then
      var f := DigitRun(s[k + 1..]);
      if k + f == 0 then None
      else Some((DigitsValue(s[..k]) as real + Fraction(s[k + 1..][..f]), k + 1 + f))
    else if k == 0 then None
    else Some((DigitsValue(s[..k]) as real, k))
  }

  /** The longest unsigned decimal literal at the start of `s`: a mantissa
      and an optional exponent. */
  function UnsignedDecimal(s: string): Option<real> {
    match Mantissa(s)
    case None => None
    case Some((m, used)) =>
      match ExponentPart(s[used..])
      case None => Some(m)
      case Some((e, _)) => Some(m * Scale(e))
  }

  /** `parseFloat(text)`: leading white space skipped, then the signed
      number. */
  function ParseFloat(text: string): (r: JsFloat)
    ensures AllWhitespace(text) ==> r == NaN
  {
    assert AllWhitespace(text) ==> TrimStart(text) == [];
    ParseSigned(TrimStart(text))
  }

  /** An optional sign, then "Infinity" or the longest decimal literal; NaN
      when there is neither. Whatever follows the literal is ignored. */
  function ParseSigned(s: string): JsFloat {
    var negative := |s| > 0 && s[0] == '-';
    var body := if |s| > 0 && (s[0] == '-' || s[0] == '+') then s[1..] else s;
    if StartsWith(body, "Infinity") then Infinite(negative)
    else
      match UnsignedDecimal(body)
      case None => NaN
      case Some(v) => Finite(if negative then -v else v)
  }

  /** White space before the number is skipped. */
  lemma ParseFloatLeadingSpace(ws: string, s: string)
    requires AllWhitespace(ws) && (s == [] || !IsWhitespace(s[0]))
    ensures ParseFloat(ws + s) == ParseFloat(s)
  {
    TrimStartPadded(ws, s);
    assert [] + s == s;
    TrimStartPadded([], s);
  }

  /** A minus sign before a digit or a point negates the decimal literal
      that follows it (read unsigned by ParseFloatUnsigned), and leaves NaN
      alone. */
  lemma ParseFloatNegated(s: string)
    requires s != [] && (IsDigit(s[0]) || s[0] == '.')
    ensures UnsignedDecimal(s).None? ==> ParseFloat("-" + s) == NaN
    ensures UnsignedDecimal(s).Some? ==> ParseFloat("-" + s) == Finite(-UnsignedDecimal(s).value)
  {
    var t := "-" + s;
    assert TrimStart(t) == t by {
      assert [] + t == t;
      TrimStartPadded([], t);
    }
    assert !StartsWith(s, "Infinity") by {
      assert s[0] != 'I';
    }
    SignedMinus(s);
  }

  /** After a minus sign, the decimal literal is read negated. */
  lemma SignedMinus(s: string)
    requires !StartsWith(s, "Infinity")
    ensures UnsignedDecimal(s).None? ==> ParseSigned("-" + s) == NaN
    ensures UnsignedDecimal(s).Some? ==> ParseSigned("-" + s) == Finite(-UnsignedDecimal(s).value)
  {
    assert ("-" + s)[1..] == s;
  }

  /** A text starting with a digit or a point has no sign, no white space
      and no "Infinity" to skip: `parseFloat` reads its decimal literal. */
  lemma ParseFloatUnsigned(s: string)
    requires s != [] && (IsDigit(s[0]) || s[0] == '.')
    ensures UnsignedDecimal(s).None? ==> ParseFloat(s) == NaN
    ensures UnsignedDecimal(s).Some? ==> ParseFloat(s) == Finite(UnsignedDecimal(s).value)
  {
    assert TrimStart(s) == s by {
      TrimStartPadded([], s);
      assert [] + s == s;
    }
    assert !StartsWith(s, "Infinity") by {
      assert s[0] != 'I';
    }
    assert ParseFloat(s) == ParseSigned(s);
    SignedPlain(s);
  }

  /** Without a sign, the decimal literal is read as it is. */
  lemma SignedPlain(s: string)
    requires s != [] && s[0] != '-' && s[0] != '+' && !StartsWith(s, "Infinity")
    ensures UnsignedDecimal(s).None? ==> ParseSigned(s) == NaN
    ensures UnsignedDecimal(s).Some? ==> ParseSigned(s) == Finite(UnsignedDecimal(s).value)
  {
  }

  /** The digits of a whole number, with no point or exponent after them. */
  lemma UnsignedWhole(n: nat, rest: string)
    requires rest == [] || (!IsDigit(rest[0]) && rest[0] != '.' && rest[0] != 'e' && rest[0] != 'E')
    ensures UnsignedDecimal(NatToString(n) + rest) == Some(n as real)
  {
    var digits := NatToString(n);
    var s := digits + rest;
    NatToStringValue(n);
    DigitRunPrefix(digits, rest);
    assert s[..|digits|] == digits;
    assert Mantissa(s) == Some((n as real, |digits|));
    assert s[|digits|..] == rest;
    assert ExponentPart(rest).None?;
  }

  /** A whole number reads as itself. */
  lemma ParseFloatWhole(n: nat, rest: string)
    requires rest == [] || (!IsDigit(rest[0]) && rest[0] != '.' && rest[0] != 'e' && rest[0] != 'E')
    ensures ParseFloat(NatToString(n) + rest) == Finite(n as real)
  {
    UnsignedWhole(n, rest);
    assert (NatToString(n) + rest)[0] == NatToString(n)[0];
    ParseFloatUnsigned(NatToString(n) + rest);
  }

  /** A text whose digit run of length `k` is followed by a point and a
      digit run of length `f` has a mantissa of length `k + 1 + f`. */
  lemma MantissaWithPoint(s: string, k: nat, f: nat)
    requires k == DigitRun(s) && k < |s| && s[k] == '.'
    requires f == DigitRun(s[k + 1..]) && k + f > 0
    ensures Mantissa(s).Some? && Mantissa(s).value.1 == k + 1 + f
  {
  }

  /** The value of that mantissa: the whole digits plus the fraction. */
  lemma MantissaValue(s: string, k: nat, f: nat)
    requires k == DigitRun(s) && k < |s| && s[k] == '.'
    requires f == DigitRun(s[k + 1..]) && k + f > 0
    ensures Mantissa(s).Some?
    ensures Mantissa(s).value.0 == DigitsValue(s[..k]) as real + Fraction(s[k + 1..][..f])
  {
  }

  /** The mantissa of "N.DD…". */
  lemma PointedMantissa(n: nat, digits: string)
    requires AllDigits(digits) && digits != []
    ensures Mantissa(NatToString(n) + "." + digits).Some?
    ensures Mantissa(NatToString(n) + "." + digits).value.0 == n as real + Fraction(digits)
    ensures Mantissa(NatToString(n) + "." + digits).value.1 == |NatToString(n) + "." + digits|
  {
    var whole := NatToString(n);
    var after := "." + digits;
    var s := whole + after;
    assert NatToString(n) + "." + digits == s;
    var k := |whole|;
    DigitRunPrefix(whole, after);
    assert s[..k] == whole && s[k] == '.';
    assert s[k + 1..] == digits;
    DigitRunPrefix(digits, []);
    assert digits + [] == digits;
    assert digits[..|digits|] == digits;
    MantissaWithPoint(s, k, |digits|);
    MantissaValue(s, k, |digits|);
    NatToStringValue(n);
  }

  /** The digits of "N.DD…", with nothing after them. */
  lemma UnsignedPointed(n: nat, digits: string)
    requires AllDigits(digits) && digits != []
    ensures UnsignedDecimal(NatToString(n) + "." + digits) == Some(n as real + Fraction(digits))
  {
    var s := NatToString(n) + "." + digits;
    PointedMantissa(n, digits);
    assert s[|s|..] == "";
    assert ExponentPart("").None?;
  }

  /** A text with no digit, point or "Infinity" after its sign reads as NaN. */
  lemma ParseFloatNaN(text: string)
    requires text != [] && !IsWhitespace(text[0]) && text[0] != '-' && text[0] != '+'
    requires !IsDigit(text[0]) && text[0] != '.' && text[0] != 'I'
    ensures ParseFloat(text) == NaN
  {
    assert TrimStart(text) == text by {
      TrimStartPadded("", text);
      assert "" + text == text;
    }
    assert ParseFloat(text) == ParseSigned(text);
    assert !StartsWith(text, "Infinity") by {
      assert text[0] != 'I';
    }
    assert UnsignedDecimal(text).None? by {
      assert DigitRun(text) == 0;
      assert Mantissa(text).None?;
    }
    SignedPlain(text);
  }

  /** The digit run at the start of digits followed by a non-digit is exactly
      those digits. */
  lemma {:induction false} DigitRunPrefix(digits: string, rest: string)
    requires AllDigits(digits)
    requires rest == [] || !IsDigit(rest[0])
    ensures DigitRun(digits + rest) == |digits|
  {
    if digits == [] {
      assert digits + rest == rest;
    } else {
      assert (digits + rest)[1..] == digits[1..] + rest;
      DigitRunPrefix(digits[1..], rest);
    }
  }

  // ---------------------------------------------------------------------------
  // The hotel record

  datatype Hotel = Hotel(
    id: string, name: string, description: string, nightlyRate: nat, rating: JsFloat,
    location: string, amenities: seq<string>)

  /** `parseInt(line.replace(/[^0-9]/g, '') || '0')`: all the digits of the
      line read as one number, 0 when there is none. */
  function DigitsOf(line: string): (r: string)
    ensures AllDigits(r)
  {
    Seqs.FilterMembers(line, IsDigit);
    Seqs.Filter(line, IsDigit)
  }

  function NightlyRate(lines: seq<string>): nat {
    if |lines| > 2 then DigitsValue(DigitsOf(lines[2])) else 0
  }

  /** A digit-free text has no digits to give. */
  lemma NoDigits(s: string)
    requires forall i :: 0 <= i < |s| ==> !IsDigit(s[i])
    ensures DigitsOf(s) == []
  {
    Seqs.FilterDropsAll(s, IsDigit);
  }

  /** A price line "$N per night" (any digit-free text around the number)
      gives the rate N. */
  lemma RateOfPriceLine(before: string, n: nat, after: string)
    requires forall i :: 0 <= i < |before| ==> !IsDigit(before[i])
    requires forall i :: 0 <= i < |after| ==> !IsDigit(after[i])
    ensures DigitsValue(DigitsOf(before + NatToString(n) + after)) == n
  {
    var d := NatToString(n);
    assert DigitsOf(before + d + after) == d by {
      var line := before + d + after;
      assert DigitsOf(line) == Seqs.Filter(line, IsDigit);
      Seqs.FilterAppend(before + d, after, IsDigit);
      Seqs.FilterAppend(before, d, IsDigit);
      assert Seqs.Filter(before, IsDigit) == [] by {
        NoDigits(before);
      }
      assert Seqs.Filter(after, IsDigit) == [] by {
        NoDigits(after);
      }
      Seqs.FilterKeepsAll(d, IsDigit);
    }
    NatToStringValue(n);
  }

  /** `lines[5]?.split(',').map(a => a.trim()) || []`: an array is never
      falsy, so only a missing line gives no amenities. */
  function Amenities(lines: seq<string>): (r: seq<string>)
    ensures |lines| <= 5 <==> r == []
  {
    if |lines| > 5 then Seqs.Map(Trim, SplitBy(Literal(","), lines[5])) else []
  }

  /** Amenities written as a comma-separated list are read back. */
  lemma AmenitiesRoundTrip(lines: seq<string>, names: seq<string>)
    requires |lines| > 5 && |names| >= 1
    requires forall k :: 0 <= k < |names| ==> IsTrimmed(names[k]) && ',' !in names[k]
    requires lines[5] == Join(names, ",")
    ensures Amenities(lines) == names
  {
    assert SplitBy(Literal(","), lines[5]) == names by {
      SplitJoinOnChar(',', names);
    }
    TrimAllTrimmed(names);
  }

  /** Trimming names that are already trimmed changes none of them. */
  lemma TrimAllTrimmed(names: seq<string>)
    requires forall k :: 0 <= k < |names| ==> IsTrimmed(names[k])
    ensures Seqs.Map(Trim, names) == names
  {
    forall k | 0 <= k < |names|
      ensures Trim(names[k]) == names[k]
    {
      TrimTrimmed(names[k]);
    }
  }

  /** `parseFloat(lines[3] || '0')`. */
  function Rating(lines: seq<string>): JsFloat {
    ParseFloat(FieldOr(lines, 3, "0"))
  }

  /** The hotel of the record at `index`, from its cleaned lines. */
  function HotelOf(lines: seq<string>, index: nat): (h: Hotel)
    ensures h.id == RecordId("hotel", index)
    ensures h.name != "" && h.description != "" && h.location != ""
  {
    Hotel(RecordId("hotel", index),
          FieldOr(lines, 0, "Unknown Hotel"),
          FieldOr(lines, 1, "No description available"),
          NightlyRate(lines),
          Rating(lines),
          FieldOr(lines, 4, "Unknown Location"),
          Amenities(lines))
  }

  /** One hotel per non-blank record, in order; an empty
      reply is an error. */
  function ParseHotels(content: string): (r: Result<seq<Hotel>, string>)
    ensures r.Failure? <==> content == ""
    ensures r.Failure? ==> r.error == InvalidResponse
    ensures r.Success? ==> |r.value| == |Blocks(content)|
    ensures r.Success? ==> forall i :: 0 <= i < |r.value| ==> r.value[i] == HotelOf(Lines(Blocks(content)[i]), i)
  {
    if content == "" then Failure(InvalidResponse)
    else
      var blocks := Blocks(content);
      Success(seq(|blocks|, i requires 0 <= i < |blocks| => HotelOf(Lines(blocks[i]), i)))
  }

  /** No two hotels of one reply share an id. */
  lemma HotelIdsDistinct(content: string)
    requires content != ""
    ensures var r := ParseHotels(content).value;
            forall i, j :: 0 <= i < j < |r| ==> r[i].id != r[j].id
  {
    var r := ParseHotels(content).value;
    forall i, j | 0 <= i < j < |r| ensures r[i].id != r[j].id {
      RecordIdDistinct("hotel", i, j);
    }
  }

  /** A record of a name line only: default description and location, rate
      0, rating 0, no amenities. */
  lemma NameOnlyHotel(name: string, index: nat)
    requires CleanField(name) && name != ""
    ensures HotelOf(Lines(RenderRecord([name])), index) ==
              Hotel(RecordId("hotel", index), name, "No description available", 0, Finite(0.0),
                    "Unknown Location", [])
  {
    RenderedLines([name]);
    MissingRating([name]);
  }

  /** A record without a rating line is rated 0. */
  lemma MissingRating(lines: seq<string>)
    requires |lines| <= 3
    ensures Rating(lines) == Finite(0.0)
  {
    assert NatToString(0) == "0";
    ParseFloatWhole(0, "");
    assert NatToString(0) + "" == "0";
  }

  // ---------------------------------------------------------------------------
  // calculateTotalPrice

  const MillisPerDay: nat := 1000 * 60 * 60 * 24

  /** `(nightlyRate && nightlyRate > 0) ? nightlyRate : 200`; NaN and a
      missing rate are `None`. */
  function Rate(nightlyRate: Option<real>): (r: real)
    ensures r > 0.0
    ensures nightlyRate.Some? && nightlyRate.value > 0.0 ==> r == nightlyRate.value
    ensures nightlyRate.None? || nightlyRate.value <= 0.0 ==> r == 200.0
  {
    if nightlyRate.Some? && nightlyRate.value > 0.0 then nightlyRate.value else 200.0
  }

  /** `Math.ceil(a / b)` for a positive `a`. */
  function CeilDiv(a: nat, b: nat): (r: nat)
    requires a > 0 && b > 0
    ensures r >= 1
    ensures (r - 1) * b < a <= r * b
  {
    (a + b - 1) / b
  }

  /** The number of nights between two instants (milliseconds): whole days
      rounded up, at least one; one night whenever a date is missing or the
      check-out is not after the check-in. */
  function Nights(checkIn: Option<int>, checkOut: Option<int>): (n: nat)
    ensures n >= 1
    ensures checkIn.Some? && checkOut.Some? && checkIn.value < checkOut.value ==>
              (n - 1) * MillisPerDay < checkOut.value - checkIn.value <= n * MillisPerDay
    ensures !(checkIn.Some? && checkOut.Some? && checkIn.value < checkOut.value) ==> n == 1
  {
    if checkIn.Some? && checkOut.Some? && checkIn.value < checkOut.value then
      var days := CeilDiv(checkOut.value - checkIn.value, MillisPerDay);
      if days > 1 then days else 1
    else 1
  }

  /** The total for `nights` nights at `rate`: the subtotal, 15% tax on it,
      a resort fee of 25 a night and a service fee of 50. */
  function Total(rate: real, nights: nat): (t: real)
    ensures t == rate * nights as real * 115.0 / 100.0 + 25.0 * nights as real + 50.0
  {
    var subtotal := rate * nights as real;
    var tax := subtotal * 0.15;
    var resortFee := 25.0 * nights as real;
    var serviceFee := 50.0;
    subtotal + tax + resortFee + serviceFee
  }

  /** The service fee is charged once, and each night adds the rate with its
      15% tax and the resort fee of 25. */
  lemma TotalPerNight(rate: real, nights: nat)
    ensures Total(rate, 0) == 50.0
    ensures Total(rate, nights + 1) == Total(rate, nights) + rate * 115.0 / 100.0 + 25.0
  {
  }

  function CalculateTotalPrice(nightlyRate: Option<real>, checkIn: Option<int>, checkOut: Option<int>): (t: real)
    ensures t >= Rate(nightlyRate) * 115.0 / 100.0 + 75.0
  {
    Total(Rate(nightlyRate), Nights(checkIn, checkOut))
  }

  /** Each extra night costs more: the total is strictly increasing in the
      number of nights at any positive rate. */
  lemma {:induction false} TotalIncreasing(rate: real, n1: nat, n2: nat)
    requires rate > 0.0 && n1 < n2
    ensures Total(rate, n1) < Total(rate, n2)
  {
    assert rate * n1 as real < rate * n2 as real;
  }

  /** A longer stay never costs less: with the same rate, a stay of more
      nights has the higher total. */
  lemma LongerStayCostsMore(nightlyRate: Option<real>, in1: int, out1: int, in2: int, out2: int)
    requires in1 < out1 && in2 < out2
    requires Nights(Some(in1), Some(out1)) < Nights(Some(in2), Some(out2))
    ensures CalculateTotalPrice(nightlyRate, Some(in1), Some(out1)) < CalculateTotalPrice(nightlyRate, Some(in2), Some(out2))
  {
    TotalIncreasing(Rate(nightlyRate), Nights(Some(in1), Some(out1)), Nights(Some(in2), Some(out2)));
  }
}
