/** `formatTime` from the itinerary advisor: the normaliser applied to every
    time the model writes and to every source time it is compared with. */
module TimeFormat {
  import opened Wrappers
  import opened Text
  import Seqs

  /** The characters that the pattern [^\w:] leaves in place. */
  predicate IsWordOrColon(c: char) {
    ('a' <= c <= 'z') || ('A' <= c <= 'Z') || IsDigit(c) || c == '_' || c == ':'
  }

  /** The characters a cleaned time is made of. */
  predicate IsCleanChar(c: char) {
    ('a' <= c <= 'z') || IsDigit(c) || c == '_' || c == ':'
  }

  /** `time.replace(/[^\w:]/g, '').toLowerCase()`. */
  function CleanTime(time: string): (r: string)
    ensures forall i :: 0 <= i < |r| ==> IsCleanChar(r[i])
  {
    Seqs.FilterMembers(time, IsWordOrColon);
    Lower(Seqs.Filter(time, IsWordOrColon))
  }

  /** Cleaning is idempotent: a cleaned time comes out of cleaning unchanged. */
  lemma CleanTimeOfClean(s: string)
    requires forall i :: 0 <= i < |s| ==> IsCleanChar(s[i])
    ensures CleanTime(s) == s
  {
    Seqs.FilterKeepsAll(s, IsWordOrColon);
    assert Lower(s) == s;
  }

  /** Cleaning works character by character, so it distributes over concatenation. */
  lemma CleanTimeAppend(s: string, t: string)
    ensures CleanTime(s + t) == CleanTime(s) + CleanTime(t)
  {
    Seqs.FilterAppend(s, t, IsWordOrColon);
  }

  /** A JavaScript number as `Number` produces it from a cleaned piece of time:
      a natural number, or NaN. */
  datatype JsNumber = NaN | Num(value: nat)

  /** The number 12 the 12-hour branches compare the hours with. */
  const Twelve: JsNumber := Num(12)

  /** `Number(s)` for a piece of a cleaned time (no colon, no white space):
      the value of a digit string, "" reading as 0, and NaN otherwise. */
  function ToNumber(s: string): (n: JsNumber)
    ensures n.Num? <==> AllDigits(s)
    ensures n.Num? ==> n.value == DigitsValue(s)
  {
    if AllDigits(s) then Num(DigitsValue(s)) else NaN
  }

  /** `Number` reads back the decimal text of every natural number. */
  lemma ToNumberOfNat(n: nat)
    ensures ToNumber(NatToString(n)) == Num(n)
  {
    NatToStringValue(n);
  }

  /** `n.toString()`. */
  function NumberText(n: JsNumber): string {
    match n
    case NaN => "NaN"
    case Num(v) => NatToString(v)
  }

  /** `hours + 12`. */
  function PlusTwelve(n: JsNumber): JsNumber {
    match n
    case NaN => NaN
    case Num(v) => Num(v + 12)
  }

  /** `minutes?.toString().padStart(2, '0') || '00'`: a missing minutes part reads as "00". */
  function MinutesText(minutes: Option<JsNumber>): string {
    match minutes
    case None => "00"
    case Some(m) => PadStart2(NumberText(m))
  }

  /** The hours of the `timeStr` piece: `Number` of what precedes the first colon. */
  function HoursOf(timeStr: string): JsNumber {
    ToNumber(SplitBy(Literal(":"), timeStr)[0])
  }

  /** The minutes of the `timeStr` piece: `Number` of what lies between the first
      and the second colon, or nothing when there is no colon. */
  function MinutesOf(timeStr: string): Option<JsNumber> {
    var hm := SplitBy(Literal(":"), timeStr);
    if |hm| >= 2 then Some(ToNumber(hm[1])) else None
  }

  /** The hours padded to two digits, a colon, and the minutes padded to two
      digits ("00" when there is no colon). */
  function ClockText(timeStr: string): (r: string)
    ensures exists k :: 2 <= k <= |r| - 3 && r[k] == ':'
  {
    var hours, minutes := PadStart2(NumberText(HoursOf(timeStr))), MinutesText(MinutesOf(timeStr));
    assert (hours + ":" + minutes)[|hours|] == ':';
    hours + ":" + minutes
  }

  predicate HasMarker(clean: string) {
    Contains(clean, "am") || Contains(clean, "pm")
  }

  /** `cleanTime.split(/am|pm/)` has a second piece when the time holds a
      marker, and that piece is never "am" or "pm": the split has just consumed
      the marker, and any marker right after it would have been consumed too. */
  lemma MarkerSplit(clean: string)
    requires HasMarker(clean)
    ensures |SplitBy(AmOrPm, clean)| >= 2
    ensures SplitBy(AmOrPm, clean)[1] != "am" && SplitBy(AmOrPm, clean)[1] != "pm"
  {
    var j :| 0 <= j <= |clean| && (StartsWith(clean[j..], "am") || StartsWith(clean[j..], "pm"));
    assert MatchLength(AmOrPm, clean[j..]) == 2;
    var m := FirstMatch(AmOrPm, clean);
    assert m.Some?;
    var rest := clean[m.value.0 + m.value.1..];
    assert SplitBy(AmOrPm, clean) == [clean[..m.value.0]] + SplitBy(AmOrPm, rest);
    FirstPieceNotMarker(rest);
  }

  /** The first piece of a split on /am|pm/ is never a marker itself: a text
      that starts with one splits into "" first. */
  lemma FirstPieceNotMarker(rest: string)
    ensures SplitBy(AmOrPm, rest)[0] != "am" && SplitBy(AmOrPm, rest)[0] != "pm"
  {
    assert rest[0..] == rest;
    var m := FirstMatch(AmOrPm, rest);
    if m.None? {
      assert SplitBy(AmOrPm, rest) == [rest];
      assert MatchLength(AmOrPm, rest[0..]) == 0;
    } else {
      assert SplitBy(AmOrPm, rest)[0] == rest[..m.value.0];
      if m.value.0 > 0 {
        assert MatchLength(AmOrPm, rest[0..]) == 0;
      }
    }
  }

  /** `formatTime`, as written: "" stays "", a time without "am"/"pm" is
      only cleaned, and a time with one is rewritten as hours:minutes.  The two
      12-hour branches compare the piece AFTER the marker with "pm" and "am",
      which it can never equal (MarkerSplit), so they never fire. */
  function FormatTime(time: string): (r: string)
    ensures time == "" ==> r == ""
    ensures time != "" && !HasMarker(CleanTime(time)) ==> r == CleanTime(time)
    ensures time != "" && HasMarker(CleanTime(time)) ==>
              r == ClockText(SplitBy(AmOrPm, CleanTime(time))[0])
  {
    if time == "" then ""
    else
      var clean := CleanTime(time);
      if HasMarker(clean) then
        MarkerSplit(clean);
        var pieces := SplitBy(AmOrPm, clean);
        var timeStr, period := pieces[0], pieces[1];
        var hours, minutes := HoursOf(timeStr), MinutesOf(timeStr);
        if period == "pm" && hours != Twelve then
          NumberText(PlusTwelve(hours)) + ":" + MinutesText(minutes)
        else if period == "am" && hours == Twelve then
          "00:" + MinutesText(minutes)
        else
          PadStart2(NumberText(hours)) + ":" + MinutesText(minutes)
      else clean
  }

  /** Normalising a time without a marker a second time changes nothing. */
  lemma FormatTimeIdempotent(time: string)
    requires !HasMarker(CleanTime(time))
    ensures FormatTime(FormatTime(time)) == FormatTime(time)
  {
    if time != "" {
      var clean := CleanTime(time);
      if clean != "" {
        CleanTimeOfClean(clean);
      }
    }
  }

  /** In cleaned text without a marker, the first marker of `s + m` is `m` itself. */
  lemma FirstMarkerAtEnd(s: string, m: string)
    requires !HasMarker(s)
    requires m == "am" || m == "pm"
    ensures FirstMatch(AmOrPm, s + m) == Some((|s|, 2))
  {
    var t := s + m;
    assert t[|s|..] == m;
    assert MatchLength(AmOrPm, t[|s|..]) == 2;
    forall j | 0 <= j < |s| ensures MatchLength(AmOrPm, t[j..]) == 0 {
      if j + 2 <= |s| {
        assert t[j..][..2] == s[j..][..2];
        assert !StartsWith(s[j..], "am") && !StartsWith(s[j..], "pm");
      } else {
        assert t[j..][..2] == [s[j], m[0]];
      }
    }
  }

  /** A time followed by a marker is read from the part before the marker. */
  lemma FormatTimeMarked(time: string, marker: string, m: string)
    requires !HasMarker(CleanTime(time))
    requires m == "am" || m == "pm"
    requires CleanTime(marker) == m
    ensures FormatTime(time + marker) == ClockText(CleanTime(time))
  {
    var clean := CleanTime(time);
    CleanTimeAppend(time, marker);
    assert CleanTime(time + marker) == clean + m;
    FirstMarkerAtEnd(clean, m);
    assert (clean + m)[..|clean|] == clean;
    assert StartsWith((clean + m)[|clean|..], m);
    assert HasMarker(clean + m);
    assert SplitBy(AmOrPm, clean + m)[0] == clean;
  }

  /** " PM" and " AM" clean to "pm" and "am". */
  lemma MarkerCleans(marker: string, m: string)
    requires marker == " PM" || marker == " AM"
    requires m == Lower(marker[1..])
    ensures CleanTime(marker) == m
  {
    assert marker[1..][1..] == [marker[2]];
    assert Seqs.Filter(marker[1..][1..], IsWordOrColon) == [marker[2]];
    assert Seqs.Filter(marker[1..], IsWordOrColon) == marker[1..];
    assert Seqs.Filter(marker, IsWordOrColon) == marker[1..];
  }

  /** "h:mm PM" and "h:mm AM" normalise to the same text: the marker is
      dropped and the hours are only padded, never converted to 24-hour time. */
  lemma PeriodIgnored(time: string)
    requires !HasMarker(CleanTime(time))
    ensures FormatTime(time + " PM") == FormatTime(time + " AM") == ClockText(CleanTime(time))
  {
    MarkerCleans(" PM", "pm");
    MarkerCleans(" AM", "am");
    FormatTimeMarked(time, " PM", "pm");
    FormatTimeMarked(time, " AM", "am");
  }

  /** A digit string holds no colon. */
  lemma DigitsNoColon(s: string)
    requires AllDigits(s)
    ensures ':' !in s
  {
    forall i | 0 <= i < |s| ensures s[i] != ':' {
    }
  }

  /** A clock text splits at its colon into the hours and the minutes. */
  lemma ClockSplit(hs: string, ms: string)
    requires AllDigits(hs) && AllDigits(ms)
    ensures SplitBy(Literal(":"), hs + ":" + ms) == [hs, ms]
  {
    DigitsNoColon(hs);
    DigitsNoColon(ms);
    assert Join([hs, ms], ":") == hs + ":" + ms;
    SplitJoinOnChar(':', [hs, ms]);
  }

  /** The hours:minutes rewriting keeps a clock time "H:MM" as it is, only
      padding the hours to two digits; with PeriodIgnored, "H:MM PM" thus
      normalises to "HH:MM", not to the 24-hour time. */
  lemma ClockKeptAsWritten(h: nat, m: nat)
    ensures ClockText(NatToString(h) + ":" + PadStart2(NatToString(m)))
              == PadStart2(NatToString(h)) + ":" + PadStart2(NatToString(m))
  {
    var hs, ms := NatToString(h), PadStart2(NatToString(m));
    PaddedValue(NatToString(m));
    NatToStringValue(h);
    NatToStringValue(m);
    ClockSplit(hs, ms);
    assert HoursOf(hs + ":" + ms) == Num(h);
    assert MinutesOf(hs + ":" + ms) == Some(Num(m));
  }

  /** Minutes written with one digit are padded too: "2:5" becomes "02:05". */
  lemma ClockUnpadded(h: nat, m: nat)
    ensures ClockText(NatToString(h) + ":" + NatToString(m))
              == PadStart2(NatToString(h)) + ":" + PadStart2(NatToString(m))
  {
    var hs, ms := NatToString(h), NatToString(m);
    NatToStringValue(h);
    NatToStringValue(m);
    ClockSplit(hs, ms);
    assert HoursOf(hs + ":" + ms) == Num(h);
    assert MinutesOf(hs + ":" + ms) == Some(Num(m));
  }

  /** Hours without a colon get the minutes "00": the piece "2" of "2 pm"
      becomes "02:00". */
  lemma ClockHoursOnly(h: nat)
    ensures ClockText(NatToString(h)) == PadStart2(NatToString(h)) + ":00"
  {
    var hs := NatToString(h);
    DigitsNoColon(hs);
    SplitOnCharNone(':', hs);
    NatToStringValue(h);
    assert HoursOf(hs) == Num(h);
    assert MinutesOf(hs).None?;
  }
}
