/** String primitives with JavaScript's semantics: `trim`, ASCII `toLowerCase`,
    `includes`, `startsWith`, `split` on a string or on a regular expression
    that always matches a non-empty text, `join`, and the decimal digits that
    `Number`, `parseInt` and `toString` read and write. */
module Text {
  import opened Wrappers
  import Seqs

  // ---------------------------------------------------------------------------
  // Whitespace and trimming

  /** The characters `String.prototype.trim` and the regular-expression class
      `\s` treat as white space (ECMAScript WhiteSpace and LineTerminator). */
  predicate IsWhitespace(c: char) {
    || c == ' ' || c == '\t' || c == '\n' || c == '\r'
    || c == '\U{000B}' || c == '\U{000C}' || c == '\U{00A0}' || c == '\U{1680}'
    || ('\U{2000}' <= c <= '\U{200A}')
    || c == '\U{2028}' || c == '\U{2029}' || c == '\U{202F}' || c == '\U{205F}'
    || c == '\U{3000}' || c == '\U{FEFF}'
  }

  predicate AllWhitespace(s: string) {
    forall i :: 0 <= i < |s| ==> IsWhitespace(s[i])
  }

  /** Neither starts nor ends with white space. */
  predicate IsTrimmed(s: string) {
    s == [] || (!IsWhitespace(s[0]) && !IsWhitespace(s[|s| - 1]))
  }

  /** `s.trimStart()`: drops the leading white space. */
  function TrimStart(s: string): (r: string)
    ensures |r| <= |s| && r == s[|s| - |r|..]
    ensures r == [] || !IsWhitespace(r[0])
  {
    if s != [] && IsWhitespace(s[0]) then TrimStart(s[1..]) else s
  }

  /** `s.trimEnd()`: drops the trailing white space. */
  function TrimEnd(s: string): (r: string)
    ensures |r| <= |s| && r == s[..|r|]
    ensures r == [] || !IsWhitespace(r[|r| - 1])
  {
    if s != [] && IsWhitespace(s[|s| - 1]) then TrimEnd(s[..|s| - 1]) else s
  }

  /** `s.trim()`. */
  function Trim(s: string): (r: string)
    ensures IsTrimmed(r)
  {
    TrimEnd(TrimStart(s))
  }

  /** A white-space character followed by white space is white space. */
  lemma WhitespaceCons(s: string, n: nat)
    requires n < |s| && IsWhitespace(s[0]) && AllWhitespace(s[1..][..n])
    ensures AllWhitespace(s[..n + 1])
  {
    assert s[..n + 1] == [s[0]] + s[1..][..n];
  }

  /** What `trimStart` drops is white space. */
  lemma {:induction false} TrimStartDropsWhitespace(s: string)
    ensures AllWhitespace(s[..|s| - |TrimStart(s)|])
  {
    if s != [] && IsWhitespace(s[0]) {
      var tail := s[1..];
      TrimStartDropsWhitespace(tail);
      var n := |tail| - |TrimStart(tail)|;
      assert |s| - |TrimStart(s)| == n + 1 by {
        assert TrimStart(s) == TrimStart(tail);
      }
      WhitespaceCons(s, n);
    }
  }

  /** What `trimEnd` drops is white space. */
  lemma {:induction false} TrimEndDropsWhitespace(s: string)
    ensures AllWhitespace(s[|TrimEnd(s)|..])
  {
    if s != [] && IsWhitespace(s[|s| - 1]) {
      TrimEndDropsWhitespace(s[..|s| - 1]);
      assert s[|TrimEnd(s)|..] == s[..|s| - 1][|TrimEnd(s[..|s| - 1])|..] + [s[|s| - 1]];
    }
  }

  /** A text trims to nothing exactly when it is all white space. */
  lemma TrimEmpty(s: string)
    ensures Trim(s) == [] <==> AllWhitespace(s)
  {
    var t := TrimStart(s);
    TrimStartDropsWhitespace(s);
    TrimEndDropsWhitespace(t);
    if t == [] {
      assert s[..|s|] == s;
    } else {
      // The first character left by trimStart is not white space, so it
      // survives trimEnd too, and `s` is not all white space.
      assert t[0] == s[|s| - |t|];
      assert |TrimEnd(t)| > 0;
    }
  }

  /** Trimming removes exactly the white space around a trimmed text. */
  lemma TrimPadded(front: string, x: string, back: string)
    requires AllWhitespace(front) && AllWhitespace(back) && IsTrimmed(x)
    ensures Trim(front + x + back) == x
  {
    if x == [] {
      assert front + x + back == front + back;
      assert AllWhitespace(front + back);
    } else {
      assert front + x + back == front + (x + back);
      TrimStartPadded(front, x + back);
      TrimEndPadded(x, back);
    }
  }

  lemma {:induction false} TrimStartPadded(front: string, rest: string)
    requires AllWhitespace(front)
    requires rest == [] || !IsWhitespace(rest[0])
    ensures TrimStart(front + rest) == rest
  {
    if front == [] {
      assert front + rest == rest;
    } else {
      assert (front + rest)[1..] == front[1..] + rest;
      TrimStartPadded(front[1..], rest);
    }
  }

  lemma {:induction false} TrimEndPadded(rest: string, back: string)
    requires AllWhitespace(back)
    requires rest == [] || !IsWhitespace(rest[|rest| - 1])
    ensures TrimEnd(rest + back) == rest
  {
    if back == [] {
      assert rest + back == rest;
    } else {
      assert (rest + back)[..|rest + back| - 1] == rest + back[..|back| - 1];
      TrimEndPadded(rest, back[..|back| - 1]);
    }
  }

  /** A text that is already trimmed is left as it is. */
  lemma TrimTrimmed(x: string)
    requires IsTrimmed(x)
    ensures Trim(x) == x
  {
    if x != [] {
      assert TrimStart(x) == x;
      assert TrimEnd(x) == x;
    }
  }

  // ---------------------------------------------------------------------------
  // Case

  /** `toLowerCase` on one character, restricted to the ASCII letters. */
  function LowerChar(c: char): (d: char)
    ensures ('A' <= c <= 'Z') ==> 'a' <= d <= 'z' && d as int == c as int + 32
    ensures !('A' <= c <= 'Z') ==> d == c
  {
    if 'A' <= c <= 'Z' then (c as int + 32) as char else c
  }

  /** `s.toLowerCase()`, restricted to the ASCII letters. */
  function Lower(s: string): (r: string)
    ensures |r| == |s|
    ensures forall i :: 0 <= i < |s| ==> r[i] == LowerChar(s[i])
  {
    seq(|s|, i requires 0 <= i < |s| => LowerChar(s[i]))
  }

  /** Lower-casing works character by character. */
  lemma LowerAppend(s: string, t: string)
    ensures Lower(s + t) == Lower(s) + Lower(t)
  {
    var l, r := Lower(s + t), Lower(s) + Lower(t);
    forall i | 0 <= i < |l| ensures l[i] == r[i] {
      if i < |s| {
        assert (s + t)[i] == s[i];
      } else {
        assert (s + t)[i] == t[i - |s|];
      }
    }
  }

  /** Lower-cased text holds no capital, and lower-casing it again changes
      nothing. */
  lemma LowerIdempotent(s: string)
    ensures forall i :: 0 <= i < |s| ==> !('A' <= Lower(s)[i] <= 'Z')
    ensures Lower(Lower(s)) == Lower(s)
  {
  }

  // ---------------------------------------------------------------------------
  // Searching

  /** `s.startsWith(p)`. */
  predicate StartsWith(s: string, p: string) {
    |p| <= |s| && s[..|p|] == p
  }

  /** `s.includes(p)`. */
  predicate Contains(s: string, p: string) {
    exists j :: 0 <= j <= |s| && StartsWith(s[j..], p)
  }

  // ---------------------------------------------------------------------------
  // Splitting

  /** The separators the source splits on.  `Literal` is a plain string
      separator; `AmOrPm` is the regular expression /am|pm/; `AlternativeHeader`
      is /ALTERNATIVE \d+:/i. */
  datatype Pattern = Literal(sep: string) | AmOrPm | AlternativeHeader

  predicate IsDigit(c: char) {
    '0' <= c <= '9'
  }

  /** The number of decimal digits at the start of `s`. */
  function DigitRun(s: string): (n: nat)
    ensures n <= |s|
    ensures forall i :: 0 <= i < n ==> IsDigit(s[i])
    ensures n < |s| ==> !IsDigit(s[n])
  {
    if s != [] && IsDigit(s[0]) then 1 + DigitRun(s[1..]) else 0
  }

  /** The length of the match of /ALTERNATIVE \d+:/i at the start of `s`, or 0.
      The letters match in either case; `\d+` takes the whole run of digits,
      and no shorter run can be followed by the colon, so the match (when
      there is one) has this one length. */
  function HeaderLength(s: string): (n: nat)
    ensures n == 0 || 13 < n <= |s|
  {
    if |s| >= 12 && Lower(s[..11]) == "alternative" && s[11] == ' ' then
      var k := DigitRun(s[12..]);
      if k >= 1 && 12 + k < |s| && s[12 + k] == ':' then 13 + k else 0
    else 0
  }

  /** The length of the match of `p` at the very start of `s`; 0 when there is
      none (no pattern here matches the empty text). */
  function MatchLength(p: Pattern, s: string): (n: nat)
    ensures n <= |s|
    ensures p.Literal? ==> n == (if p.sep != [] && StartsWith(s, p.sep) then |p.sep| else 0)
    ensures p.AmOrPm? ==> n == (if StartsWith(s, "am") || StartsWith(s, "pm") then 2 else 0)
  {
    match p
    case Literal(sep) => if sep != [] && StartsWith(s, sep) then |sep| else 0
    case AmOrPm => if StartsWith(s, "am") || StartsWith(s, "pm") then 2 else 0
    case AlternativeHeader => HeaderLength(s)
  }

  /** The leftmost match of `p` in `s`, as (position, length). */
  function FirstMatch(p: Pattern, s: string): (r: Option<(nat, nat)>)
    ensures r.Some? ==> r.value.0 + r.value.1 <= |s| && r.value.1 > 0
    ensures r.Some? ==> MatchLength(p, s[r.value.0..]) == r.value.1
    ensures r.Some? ==> forall j :: 0 <= j < r.value.0 ==> MatchLength(p, s[j..]) == 0
    ensures r.None? ==> forall j :: 0 <= j <= |s| ==> MatchLength(p, s[j..]) == 0
    decreases |s|
  {
    if MatchLength(p, s) > 0 then Some((0, MatchLength(p, s)))
    else if s == [] then None
    else
      var rest := FirstMatch(p, s[1..]);
      var last := if rest.None? then |s| else rest.value.0 + 1;
      NoMatchShifted(p, s, last);
      match rest
      case None => None
      case Some((i, n)) =>
        assert s[i + 1..] == s[1..][i..];
        Some((i + 1, n))
  }

  /** No match in the rest of a text before `last - 1`, and none at its
      start, means none in the text before `last`. */
  lemma NoMatchShifted(p: Pattern, s: string, last: nat)
    requires 1 <= last <= |s| && MatchLength(p, s) == 0
    requires forall j :: 0 <= j < last - 1 ==> MatchLength(p, s[1..][j..]) == 0
    requires last == |s| ==> MatchLength(p, s[1..][|s| - 1..]) == 0
    ensures forall j :: 0 <= j < last ==> MatchLength(p, s[j..]) == 0
    ensures last == |s| ==> forall j :: 0 <= j <= |s| ==> MatchLength(p, s[j..]) == 0
  {
    forall j | 1 <= j <= |s| ensures MatchLength(p, s[j..]) == MatchLength(p, s[1..][j - 1..]) {
      assert s[j..] == s[1..][j - 1..];
    }
  }

  /** `s.split(p)`: the pieces between the leftmost non-overlapping matches of
      `p`, scanning left to right; a text with no match is one piece. */
  function SplitBy(p: Pattern, s: string): (r: seq<string>)
    ensures |r| >= 1
    decreases |s|
  {
    match FirstMatch(p, s)
    case None => [s]
    case Some((i, n)) => [s[..i]] + SplitBy(p, s[i + n..])
  }

  /** `pieces.join(sep)`. */
  function Join(pieces: seq<string>, sep: string): string {
    if pieces == [] then ""
    else if |pieces| == 1 then pieces[0]
    else pieces[0] + sep + Join(pieces[1..], sep)
  }

  /** Joining the pieces of a split with the separator gives the text back. */
  lemma {:induction false} JoinSplit(sep: string, s: string)
    requires sep != []
    ensures Join(SplitBy(Literal(sep), s), sep) == s
    decreases |s|
  {
    match FirstMatch(Literal(sep), s)
    case None =>
    case Some((i, n)) =>
      LiteralMatchAt(sep, s, i, n);
      var rest := SplitBy(Literal(sep), s[i + n..]);
      JoinSplit(sep, s[i + n..]);
      assert SplitBy(Literal(sep), s) == [s[..i]] + rest;
      JoinCons(s[..i], rest, sep);
  }

  /** Where a literal separator matches, the text is what precedes it, the
      separator, and what follows it. */
  lemma LiteralMatchAt(sep: string, s: string, i: nat, n: nat)
    requires i + n <= |s| && MatchLength(Literal(sep), s[i..]) == n && n > 0
    ensures n == |sep| && s == s[..i] + sep + s[i + n..]
  {
    assert s[i..][..n] == sep;
    assert s[i..i + n] == s[i..][..n];
    assert s == s[..i] + s[i..i + n] + s[i + n..];
  }

  /** Joining a first piece in front of non-empty pieces puts the separator
      between them. */
  lemma JoinCons(first: string, rest: seq<string>, sep: string)
    requires rest != []
    ensures Join([first] + rest, sep) == first + sep + Join(rest, sep)
  {
    var pieces := [first] + rest;
    assert pieces[0] == first && pieces[1..] == rest;
  }

  /** The first piece of a split on one character never holds that character. */
  lemma FirstPieceAvoids(c: char, s: string)
    ensures c !in SplitBy(Literal([c]), s)[0]
  {
    var pat := Literal([c]);
    var m := FirstMatch(pat, s);
    var first := SplitBy(pat, s)[0];
    var end := if m.None? then |s| else m.value.0;
    assert first == s[..end];
    forall j | 0 <= j < end ensures s[j] != c {
      assert MatchLength(pat, s[j..]) == 0;
      assert s[j..][..1] == [s[j]];
    }
  }

  /** Splitting on a character: a first piece free of it comes off whole. */
  lemma SplitOnCharCons(c: char, a: string, b: string)
    requires c !in a
    ensures SplitBy(Literal([c]), a + [c] + b) == [a] + SplitBy(Literal([c]), b)
  {
    var s := a + [c] + b;
    var pat := Literal([c]);
    assert s[|a|..][..1] == [c];
    NoCharMatchBefore(c, a, s);
    match FirstMatch(pat, s)
    case None =>
      assert false;
    case Some((i, n)) =>
      assert s[..i] == a && s[i + n..] == b;
  }

  /** In a text that begins with a stretch free of `c`, no match of `c` starts inside that stretch. */
  lemma NoCharMatchBefore(c: char, a: string, s: string)
    requires c !in a && |a| <= |s| && s[..|a|] == a
    ensures forall j :: 0 <= j < |a| ==> MatchLength(Literal([c]), s[j..]) == 0
  {
    forall j | 0 <= j < |a| ensures MatchLength(Literal([c]), s[j..]) == 0 {
      assert s[j] == a[j];
      if |s[j..]| >= 1 {
        assert s[j..][..1] == [s[j]];
      }
    }
  }

  /** Splitting on a character a text free of it gives the text whole. */
  lemma SplitOnCharNone(c: char, a: string)
    requires c !in a
    ensures SplitBy(Literal([c]), a) == [a]
  {
    var pat := Literal([c]);
    NoCharMatchBefore(c, a, a);
    match FirstMatch(pat, a)
    case None =>
    case Some((i, n)) =>
      assert false;
  }

  /** Splitting the join of pieces free of the separator character gives the pieces back. */
  lemma {:induction false} SplitJoinOnChar(c: char, pieces: seq<string>)
    requires |pieces| >= 1
    requires forall k :: 0 <= k < |pieces| ==> c !in pieces[k]
    ensures SplitBy(Literal([c]), Join(pieces, [c])) == pieces
  {
    if |pieces| == 1 {
      SplitOnCharNone(c, pieces[0]);
    } else {
      SplitJoinOnChar(c, pieces[1..]);
      SplitOnCharCons(c, pieces[0], Join(pieces[1..], [c]));
      assert pieces == [pieces[0]] + pieces[1..];
    }
  }

  /** No match of `sep` starts inside `a`, not even one running on into a
      separator written right after it, so `a` comes off a split on `sep`
      whole. */
  predicate SplitsOffWhole(a: string, sep: string) {
    forall j :: 0 <= j < |a| ==> !StartsWith((a + sep)[j..], sep)
  }

  /** Splitting on a separator: a first piece that comes off whole does. */
  lemma SplitLiteralCons(sep: string, a: string, b: string)
    requires sep != [] && SplitsOffWhole(a, sep)
    ensures SplitBy(Literal(sep), a + sep + b) == [a] + SplitBy(Literal(sep), b)
  {
    var s := a + sep + b;
    var pat := Literal(sep);
    assert StartsWith(s[|a|..], sep) by {
      assert s[|a|..][..|sep|] == sep;
    }
    forall j | 0 <= j < |a| ensures MatchLength(pat, s[j..]) == 0 {
      assert !StartsWith((a + sep)[j..], sep);
      assert s[j..][..|sep|] == (a + sep)[j..][..|sep|];
    }
    match FirstMatch(pat, s)
    case None =>
      assert false;
    case Some((i, n)) =>
      assert i == |a|;
      assert s[..i] == a && s[i + n..] == b;
  }

  /** Splitting on a separator a text that comes off whole gives the text. */
  lemma SplitLiteralNone(sep: string, a: string)
    requires sep != [] && SplitsOffWhole(a, sep)
    ensures SplitBy(Literal(sep), a) == [a]
  {
    forall j | 0 <= j <= |a| ensures MatchLength(Literal(sep), a[j..]) == 0 {
      if j < |a| && |sep| <= |a[j..]| {
        assert a[j..][..|sep|] == (a + sep)[j..][..|sep|];
      }
    }
    match FirstMatch(Literal(sep), a)
    case None =>
    case Some((i, n)) =>
      assert false;
  }

  /** Splitting the join of pieces that each come off whole gives the pieces
      back. */
  lemma {:induction false} SplitJoinLiteral(sep: string, pieces: seq<string>)
    requires sep != [] && |pieces| >= 1
    requires forall k :: 0 <= k < |pieces| ==> SplitsOffWhole(pieces[k], sep)
    ensures SplitBy(Literal(sep), Join(pieces, sep)) == pieces
  {
    if |pieces| == 1 {
      SplitLiteralNone(sep, pieces[0]);
    } else {
      SplitJoinLiteral(sep, pieces[1..]);
      SplitLiteralCons(sep, pieces[0], Join(pieces[1..], sep));
      assert pieces == [pieces[0]] + pieces[1..];
    }
  }

  /** No two line breaks in a row. */
  predicate NoBlankLine(s: string) {
    forall j :: 0 <= j < |s| - 1 ==> s[j] != '\n' || s[j + 1] != '\n'
  }

  /** Text without a line break has no blank line. */
  lemma NoBreakNoBlankLine(s: string)
    requires '\n' !in s
    ensures NoBlankLine(s)
  {
  }

  /** Two texts without a blank line, not both breaking where they meet. */
  lemma NoBlankLineAppend(x: string, y: string)
    requires NoBlankLine(x) && NoBlankLine(y)
    requires x == [] || y == [] || x[|x| - 1] != '\n' || y[0] != '\n'
    ensures NoBlankLine(x + y)
  {
    var s := x + y;
    forall j | 0 <= j < |s| - 1 ensures s[j] != '\n' || s[j + 1] != '\n' {
      if j + 1 < |x| {
        assert s[j] == x[j] && s[j + 1] == x[j + 1];
      } else if j >= |x| {
        assert s[j] == y[j - |x|] && s[j + 1] == y[j + 1 - |x|];
      } else {
        assert s[j] == x[|x| - 1] && s[j + 1] == y[0];
      }
    }
  }

  /** A text without a blank line that does not end with a line break comes
      off a split on "\n\n" whole. */
  lemma NoBlankLineSplitsOff(a: string)
    requires NoBlankLine(a) && (a == [] || a[|a| - 1] != '\n')
    ensures SplitsOffWhole(a, "\n\n")
  {
    var t := a + "\n\n";
    forall j | 0 <= j < |a| ensures !StartsWith(t[j..], "\n\n") {
      assert t[j] == a[j];
      if j + 1 < |a| {
        assert t[j + 1] == a[j + 1];
      }
      assert t[j..][..2] == [t[j], t[j + 1]];
    }
  }

  /** A string is truthy when it is not empty. */
  predicate Present(x: string) {
    x != []
  }

  /** `pieces.filter(Boolean)` on strings: drops the empty ones and keeps
      every other piece (NonEmptyAppend gives the order). */
  function NonEmpty(pieces: seq<string>): (r: seq<string>)
    ensures forall i :: 0 <= i < |r| ==> r[i] != [] && r[i] in pieces
    ensures forall i :: 0 <= i < |pieces| && pieces[i] != [] ==> pieces[i] in r
    ensures |r| <= |pieces|
  {
    Seqs.FilterMembers(pieces, Present);
    Seqs.Filter(pieces, Present)
  }

  /** The kept pieces keep their order: a piece stands alone, and the pieces
      of two runs are those of the first followed by those of the second. */
  lemma NonEmptyAppend(a: seq<string>, b: seq<string>)
    ensures NonEmpty(a + b) == NonEmpty(a) + NonEmpty(b)
    ensures NonEmpty([]) == []
  {
    Seqs.FilterAppend(a, b, Present);
  }

  /** A single piece is kept exactly when it is not empty. */
  lemma NonEmptySingle(x: string)
    ensures NonEmpty([x]) == if x == [] then [] else [x]
  {
    assert [x][1..] == [];
  }

  // ---------------------------------------------------------------------------
  // Decimal numbers

  predicate AllDigits(s: string) {
    forall i :: 0 <= i < |s| ==> IsDigit(s[i])
  }

  /** The value of a (possibly empty) digit string; "" reads as 0, as `Number("")` does. */
  function DigitsValue(s: string): nat
    requires AllDigits(s)
  {
    if s == [] then 0 else 10 * DigitsValue(s[..|s| - 1]) + (s[|s| - 1] as int - '0' as int)
  }

  function DigitChar(d: nat): (c: char)
    requires d < 10
    ensures IsDigit(c) && c as int - '0' as int == d
  {
    ('0' as int + d) as char
  }

  /** `n.toString()` for a natural number: its decimal digits, without leading zeros. */
  function NatToString(n: nat): (r: string)
    ensures |r| >= 1 && AllDigits(r)
    ensures |r| > 1 ==> r[0] != '0'
  {
    if n < 10 then [DigitChar(n)] else NatToString(n / 10) + [DigitChar(n % 10)]
  }

  /** Reading back the decimal text of a number gives the number. */
  lemma {:induction false} NatToStringValue(n: nat)
    ensures DigitsValue(NatToString(n)) == n
  {
    if n >= 10 {
      NatToStringValue(n / 10);
      var s := NatToString(n);
      assert s[..|s| - 1] == NatToString(n / 10);
    }
  }

  /** Distinct numbers have distinct decimal texts. */
  lemma NatToStringInjective(m: nat, n: nat)
    requires m != n
    ensures NatToString(m) != NatToString(n)
  {
    NatToStringValue(m);
    NatToStringValue(n);
  }

  /** `s.padStart(2, '0')`. */
  function PadStart2(s: string): (r: string)
    ensures |r| == if |s| >= 2 then |s| else 2
    ensures r[|r| - |s|..] == s
    ensures forall i :: 0 <= i < |r| - |s| ==> r[i] == '0'
  {
    if |s| >= 2 then s else if |s| == 1 then "0" + s else "00"
  }

  /** Leading zeros do not change the value of a digit string. */
  lemma {:induction false} LeadingZeroValue(s: string)
    requires AllDigits(s)
    ensures AllDigits("0" + s) && DigitsValue("0" + s) == DigitsValue(s)
    decreases |s|
  {
    if s != [] {
      var t := "0" + s;
      assert t[..|t| - 1] == "0" + s[..|s| - 1];
      LeadingZeroValue(s[..|s| - 1]);
    }
  }

  /** Padding a digit string with zeros keeps its value. */
  lemma PaddedValue(s: string)
    requires AllDigits(s)
    ensures AllDigits(PadStart2(s)) && DigitsValue(PadStart2(s)) == DigitsValue(s)
  {
    if |s| == 1 {
      LeadingZeroValue(s);
    } else if |s| == 0 {
      LeadingZeroValue("0");
      assert DigitsValue("0") == 0;
    }
  }

  // ---------------------------------------------------------------------------
  // Line prefixes

  /** `line.replace(/^- /, '')`. */
  function StripDashPrefix(line: string): (r: string)
    ensures StartsWith(line, "- ") ==> line == "- " + r
    ensures !StartsWith(line, "- ") ==> r == line
  {
    if StartsWith(line, "- ") then line[2..] else line
  }

  // The replacement of the regular expression ^\d+\.\s* by nothing: drops a
  // leading "N." list number and the white space after it.
  function StripNumbering(line: string): (r: string)
    ensures |r| <= |line| && r == line[|line| - |r|..]
    ensures r != line ==> 1 <= DigitRun(line) < |line| && line[DigitRun(line)] == '.'
  {
    var k := DigitRun(line);
    if k >= 1 && k < |line| && line[k] == '.' then TrimStart(line[k + 1..]) else line
  }
}
