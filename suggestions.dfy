/** The reply parser of `suggestActivities`: blank-line separated blocks, each
    a numbered name line followed by description lines; at most three kept. */
module Suggestions {
  import opened Wrappers
  import opened Text
  import Seqs

  datatype Suggestion = Suggestion(name: string, description: string)

  /** One block: the first line, its list number removed, is the name; the
      other lines, joined back with line breaks and trimmed, the description. */
  function ParseSuggestion(block: string): (r: Suggestion)
    ensures '\n' !in r.name
    ensures IsTrimmed(r.description)
  {
    var lines := SplitBy(Literal("\n"), block);
    var name := StripNumbering(lines[0]);
    assert '\n' !in name by {
      FirstLineUnbroken(block);
      assert forall i :: 0 <= i < |name| ==> name[i] == lines[0][|lines[0]| - |name| + i];
    }
    Suggestion(name, Trim(Join(lines[1..], "\n")))
  }

  /** The first line of a block holds no line break. */
  lemma FirstLineUnbroken(block: string)
    ensures '\n' !in SplitBy(Literal("\n"), block)[0]
  {
    FirstPieceAvoids('\n', block);
  }

  /** The whole reply: an empty reply is an error; otherwise one suggestion per
      block split off at "\n\n" (blank blocks included), the first three only. */
  function ParseSuggestions(content: string): (r: Result<seq<Suggestion>, string>)
    ensures r.Failure? <==> content == ""
    ensures r.Failure? ==> r.error == "No suggestions received from OpenAI"
    ensures r.Success? ==>
              var blocks := SplitBy(Literal("\n\n"), content);
              && 1 <= |r.value| <= 3
              && |r.value| == (if |blocks| < 3 then |blocks| else 3)
              && forall i :: 0 <= i < |r.value| ==> r.value[i] == ParseSuggestion(blocks[i])
  {
    if content == "" then Failure("No suggestions received from OpenAI")
    else Success(Seqs.Take(Seqs.Map(ParseSuggestion, SplitBy(Literal("\n\n"), content)), 3))
  }

  // ---------------------------------------------------------------------------
  // Round trip

  /** The digits of a number followed by a non-digit form a run of exactly
      their own length. */
  lemma {:induction false} DigitRunOfDigits(digits: string, rest: string)
    requires AllDigits(digits)
    requires rest != [] && !IsDigit(rest[0])
    ensures DigitRun(digits + rest) == |digits|
  {
    if digits != [] {
      assert (digits + rest)[1..] == digits[1..] + rest;
      DigitRunOfDigits(digits[1..], rest);
    } else {
      assert digits + rest == rest;
    }
  }

  /** The list number "N. " in front of a name is removed, and nothing else. */
  lemma NumberingStripped(n: nat, name: string, line: string)
    requires name == [] || !IsWhitespace(name[0])
    requires line == NatToString(n) + ". " + name
    ensures StripNumbering(line) == name
  {
    var rest := ". " + name;
    assert line == NatToString(n) + rest;
    assert rest[1..] == " " + name;
    NumberingDropped(NatToString(n), rest);
    SpaceDropped(rest[1..], name);
  }

  /** A run of digits followed by a dot is cut off with the dot, and the white
      space after the dot trimmed. */
  lemma NumberingDropped(digits: string, rest: string)
    requires digits != [] && AllDigits(digits)
    requires rest != [] && rest[0] == '.'
    ensures StripNumbering(digits + rest) == TrimStart(rest[1..])
  {
    DigitRunOfDigits(digits, rest);
    var line := digits + rest;
    var k := |digits|;
    assert line[k] == rest[0];
    assert line[k + 1..] == rest[1..];
  }

  /** One space in front of a name that starts with no white space is trimmed away. */
  lemma SpaceDropped(after: string, name: string)
    requires after == " " + name
    requires name == [] || !IsWhitespace(name[0])
    ensures TrimStart(after) == name
  {
    assert after[1..] == name;
    assert TrimStart(name) == name;
  }

  /** A suggestion written as "N. name", a line break and its description is
      read back as that name and description. */
  lemma SuggestionRoundTrip(n: nat, name: string, description: string)
    requires '\n' !in name && (name == [] || !IsWhitespace(name[0]))
    requires IsTrimmed(description)
    ensures ParseSuggestion(NatToString(n) + ". " + name + "\n" + description) == Suggestion(name, description)
  {
    var head := NatToString(n) + ". " + name;
    assert '\n' !in NatToString(n) by {
      forall i | 0 <= i < |NatToString(n)| ensures NatToString(n)[i] != '\n' {
        assert IsDigit(NatToString(n)[i]);
      }
    }
    assert '\n' !in head by {
      forall i | 0 <= i < |head| ensures head[i] != '\n' {
        if i >= |NatToString(n)| + 2 {
          assert head[i] == name[i - |NatToString(n)| - 2];
        } else if i >= |NatToString(n)| {
          assert head[i] == ". "[i - |NatToString(n)|];
        } else {
          assert head[i] == NatToString(n)[i];
        }
      }
    }
    SplitOnCharCons('\n', head, description);
    var lines := SplitBy(Literal("\n"), head + "\n" + description);
    assert lines[0] == head && lines[1..] == SplitBy(Literal("\n"), description);
    JoinSplit("\n", description);
    TrimTrimmed(description);
    NumberingStripped(n, name, head);
  }
}
