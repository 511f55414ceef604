/** The reply parser of `getItineraryAdvice`: splits the model's reply into
    alternatives, reads each alternative's explanation and item lines, matches
    every item back to a source item and brackets the result with the flights.
    The request itself is not modelled: the reply text is an input. */
module AdviceParser {
  import opened Wrappers
  import opened Text
  import opened Itinerary
  import opened TimeFormat
  import opened Bracketing
  import Seqs

  datatype Alternative = Alternative(explanation: Option<string>, items: seq<Item>)

  datatype Advice = Advice(originalItinerary: seq<Item>, alternativeItineraries: seq<Alternative>)

  /** The two errors the parser throws. */
  datatype AdviceError = NoAdviceReceived | NoValidAlternatives {
    function Message(): string {
      match this
      case NoAdviceReceived => "No advice received from OpenAI"
      case NoValidAlternatives => "No valid alternatives generated"
    }
  }

  predicate IsPinned(item: Item) {
    item.isPinned
  }

  predicate IsUnpinned(item: Item) {
    !item.isPinned
  }

  // ---------------------------------------------------------------------------
  // Matching a parsed line back to a source item

  /** The matching rule: the same title, or the same type and the same
      normalised time. */
  predicate Matches(source: Item, title: string, kind: string, time: string) {
    source.title == title || (source.kind == kind && FormatTime(source.time) == FormatTime(time))
  }

  /** `[...pinnedItems, ...unpinnedItems].find(...)`: the first matching source item. */
  function SourceItem(sources: seq<Item>, title: string, kind: string, time: string): (r: Option<Item>)
    ensures r.None? <==> forall k :: 0 <= k < |sources| ==> !Matches(sources[k], title, kind, time)
    ensures r.Some? ==> exists k :: 0 <= k < |sources| && r.value == sources[k] &&
                          Matches(sources[k], title, kind, time) &&
                          forall j :: 0 <= j < k ==> !Matches(sources[j], title, kind, time)
  {
    var m := (source: Item) => Matches(source, title, kind, time);
    match Seqs.FindIndex(sources, m)
    case None => None
    case Some(k) => Some(sources[k])
  }

  /** `pinnedItems.some(p => p.title === title && formatTime(p.time) === formatTime(time))`. */
  function PinnedMatch(pinned: seq<Item>, title: string, time: string): (b: bool)
    ensures b <==> exists k :: 0 <= k < |pinned| && pinned[k].title == title &&
                              FormatTime(pinned[k].time) == FormatTime(time)
  {
    if pinned == [] then false
    else (pinned[0].title == title && FormatTime(pinned[0].time) == FormatTime(time))
         || PinnedMatch(pinned[1..], title, time)
  }

  /** `originalItem?.details || {}`. */
  function BaseDetails(source: Option<Item>): Details {
    if source.Some? && source.value.details.Some? then source.value.details.value else NoDetails
  }

  /** `price || originalItem?.details?.price || 'TBD'`: an empty or missing price
      field falls back to the source's price, and an empty or missing one of
      those to "TBD". */
  function PriceFor(price: string, source: Option<Item>): (r: string)
    ensures r != ""
    ensures price != "" ==> r == price
    ensures price == "" && BaseDetails(source).price.Some? && BaseDetails(source).price.value != "" ==>
              r == BaseDetails(source).price.value
    ensures price == "" && (BaseDetails(source).price.None? || BaseDetails(source).price == Some("")) ==> r == "TBD"
  {
    if price != "" then price
    else if BaseDetails(source).price.Some? && BaseDetails(source).price.value != "" then BaseDetails(source).price.value
    else "TBD"
  }

  /** The details of a parsed item, as written: the source's details with the
      price set, then, for a travel or hotel item, the flight or stay fields
      copied over from the source once more.  Since those fields came from the
      source already, the copies change nothing: the result is the source's
      details with only the price replaced. */
  function MergeDetails(source: Option<Item>, kind: string, price: string): (d: Details)
    ensures d == BaseDetails(source).(price := Some(PriceFor(price, source)))
  {
    var details := BaseDetails(source).(price := Some(PriceFor(price, source)));
    var details :=
      if kind == "travel" && source.Some? && source.value.details.Some? then
        var o := source.value.details.value;
        details.(airline := o.airline, departureTime := o.departureTime,
                 arrivalTime := o.arrivalTime, duration := o.duration)
      else details;
    var details :=
      if kind == "hotel" && source.Some? && source.value.details.Some? then
        var o := source.value.details.value;
        details.(checkIn := o.checkIn, checkOut := o.checkOut, nightlyRate := o.nightlyRate)
      else details;
    details
  }

  // ---------------------------------------------------------------------------
  // Item lines

  /** `line.split('|').map(s => s.trim())`. */
  function Fields(line: string): (f: seq<string>)
    ensures |f| >= 1
    ensures forall i :: 0 <= i < |f| ==> IsTrimmed(f[i])
  {
    Seqs.Map(Trim, SplitBy(Literal("|"), line))
  }

  /** A line with at least four fields; any other line is thrown away. */
  predicate WellFormed(line: string) {
    |Fields(line)| >= 4
  }

  /** The fifth field, or "" when there is none (`undefined` and "" are both
      falsy where the price is used). */
  function PriceField(f: seq<string>): string {
    if |f| >= 5 then f[4] else ""
  }

  /** One item line: `Title | Type | Time | Description | Price`.  The type is
      lower-cased and never checked against "travel", "hotel" or "activity";
      `isPinned` is recomputed from the pinned items, never read from the line. */
  function ParseLine(line: string, pinned: seq<Item>, unpinned: seq<Item>): (r: Option<Item>)
    ensures r.Some? <==> WellFormed(line)
  {
    var f := Fields(line);
    if |f| < 4 then None
    else
      var title, kind, time, description := f[0], Lower(f[1]), f[2], f[3];
      var source := SourceItem(pinned + unpinned, title, kind, time);
      Some(Item(title, kind, FormatTime(time), description,
                PinnedMatch(pinned, title, time), Some(MergeDetails(source, kind, PriceField(f)))))
  }

  /** What an item line yields: its first four fields in order, the type
      lower-cased and the time normalised; the item is pinned exactly when a
      pinned item has its title and the same normalised time; its details are
      those of the first matching source item, with only the price replaced. */
  lemma ParsedLine(line: string, pinned: seq<Item>, unpinned: seq<Item>)
    requires WellFormed(line)
    ensures var r := ParseLine(line, pinned, unpinned);
            var f := Fields(line);
            && r.Some?
            && r.value.title == f[0]
            && r.value.kind == Lower(f[1])
            && r.value.time == FormatTime(f[2])
            && r.value.description == f[3]
            && (r.value.isPinned <==> exists k :: 0 <= k < |pinned| && pinned[k].title == f[0] &&
                                               FormatTime(pinned[k].time) == FormatTime(f[2]))
            && var source := SourceItem(pinned + unpinned, f[0], Lower(f[1]), f[2]);
               r.value.details == Some(BaseDetails(source).(price := Some(PriceFor(PriceField(f), source))))
  {
  }

  /** The items of a block's item lines, in order, malformed lines skipped. */
  function ParseLines(lines: seq<string>, pinned: seq<Item>, unpinned: seq<Item>): (r: seq<Item>)
    ensures |r| <= |lines|
    ensures forall i :: 0 <= i < |r| ==>
              exists k :: 0 <= k < |lines| && ParseLine(lines[k], pinned, unpinned) == Some(r[i])
  {
    var parse := (line: string) => ParseLine(line, pinned, unpinned);
    Seqs.FilterMapFrom(lines, parse);
    Seqs.FilterMap(lines, parse)
  }

  /** One item per well-formed line: a line with fewer than four fields is
      thrown away and every other line yields an item. */
  lemma ParseLinesCount(lines: seq<string>, pinned: seq<Item>, unpinned: seq<Item>)
    ensures |ParseLines(lines, pinned, unpinned)| == |Seqs.Filter(lines, WellFormed)|
  {
    Seqs.FilterMapCount(lines, (line: string) => ParseLine(line, pinned, unpinned), WellFormed);
  }

  /** Lines are parsed one by one: the items of two stretches of lines are the
      items of the first followed by those of the second. */
  lemma ParseLinesAppend(a: seq<string>, b: seq<string>, pinned: seq<Item>, unpinned: seq<Item>)
    ensures ParseLines(a + b, pinned, unpinned) == ParseLines(a, pinned, unpinned) + ParseLines(b, pinned, unpinned)
  {
    Seqs.FilterMapAppend(a, b, (line: string) => ParseLine(line, pinned, unpinned));
  }

  /** A malformed line on its own yields nothing. */
  lemma MalformedLineAlone(bad: string, pinned: seq<Item>, unpinned: seq<Item>)
    requires !WellFormed(bad)
    ensures ParseLines([bad], pinned, unpinned) == []
  {
    Seqs.FilterMapDropped(bad, (line: string) => ParseLine(line, pinned, unpinned));
  }

  /** A malformed line is dropped and the lines around it are still parsed. */
  lemma MalformedLineDropped(a: seq<string>, bad: string, b: seq<string>, pinned: seq<Item>, unpinned: seq<Item>)
    requires !WellFormed(bad)
    ensures ParseLines(a + [bad] + b, pinned, unpinned) == ParseLines(a + b, pinned, unpinned)
  {
    MalformedLineAlone(bad, pinned, unpinned);
    ParseLinesAppend(a + [bad], b, pinned, unpinned);
    ParseLinesAppend(a, [bad], pinned, unpinned);
    ParseLinesAppend(a, b, pinned, unpinned);
    assert ParseLines(a + [bad], pinned, unpinned) == ParseLines(a, pinned, unpinned);
  }

  // ---------------------------------------------------------------------------
  // Alternatives

  /** `alt.trim().split('\n').filter(Boolean)`: exactly the non-empty lines of
      the trimmed block (in order, by Text.NonEmptyAppend). */
  function BlockLines(block: string): (lines: seq<string>)
    ensures forall i :: 0 <= i < |lines| ==> lines[i] != "" && lines[i] in SplitBy(Literal("\n"), Trim(block))
    ensures forall line :: line in SplitBy(Literal("\n"), Trim(block)) && line != "" ==> line in lines
  {
    NonEmpty(SplitBy(Literal("\n"), Trim(block)))
  }

  /** One alternative: its first non-empty line is the explanation (there is
      none when the block is white space only), every later line an item line. */
  function ParseBlock(block: string, pinned: seq<Item>, unpinned: seq<Item>): (alt: Alternative)
    ensures alt.explanation.None? <==> BlockLines(block) == []
    ensures alt.explanation.Some? ==> alt.explanation.value == BlockLines(block)[0]
    ensures BlockLines(block) != [] ==>
              alt.items == PreprocessItinerary(ParseLines(BlockLines(block)[1..], pinned, unpinned))
    ensures BlockLines(block) == [] ==> alt.items == []
  {
    var lines := BlockLines(block);
    // A block with no line has no explanation and no item lines, and bracketing no items gives none.
    if lines == [] then Alternative(None, [])
    else Alternative(Some(lines[0]), PreprocessItinerary(ParseLines(lines[1..], pinned, unpinned)))
  }

  /** The reply split on the alternative headers, empty pieces dropped. */
  function Blocks(content: string): seq<string> {
    NonEmpty(SplitBy(AlternativeHeader, content))
  }

  /** The parsing half of `getItineraryAdvice`: an empty reply and a reply with
      no non-empty alternative are errors; otherwise one alternative per
      non-empty piece (even one that yields no item), and the original
      itinerary bracketed with its flights. */
  function ParseAdvice(itinerary: seq<Item>, content: string): (r: Result<Advice, AdviceError>)
    ensures r == Failure(NoAdviceReceived) <==> content == ""
    ensures r == Failure(NoValidAlternatives) <==> content != "" && Blocks(content) == []
    ensures r.Success? ==>
              && r.value.originalItinerary == PreprocessItinerary(itinerary)
              && |r.value.alternativeItineraries| == |Blocks(content)| >= 1
              && forall i :: 0 <= i < |Blocks(content)| ==>
                   r.value.alternativeItineraries[i] ==
                     ParseBlock(Blocks(content)[i], Seqs.Filter(itinerary, IsPinned), Seqs.Filter(itinerary, IsUnpinned))
  {
    if content == "" then Failure(NoAdviceReceived)
    else
      var pinned := Seqs.Filter(itinerary, IsPinned);
      var unpinned := Seqs.Filter(itinerary, IsUnpinned);
      var alternatives := Seqs.Map((block: string) => ParseBlock(block, pinned, unpinned), Blocks(content));
      if |alternatives| == 0 then Failure(NoValidAlternatives)
      else Success(Advice(PreprocessItinerary(itinerary), alternatives))
  }

  // ---------------------------------------------------------------------------
  // Round trips and the shape of a reply

  /** An item line in the format the prompt asks the model for. */
  function RenderLine(title: string, kind: string, time: string, description: string, price: string): string {
    Join([title, kind, time, description, price], " | ")
  }

  /** A field that survives the line format: no bar, no surrounding white space. */
  predicate CleanField(s: string) {
    IsTrimmed(s) && '|' !in s
  }

  /** The pieces between the bars of `lead` followed by `fields` joined with
      " | ": each field with the spaces around its bars. */
  function BarPieces(lead: string, fields: seq<string>): (r: seq<string>)
    requires |fields| >= 1
    ensures |r| == |fields|
    decreases |fields|
  {
    if |fields| == 1 then [lead + fields[0]]
    else [lead + fields[0] + " "] + BarPieces(" ", fields[1..])
  }

  /** The rendered text is its bar pieces joined with "|". */
  lemma {:induction false} JoinBarPieces(lead: string, fields: seq<string>)
    requires |fields| >= 1
    ensures Join(BarPieces(lead, fields), "|") == lead + Join(fields, " | ")
    decreases |fields|
  {
    if |fields| > 1 {
      var rest := fields[1..];
      JoinBarPieces(" ", rest);
      var pieces := BarPieces(lead, fields);
      assert pieces[1..] == BarPieces(" ", rest);
      assert Join(pieces, "|") == lead + fields[0] + " " + "|" + (" " + Join(rest, " | "));
      assert Join(fields, " | ") == fields[0] + " | " + Join(rest, " | ");
    }
  }

  /** No bar piece holds a bar when neither the fields nor the lead do. */
  lemma {:induction false} BarPiecesClean(lead: string, fields: seq<string>)
    requires |fields| >= 1 && '|' !in lead
    requires forall k :: 0 <= k < |fields| ==> '|' !in fields[k]
    ensures forall k :: 0 <= k < |fields| ==> '|' !in BarPieces(lead, fields)[k]
    decreases |fields|
  {
    if |fields| > 1 {
      BarPiecesClean(" ", fields[1..]);
      var pieces := BarPieces(lead, fields);
      forall k | 1 <= k < |fields| ensures '|' !in pieces[k] {
        assert pieces[k] == BarPieces(" ", fields[1..])[k - 1];
      }
    }
  }

  /** Each bar piece is its field, padded by the lead or a space in front
      and by a space behind unless it is the last. */
  lemma {:induction false} BarPieceAt(lead: string, fields: seq<string>, i: nat)
    requires 0 <= i < |fields|
    ensures BarPieces(lead, fields)[i]
            == (if i == 0 then lead else " ") + fields[i] + (if i < |fields| - 1 then " " else [])
    decreases i
  {
    if i == 0 {
      if |fields| == 1 {
        assert lead + fields[0] + [] == lead + fields[0];
      }
    } else {
      BarPieceAt(" ", fields[1..], i - 1);
      assert BarPieces(lead, fields)[i] == BarPieces(" ", fields[1..])[i - 1];
    }
  }

  /** Trimming one bar piece gives its field back. */
  lemma TrimBarPiece(lead: string, fields: seq<string>, i: nat)
    requires AllWhitespace(lead) && 0 <= i < |fields| && IsTrimmed(fields[i])
    ensures Trim(BarPieces(lead, fields)[i]) == fields[i]
  {
    BarPieceAt(lead, fields, i);
    var front: string := if i == 0 then lead else " ";
    var back: string := if i < |fields| - 1 then " " else [];
    assert AllWhitespace(front) && AllWhitespace(back);
    TrimPadded(front, fields[i], back);
  }

  /** Trimming each bar piece gives its field back. */
  lemma TrimBarPieces(lead: string, fields: seq<string>)
    requires AllWhitespace(lead)
    requires |fields| >= 1 && forall k :: 0 <= k < |fields| ==> IsTrimmed(fields[k])
    ensures Seqs.Map(Trim, BarPieces(lead, fields)) == fields
  {
    forall i | 0 <= i < |fields|
      ensures Trim(BarPieces(lead, fields)[i]) == fields[i]
    {
      TrimBarPiece(lead, fields, i);
    }
  }

  /** Clean fields joined with " | " are split at the bars and trimmed back
      into the same fields. */
  lemma JoinedFields(fields: seq<string>)
    requires |fields| >= 1 && forall k :: 0 <= k < |fields| ==> CleanField(fields[k])
    ensures Seqs.Map(Trim, SplitBy(Literal("|"), Join(fields, " | "))) == fields
  {
    var pieces := BarPieces([], fields);
    JoinBarPieces([], fields);
    assert [] + Join(fields, " | ") == Join(fields, " | ");
    BarPiecesClean([], fields);
    SplitJoinOnChar('|', pieces);
    TrimBarPieces([], fields);
  }

  /** Trimming the pieces of a rendered line gives its fields back. */
  lemma RenderLineFields(title: string, kind: string, time: string, description: string, price: string)
    requires CleanField(title) && CleanField(kind) && CleanField(time)
    requires CleanField(description) && CleanField(price)
    ensures Fields(RenderLine(title, kind, time, description, price)) == [title, kind, time, description, price]
  {
    JoinedFields([title, kind, time, description, price]);
  }

  /** A line written in the prompt's format is read back field by field: the
      title and description unchanged, the type lower-cased, the time
      normalised, and the price kept when it is not empty. */
  lemma LineRoundTrip(title: string, kind: string, time: string, description: string, price: string,
                      pinned: seq<Item>, unpinned: seq<Item>)
    requires CleanField(title) && CleanField(kind) && CleanField(time)
    requires CleanField(description) && CleanField(price)
    ensures var r := ParseLine(RenderLine(title, kind, time, description, price), pinned, unpinned);
            && r.Some?
            && r.value == Item(title, Lower(kind), FormatTime(time), description, r.value.isPinned, r.value.details)
            && (price != "" ==> r.value.details.Some? && r.value.details.value.price == Some(price))
  {
    var line := RenderLine(title, kind, time, description, price);
    RenderLineFields(title, kind, time, description, price);
    ParsedLine(line, pinned, unpinned);
  }

  /** A reply with no alternative header anywhere is one alternative: the
      whole reply is parsed as a single block rather than rejected. */
  lemma NoHeaderOneAlternative(itinerary: seq<Item>, content: string)
    requires content != ""
    requires forall j :: 0 <= j <= |content| ==> HeaderLength(content[j..]) == 0
    ensures var r := ParseAdvice(itinerary, content);
            && r.Success?
            && r.value.alternativeItineraries ==
                 [ParseBlock(content, Seqs.Filter(itinerary, IsPinned), Seqs.Filter(itinerary, IsUnpinned))]
  {
    forall j | 0 <= j <= |content| ensures MatchLength(AlternativeHeader, content[j..]) == 0 {
    }
    assert FirstMatch(AlternativeHeader, content).None?;
    assert SplitBy(AlternativeHeader, content) == [content];
    assert Blocks(content) == [content] by {
      var keep := (x: string) => x != [];
      assert Seqs.Filter([content], keep) == [content] + Seqs.Filter([content][1..], keep);
    }
  }

  /** A reply made of nothing but one alternative header has no alternative. */
  lemma HeaderOnlyFails(itinerary: seq<Item>, content: string)
    requires content != "" && HeaderLength(content) == |content|
    ensures ParseAdvice(itinerary, content) == Failure(NoValidAlternatives)
  {
    assert MatchLength(AlternativeHeader, content) == |content|;
    assert FirstMatch(AlternativeHeader, content) == Some((0, |content|));
    assert content[|content|..] == "";
    assert MatchLength(AlternativeHeader, "") == 0;
    assert SplitBy(AlternativeHeader, "") == [""];
    assert SplitBy(AlternativeHeader, content) == ["", ""];
    assert Blocks(content) == [] by {
      var keep := (x: string) => x != [];
      assert Seqs.Filter([""], keep) == [];
      assert Seqs.Filter(["", ""], keep) == Seqs.Filter([""], keep);
    }
  }

  // ---------------------------------------------------------------------------
  // The prompt

  /** `item.details?.price || 'TBD'`. */
  function ShownPrice(item: Item): (r: string)
    ensures r != ""
    ensures r == "TBD" || (item.details.Some? && item.details.value.price == Some(r))
    ensures item.details.Some? && item.details.value.price.Some? && item.details.value.price.value != "" ==>
              r == item.details.value.price.value
  {
    if item.details.Some? && item.details.value.price.Some? && item.details.value.price.value != ""
    then item.details.value.price.value
    else "TBD"
  }

  /** How one item is shown to the model: title, type and time on the first
      line, the description on the second, the price on the third. */
  function RenderItem(item: Item): (r: string)
    ensures |item.title| <= |r| && r[..|item.title|] == item.title
    ensures |ShownPrice(item)| <= |r| && r[|r| - |ShownPrice(item)|..] == ShownPrice(item)
  {
    var head := item.title + " (" + item.kind + ") at " + item.time + "\n" + item.description + "\nPrice: ";
    assert (item.title + (head[|item.title|..] + ShownPrice(item)))[..|item.title|] == item.title;
    assert head + ShownPrice(item) == item.title + (head[|item.title|..] + ShownPrice(item));
    head + ShownPrice(item)
  }

  /** The items of one section of the prompt, a blank line between two items. */
  function RenderItems(items: seq<Item>): string {
    Join(Seqs.Map(RenderItem, items), "\n\n")
  }

  /** The fields shown hold no line break, and the description is not empty
      (an empty one would put a blank line inside the item). */
  predicate SingleLineFields(item: Item) {
    && '\n' !in item.title && '\n' !in item.kind && '\n' !in item.time
    && '\n' !in item.description && '\n' !in ShownPrice(item)
    && item.description != ""
  }

  /** Such an item is shown without a blank line, and does not end with a
      line break. */
  lemma RenderedItemWhole(item: Item)
    requires SingleLineFields(item)
    ensures SplitsOffWhole(RenderItem(item), "\n\n")
  {
    var a := item.title + " (" + item.kind + ") at " + item.time;
    var d, p := item.description, "Price: " + ShownPrice(item);
    var r := RenderItem(item);
    assert r == a + "\n" + d + "\n" + p;
    NoBreakNoBlankLine(a);
    assert NoBlankLine("\n");
    NoBreakNoBlankLine(d);
    NoBreakNoBlankLine(p);
    NoBlankLineAppend(a, "\n");
    NoBlankLineAppend(a + "\n", d);
    NoBlankLineAppend(a + "\n" + d, "\n");
    NoBlankLineAppend(a + "\n" + d + "\n", p);
    assert r[|r| - 1] == p[|p| - 1];
    NoBlankLineSplitsOff(r);
  }

  /** A section of the prompt splits on its blank lines back into the items
      as shown one by one. */
  lemma RenderItemsSplit(items: seq<Item>)
    requires |items| >= 1
    requires forall i :: 0 <= i < |items| ==> SingleLineFields(items[i])
    ensures SplitBy(Literal("\n\n"), RenderItems(items)) == Seqs.Map(RenderItem, items)
  {
    var shown := Seqs.Map(RenderItem, items);
    forall k | 0 <= k < |shown| ensures SplitsOffWhole(shown[k], "\n\n") {
      RenderedItemWhole(items[k]);
    }
    SplitJoinLiteral("\n\n", shown);
  }

  /** When no field holds a line break, an item is shown on exactly three
      lines: its heading, its description and its price. */
  lemma RenderedLines(item: Item)
    requires '\n' !in item.title && '\n' !in item.kind && '\n' !in item.time
    requires '\n' !in item.description && '\n' !in ShownPrice(item)
    ensures SplitBy(Literal("\n"), RenderItem(item)) ==
              [item.title + " (" + item.kind + ") at " + item.time, item.description, "Price: " + ShownPrice(item)]
  {
    var pieces := [item.title + " (" + item.kind + ") at " + item.time, item.description, "Price: " + ShownPrice(item)];
    assert Join(pieces, "\n") == RenderItem(item) by {
      assert pieces[1..][1..] == ["Price: " + ShownPrice(item)];
      assert Join(pieces[1..], "\n") == item.description + "\n" + "Price: " + ShownPrice(item);
    }
    forall k | 0 <= k < |pieces| ensures '\n' !in pieces[k] {
    }
    SplitJoinOnChar('\n', pieces);
  }
}
