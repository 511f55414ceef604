# Travel planner: a verified model of its planning core

This project models, in Dafny, the logic of a travel planner written in
TypeScript and React. The model covers:

- **The itinerary advisor** (`lib/openai-service.ts`). `formatTime`
  normalises times. `preprocessItinerary` puts the arrival flight first and
  the departure flight last. The reply parser of `getItineraryAdvice` splits
  the model's reply on `ALTERNATIVE n:` headers. It reads an explanation and
  `Title | Type | Time | Description | Price` item lines from each
  alternative, then matches each item back to the planner's items. It merges
  their details and recomputes `isPinned`. The model also covers how each
  item is shown to the model in the request, and the reply parser of
  `suggestActivities`. The reply is an input: the request is not modelled.
- **The planner's state** (`components/TravelPlanner.tsx`). A `TravelPlanner`
  class holds the `agenda` and `queue` lists. Its methods cover the
  drag-and-drop end (reorder, or move from the queue to the agenda), adding
  a card, queueing, removing, toggling a pin, the pinned-card delete guard,
  and replacing the agenda with a chosen itinerary under fresh ids.
- **The advice dialog** (`components/AIAdviceDialog.tsx`). This covers
  `getTimeValue` (minutes since midnight) and the list shown for each
  alternative: the pinned items plus the suggestions that do not clash with
  them, stably sorted by time. A `Dialog` class models the dialog's
  loading/error/advice/selection state with `fetchAdvice`, the open/close
  effect and `handleSelect`.
- **The three search services** (`lib/hotel-service.ts`,
  `lib/flight-service.ts`, `lib/activity-service.ts`). Each parses a reply
  into records: blank-line separated blocks of `- `-prefixed lines, with a
  default for every missing field. The hotel service also reads a rate from
  the digits of a line, reads a rating with `parseFloat`, splits an amenity
  list, and has `calculateTotalPrice`.

The JavaScript built-ins the code relies on are modelled with their own
semantics in `text.dfy` and `seqs.dfy`:

- `split`, with a string separator or the regular expressions `/am|pm/` and
  `/ALTERNATIVE \d+:/i`, leftmost and non-overlapping;
- `trim`, with ECMAScript's white-space set;
- `toLowerCase`, `padStart`, `replace`, `Number` and `parseInt` on digit
  strings, and `parseFloat`;
- `filter`, `find`, `map`, `slice` and `splice`;
- the stable `sort`.

Modules: `Wrappers` (Option, Result), `Seqs`, `Text`, `Itinerary` (the
records), `TimeFormat`, `Bracketing`, `AdviceParser`, `Suggestions`,
`Planner`, `AdviceDialog`, `Records` (what the three services share),
`Hotels`, `Flights` and `Activities`.

Where the code and its documentation disagree, the model follows the code:

- `formatTime("2:30 PM")` is `"02:30"`, not `"14:30"`.
  `split(/am|pm/)` consumes the marker, so the piece compared with `"pm"` and
  `"am"` is never a marker. The 12-hour branches never fire. The result is
  the hours padded to two digits, whichever marker was written
  (`TimeFormat.MarkerSplit`, `TimeFormat.PeriodIgnored`,
  `TimeFormat.ClockKeptAsWritten`).
- A reply with no `ALTERNATIVE n:` header is not an error. It is parsed as a
  single alternative (`AdviceParser.NoHeaderOneAlternative`). Only an empty
  reply, or one whose pieces are all empty, is rejected.
- The "travel" and "hotel" detail patches that the parser applies after
  copying the source's details copy fields that are already there. They
  change nothing (`AdviceParser.MergeDetails`).

## Model

| member | source | states |
|---|---|---|
| Seqs.FilterMembers | lib/openai-service.ts:37-38 | `filter` keeps exactly the elements that pass the test: each kept element is from the input and passes, and each passing element is kept |
| Seqs.FilterAppend | lib/openai-service.ts:37-38 | filtering a concatenation is the concatenation of the filtered parts (order kept) |
| Seqs.FilterDropsAll | lib/hotel-service.ts:88 | a filter that nothing passes gives the empty list |
| Seqs.FilterKeepsAll | lib/hotel-service.ts:88 | a filter that everything passes gives the input back |
| Seqs.FindIndex | lib/openai-service.ts:180-183 | `findIndex` gives the first index whose element passes, and none exactly when no element passes |
| Seqs.Find | lib/openai-service.ts:41-48 | `find` gives an element of the list that passes, and no element before its first position passes; none exactly when nothing passes |
| Seqs.FindFiltered | lib/openai-service.ts:37-48 | searching the travel items filtered out first finds the same item as searching the whole list for a travel item that passes |
| Seqs.FilterMapAppend | lib/openai-service.ts:169-218 | `map(...).filter(x => x !== null)` distributes over concatenation |
| Seqs.FilterMapCount | lib/openai-service.ts:169-218 | there is one result per element that yields one |
| Seqs.FilterMapFrom | lib/openai-service.ts:169-218 | `map(...).filter(x => x !== null)` gives at most one result per element, each one that an element of the input yields |
| Seqs.MapAppend | lib/openai-service.ts:171 | `map` works element by element: mapping a concatenation is the concatenation of the mapped parts |
| Seqs.TakeRest | lib/openai-service.ts:284 | `slice(0, n)` is a prefix that the rest of the list completes, taking it twice changes nothing, and it is the whole list exactly when the list has at most `n` elements |
| Seqs.RemoveAt | components/TravelPlanner.tsx:164 | `splice(i, 1)` shortens by one and removes exactly the element at `i` (as a multiset) |
| Seqs.InsertAt | components/TravelPlanner.tsx:178 | `splice(i, 0, x)` lengthens by one, adds exactly `x` and puts it at `i`, clamped to the end |
| Seqs.Move | components/TravelPlanner.tsx:152-153 | a drag within one list keeps the length and the elements (a permutation) and puts the moved element at the destination |
| Seqs.MoveBack | components/TravelPlanner.tsx:152-153 | dragging an element back to where it came from restores the list |
| Text.TrimStart | lib/openai-service.ts:279 | `trimStart` leaves a suffix of the input that does not start with white space |
| Text.TrimEnd | lib/openai-service.ts:171 | `trimEnd` leaves a prefix of the input that does not end with white space |
| Text.Trim | lib/openai-service.ts:171 | `trim` leaves text with no white space at either end |
| Text.TrimStartDropsWhitespace | lib/openai-service.ts:279 | what `trimStart` drops is all white space |
| Text.TrimEndDropsWhitespace | lib/openai-service.ts:171 | what `trimEnd` drops is all white space |
| Text.TrimEmpty | lib/hotel-service.ts:81 | a text trims to "" exactly when it is all white space (so `trim().length > 0` means "not blank") |
| Text.TrimPadded | lib/openai-service.ts:171 | trimming white space around an already trimmed text gives exactly that text |
| Text.TrimTrimmed | lib/openai-service.ts:280 | trimming an already trimmed text changes nothing |
| Text.LowerAppend | lib/openai-service.ts:177 | `toLowerCase` works character by character (distributes over concatenation) |
| Text.LowerIdempotent | lib/openai-service.ts:177 | the lower-cased text holds no ASCII capital, so lower-casing it again changes nothing |
| Text.FirstMatch | lib/openai-service.ts:164 | the match found is the leftmost one: a match at its position, and none before it; none found means none anywhere |
| Text.HeaderLength | lib/openai-service.ts:164 | a match of `/ALTERNATIVE \d+:/i` is longer than 13 characters and fits in the text |
| Text.SplitBy | lib/openai-service.ts:164 | `split` always gives at least one piece |
| Text.JoinSplit | lib/openai-service.ts:280 | joining the pieces of a split with the separator gives the text back |
| Text.FirstPieceAvoids | lib/openai-service.ts:277 | the first piece of a split on a character never holds that character |
| Text.SplitOnCharCons | lib/openai-service.ts:277 | a first stretch free of the separator comes off whole as the first piece |
| Text.SplitOnCharNone | lib/openai-service.ts:277 | a text free of the separator splits into itself alone |
| Text.SplitJoinOnChar | lib/openai-service.ts:171 | splitting the join of separator-free pieces gives the pieces back |
| Text.SplitJoinLiteral | lib/openai-service.ts:276 | splitting on a separator the join of pieces in which no match of it starts (not even one running on into the separator) gives the pieces back |
| Text.NonEmpty | lib/openai-service.ts:165 | `filter(Boolean)` on strings keeps exactly the non-empty pieces: each kept piece is non-empty and from the input, and each non-empty piece is kept |
| Text.NonEmptyAppend | lib/openai-service.ts:165 | `filter(Boolean)` works piece by piece, in order (distributes over concatenation; nothing gives nothing) |
| Text.NonEmptySingle | lib/openai-service.ts:165 | a single piece is kept when non-empty and dropped when empty |
| Text.NatToString | components/TravelPlanner.tsx:185 | `String(n)` is a non-empty digit string without leading zeros |
| Text.NatToStringValue | components/TravelPlanner.tsx:185 | reading back the decimal text of a number gives the number |
| Text.NatToStringInjective | components/TravelPlanner.tsx:185 | distinct numbers have distinct decimal texts |
| Text.PadStart2 | lib/openai-service.ts:84 | `padStart(2, '0')` keeps the text at the end and fills the front with zeros up to length 2 |
| Text.PaddedValue | lib/openai-service.ts:84 | padding a digit string with zeros keeps its value |
| Text.StripDashPrefix | lib/hotel-service.ts:83 | `replace(/^- /, '')` drops a leading "- " and leaves any other line alone |
| Text.StripNumbering | lib/openai-service.ts:279 | `replace(/^\d+\.\s*/, '')` leaves a suffix of the line, and changes the line only when it starts with digits and a dot |
| TimeFormat.CleanTime | lib/openai-service.ts:74 | a cleaned time holds only lower-case letters, digits, `_` and `:` |
| TimeFormat.CleanTimeOfClean | lib/openai-service.ts:74 | cleaning a cleaned time changes nothing |
| TimeFormat.CleanTimeAppend | lib/openai-service.ts:74 | cleaning works character by character (distributes over concatenation) |
| TimeFormat.ToNumberOfNat | lib/openai-service.ts:78 | `Number` reads back the decimal text of every natural number |
| TimeFormat.MarkerSplit | lib/openai-service.ts:76-77 | a time holding "am" or "pm" splits into at least two pieces, and the second is never "am" or "pm" |
| TimeFormat.FirstPieceNotMarker | lib/openai-service.ts:77 | the first piece of a split on /am\|pm/ is never a marker |
| TimeFormat.FormatTime | lib/openai-service.ts:71-87 | "" gives ""; a time without a marker gives its cleaned text; a time with one gives the padded hours and minutes of the piece before the marker |
| TimeFormat.FormatTimeIdempotent | lib/openai-service.ts:71-86 | on a time without a marker, `formatTime` is idempotent |
| TimeFormat.FirstMarkerAtEnd | lib/openai-service.ts:77 | in marker-free text followed by a marker, the first match is that marker |
| TimeFormat.FormatTimeMarked | lib/openai-service.ts:76-84 | a time followed by a marker is read from the part before it |
| TimeFormat.MarkerCleans | lib/openai-service.ts:74 | " PM" and " AM" clean to "pm" and "am" |
| TimeFormat.PeriodIgnored | lib/openai-service.ts:76-84 | "t PM" and "t AM" normalise to the same text: the marker does not matter |
| TimeFormat.ClockSplit | lib/openai-service.ts:78 | a clock text splits at its colon into the hours and the minutes |
| TimeFormat.ClockHoursOnly | lib/openai-service.ts:78-84 | hours with no colon get the minutes "00", padded to two digits: the piece "2" of "2 pm" gives "02:00" |
| TimeFormat.ClockUnpadded | lib/openai-service.ts:78-84 | "H:M" gives the hours and the minutes each padded to two digits: "2:5" gives "02:05" |
| TimeFormat.ClockKeptAsWritten | lib/openai-service.ts:78-84 | "H:MM" is rewritten "HH:MM" (hours padded, never converted), so "2:30 PM" gives "02:30" |
| Bracketing.FlightSearch | lib/openai-service.ts:37-48 | the arrival (departure) flight is found exactly when some travel item qualifies, and it is the first one that does |
| Bracketing.PreprocessItinerary | lib/openai-service.ts:35-63 | every item of the result is an input item; when the result differs from the input it starts with an arrival flight, ends with a departure flight and holds no other travel item |
| Bracketing.PreprocessShape | lib/openai-service.ts:35-63 | without both flights the items come back unchanged; with both, the first arrival flight, then the middle, then the first departure flight |
| Bracketing.MiddleItems | lib/openai-service.ts:56-59 | the middle holds exactly the non-travel items whose title is neither flight's title |
| AdviceParser.SourceItem | lib/openai-service.ts:180-183 | no source item exactly when none matches by title or by type and time; otherwise the first that matches |
| AdviceParser.PinnedMatch | lib/openai-service.ts:211 | true exactly when a pinned item has the same title and the same normalised time |
| AdviceParser.PriceFor | lib/openai-service.ts:188 | never empty; the price field when it is not empty; the source's price when the field is empty and that price is not; "TBD" when the source has no non-empty price either |
| AdviceParser.MergeDetails | lib/openai-service.ts:186-204 | the merged details are the source's details with only the price replaced (the travel and hotel patches change nothing) |
| AdviceParser.Fields | lib/openai-service.ts:171 | a line has at least one field and every field is trimmed |
| AdviceParser.ParseLine | lib/openai-service.ts:169-217 | a line yields an item exactly when it has at least four fields |
| AdviceParser.ParsedLine | lib/openai-service.ts:176-213 | the item's title and description are fields 1 and 4, its type is field 2 lower-cased, its time is field 3 normalised, `isPinned` holds exactly when a pinned item matches, and its details are the matched source's with the price set |
| AdviceParser.ParseLines | lib/openai-service.ts:169-218 | at most one item per line, and each item is what some line parses to |
| AdviceParser.ParseLinesCount | lib/openai-service.ts:169-218 | one item per line with at least four fields |
| AdviceParser.ParseLinesAppend | lib/openai-service.ts:169-218 | lines are parsed independently, in order |
| AdviceParser.MalformedLineAlone | lib/openai-service.ts:172-173 | a line with fewer than four fields yields nothing |
| AdviceParser.MalformedLineDropped | lib/openai-service.ts:214-218 | a malformed line is dropped and the lines around it are still parsed |
| AdviceParser.BlockLines | lib/openai-service.ts:168 | an alternative's lines are exactly the non-empty lines of the trimmed block: each is a non-empty line of it, and each non-empty line of it is one |
| AdviceParser.ParseBlock | lib/openai-service.ts:166-226 | the explanation is the first non-empty line (none for a blank block), and the items are the later lines parsed and bracketed; a block with no item is kept |
| AdviceParser.ParseAdvice | lib/openai-service.ts:158-243 | an empty reply fails with "No advice received", a reply with no non-empty piece fails with "No valid alternatives"; otherwise one alternative per non-empty piece, each its piece parsed, and the original itinerary bracketed |
| AdviceParser.BarPieceAt | lib/openai-service.ts:171 | each piece of a " \| "-joined line is its field padded with white space |
| AdviceParser.JoinedFields | lib/openai-service.ts:171 | clean fields joined with " \| " are split and trimmed back into the same fields |
| AdviceParser.RenderLineFields | lib/openai-service.ts:120 | a line in the prompt's `Title \| Type \| Time \| Description \| Price` format reads back as its five fields |
| AdviceParser.LineRoundTrip | lib/openai-service.ts:169-213 | such a line parses to an item with the same title and description, the type lower-cased, the time normalised, and a non-empty price kept |
| AdviceParser.NoHeaderOneAlternative | lib/openai-service.ts:164-165 | a non-empty reply without any header is one alternative: the whole reply |
| AdviceParser.HeaderOnlyFails | lib/openai-service.ts:233-235 | a reply that is just one header has no alternative and fails |
| AdviceParser.ShownPrice | lib/openai-service.ts:140 | never empty; the item's price when it has a non-empty one, and "TBD" otherwise |
| AdviceParser.RenderItem | lib/openai-service.ts:139-141 | the text shown for an item starts with its title and ends with its shown price |
| AdviceParser.RenderedLines | lib/openai-service.ts:139-141 | an item without line breaks in its fields is shown on three lines: heading, description, price |
| AdviceParser.RenderedItemWhole | lib/openai-service.ts:139-141 | an item with one-line fields and a non-empty description is shown without a blank line and does not end with a line break |
| AdviceParser.RenderItemsSplit | lib/openai-service.ts:138-146 | a section of the prompt (`map(...).join('\n\n')`) splits on its blank lines back into the items as shown one by one |
| Suggestions.ParseSuggestion | lib/openai-service.ts:277-281 | a suggestion's name holds no line break and its description is trimmed |
| Suggestions.FirstLineUnbroken | lib/openai-service.ts:277 | the first line of a block holds no line break |
| Suggestions.ParseSuggestions | lib/openai-service.ts:270-284 | an empty reply fails; otherwise one suggestion per "\n\n" piece, the first three only (between 1 and 3) |
| Suggestions.DigitRunOfDigits | lib/openai-service.ts:279 | a number followed by a non-digit is a digit run of exactly its length |
| Suggestions.NumberingDropped | lib/openai-service.ts:279 | digits and a dot at the start of a line are cut off, with the white space after the dot |
| Suggestions.SpaceDropped | lib/openai-service.ts:279 | the space after the list number is trimmed away |
| Suggestions.NumberingStripped | lib/openai-service.ts:279 | the list number "N. " in front of a name is removed, and nothing else |
| Suggestions.SuggestionRoundTrip | lib/openai-service.ts:276-282 | "N. name", a line break and a trimmed description read back as that name and description |
| Itinerary.WithId | components/TravelPlanner.tsx:213-216 | `{ ...item, id }` sets the id and keeps every other field |
| Planner.OrDefault | components/TravelPlanner.tsx:170-171 | `x \|\| fallback` is never empty when the fallback is not, and is `x` itself whenever `x` is present and non-empty |
| Planner.FromQueue | components/TravelPlanner.tsx:167-175 | a queue item dropped on the agenda keeps its id, title, type and details, is unpinned, and its description and time default to "Add description here" and "00:00" |
| Planner.QueueWithoutAppend | components/TravelPlanner.tsx:199-201 | removal from the queue works item by item, keeping the order |
| Planner.Toggled | components/TravelPlanner.tsx:207-209 | the pin flips exactly on the items with the id, and nothing else changes |
| Planner.ToggleTwice | components/TravelPlanner.tsx:207-209 | toggling twice restores the agenda |
| Planner.AgendaWithout | components/TravelPlanner.tsx:203-205 | the result holds no item with the id, and keeps every item without it |
| Planner.QueueWithout | components/TravelPlanner.tsx:199-201 | the result holds no item with the id, and keeps every item without it |
| Planner.AgendaWithoutAbsent | components/TravelPlanner.tsx:203-205 | removing an id no item carries changes nothing |
| Planner.AgendaWithoutAppend | components/TravelPlanner.tsx:203-205 | removal works item by item, keeping the order |
| Planner.QueueAddRemove | components/TravelPlanner.tsx:195-201 | queueing an item with a fresh id and removing that id restores the queue |
| Planner.NewCard | components/TravelPlanner.tsx:184-191 | the new card has id `String(length + 1)`, title "New <type> item", time "00:00", is unpinned and has no details |
| Planner.NewCardFresh | components/TravelPlanner.tsx:185 | on an agenda numbered "1".."n", the new card's id is fresh |
| Planner.InitialAgenda | components/TravelPlanner.tsx:49-121 | the starting agenda has five cards, numbered "1" to "5" in order |
| Planner.AddAfterDeleteCollides | components/TravelPlanner.tsx:183-205 | after the first card of a numbered agenda is removed, the next new card gets the last card's id |
| Planner.DeleteKeepsPinned | components/TravelPlanner.tsx:203-231 | deleting an unpinned card keeps every pinned card when ids are distinct |
| Planner.StampedIdInjective | components/TravelPlanner.tsx:215 | an id "item-<now>-<index>" determines both the time and the index |
| Planner.Stamped | components/TravelPlanner.tsx:211-216 | the chosen items in order, each with only its id replaced by "item-<now>-<index>", where `now` is the clock reading taken for that item |
| Planner.StampedDistinct | components/TravelPlanner.tsx:211-216 | the stamped ids are pairwise distinct, whatever the clock readings |
| Planner.TravelPlanner.constructor | components/TravelPlanner.tsx:125-126 | the planner starts with the starting agenda and an empty queue |
| Planner.TravelPlanner.OnDragEnd | components/TravelPlanner.tsx:135-181 | no destination or a pinned agenda source changes nothing; a drop within a list moves the item there; a queue item dropped on the agenda leaves the queue and enters the agenda converted; an agenda item dropped on the queue changes nothing |
| Planner.TravelPlanner.AddCard | components/TravelPlanner.tsx:183-193 | appends the new card and keeps the queue |
| Planner.TravelPlanner.AddToQueue | components/TravelPlanner.tsx:195-197 | appends the item to the queue and keeps the agenda |
| Planner.TravelPlanner.RemoveFromQueue | components/TravelPlanner.tsx:199-201 | removes the id from the queue and keeps the agenda |
| Planner.TravelPlanner.RemoveFromAgenda | components/TravelPlanner.tsx:203-205 | removes the id from the agenda and keeps the queue |
| Planner.TravelPlanner.TogglePin | components/TravelPlanner.tsx:207-209 | toggles the pin of the id and keeps the queue |
| Planner.TravelPlanner.DeleteCard | components/TravelPlanner.tsx:231 | the delete action leaves a pinned card's agenda unchanged and removes an unpinned card's id |
| Planner.TravelPlanner.SelectItinerary | components/TravelPlanner.tsx:211-220 | replaces the agenda with the chosen items, each stamped with its own clock reading and index, the ids pairwise distinct; keeps the queue |
| AdviceDialog.TimeValue | components/AIAdviceDialog.tsx:206-214 | `getTimeValue("")` is 0 |
| AdviceDialog.CleanedTo | components/AIAdviceDialog.tsx:209 | cleaning drops text without digits or colons around a middle of digits and colons, and keeps that middle whole |
| AdviceDialog.TimeValueOfParts | components/AIAdviceDialog.tsx:206-214 | "H:M" within text holding no other digit or colon is worth H·60 + M minutes, an empty part counting 0 (so ":30" is 30 and "2:30 PM" is 150) |
| AdviceDialog.TimeValueHoursOnly | components/AIAdviceDialog.tsx:206-214 | digits without a colon within text holding no other digit or colon are hours only (so "14" is 840), and no digit at all is 0 (so "TBD" is 0) |
| AdviceDialog.ClockClean | components/AIAdviceDialog.tsx:209 | cleaning keeps a clock text "H:MM" whole |
| AdviceDialog.ClockTimeValue | components/AIAdviceDialog.tsx:206-214 | a clock text "H:MM" is worth H·60 + M minutes |
| AdviceDialog.Conflicts | components/AIAdviceDialog.tsx:199-202 | true exactly when a pinned item has the same raw time and another title |
| AdviceDialog.KeptIff | components/AIAdviceDialog.tsx:198-203 | an alternative's item is shown exactly when it clashes with no pinned item |
| AdviceDialog.Insert | components/AIAdviceDialog.tsx:204-219 | inserting adds exactly one element |
| AdviceDialog.InsertSorted | components/AIAdviceDialog.tsx:204-219 | inserting into a sorted list keeps it sorted |
| AdviceDialog.SortBy | components/AIAdviceDialog.tsx:204-219 | the sort is a permutation of its input |
| AdviceDialog.SortSorted | components/AIAdviceDialog.tsx:204-219 | the sorted list is non-decreasing in its keys |
| AdviceDialog.InsertStable | components/AIAdviceDialog.tsx:204-219 | inserting keeps the order among equal keys, the new element first among its own |
| AdviceDialog.SortStable | components/AIAdviceDialog.tsx:204-219 | the sort is stable: the elements of each key keep their input order |
| AdviceDialog.CombinedItems | components/AIAdviceDialog.tsx:194-219 | the shown list is the pinned items plus the kept suggestions, as a multiset |
| AdviceDialog.CombinedOrdered | components/AIAdviceDialog.tsx:194-219 | the shown list is in time order, and items at the same time keep their order (pinned first) |
| AdviceDialog.PinnedShown | components/AIAdviceDialog.tsx:194-197 | every pinned item of the original itinerary is shown in every alternative |
| AdviceDialog.PinnedDuplicate | components/AIAdviceDialog.tsx:196-203 | a suggestion identical to a pinned item is shown twice when no other pinned item has its time under another title |
| AdviceDialog.Dialog.constructor | components/AIAdviceDialog.tsx:31-40 | the dialog starts idle, with no error, no advice and no selection |
| AdviceDialog.Dialog.BeginFetch | components/AIAdviceDialog.tsx:43-44 | the fetch starts loading with the error cleared |
| AdviceDialog.Dialog.EndFetch | components/AIAdviceDialog.tsx:45-58 | the fetch ends with loading over and either the advice or the error's message set |
| AdviceDialog.Dialog.FetchAdvice | components/AIAdviceDialog.tsx:42-59 | a whole fetch ends with loading over: on success the advice is set and the error cleared; on failure the error is set and the advice kept |
| AdviceDialog.Dialog.Effect | components/AIAdviceDialog.tsx:61-70 | closing clears the selection, advice and error (so the Apply button is hidden) and leaves `loading` as it was; opening with no advice and no error message (an empty message counts as none) fetches; otherwise nothing changes |
| AdviceDialog.Dialog.HandleSelect | components/AIAdviceDialog.tsx:118-123 | the selection is always recorded, and the Apply button then shows exactly when an index was given and no error message shows; with the `onSelectItinerary` callback, -1 passes the original itinerary, `i` the parsed items of alternative `i`, and no index nothing; without the callback nothing is passed |
| AdviceDialog.Dialog.ApplyVisible | components/AIAdviceDialog.tsx:261 | the Apply button shows only when a row is selected and no error message, or only an empty one, is set |
| Records.Blocks | lib/hotel-service.ts:80-81 | the records are exactly the non-blank "\n\n" pieces: each record is a non-blank piece, and each non-blank piece is a record |
| Records.CleanLine | lib/hotel-service.ts:83 | a cleaned line is trimmed |
| Records.Lines | lib/hotel-service.ts:83 | a record has at least one line, each cleaned |
| Records.FieldOr | lib/hotel-service.ts:86-90 | `lines[i] \|\| fallback` is never empty when the default is not, and is the line itself whenever it is present and non-empty |
| Records.FieldOrPrefix | lib/flight-service.ts:104-112 | field `i` read from the first `n > i` lines is field `i` of all the lines: a field depends only on its own line |
| Records.RecordIdDistinct | lib/hotel-service.ts:85 | two records of one reply never share an id |
| Records.DashedCleans | lib/hotel-service.ts:83 | a "- "-prefixed trimmed field is cleaned back to the field |
| Records.RenderedLines | lib/hotel-service.ts:83 | a record written one "- " line per field reads back as its fields |
| Flights.ParseFlights | lib/flight-service.ts:93-113 | an empty reply fails with "Invalid API response format"; otherwise one flight per non-blank record, in order |
| Flights.FlightOf | lib/flight-service.ts:105-112 | a flight record gets the id "flight-<index>" and never an empty field |
| Flights.FlightIdsDistinct | lib/flight-service.ts:105 | flight ids are pairwise distinct |
| Flights.FlightIgnoresExtraLines | lib/flight-service.ts:104-112 | lines after the fifth are ignored |
| Flights.FlightRoundTrip | lib/flight-service.ts:104-112 | a flight written one non-empty field per line reads back |
| Activities.ParseActivities | lib/activity-service.ts:77-97 | an empty reply fails; otherwise one activity per non-blank record, in order |
| Activities.ActivityOf | lib/activity-service.ts:88-96 | an activity record gets the id "activity-<index>" and never an empty field |
| Activities.ActivityIdsDistinct | lib/activity-service.ts:89 | activity ids are pairwise distinct |
| Activities.ActivityIgnoresExtraLines | lib/activity-service.ts:87-96 | lines after the sixth are ignored |
| Activities.NameOnly | lib/activity-service.ts:90-95 | a record of a name only takes every other default |
| Activities.ActivityRoundTrip | lib/activity-service.ts:87-96 | an activity written one non-empty field per line reads back |
| Hotels.ParseHotels | lib/hotel-service.ts:73-93 | an empty reply fails; otherwise one hotel per non-blank record, in order |
| Hotels.HotelOf | lib/hotel-service.ts:84-92 | a hotel record gets the id "hotel-<index>" and never an empty name, description or location |
| Hotels.HotelIdsDistinct | lib/hotel-service.ts:85 | hotel ids are pairwise distinct |
| Hotels.NameOnlyHotel | lib/hotel-service.ts:84-92 | a record of a name only gets the default description and location, rate 0, rating 0 and no amenities |
| Hotels.DigitsOf | lib/hotel-service.ts:88 | `replace(/[^0-9]/g, '')` leaves digits only |
| Hotels.NoDigits | lib/hotel-service.ts:88 | a line with no digit gives "" (rate 0) |
| Hotels.RateOfPriceLine | lib/hotel-service.ts:88 | a price line with one number and digit-free text around it gives that number |
| Hotels.Amenities | lib/hotel-service.ts:91 | no amenities exactly when the sixth line is missing |
| Hotels.AmenitiesRoundTrip | lib/hotel-service.ts:91 | amenities written comma-separated read back |
| Hotels.ParseFloat | lib/hotel-service.ts:89 | `parseFloat` of blank text is NaN |
| Hotels.ParseFloatLeadingSpace | lib/hotel-service.ts:89 | white space before the number is skipped |
| Hotels.ParseFloatUnsigned | lib/hotel-service.ts:89 | a text starting with a digit or a point reads as its decimal literal, or NaN |
| Hotels.ParseFloatNegated | lib/hotel-service.ts:89 | a minus sign before a digit or a point negates the literal that follows, and leaves NaN alone |
| Hotels.ParseFloatWhole | lib/hotel-service.ts:89 | a whole number reads as itself, whatever non-numeric text follows |
| Hotels.UnsignedPointed | lib/hotel-service.ts:89 | "N.DD" reads as N plus the fraction |
| Hotels.ParseFloatNaN | lib/hotel-service.ts:89 | a text with no sign, digit, point or "Infinity" reads as NaN |
| Hotels.MissingRating | lib/hotel-service.ts:89 | a record without a rating line is rated 0 |
| Hotels.Rate | lib/hotel-service.ts:104 | the rate is the nightly rate when present and positive, else 200 |
| Hotels.CeilDiv | lib/hotel-service.ts:108 | `Math.ceil(a / b)` is the least r with a ≤ r·b |
| Hotels.Nights | lib/hotel-service.ts:107-109 | at least one night; the whole days rounded up for a valid range; one night otherwise |
| Hotels.TotalPerNight | lib/hotel-service.ts:111-119 | with no nights the total is the service fee of 50; each further night adds the rate with 15% tax and the resort fee of 25 |
| Hotels.CalculateTotalPrice | lib/hotel-service.ts:102-120 | the total is at least one night's rate with tax plus 75 in fees |
| Hotels.TotalIncreasing | lib/hotel-service.ts:111-119 | at a positive rate the total is strictly increasing in the nights |
| Hotels.LongerStayCostsMore | lib/hotel-service.ts:102-120 | at the same rate, a stay of more nights costs more |

## Left out

- The OpenAI client, the `fetch` calls of the three services, their
  `response.ok` and JSON handling and the unused Duffel client are not
  modelled. A reply is an input: the reply text, or a transport failure's
  message. An empty text stands for a missing `content`.
- The long system-prompt and service-prompt literals are not modelled. Only
  the per-item rendering of the advice request is.
- JSX rendering, the cards, the modals, the sidebar and the layout are not
  modelled. The Apply button's visibility is the predicate
  `Dialog.ApplyVisible`.
- `Date.now()` is read once per chosen item inside the `map`. The readings
  are a parameter of `SelectItinerary`, one per item. Dates in
  `calculateTotalPrice` are integer milliseconds, and an invalid `Date` is
  `None`.
- Text.Lower: lower-cases ASCII letters only. JavaScript's full Unicode case
  mapping is not modelled.
- TimeFormat.ToNumber: reads a digit string ("" as 0) as its value and
  anything else as NaN. JavaScript's `Number` also reads the `0x`, `0o` and
  `0b` prefixes and the exponent form, which all survive cleaning. So
  `formatTime("0x1a pm")` is "26:00" in JavaScript and "NaN:00" here, and
  "1e2" reads as 100 in JavaScript. These forms are not modelled.
- TimeFormat.ToNumber: keeps the exact value of a digit string. JavaScript
  rounds values above 2^53 to the nearest double. Its `toString` also
  prints values of 10^21 or more (22 digits and up) in exponent form. The
  model prints every digit.
- Hotels.NightlyRate: `parseInt` of the digits keeps their exact value.
  JavaScript rounds values above 2^53 to the nearest double.
- Hotels.ParseFloatUnsigned: the value is an exact real, not the nearest
  double. Rounding and overflow to `Infinity` are not modelled.
- Hotels.Total: exact real arithmetic. Floating-point rounding of the 15% tax
  is not modelled.
- `calculateTotalPrice`'s `nightlyRate` is `None` for a missing, null or NaN
  rate.
- Async ordering in `fetchAdvice` (a stale reply arriving after the dialog
  closed) is not modelled. A fetch is one atomic transition.
- Console logging and toasts are not modelled.
- The "Failed to parse AI response format" error of `getItineraryAdvice` is
  not modelled. The per-line parser catches its own errors, and nothing else
  in an alternative's parsing can throw, so that error is unreachable.
- Two copies of the advice dialog are rendered. The planner's copy
  (`components/TravelPlanner.tsx`) gets `onSelectItinerary`. The sidebar's
  copy (`components/Sidebar.tsx`) does not, so a selection there passes
  nothing on. `HandleSelect` takes whether the callback is present as its
  `hasCallback` parameter. Each copy is a separate `Dialog` with its own
  fetch. Both copies open on the same `showAdvice` flag, and that pairing is
  not modelled.
- Dialog.HandleSelect: requires advice to be present, and an alternative's
  index to be in range, whenever an index is given to a dialog with the
  callback. The rows it is called from exist only then.
- Planner.TravelPlanner.OnDragEnd: requires the source index to lie inside
  the source list, as the drag-and-drop library guarantees.
