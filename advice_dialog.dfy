/** The advice dialog: the minutes-since-midnight sort key, the list shown for
    each alternative (the pinned items plus the non-conflicting suggestions,
    sorted by time), and the dialog's loading/error/advice/selection state. */
module AdviceDialog {
  import opened Wrappers
  import opened Text
  import opened Itinerary
  import opened TimeFormat
  import opened AdviceParser
  import Seqs

  // ---------------------------------------------------------------------------
  // The sort key

  predicate IsDigitOrColon(c: char) {
    IsDigit(c) || c == ':'
  }

  /** `Number(part) || 0`: NaN and 0 both read as 0. */
  function OrZero(n: JsNumber): nat {
    match n
    case NaN => 0
    case Num(v) => v
  }

  /** `getTimeValue`: everything but digits and colons is dropped, then the
      hours before the first colon and the minutes after it give
      hours * 60 + minutes, a missing part counting as 0. */
  function TimeValue(time: string): (v: nat)
    ensures time == "" ==> v == 0
  {
    if time == "" then 0
    else
      var clean := Seqs.Filter(time, IsDigitOrColon);
      var parts := SplitBy(Literal(":"), clean);
      OrZero(ToNumber(parts[0])) * 60 + (if |parts| >= 2 then OrZero(ToNumber(parts[1])) else 0)
  }

  /** A clock text holds only digits and the colon, so cleaning keeps it whole. */
  lemma ClockClean(hs: string, ms: string)
    requires AllDigits(hs) && AllDigits(ms)
    ensures Seqs.Filter(hs + ":" + ms, IsDigitOrColon) == hs + ":" + ms
  {
    var text := hs + ":" + ms;
    forall i | 0 <= i < |text| ensures IsDigitOrColon(text[i]) {
      if i < |hs| {
        assert text[i] == hs[i];
      } else if i > |hs| {
        assert text[i] == ms[i - |hs| - 1];
      }
    }
    Seqs.FilterKeepsAll(text, IsDigitOrColon);
  }

  /** Cleaning drops surrounding text that holds no digit and no colon, and
      keeps a middle made of digits and colons whole. */
  lemma CleanedTo(before: string, mid: string, after: string)
    requires forall i :: 0 <= i < |before| ==> !IsDigitOrColon(before[i])
    requires forall i :: 0 <= i < |mid| ==> IsDigitOrColon(mid[i])
    requires forall i :: 0 <= i < |after| ==> !IsDigitOrColon(after[i])
    ensures Seqs.Filter(before + mid + after, IsDigitOrColon) == mid
  {
    Seqs.FilterAppend(before + mid, after, IsDigitOrColon);
    Seqs.FilterAppend(before, mid, IsDigitOrColon);
    Seqs.FilterDropsAll(before, IsDigitOrColon);
    Seqs.FilterKeepsAll(mid, IsDigitOrColon);
    Seqs.FilterDropsAll(after, IsDigitOrColon);
  }

  /** "H:M" inside any text without other digits or colons ("2:30 PM",
      ":30") is worth H * 60 + M minutes, an empty part counting as 0. */
  lemma TimeValueOfParts(before: string, hs: string, ms: string, after: string)
    requires forall i :: 0 <= i < |before| ==> !IsDigitOrColon(before[i])
    requires AllDigits(hs) && AllDigits(ms)
    requires forall i :: 0 <= i < |after| ==> !IsDigitOrColon(after[i])
    ensures TimeValue(before + hs + ":" + ms + after) == DigitsValue(hs) * 60 + DigitsValue(ms)
  {
    var clock := hs + ":" + ms;
    forall i | 0 <= i < |clock| ensures IsDigitOrColon(clock[i]) {
      if i < |hs| {
        assert clock[i] == hs[i];
      } else if i > |hs| {
        assert clock[i] == ms[i - |hs| - 1];
      }
    }
    assert before + hs + ":" + ms + after == before + clock + after;
    CleanedTo(before, clock, after);
    ClockSplit(hs, ms);
  }

  /** Digits with no colon inside any text without other digits or colons
      ("14", "14h") are hours only; no digit at all ("TBD") reads as 0. */
  lemma TimeValueHoursOnly(before: string, hs: string, after: string)
    requires forall i :: 0 <= i < |before| ==> !IsDigitOrColon(before[i])
    requires AllDigits(hs)
    requires forall i :: 0 <= i < |after| ==> !IsDigitOrColon(after[i])
    ensures TimeValue(before + hs + after) == DigitsValue(hs) * 60
  {
    forall i | 0 <= i < |hs| ensures IsDigitOrColon(hs[i]) {
      assert IsDigit(hs[i]);
    }
    CleanedTo(before, hs, after);
    DigitsNoColon(hs);
    SplitOnCharNone(':', hs);
  }

  /** A clock text "H:MM" is read as H * 60 + M minutes. */
  lemma ClockTimeValue(h: nat, m: nat)
    ensures TimeValue(NatToString(h) + ":" + PadStart2(NatToString(m))) == h * 60 + m
  {
    var hs, ms := NatToString(h), PadStart2(NatToString(m));
    PaddedValue(NatToString(m));
    NatToStringValue(h);
    NatToStringValue(m);
    ClockClean(hs, ms);
    ClockSplit(hs, ms);
    assert hs + ":" + ms != "";
  }

  // ---------------------------------------------------------------------------
  // The combined list of an alternative

  /** `pinnedItems.some(pinned => pinned.time === item.time && pinned.title !== item.title)`. */
  function Conflicts(pinned: seq<Item>, item: Item): (b: bool)
    ensures b <==> exists k :: 0 <= k < |pinned| && pinned[k].time == item.time && pinned[k].title != item.title
  {
    if pinned == [] then false
    else (pinned[0].time == item.time && pinned[0].title != item.title) || Conflicts(pinned[1..], item)
  }

  /** The alternative's items that clash with no pinned item, in order. */
  function Kept(pinned: seq<Item>, items: seq<Item>): seq<Item> {
    Seqs.Filter(items, (item: Item) => !Conflicts(pinned, item))
  }

  /** An alternative's item is left out exactly when a pinned item has the
      same raw time and another title. */
  lemma KeptIff(pinned: seq<Item>, items: seq<Item>, i: nat)
    requires i < |items|
    ensures items[i] in Kept(pinned, items) <==> !Conflicts(pinned, items[i])
  {
    var keep := (item: Item) => !Conflicts(pinned, item);
    Seqs.FilterMembers(items, keep);
    var kept := Seqs.Filter(items, keep);
    if items[i] in kept {
      var k :| 0 <= k < |kept| && kept[k] == items[i];
    }
  }

  /** `getTimeValue(item.time)`, the key the list is sorted by. */
  function Key(item: Item): nat {
    TimeValue(item.time)
  }

  predicate SortedBy<T>(s: seq<T>, key: T -> int) {
    forall i, j :: 0 <= i < j < |s| ==> key(s[i]) <= key(s[j])
  }

  /** Puts `x` in front of the first element whose key is at least its own. */
  function Insert<T>(x: T, s: seq<T>, key: T -> int): (r: seq<T>)
    ensures multiset(r) == multiset(s) + multiset{x}
    ensures |r| == |s| + 1
  {
    if s == [] || key(x) <= key(s[0]) then [x] + s
    else
      assert s == [s[0]] + s[1..];
      [s[0]] + Insert(x, s[1..], key)
  }

  /** Inserting into a sorted list keeps it sorted. */
  lemma {:induction false} InsertSorted<T>(x: T, s: seq<T>, key: T -> int)
    requires SortedBy(s, key)
    ensures SortedBy(Insert(x, s, key), key)
  {
    if s != [] && key(x) > key(s[0]) {
      InsertSorted(x, s[1..], key);
      var rest := Insert(x, s[1..], key);
      var r := Insert(x, s, key);
      assert r == [s[0]] + rest;
      assert key(s[0]) <= key(rest[0]) by {
        if s[1..] == [] || key(x) <= key(s[1..][0]) {
          assert rest[0] == x;
        } else {
          assert rest[0] == s[1];
        }
      }
      forall i, j | 0 <= i < j < |r| ensures key(r[i]) <= key(r[j]) {
        if i == 0 {
          assert key(rest[0]) <= key(rest[j - 1]);
        }
      }
    }
  }

  /** `sort((a, b) => key(a) - key(b))`, a stable sort (an insertion sort). */
  function SortBy<T>(s: seq<T>, key: T -> int): (r: seq<T>)
    ensures multiset(r) == multiset(s)
    ensures |r| == |s|
  {
    if s == [] then []
    else
      assert s == [s[0]] + s[1..];
      Insert(s[0], SortBy(s[1..], key), key)
  }

  /** The sorted list is non-decreasing in its keys. */
  lemma {:induction false} SortSorted<T>(s: seq<T>, key: T -> int)
    ensures SortedBy(SortBy(s, key), key)
  {
    if s != [] {
      SortSorted(s[1..], key);
      InsertSorted(s[0], SortBy(s[1..], key), key);
    }
  }

  /** The elements with key `k`, in order. */
  function WithKey<T>(s: seq<T>, key: T -> int, k: int): seq<T> {
    Seqs.Filter(s, (x: T) => key(x) == k)
  }

  /** Inserting keeps the order among the elements of each key, the inserted
      element going first among those of its own key. */
  lemma {:induction false} InsertStable<T>(x: T, s: seq<T>, key: T -> int, k: int)
    requires SortedBy(s, key)
    ensures WithKey(Insert(x, s, key), key, k) == WithKey([x] + s, key, k)
  {
    var p := (y: T) => key(y) == k;
    if s != [] && key(x) > key(s[0]) {
      InsertStable(x, s[1..], key, k);
      var head := [s[0]];
      Seqs.FilterAppend(head, Insert(x, s[1..], key), p);
      Seqs.FilterAppend([x], s[1..], p);
      Seqs.FilterAppend([x], s, p);
      Seqs.FilterAppend(head, s[1..], p);
      assert s == head + s[1..];
      assert head[1..] == [] && [x][1..] == [];
      if key(x) == k {
        assert Seqs.Filter(head, p) == [];
      }
    }
  }

  /** The sort is stable: the elements of each key keep their input order. */
  lemma {:induction false} SortStable<T>(s: seq<T>, key: T -> int, k: int)
    ensures WithKey(SortBy(s, key), key, k) == WithKey(s, key, k)
  {
    if s != [] {
      SortStable(s[1..], key, k);
      SortSorted(s[1..], key);
      InsertStable(s[0], SortBy(s[1..], key), key, k);
      var p := (y: T) => key(y) == k;
      Seqs.FilterAppend([s[0]], SortBy(s[1..], key), p);
      Seqs.FilterAppend([s[0]], s[1..], p);
      assert s == [s[0]] + s[1..];
    }
  }

  /** The list shown for one alternative: the original's pinned items and the
      alternative's non-conflicting items, sorted by time. */
  function CombinedItems(original: seq<Item>, alternative: seq<Item>): (r: seq<Item>)
    ensures multiset(r) == multiset(Seqs.Filter(original, IsPinned)) +
                           multiset(Kept(Seqs.Filter(original, IsPinned), alternative))
  {
    var pinned := Seqs.Filter(original, IsPinned);
    SortBy(pinned + Kept(pinned, alternative), Key)
  }

  /** The shown list is in time order, and items at the same time keep the
      order they had (pinned items first, then the alternative's). */
  lemma CombinedOrdered(original: seq<Item>, alternative: seq<Item>, k: nat)
    ensures SortedBy(CombinedItems(original, alternative), Key)
    ensures var pinned := Seqs.Filter(original, IsPinned);
            WithKey(CombinedItems(original, alternative), Key, k) == WithKey(pinned + Kept(pinned, alternative), Key, k)
  {
    var pinned := Seqs.Filter(original, IsPinned);
    SortSorted(pinned + Kept(pinned, alternative), Key);
    SortStable(pinned + Kept(pinned, alternative), Key, k);
  }

  /** Every pinned item of the original itinerary is shown in every alternative. */
  lemma PinnedShown(original: seq<Item>, alternative: seq<Item>, i: nat)
    requires i < |original| && original[i].isPinned
    ensures original[i] in CombinedItems(original, alternative)
  {
    var pinned := Seqs.Filter(original, IsPinned);
    Seqs.FilterMembers(original, IsPinned);
    assert original[i] in pinned;
    assert original[i] in multiset(CombinedItems(original, alternative));
  }

  /** A suggested item identical to a pinned one, with no other pinned item
      at its time under another title, is shown twice. */
  lemma PinnedDuplicate(original: seq<Item>, alternative: seq<Item>, i: nat, j: nat)
    requires i < |original| && original[i].isPinned
    requires j < |alternative| && alternative[j] == original[i]
    requires !Conflicts(Seqs.Filter(original, IsPinned), original[i])
    ensures multiset(CombinedItems(original, alternative))[original[i]] >= 2
  {
    var pinned := Seqs.Filter(original, IsPinned);
    Seqs.FilterMembers(original, IsPinned);
    assert original[i] in pinned;
    KeptIff(pinned, alternative, j);
    assert original[i] in Kept(pinned, alternative);
  }

  // ---------------------------------------------------------------------------
  // The dialog's state

  class Dialog {
    var loading: bool
    var error: Option<string>
    var advice: Option<Advice>
    var selectedIndex: Option<int>

    constructor()
      ensures !loading && error.None? && advice.None? && selectedIndex.None?
    {
      loading := false;
      error := None;
      advice := None;
      selectedIndex := None;
    }

    /** `error` is truthy: a message was set and it is not empty. */
    predicate HasError()
      reads this
    {
      error.Some? && error.value != ""
    }

    /** The "Apply Selected Itinerary" button is shown: a row is selected and
        no error shows (an empty message counts as none). */
    predicate ApplyVisible()
      reads this
      ensures ApplyVisible() ==> selectedIndex.Some? && (error.None? || error == Some(""))
    {
      selectedIndex.Some? && !HasError()
    }

    /** The start of `fetchAdvice`: loading, no error. */
    method BeginFetch()
      modifies this
      ensures loading && error.None?
      ensures advice == old(advice) && selectedIndex == old(selectedIndex)
    {
      loading := true;
      error := None;
    }

    /** The end of `fetchAdvice`: the parsed advice, or the error's message
        (`reply` is the request's outcome: a transport failure's message or
        the reply text), and loading over either way. */
    method EndFetch(agenda: seq<Item>, reply: Result<string, string>)
      modifies this
      ensures !loading
      ensures reply.Failure? ==> error == Some(reply.error) && advice == old(advice)
      ensures reply.Success? && ParseAdvice(agenda, reply.value).Success? ==>
                advice == Some(ParseAdvice(agenda, reply.value).value) && error == old(error)
      ensures reply.Success? && ParseAdvice(agenda, reply.value).Failure? ==>
                error == Some(ParseAdvice(agenda, reply.value).error.Message()) && advice == old(advice)
      ensures selectedIndex == old(selectedIndex)
    {
      if reply.Failure? {
        error := Some(reply.error);
      } else {
        var outcome := ParseAdvice(agenda, reply.value);
        if outcome.Success? {
          advice := Some(outcome.value);
        } else {
          error := Some(outcome.error.Message());
        }
      }
      loading := false;
    }

    /** `fetchAdvice` as one step: it ends with loading over and exactly one of
        the advice or the error set by it. */
    method FetchAdvice(agenda: seq<Item>, reply: Result<string, string>)
      modifies this
      ensures !loading
      ensures reply.Failure? ==> error == Some(reply.error) && advice == old(advice)
      ensures reply.Success? && ParseAdvice(agenda, reply.value).Success? ==>
                advice == Some(ParseAdvice(agenda, reply.value).value) && error.None?
      ensures reply.Success? && ParseAdvice(agenda, reply.value).Failure? ==>
                error == Some(ParseAdvice(agenda, reply.value).error.Message()) && advice == old(advice)
      ensures selectedIndex == old(selectedIndex)
    {
      BeginFetch();
      EndFetch(agenda, reply);
    }

    /** The open/close effect: opening with neither advice nor a (non-empty)
        error message fetches;
        closing clears the selection, the advice and the error, and leaves
        `loading` alone. */
    method Effect(open: bool, agenda: seq<Item>, reply: Result<string, string>)
      modifies this
      ensures !open ==> selectedIndex.None? && advice.None? && error.None? && !ApplyVisible()
      ensures !open ==> loading == old(loading)
      ensures open && old(advice).None? && !old(HasError()) ==>
                !loading && selectedIndex == old(selectedIndex) &&
                (reply.Failure? ==> error == Some(reply.error) && advice.None?) &&
                (reply.Success? ==> match ParseAdvice(agenda, reply.value)
                                    case Success(a) => advice == Some(a) && error.None?
                                    case Failure(e) => error == Some(e.Message()) && advice.None?)
      ensures open && (old(advice).Some? || old(HasError())) ==>
                loading == old(loading) && error == old(error) && advice == old(advice) &&
                selectedIndex == old(selectedIndex)
    {
      if open && advice.None? && !HasError() {
        FetchAdvice(agenda, reply);
      }
      if !open {
        selectedIndex := None;
        advice := None;
        error := None;
      }
    }

    /** A click on a row: the selection is always recorded. When the dialog
        was given an `onSelectItinerary` callback (`hasCallback`), -1 passes on
        the original itinerary, `i` the items of alternative `i` as parsed (not
        the combined list shown), and no index nothing; a dialog without the
        callback passes nothing on. */
    method HandleSelect(index: Option<int>, hasCallback: bool) returns (passed: Option<seq<Item>>)
      modifies this
      requires index.Some? && hasCallback ==> advice.Some?
      requires index.Some? && hasCallback && index.value != -1 ==>
                 0 <= index.value < |advice.value.alternativeItineraries|
      ensures loading == old(loading) && error == old(error) && advice == old(advice)
      ensures selectedIndex == index
      ensures ApplyVisible() <==> index.Some? && !HasError()
      ensures index.None? || !hasCallback ==> passed.None?
      ensures hasCallback && index == Some(-1) ==> passed == Some(advice.value.originalItinerary)
      ensures hasCallback && index.Some? && index.value != -1 ==>
                passed == Some(advice.value.alternativeItineraries[index.value].items)
    {
      selectedIndex := index;
      if index.None? || !hasCallback {
        passed := None;
      } else if index.value == -1 {
        passed := Some(advice.value.originalItinerary);
      } else {
        passed := Some(advice.value.alternativeItineraries[index.value].items);
      }
    }
  }
}
