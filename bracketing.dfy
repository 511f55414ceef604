/** `preprocessItinerary` from the itinerary advisor: puts the arrival flight
    first and the departure flight last. */
module Bracketing {
  import opened Wrappers
  import opened Text
  import opened Itinerary
  import Seqs

  predicate IsFlight(item: Item) {
    item.kind == "travel"
  }

  /** A flight whose lower-cased title mentions "sf > paris" or "arrival". */
  predicate IsArrival(item: Item) {
    Contains(Lower(item.title), "sf > paris") || Contains(Lower(item.title), "arrival")
  }

  /** A flight whose lower-cased title mentions "paris > sf" or "departure". */
  predicate IsDeparture(item: Item) {
    Contains(Lower(item.title), "paris > sf") || Contains(Lower(item.title), "departure")
  }

  predicate IsArrivalFlight(item: Item) {
    IsFlight(item) && IsArrival(item)
  }

  predicate IsDepartureFlight(item: Item) {
    IsFlight(item) && IsDeparture(item)
  }

  predicate IsGround(item: Item) {
    !IsFlight(item)
  }

  /** Both an arrival flight and a departure flight can be identified. */
  predicate HasBrackets(items: seq<Item>) {
    (exists i :: 0 <= i < |items| && IsArrivalFlight(items[i])) &&
    (exists i :: 0 <= i < |items| && IsDepartureFlight(items[i]))
  }

  /** The first arrival flight of `items`. */
  function FirstArrival(items: seq<Item>): Item
    requires exists i :: 0 <= i < |items| && IsArrivalFlight(items[i])
  {
    items[Seqs.FindIndex(items, IsArrivalFlight).value]
  }

  /** The first departure flight of `items`. */
  function FirstDeparture(items: seq<Item>): Item
    requires exists i :: 0 <= i < |items| && IsDepartureFlight(items[i])
  {
    items[Seqs.FindIndex(items, IsDepartureFlight).value]
  }

  /** `preprocessItinerary`: the arrival flight, the middle, the departure
      flight, when both flights are found; the items unchanged otherwise. */
  function PreprocessItinerary(items: seq<Item>): (r: seq<Item>)
    ensures forall k :: 0 <= k < |r| ==> r[k] in items
    ensures r != items ==> |r| >= 2 && IsArrivalFlight(r[0]) && IsDepartureFlight(r[|r| - 1])
    ensures r != items ==> forall k :: 0 < k < |r| - 1 ==> !IsFlight(r[k])
  {
    var flights := Seqs.Filter(items, IsFlight);
    Seqs.FilterMembers(items, IsFlight);
    var arrival := Seqs.Find(flights, IsArrival);
    var departure := Seqs.Find(flights, IsDeparture);
    if arrival.None? || departure.None? then items
    else
      var m := Middle(items, arrival.value, departure.value);
      MiddleItems(items, arrival.value, departure.value);
      var r := [arrival.value] + m + [departure.value];
      assert forall k :: 0 < k < |r| - 1 ==> r[k] == m[k - 1];
      r
  }

  /** With both flights found, the result is the first arrival flight, then
      every non-flight item whose title is neither flight's title, in order,
      then the first departure flight; every other flight is dropped.  Without
      both flights the items come back unchanged. */
  lemma PreprocessShape(items: seq<Item>)
    ensures var r := PreprocessItinerary(items);
            && (!HasBrackets(items) ==> r == items)
            && (HasBrackets(items) ==>
                  && |r| >= 2
                  && r[0] == FirstArrival(items)
                  && r[|r| - 1] == FirstDeparture(items)
                  && r[1..|r| - 1] == Middle(items, r[0], r[|r| - 1]))
  {
    FlightSearch(items);
    if HasBrackets(items) {
      var r := PreprocessItinerary(items);
      var a, d := FirstArrival(items), FirstDeparture(items);
      assert r == [a] + Middle(items, a, d) + [d];
      assert r[1..|r| - 1] == Middle(items, a, d);
    }
  }

  /** The non-flight items whose title is neither `a`'s nor `d`'s, in order. */
  function Middle(items: seq<Item>, a: Item, d: Item): seq<Item> {
    var nonFlights := Seqs.Filter(items, IsGround);
    Seqs.Filter(nonFlights, (item: Item) => item.title != a.title && item.title != d.title)
  }

  /** The middle holds exactly the non-flight items of `items` whose title is
      neither flight's title. */
  lemma MiddleItems(items: seq<Item>, a: Item, d: Item)
    ensures var m := Middle(items, a, d);
            && (forall k :: 0 <= k < |m| ==>
                  m[k] in items && !IsFlight(m[k]) && m[k].title != a.title && m[k].title != d.title)
            && (forall i :: 0 <= i < |items| && !IsFlight(items[i]) &&
                             items[i].title != a.title && items[i].title != d.title ==>
                  items[i] in m)
  {
    var nonFlights := Seqs.Filter(items, IsGround);
    var keep := (item: Item) => item.title != a.title && item.title != d.title;
    var m := Middle(items, a, d);
    assert m == Seqs.Filter(nonFlights, keep);
    Seqs.FilterMembers(items, IsGround);
    Seqs.FilterMembers(nonFlights, keep);
    forall i | 0 <= i < |items| && !IsFlight(items[i]) &&
               items[i].title != a.title && items[i].title != d.title
      ensures items[i] in m
    {
      assert IsGround(items[i]);
      assert items[i] in nonFlights;
      var j :| 0 <= j < |nonFlights| && nonFlights[j] == items[i];
    }
  }

  /** The flight searches over the filtered flights find the same flights as a
      search over the whole itinerary. */
  lemma FlightSearch(items: seq<Item>)
    ensures var flights := Seqs.Filter(items, IsFlight);
            && ((exists i :: 0 <= i < |items| && IsArrivalFlight(items[i])) <==> Seqs.Find(flights, IsArrival).Some?)
            && ((exists i :: 0 <= i < |items| && IsDepartureFlight(items[i])) <==> Seqs.Find(flights, IsDeparture).Some?)
            && ((exists i :: 0 <= i < |items| && IsArrivalFlight(items[i])) ==>
                  Seqs.Find(flights, IsArrival) == Some(FirstArrival(items)))
            && ((exists i :: 0 <= i < |items| && IsDepartureFlight(items[i])) ==>
                  Seqs.Find(flights, IsDeparture) == Some(FirstDeparture(items)))
  {
    Seqs.FindFiltered(items, IsFlight, IsArrival, IsArrivalFlight);
    Seqs.FindFiltered(items, IsFlight, IsDeparture, IsDepartureFlight);
  }
}
