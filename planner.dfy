/** The planner's state: the agenda shown on the board and the queue of search
    results in the sidebar, with the drag-and-drop, pin, delete, add and
    replace operations of `TravelPlanner`. */
module Planner {
  import opened Wrappers
  import opened Text
  import opened Itinerary
  import Seqs

  /** The two drop zones, "agenda" and "queue". */
  datatype ListId = AgendaList | QueueList

  /** A position reported by the drag-and-drop library. */
  datatype Location = Location(list: ListId, index: nat)

  /** The agenda the planner starts with: the two flights, the hotel and two
      activities of the Paris trip, numbered "1" to "5" in order, so the first
      card added to it gets the fresh id "6". */
  function InitialAgenda(): (r: seq<AgendaItem>)
    ensures |r| == 5
    ensures forall i :: 0 <= i < |r| ==> r[i].id == NatToString(i + 1)
  {
    assert NatToString(1) == "1" && NatToString(2) == "2" && NatToString(3) == "3";
    assert NatToString(4) == "4" && NatToString(5) == "5";
    [ AgendaItem("1", "Flight SF > Paris", "travel", "10:00", "Air France Flight AF1234", true,
        Some(NoDetails.(airline := Some("Air France"), departureTime := Some("10:00 AM"),
                        arrivalTime := Some("11:30 PM"), price := Some("$1,249"), duration := Some("8h 30m")))),
      AgendaItem("2", "Le Grand Hotel Paris", "hotel", "12:30", "Check-in at the hotel", true,
        Some(NoDetails.(checkIn := Some("March 1, 2024"), checkOut := Some("March 7, 2024"),
                        price := Some("$4,800")))),
      AgendaItem("3", "Louvre Museum Tour", "activity", "14:00", "Guided tour of the world's largest art museum", false,
        Some(NoDetails.(date := Some("March 2, 2024"), time := Some("14:00"),
                        description := Some("Guided tour of the world's largest art museum"), price := Some("$79")))),
      AgendaItem("4", "Seine River Cruise", "activity", "19:00", "Romantic dinner cruise along the Seine", false,
        Some(NoDetails.(date := Some("March 2, 2024"), time := Some("19:00"),
                        description := Some("Romantic dinner cruise along the Seine"), price := Some("$189")))),
      AgendaItem("5", "Flight Paris > SF", "travel", "15:00", "Air France Flight AF1235", true,
        Some(NoDetails.(airline := Some("Air France"), departureTime := Some("3:00 PM"),
                        arrivalTime := Some("4:30 AM"), price := Some("$1,149"), duration := Some("8h 30m")))) ]
  }

  // ---------------------------------------------------------------------------
  // The pure list updates

  /** `x || fallback` on an optional string. */
  function OrDefault(x: Option<string>, fallback: string): (r: string)
    ensures x.Some? && x.value != "" ==> r == x.value
    ensures x.None? || x.value == "" ==> r == fallback
    ensures fallback != "" ==> r != ""
  {
    if x.Some? && x.value != "" then x.value else fallback
  }

  /** The agenda item made from a queue item dropped on the agenda: same id,
      title, type and details, unpinned, with the description and time taken
      from the details or defaulted. */
  function FromQueue(q: QueueItem): (a: AgendaItem)
    ensures a.id == q.id && a.title == q.title && a.kind == q.kind && a.details == q.details
    ensures !a.isPinned
    ensures a.description == OrDefault(if q.details.Some? then q.details.value.description else None, "Add description here")
    ensures a.time == OrDefault(if q.details.Some? then q.details.value.time else None, "00:00")
    ensures a.description != "" && a.time != ""
  {
    var description := if q.details.Some? then q.details.value.description else None;
    var time := if q.details.Some? then q.details.value.time else None;
    AgendaItem(q.id, q.title, q.kind, OrDefault(time, "00:00"), OrDefault(description, "Add description here"),
               false, q.details)
  }

  /** `agenda.map(item => item.id === id ? { ...item, isPinned: !item.isPinned } : item)`. */
  function Toggled(agenda: seq<AgendaItem>, id: string): (r: seq<AgendaItem>)
    ensures |r| == |agenda|
    ensures forall i :: 0 <= i < |r| ==> r[i].isPinned == (agenda[i].isPinned != (agenda[i].id == id))
    ensures forall i :: 0 <= i < |r| ==> r[i].(isPinned := agenda[i].isPinned) == agenda[i]
  {
    Seqs.Map((item: AgendaItem) => if item.id == id then item.(isPinned := !item.isPinned) else item, agenda)
  }

  /** Toggling the same id twice gives the agenda back. */
  lemma ToggleTwice(agenda: seq<AgendaItem>, id: string)
    ensures Toggled(Toggled(agenda, id), id) == agenda
  {
    var once := Toggled(agenda, id);
    var twice := Toggled(once, id);
    forall i | 0 <= i < |agenda| ensures twice[i] == agenda[i] {
      assert once[i].id == agenda[i].id by {
        assert once[i].(isPinned := agenda[i].isPinned) == agenda[i];
      }
      assert twice[i].(isPinned := once[i].isPinned) == once[i];
      assert twice[i].(isPinned := agenda[i].isPinned) == agenda[i];
    }
  }

  /** `agenda.filter(item => item.id !== id)`. */
  function AgendaWithout(agenda: seq<AgendaItem>, id: string): (r: seq<AgendaItem>)
    ensures |r| <= |agenda|
    ensures forall i :: 0 <= i < |r| ==> r[i] in agenda && r[i].id != id
    ensures forall i :: 0 <= i < |agenda| && agenda[i].id != id ==> agenda[i] in r
  {
    var keep := (item: AgendaItem) => item.id != id;
    Seqs.FilterMembers(agenda, keep);
    Seqs.Filter(agenda, keep)
  }

  /** `queue.filter(item => item.id !== id)`. */
  function QueueWithout(queue: seq<QueueItem>, id: string): (r: seq<QueueItem>)
    ensures |r| <= |queue|
    ensures forall i :: 0 <= i < |r| ==> r[i] in queue && r[i].id != id
    ensures forall i :: 0 <= i < |queue| && queue[i].id != id ==> queue[i] in r
  {
    var keep := (item: QueueItem) => item.id != id;
    Seqs.FilterMembers(queue, keep);
    Seqs.Filter(queue, keep)
  }

  /** Removing an id no item carries changes nothing. */
  lemma AgendaWithoutAbsent(agenda: seq<AgendaItem>, id: string)
    requires forall i :: 0 <= i < |agenda| ==> agenda[i].id != id
    ensures AgendaWithout(agenda, id) == agenda
  {
    Seqs.FilterKeepsAll(agenda, (item: AgendaItem) => item.id != id);
  }

  /** Removing is done item by item: over two stretches it is the removal
      over each, in order. */
  lemma AgendaWithoutAppend(a: seq<AgendaItem>, b: seq<AgendaItem>, id: string)
    ensures AgendaWithout(a + b, id) == AgendaWithout(a, id) + AgendaWithout(b, id)
  {
    Seqs.FilterAppend(a, b, (item: AgendaItem) => item.id != id);
  }

  /** Removing from the queue is done item by item: over two stretches it is
      the removal over each, in order. */
  lemma QueueWithoutAppend(a: seq<QueueItem>, b: seq<QueueItem>, id: string)
    ensures QueueWithout(a + b, id) == QueueWithout(a, id) + QueueWithout(b, id)
  {
    Seqs.FilterAppend(a, b, (item: QueueItem) => item.id != id);
  }

  /** Queueing an item with a fresh id and removing that id gives the queue back. */
  lemma QueueAddRemove(queue: seq<QueueItem>, item: QueueItem)
    requires forall i :: 0 <= i < |queue| ==> queue[i].id != item.id
    ensures QueueWithout(queue + [item], item.id) == queue
  {
    var keep := (q: QueueItem) => q.id != item.id;
    Seqs.FilterAppend(queue, [item], keep);
    Seqs.FilterKeepsAll(queue, keep);
    assert Seqs.Filter([item], keep) == [] by {
      assert [item][1..] == [];
    }
  }

  /** The card `addCard` appends to an agenda of `count` items. */
  function NewCard(kind: CardType, count: nat): (a: AgendaItem)
    ensures a.id == NatToString(count + 1)
    ensures !a.isPinned && a.kind == kind.Name() && a.details.None?
    ensures a.title == "New " + kind.Name() + " item"
    ensures a.time == "00:00" && a.description == "Add description here"
  {
    AgendaItem(NatToString(count + 1), "New " + kind.Name() + " item", kind.Name(), "00:00",
               "Add description here", false, None)
  }

  /** On an agenda numbered "1", "2", … in order, the new card's id is fresh. */
  lemma NewCardFresh(agenda: seq<AgendaItem>, kind: CardType)
    requires forall i :: 0 <= i < |agenda| ==> agenda[i].id == NatToString(i + 1)
    ensures forall i :: 0 <= i < |agenda| ==> agenda[i].id != NewCard(kind, |agenda|).id
  {
    forall i | 0 <= i < |agenda| ensures agenda[i].id != NewCard(kind, |agenda|).id {
      NatToStringInjective(i + 1, |agenda| + 1);
    }
  }

  /** Deleting the first card's id from an agenda whose other cards carry
      other ids leaves exactly the rest of the agenda. */
  lemma AgendaWithoutHead(agenda: seq<AgendaItem>)
    requires |agenda| >= 1
    requires forall i :: 1 <= i < |agenda| ==> agenda[i].id != agenda[0].id
    ensures AgendaWithout(agenda, agenda[0].id) == agenda[1..]
  {
    var first, tail := [agenda[0]], agenda[1..];
    var id := agenda[0].id;
    assert agenda == first + tail;
    AgendaWithoutAppend(first, tail, id);
    assert AgendaWithout(first, id) == [] by {
      assert first[1..] == [];
    }
    assert forall i :: 0 <= i < |tail| ==> tail[i] == agenda[i + 1];
    AgendaWithoutAbsent(tail, id);
  }

  /** Numbering by length is not enough once a card has been deleted: on an
      agenda numbered "1" to "n" (the starting agenda is one), removing the
      first card and then adding one gives the new card the id "n", which
      the last card already has. */
  lemma AddAfterDeleteCollides(agenda: seq<AgendaItem>, kind: CardType)
    requires |agenda| >= 2
    requires forall i :: 0 <= i < |agenda| ==> agenda[i].id == NatToString(i + 1)
    ensures var rest := AgendaWithout(agenda, agenda[0].id);
            |rest| == |agenda| - 1 && rest[|rest| - 1] == agenda[|agenda| - 1]
            && NewCard(kind, |rest|).id == rest[|rest| - 1].id
  {
    forall i | 1 <= i < |agenda| ensures agenda[i].id != agenda[0].id {
      NatToStringInjective(i + 1, 1);
    }
    AgendaWithoutHead(agenda);
    assert agenda[|agenda| - 1].id == NatToString(|agenda|);
  }

  /** Deleting an unpinned card keeps every pinned card, as long as ids are
      distinct (a pinned card sharing the deleted card's id would go too). */
  lemma DeleteKeepsPinned(agenda: seq<AgendaItem>, index: nat)
    requires index < |agenda| && !agenda[index].isPinned
    requires forall i, j :: 0 <= i < j < |agenda| ==> agenda[i].id != agenda[j].id
    ensures forall j :: 0 <= j < |agenda| && agenda[j].isPinned ==>
              agenda[j] in AgendaWithout(agenda, agenda[index].id)
  {
    forall j | 0 <= j < |agenda| && agenda[j].isPinned
      ensures agenda[j] in AgendaWithout(agenda, agenda[index].id)
    {
      assert j != index;
      assert agenda[j].id != agenda[index].id;
    }
  }

  /** The id stamped on the item at `index` by `handleSelectItinerary`:
      "item-<now>-<index>". */
  function StampedId(now: nat, index: nat): string {
    "item-" + NatToString(now) + "-" + NatToString(index)
  }

  /** Two digit strings each followed by a dash cannot be told apart only
      when they are the same. */
  lemma {:induction false} DigitsDash(d1: string, r1: string, d2: string, r2: string)
    requires AllDigits(d1) && AllDigits(d2)
    requires d1 + "-" + r1 == d2 + "-" + r2
    ensures d1 == d2 && r1 == r2
  {
    assert (d1 + "-" + r1)[0] == if d1 == [] then '-' else d1[0];
    assert (d2 + "-" + r2)[0] == if d2 == [] then '-' else d2[0];
    if d1 == [] && d2 == [] {
      assert r1 == (d1 + "-" + r1)[1..];
      assert r2 == (d2 + "-" + r2)[1..];
    } else if d1 != [] && d2 != [] {
      assert (d1 + "-" + r1)[1..] == d1[1..] + "-" + r1;
      assert (d2 + "-" + r2)[1..] == d2[1..] + "-" + r2;
      DigitsDash(d1[1..], r1, d2[1..], r2);
      assert d1 == [d1[0]] + d1[1..];
      assert d2 == [d2[0]] + d2[1..];
    }
  }

  /** The stamp determines both the time and the index: ids stamped at one
      time are pairwise distinct, and ids stamped at two different times
      never meet. */
  lemma StampedIdInjective(now1: nat, i: nat, now2: nat, j: nat)
    requires StampedId(now1, i) == StampedId(now2, j)
    ensures now1 == now2 && i == j
  {
    var a, b := NatToString(now1), NatToString(now2);
    var x, y := NatToString(i), NatToString(j);
    assert "item-" + a + "-" + x == "item-" + (a + "-" + x);
    assert "item-" + b + "-" + y == "item-" + (b + "-" + y);
    assert a + "-" + x == ("item-" + (a + "-" + x))[5..];
    assert b + "-" + y == ("item-" + (b + "-" + y))[5..];
    DigitsDash(a, x, b, y);
    if now1 != now2 {
      NatToStringInjective(now1, now2);
    }
    if i != j {
      NatToStringInjective(i, j);
    }
  }

  /** `items.map((item, index) => ({ ...item, id: `item-${Date.now()}-${index}` }))`:
      the clock is read once per item, `nows[i]` being the reading for item `i`. */
  function Stamped(items: seq<Item>, nows: seq<nat>): (r: seq<AgendaItem>)
    requires |nows| == |items|
    ensures |r| == |items|
    ensures forall i :: 0 <= i < |r| ==> r[i].ToItem() == items[i] && r[i].id == StampedId(nows[i], i)
  {
    seq(|items|, i requires 0 <= i < |items| => WithId(items[i], StampedId(nows[i], i)))
  }

  /** The ids `handleSelectItinerary` gives are pairwise distinct, however the
      clock moves between two items: the index alone tells them apart. */
  lemma StampedDistinct(items: seq<Item>, nows: seq<nat>)
    requires |nows| == |items|
    ensures forall i, j :: 0 <= i < j < |items| ==> Stamped(items, nows)[i].id != Stamped(items, nows)[j].id
  {
    var r := Stamped(items, nows);
    forall i, j | 0 <= i < j < |items| ensures r[i].id != r[j].id {
      if r[i].id == r[j].id {
        StampedIdInjective(nows[i], i, nows[j], j);
      }
    }
  }

  // ---------------------------------------------------------------------------
  // The planner

  class TravelPlanner {
    var agenda: seq<AgendaItem>
    var queue: seq<QueueItem>

    constructor()
      ensures agenda == InitialAgenda() && queue == []
    {
      agenda := InitialAgenda();
      queue := [];
    }

    /** The end of a drag: nothing without a destination or for a pinned agenda
        item; a reorder within one list; a queue item becomes an agenda item;
        a drop from the agenda on the queue changes nothing. */
    method OnDragEnd(source: Location, destination: Option<Location>)
      modifies this
      requires source.list == QueueList ==> source.index < |queue|
      requires source.list == AgendaList ==> source.index < |agenda|
      ensures destination.None? ==> agenda == old(agenda) && queue == old(queue)
      ensures source.list == AgendaList && old(agenda)[source.index].isPinned ==>
                agenda == old(agenda) && queue == old(queue)
      ensures destination.Some? && source.list == QueueList && destination.value.list == QueueList ==>
                queue == Seqs.Move(old(queue), source.index, destination.value.index) && agenda == old(agenda)
      ensures destination.Some? && source.list == AgendaList && destination.value.list == AgendaList &&
              !old(agenda)[source.index].isPinned ==>
                agenda == Seqs.Move(old(agenda), source.index, destination.value.index) && queue == old(queue)
      ensures destination.Some? && source.list == QueueList && destination.value.list == AgendaList ==>
                && queue == Seqs.RemoveAt(old(queue), source.index)
                && agenda == Seqs.InsertAt(old(agenda), destination.value.index, FromQueue(old(queue)[source.index]))
      ensures destination.Some? && source.list == AgendaList && destination.value.list == QueueList ==>
                agenda == old(agenda) && queue == old(queue)
    {
      if destination.None? {
        return;
      }
      if source.list == AgendaList && agenda[source.index].isPinned {
        return;
      }
      var target := destination.value;
      if source.list == target.list {
        if source.list == QueueList {
          var items := queue;
          var moved := items[source.index];
          items := Seqs.RemoveAt(items, source.index);
          items := Seqs.InsertAt(items, target.index, moved);
          queue := items;
        } else {
          var items := agenda;
          var moved := items[source.index];
          items := Seqs.RemoveAt(items, source.index);
          items := Seqs.InsertAt(items, target.index, moved);
          agenda := items;
        }
      } else if source.list == QueueList && target.list == AgendaList {
        var queueItems := queue;
        var moved := queueItems[source.index];
        queueItems := Seqs.RemoveAt(queueItems, source.index);
        queue := queueItems;
        var agendaItems := agenda;
        agendaItems := Seqs.InsertAt(agendaItems, target.index, FromQueue(moved));
        agenda := agendaItems;
      }
    }

    /** Appends a new unpinned card numbered after the current length. */
    method AddCard(kind: CardType)
      modifies this
      ensures agenda == old(agenda) + [NewCard(kind, |old(agenda)|)]
      ensures queue == old(queue)
    {
      agenda := agenda + [NewCard(kind, |agenda|)];
    }

    method AddToQueue(item: QueueItem)
      modifies this
      ensures queue == old(queue) + [item]
      ensures agenda == old(agenda)
    {
      queue := queue + [item];
    }

    method RemoveFromQueue(id: string)
      modifies this
      ensures queue == QueueWithout(old(queue), id)
      ensures agenda == old(agenda)
    {
      queue := QueueWithout(queue, id);
    }

    method RemoveFromAgenda(id: string)
      modifies this
      ensures agenda == AgendaWithout(old(agenda), id)
      ensures queue == old(queue)
    {
      agenda := AgendaWithout(agenda, id);
    }

    method TogglePin(id: string)
      modifies this
      ensures agenda == Toggled(old(agenda), id)
      ensures queue == old(queue)
    {
      agenda := Toggled(agenda, id);
    }

    /** The delete action of the card at `index`: it removes the card's id
        only when the card is not pinned. */
    method DeleteCard(index: nat)
      modifies this
      requires index < |agenda|
      ensures old(agenda)[index].isPinned ==> agenda == old(agenda)
      ensures !old(agenda)[index].isPinned ==> agenda == AgendaWithout(old(agenda), old(agenda)[index].id)
      ensures queue == old(queue)
    {
      var item := agenda[index];
      if !item.isPinned {
        RemoveFromAgenda(item.id);
      }
    }

    /** Replaces the whole agenda with the chosen items, stamped with fresh,
        pairwise distinct ids; `nows` are the clock readings, one per item. */
    method SelectItinerary(items: seq<Item>, nows: seq<nat>)
      modifies this
      requires |nows| == |items|
      ensures agenda == Stamped(items, nows)
      ensures forall i, j :: 0 <= i < j < |agenda| ==> agenda[i].id != agenda[j].id
      ensures queue == old(queue)
    {
      StampedDistinct(items, nows);
      agenda := Stamped(items, nows);
    }
  }
}
