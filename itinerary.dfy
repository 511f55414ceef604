/** The records the planner and the advisor exchange.  The source declares
    `type` as "travel" | "hotel" | "activity", but the advisor copies whatever
    the model wrote there, so at run time it is any string; it is a string here. */
module Itinerary {
  import opened Wrappers

  /** The optional sub-record of an item (flight, stay and activity data alike). */
  datatype Details = Details(
    airline: Option<string>,
    departureTime: Option<string>,
    arrivalTime: Option<string>,
    price: Option<string>,
    duration: Option<string>,
    checkIn: Option<string>,
    checkOut: Option<string>,
    date: Option<string>,
    time: Option<string>,
    description: Option<string>,
    nightlyRate: Option<int>)

  /** The empty object `{}`. */
  const NoDetails := Details(None, None, None, None, None, None, None, None, None, None, None)

  /** An itinerary item as the advisor sees it (no id). */
  datatype Item = Item(
    title: string,
    kind: string,
    time: string,
    description: string,
    isPinned: bool,
    details: Option<Details>)

  /** An item of the agenda: an item with an id. */
  datatype AgendaItem = AgendaItem(
    id: string,
    title: string,
    kind: string,
    time: string,
    description: string,
    isPinned: bool,
    details: Option<Details>)
  {
    /** The same item without its id. */
    function ToItem(): Item {
      Item(title, kind, time, description, isPinned, details)
    }
  }

  /** `{ ...item, id }`. */
  function WithId(item: Item, id: string): (a: AgendaItem)
    ensures a.id == id && a.ToItem() == item
  {
    AgendaItem(id, item.title, item.kind, item.time, item.description, item.isPinned, item.details)
  }

  /** A search result waiting in the sidebar queue. */
  datatype QueueItem = QueueItem(id: string, kind: string, title: string, details: Option<Details>)

  /** The three kinds of card the sidebar can add. */
  datatype CardType = Travel | Hotel | Activity {
    function Name(): string {
      match this
      case Travel => "travel"
      case Hotel => "hotel"
      case Activity => "activity"
    }
  }
}
