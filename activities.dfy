/** The record parser of `searchActivities`: six lines per activity. */
module Activities {
  import opened Wrappers
  import opened Text
  import opened Records
  import Seqs

  datatype Activity = Activity(
    id: string, name: string, description: string, price: string, duration: string,
    location: string, category: string)

  /** The activity of the record at `index`, from its cleaned lines. */
  function ActivityOf(lines: seq<string>, index: nat): (a: Activity)
    ensures a.id == RecordId("activity", index)
    ensures a.name != "" && a.description != "" && a.price != "" && a.duration != ""
    ensures a.location != "" && a.category != ""
  {
    Activity(RecordId("activity", index),
             FieldOr(lines, 0, "Unknown Activity"),
             FieldOr(lines, 1, "No description available"),
             FieldOr(lines, 2, "Price not available"),
             FieldOr(lines, 3, "Duration not specified"),
             FieldOr(lines, 4, "Location not specified"),
             FieldOr(lines, 5, "Uncategorized"))
  }

  /** One activity per non-blank record, in order; an
      empty reply is an error. */
  function ParseActivities(content: string): (r: Result<seq<Activity>, string>)
    ensures r.Failure? <==> content == ""
    ensures r.Failure? ==> r.error == InvalidResponse
    ensures r.Success? ==> |r.value| == |Blocks(content)|
    ensures r.Success? ==> forall i :: 0 <= i < |r.value| ==> r.value[i] == ActivityOf(Lines(Blocks(content)[i]), i)
  {
    if content == "" then Failure(InvalidResponse)
    else
      var blocks := Blocks(content);
      Success(seq(|blocks|, i requires 0 <= i < |blocks| => ActivityOf(Lines(blocks[i]), i)))
  }

  /** No two activities of one reply share an id. */
  lemma ActivityIdsDistinct(content: string)
    requires content != ""
    ensures var r := ParseActivities(content).value;
            forall i, j :: 0 <= i < j < |r| ==> r[i].id != r[j].id
  {
    var r := ParseActivities(content).value;
    forall i, j | 0 <= i < j < |r| ensures r[i].id != r[j].id {
      RecordIdDistinct("activity", i, j);
    }
  }

  /** Lines after the sixth are ignored. */
  lemma ActivityIgnoresExtraLines(lines: seq<string>, index: nat)
    ensures ActivityOf(Seqs.Take(lines, 6), index) == ActivityOf(lines, index)
  {
    FieldOrPrefix(lines, 6, 0, "Unknown Activity");
    FieldOrPrefix(lines, 6, 1, "No description available");
    FieldOrPrefix(lines, 6, 2, "Price not available");
    FieldOrPrefix(lines, 6, 3, "Duration not specified");
    FieldOrPrefix(lines, 6, 4, "Location not specified");
    FieldOrPrefix(lines, 6, 5, "Uncategorized");
  }

  /** A record of a single name line: every other field takes its default. */
  lemma NameOnly(name: string, index: nat)
    requires CleanField(name) && name != ""
    ensures ActivityOf(Lines(RenderRecord([name])), index) ==
              Activity(RecordId("activity", index), name, "No description available", "Price not available",
                       "Duration not specified", "Location not specified", "Uncategorized")
  {
    RenderedLines([name]);
  }

  /** An activity written one non-empty field per "- " line is read back. */
  lemma ActivityRoundTrip(name: string, description: string, price: string, duration: string,
                          location: string, category: string, index: nat)
    requires CleanField(name) && CleanField(description) && CleanField(price)
    requires CleanField(duration) && CleanField(location) && CleanField(category)
    requires name != "" && description != "" && price != "" && duration != "" && location != "" && category != ""
    ensures ActivityOf(Lines(RenderRecord([name, description, price, duration, location, category])), index) ==
              Activity(RecordId("activity", index), name, description, price, duration, location, category)
  {
    RenderedLines([name, description, price, duration, location, category]);
  }
}
