/** The record parser of `searchFlights`: five lines per flight. */
module Flights {
  import opened Wrappers
  import opened Text
  import opened Records
  import Seqs

  datatype FlightOption = FlightOption(
    id: string, airline: string, departureTime: string, arrivalTime: string, price: string, duration: string)

  /** The flight of the record at `index`, from its cleaned lines. */
  function FlightOf(lines: seq<string>, index: nat): (f: FlightOption)
    ensures f.id == RecordId("flight", index)
    ensures f.airline != "" && f.departureTime != "" && f.arrivalTime != "" && f.price != "" && f.duration != ""
  {
    FlightOption(RecordId("flight", index),
                 FieldOr(lines, 0, "Unknown Airline"),
                 FieldOr(lines, 1, "Unknown Time"),
                 FieldOr(lines, 2, "Unknown Time"),
                 FieldOr(lines, 3, "Unknown Price"),
                 FieldOr(lines, 4, "Unknown Duration"))
  }

  /** One flight per non-blank record, in order; an empty
      reply is an error. */
  function ParseFlights(content: string): (r: Result<seq<FlightOption>, string>)
    ensures r.Failure? <==> content == ""
    ensures r.Failure? ==> r.error == InvalidResponse
    ensures r.Success? ==> |r.value| == |Blocks(content)|
    ensures r.Success? ==> forall i :: 0 <= i < |r.value| ==> r.value[i] == FlightOf(Lines(Blocks(content)[i]), i)
  {
    if content == "" then Failure(InvalidResponse)
    else
      var blocks := Blocks(content);
      Success(seq(|blocks|, i requires 0 <= i < |blocks| => FlightOf(Lines(blocks[i]), i)))
  }

  /** No two flights of one reply share an id. */
  lemma FlightIdsDistinct(content: string)
    requires content != ""
    ensures var r := ParseFlights(content).value;
            forall i, j :: 0 <= i < j < |r| ==> r[i].id != r[j].id
  {
    var r := ParseFlights(content).value;
    forall i, j | 0 <= i < j < |r| ensures r[i].id != r[j].id {
      RecordIdDistinct("flight", i, j);
    }
  }

  /** Lines after the fifth are ignored. */
  lemma FlightIgnoresExtraLines(lines: seq<string>, index: nat)
    ensures FlightOf(Seqs.Take(lines, 5), index) == FlightOf(lines, index)
  {
    FieldOrPrefix(lines, 5, 0, "Unknown Airline");
    FieldOrPrefix(lines, 5, 1, "Unknown Time");
    FieldOrPrefix(lines, 5, 2, "Unknown Time");
    FieldOrPrefix(lines, 5, 3, "Unknown Price");
    FieldOrPrefix(lines, 5, 4, "Unknown Duration");
  }

  /** A flight written one non-empty field per "- " line is read back. */
  lemma FlightRoundTrip(airline: string, departureTime: string, arrivalTime: string, price: string,
                        duration: string, index: nat)
    requires CleanField(airline) && CleanField(departureTime) && CleanField(arrivalTime)
    requires CleanField(price) && CleanField(duration)
    requires airline != "" && departureTime != "" && arrivalTime != "" && price != "" && duration != ""
    ensures FlightOf(Lines(RenderRecord([airline, departureTime, arrivalTime, price, duration])), index) ==
              FlightOption(RecordId("flight", index), airline, departureTime, arrivalTime, price, duration)
  {
    RenderedLines([airline, departureTime, arrivalTime, price, duration]);
  }
}
