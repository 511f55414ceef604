/** What the three search services share: the reply is cut at blank lines
    into records, each record into "- "-prefixed lines, and every field falls
    back to a default when its line is missing or empty. */
module Records {
  import opened Text
  import Seqs

  /** The error for an empty reply. */
  const InvalidResponse := "Invalid API response format"

  predicate NotBlank(text: string) {
    Trim(text) != ""
  }

  /** `text.split('\n\n').filter(text => text.trim().length > 0)`: exactly the
      pieces that are not all white space, in order (Seqs.FilterAppend). */
  function Blocks(text: string): (r: seq<string>)
    ensures |r| <= |SplitBy(Literal("\n\n"), text)|
    ensures forall i :: 0 <= i < |r| ==> !AllWhitespace(r[i]) && r[i] in SplitBy(Literal("\n\n"), text)
    ensures forall piece :: piece in SplitBy(Literal("\n\n"), text) && !AllWhitespace(piece) ==> piece in r
  {
    var pieces := SplitBy(Literal("\n\n"), text);
    Seqs.FilterMembers(pieces, NotBlank);
    forall piece | piece in pieces
      ensures NotBlank(piece) <==> !AllWhitespace(piece)
    {
      TrimEmpty(piece);
    }
    Seqs.Filter(pieces, NotBlank)
  }

  /** `line.replace(/^- /, '').trim()`. */
  function CleanLine(line: string): (r: string)
    ensures IsTrimmed(r)
  {
    Trim(StripDashPrefix(line))
  }

  /** The cleaned lines of one record. */
  function Lines(block: string): (r: seq<string>)
    ensures |r| >= 1
    ensures forall i :: 0 <= i < |r| ==> IsTrimmed(r[i])
  {
    Seqs.Map(CleanLine, SplitBy(Literal("\n"), block))
  }

  /** `lines[i] || fallback`. */
  function FieldOr(lines: seq<string>, i: nat, fallback: string): (r: string)
    ensures i < |lines| && lines[i] != "" ==> r == lines[i]
    ensures i >= |lines| || lines[i] == "" ==> r == fallback
    ensures fallback != "" ==> r != ""
  {
    if i < |lines| && lines[i] != "" then lines[i] else fallback
  }

  /** A field depends on its own line only: lines after it change nothing. */
  lemma FieldOrPrefix(lines: seq<string>, n: nat, i: nat, fallback: string)
    requires i < n
    ensures FieldOr(Seqs.Take(lines, n), i, fallback) == FieldOr(lines, i, fallback)
  {
  }

  /** `${prefix}-${index}`. */
  function RecordId(prefix: string, index: nat): string {
    prefix + "-" + NatToString(index)
  }

  /** Two records of one reply never share an id. */
  lemma RecordIdDistinct(prefix: string, i: nat, j: nat)
    requires i != j
    ensures RecordId(prefix, i) != RecordId(prefix, j)
  {
    NatToStringInjective(i, j);
    var a, b := RecordId(prefix, i), RecordId(prefix, j);
    assert a[|prefix| + 1..] == NatToString(i);
    assert b[|prefix| + 1..] == NatToString(j);
  }

  // ---------------------------------------------------------------------------
  // Round trip

  function Dashed(field: string): string {
    "- " + field
  }

  /** A record written one field per line, each line starting with "- ". */
  function RenderRecord(fields: seq<string>): string {
    Join(Seqs.Map(Dashed, fields), "\n")
  }

  /** A field that survives a line: trimmed, no line break. */
  predicate CleanField(field: string) {
    IsTrimmed(field) && '\n' !in field
  }

  lemma DashedCleans(field: string)
    requires IsTrimmed(field)
    ensures CleanLine(Dashed(field)) == field
  {
    assert StartsWith(Dashed(field), "- ") by {
      assert Dashed(field)[..2] == "- ";
    }
    assert Dashed(field)[2..] == field;
    TrimTrimmed(field);
  }

  /** The lines of a rendered record are its fields. */
  lemma RenderedLines(fields: seq<string>)
    requires |fields| >= 1
    requires forall i :: 0 <= i < |fields| ==> CleanField(fields[i])
    ensures Lines(RenderRecord(fields)) == fields
  {
    var pieces := Seqs.Map(Dashed, fields);
    forall k | 0 <= k < |pieces| ensures '\n' !in pieces[k] {
      assert pieces[k] == "- " + fields[k];
    }
    SplitJoinOnChar('\n', pieces);
    forall k | 0 <= k < |fields| ensures CleanLine(pieces[k]) == fields[k] {
      DashedCleans(fields[k]);
    }
  }
}
