/** The row parser of `loadSlotData`: the fetched spreadsheet export is
    trimmed, cut into lines, and its second line (the first data row) cut
    into fields. Field 0 names the place; fields 1, 3, 5 and 7 are the sensor
    statuses of "Slot 1" to "Slot 4". */
module SlotData {
  import opened Domain
  import opened Text

  /** One parsed snapshot: the place label and the four readings. */
  datatype Snapshot = Snapshot(place: string, incoming: seq<Reading>)

  /** `c[i]` in JavaScript: the field, or `undefined` past the end. */
  function Field(c: seq<string>, i: nat): (r: Option<string>)
    ensures r.Some? <==> i < |c|
    ensures r.Some? ==> r.value == c[i]
  {
    if i < |c| then Some(c[i]) else None
  }

  /** The four readings of one data row: "Slot k+1" takes column 2k+1. */
  function Incoming(c: seq<string>): (r: seq<Reading>)
    ensures |r| == |SlotIds|
    ensures forall k :: 0 <= k < |SlotIds| ==> r[k] == Reading(SlotIds[k], Field(c, 2 * k + 1))
  {
    [
      Reading("Slot 1", Field(c, 1)),
      Reading("Slot 2", Field(c, 3)),
      Reading("Slot 3", Field(c, 5)),
      Reading("Slot 4", Field(c, 7))
    ]
  }

  /** The lines of the export, as the widget cuts them. */
  function Rows(csv: string): (rows: seq<string>)
  {
    Split(Trim(csv), '\n')
  }

  /** Parses one export. None when the trimmed text is a single line, in
      which case the widget keeps what it showed before. Otherwise the place
      is the first field of the first data row, and slot k (k = 0..3) is
      "Slot k+1" with the status in column 2k+1 of that row. */
  function ParseSnapshot(csv: string): (r: Option<Snapshot>)
    ensures r.None? <==> '\n' !in Trim(csv)
    ensures r.Some? ==>
      var c := Split(Rows(csv)[1], ',');
      && r.value.place == c[0]
      && |r.value.incoming| == |SlotIds| == 4
      && forall k :: 0 <= k < 4 ==> r.value.incoming[k] == Reading(SlotIds[k], Field(c, 2 * k + 1))
    ensures r.Some? ==> ',' !in r.value.place && '\n' !in r.value.place
  {
    var rows := Rows(csv);
    if |rows| < 2 then None
    else
      var c := Split(rows[1], ',');
      JoinSplit(rows[1], ',');
      assert forall i :: 0 <= i < |c[0]| ==> c[0][i] == rows[1][i];
      Some(Snapshot(c[0], Incoming(c)))
  }

  /** Round trip: an export whose lines hold no line break, whose second
      line is the fields `fields` joined by commas (none holding a comma),
      and which does not start or end with whitespace parses to the first
      field as place and fields 1, 3, 5, 7 as statuses. Lines after the
      second are ignored. */
  lemma ParseOfExport(lines: seq<string>, fields: seq<string>)
    requires |lines| >= 2 && |fields| > 0
    requires forall k :: 0 <= k < |lines| ==> '\n' !in lines[k]
    requires forall k :: 0 <= k < |fields| ==> ',' !in fields[k]
    requires lines[1] == Join(fields, ',')
    requires var csv := Join(lines, '\n');
      !IsWhitespace(csv[0]) && !IsWhitespace(csv[|csv| - 1])
    ensures ParseSnapshot(Join(lines, '\n')) == Some(Snapshot(fields[0], [
      Reading("Slot 1", Field(fields, 1)),
      Reading("Slot 2", Field(fields, 3)),
      Reading("Slot 3", Field(fields, 5)),
      Reading("Slot 4", Field(fields, 7))
    ]))
  {
    var csv := Join(lines, '\n');
    TrimOfTrimmed(csv);
    SplitJoin(lines, '\n');
    SplitJoin(fields, ',');
  }

  /** A data row with fewer than 8 fields leaves "Slot 4" without a status,
      and in general slot k has no status when the row has at most 2k+1
      fields. */
  lemma ShortRowMissingStatus(csv: string, k: nat)
    requires ParseSnapshot(csv).Some? && k < 4
    requires |Split(Rows(csv)[1], ',')| <= 2 * k + 1
    ensures ParseSnapshot(csv).value.incoming[k].status == None
  {
  }

  /** Carriage returns are not stripped from inside the text: when the data
      row of a CRLF export is followed by another line, its last field keeps
      the '\r', so a "FILLED" in column 7 does not read as "FILLED". */
  lemma CarriageReturnKept(lines: seq<string>, fields: seq<string>)
    requires |lines| >= 3 && |fields| == 8 && fields[7] == Filled + "\r"
    requires forall k :: 0 <= k < |lines| ==> '\n' !in lines[k]
    requires forall k :: 0 <= k < |fields| ==> ',' !in fields[k]
    requires lines[1] == Join(fields, ',')
    requires var csv := Join(lines, '\n');
      !IsWhitespace(csv[0]) && !IsWhitespace(csv[|csv| - 1])
    ensures ParseSnapshot(Join(lines, '\n')).Some?
    ensures ParseSnapshot(Join(lines, '\n')).value.incoming[3].status != Some(Filled)
  {
    ParseOfExport(lines, fields);
    var r := ParseSnapshot(Join(lines, '\n')).value;
    assert r.incoming[3].status == Some(fields[7]);
    assert |fields[7]| == |Filled| + 1;
  }
}
