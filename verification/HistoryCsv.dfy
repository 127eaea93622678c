/** The history export: rows printed as comma-separated values, and the reader
    of section 2 of RFC 4180 that must get every field back. */
module HistoryCsv {
  import opened Domain
  import opened Calendar

  /** One finished operation; paths as they are displayed. */
  datatype HistoryEntry = HistoryEntry(
    at: int,
    direction: OperationDirection,
    kind: OperationKind,
    stage: OperationStage,
    originalPath: string,
    newPath: string,
    item: int)

  const HEADER := ["at", "direction", "kind", "stage", "originalPath", "newPath", "description"]

  /** at,direction,kind,stage,originalPath,newPath,description */
  const HEADER_LINE :=
    "at" + "," + ("direction" + "," + ("kind" + "," + ("stage" + "," + ("originalPath" + "," + ("newPath" + "," + "description")))))

  // ---- printing -------------------------------------------------------------

  function DirectionText(d: OperationDirection): string {
    match d case Apply => "apply" case Undo => "undo"
  }

  function KindText(k: OperationKind): string {
    match k case Rename => "rename" case VerifiedCopy => "verified_copy"
  }

  function StageText(s: OperationStage): string {
    match s
    case Complete => "complete"
    case RolledBack => "rolled_back"
    case Planned => "planned"
    case Copied => "copied"
    case Verified => "verified"
    case Published => "published"
    case RollbackRequired => "rollbackrequired"
  }

  function Fields(e: HistoryEntry, descriptions: map<int, string>): (fields: seq<string>)
    ensures |fields| == 7
  {
    [Iso8601Utc(e.at), DirectionText(e.direction), KindText(e.kind), StageText(e.stage), e.originalPath, e.newPath,
     Described(e, descriptions)]
  }

  function Described(e: HistoryEntry, descriptions: map<int, string>): string {
    if e.item in descriptions then descriptions[e.item] else ""
  }

  predicate NeedsQuotes(value: string) {
    ',' in value || '"' in value || '\n' in value || '\r' in value
  }

  /** Every quote doubled. */
  function Doubled(value: string): string {
    if value == "" then ""
    else (if value[0] == '"' then "\"\"" else [value[0]]) + Doubled(value[1..])
  }

  function CsvField(value: string): string {
    if NeedsQuotes(value) then "\"" + Doubled(value) + "\"" else value
  }

  function Joined(fields: seq<string>): string
    requires fields != []
  {
    if |fields| == 1 then CsvField(fields[0]) else CsvField(fields[0]) + "," + Joined(fields[1..])
  }

  function Row(fields: seq<string>): string
    requires fields != []
  {
    Joined(fields) + "\r\n"
  }

  predicate Filled(records: seq<seq<string>>) {
    forall i :: 0 <= i < |records| ==> records[i] != []
  }

  function Printed(records: seq<seq<string>>): string
    requires Filled(records)
  {
    if records == [] then "" else Row(records[0]) + Printed(records[1..])
  }

  /** The records of an export: the header, then one for each entry. */
  function Records(entries: seq<HistoryEntry>, descriptions: map<int, string>): seq<seq<string>> {
    if entries == [] then [HEADER]
    else Records(entries[..|entries| - 1], descriptions) + [Fields(entries[|entries| - 1], descriptions)]
  }

  lemma {:induction false} RecordsOfEntries(entries: seq<HistoryEntry>, descriptions: map<int, string>)
    ensures
      var records := Records(entries, descriptions);
      && |records| == |entries| + 1 && records[0] == HEADER && Filled(records)
      && forall i :: 0 <= i < |entries| ==> records[i + 1] == Fields(entries[i], descriptions)
    decreases |entries|
  {
    hide Fields;
    if entries != [] {
      RecordsOfEntries(entries[..|entries| - 1], descriptions);
    }
  }

  lemma {:induction false} PrintedGrows(records: seq<seq<string>>, last: seq<string>)
    requires Filled(records) && last != []
    ensures Printed(records + [last]) == Printed(records) + Row(last)
    decreases |records|
  {
    if records == [] {
      assert [last][1..] == [];
    } else {
      PrintedGrows(records[1..], last);
      assert (records + [last])[1..] == records[1..] + [last];
    }
  }

  /** Prints the export, row after row. */
  method Export(entries: seq<HistoryEntry>, descriptions: map<int, string>) returns (csv: string)
    ensures csv == Exported(entries, descriptions)
    ensures ReadFile(csv).Some? && |ReadFile(csv).value| == |entries| + 1
    ensures ReadFile(csv).value[0] == ["at", "direction", "kind", "stage", "originalPath", "newPath", "description"]
    ensures forall i :: 0 <= i < |entries| ==> Shows(ReadFile(csv).value[i + 1], entries[i], descriptions)
  {
    hide Fields, Joined;
    csv := HEADER_LINE + "\r\n";
    HeaderIsPlain();
    RecordsOfEntries([], descriptions);
    for i := 0 to |entries|
      invariant Filled(Records(entries[..i], descriptions))
      invariant csv == Printed(Records(entries[..i], descriptions))
    {
      var row := Joined(Fields(entries[i], descriptions));
      PrintedGrows(Records(entries[..i], descriptions), Fields(entries[i], descriptions));
      assert entries[..i + 1][..i] == entries[..i];
      csv := csv + row;
      csv := csv + "\r\n";
    }
    assert entries[..|entries|] == entries;
    RecordsOfEntries(entries, descriptions);
    PrintedReadsBack(Records(entries, descriptions));
    forall i | 0 <= i < |entries| ensures Shows(Records(entries, descriptions)[i + 1], entries[i], descriptions) {
      FieldsShow(entries[i], descriptions);
    }
  }

  /** What an entry's record says, column by column. */
  predicate Shows(record: seq<string>, e: HistoryEntry, descriptions: map<int, string>) {
    && |record| == 7
    && |record[0]| >= 16 && Punctuated(record[0][|record[0]| - 16..])
    && IsTimestamp(ReadTimestamp(record[0])) && UnixSeconds(ReadTimestamp(record[0])) == e.at
    && (record[1] == "apply" <==> e.direction.Apply?) && (record[1] == "undo" <==> e.direction.Undo?)
    && (record[2] == "rename" <==> e.kind.Rename?) && (record[2] == "verified_copy" <==> e.kind.VerifiedCopy?)
    && (record[3] == "complete" <==> e.stage.Complete?) && (record[3] == "rolled_back" <==> e.stage.RolledBack?)
    && (record[3] == "planned" <==> e.stage.Planned?) && (record[3] == "copied" <==> e.stage.Copied?)
    && (record[3] == "verified" <==> e.stage.Verified?) && (record[3] == "published" <==> e.stage.Published?)
    && (record[3] == "rollbackrequired" <==> e.stage.RollbackRequired?)
    && record[4] == e.originalPath && record[5] == e.newPath
    && (e.item in descriptions ==> record[6] == descriptions[e.item])
    && (e.item !in descriptions ==> record[6] == "")
  }

  lemma FieldsShow(e: HistoryEntry, descriptions: map<int, string>)
    ensures Shows(Fields(e, descriptions), e, descriptions)
  {
    hide Iso8601Utc, ReadTimestamp, UnixSeconds;
    TimestampRoundTrip(e.at);
    WordsDiffer(e);
  }

  lemma WordsDiffer(e: HistoryEntry)
    ensures DirectionText(e.direction) == "apply" <==> e.direction.Apply?
    ensures DirectionText(e.direction) == "undo" <==> e.direction.Undo?
    ensures KindText(e.kind) == "rename" <==> e.kind.Rename?
    ensures KindText(e.kind) == "verified_copy" <==> e.kind.VerifiedCopy?
    ensures StageText(e.stage) == "complete" <==> e.stage.Complete?
    ensures StageText(e.stage) == "rolled_back" <==> e.stage.RolledBack?
    ensures StageText(e.stage) == "planned" <==> e.stage.Planned?
    ensures StageText(e.stage) == "copied" <==> e.stage.Copied?
    ensures StageText(e.stage) == "verified" <==> e.stage.Verified?
    ensures StageText(e.stage) == "published" <==> e.stage.Published?
    ensures StageText(e.stage) == "rollbackrequired" <==> e.stage.RollbackRequired?
  {
    assert |DirectionText(e.direction)| == if e.direction.Apply? then 5 else 4;
    assert |KindText(e.kind)| == if e.kind.Rename? then 6 else 13;
    var texts := ["complete", "rolled_back", "planned", "copied", "verified", "published", "rollbackrequired"];
    var stages := [Complete, RolledBack, Planned, Copied, Verified, Published, RollbackRequired];
    forall i | 0 <= i < 7 ensures StageText(e.stage) == texts[i] <==> e.stage == stages[i] {
      assert StageText(stages[i]) == texts[i];
      if StageText(e.stage) == texts[i] { StageTextsDiffer(e.stage, stages[i]); }
    }
    assert texts[0] == "complete" && texts[1] == "rolled_back" && texts[2] == "planned" && texts[3] == "copied";
    assert texts[4] == "verified" && texts[5] == "published" && texts[6] == "rollbackrequired";
  }

  lemma SevenPlainColumns(a: string, b: string, c: string, d: string, e: string, f: string, g: string)
    requires forall field :: field in [a, b, c, d, e, f, g] ==> !NeedsQuotes(field)
    ensures Joined([a, b, c, d, e, f, g])
         == a + "," + (b + "," + (c + "," + (d + "," + (e + "," + (f + "," + g)))))
  {
    hide NeedsQuotes;
    var all := [a, b, c, d, e, f, g];
    assert forall i :: 0 <= i < 7 ==> all[i] in all;
    assert all[6..] == [g] && Joined([g]) == g;
    assert all[5..][1..] == all[6..] && Joined(all[5..]) == f + "," + g;
    assert all[4..][1..] == all[5..] && Joined(all[4..]) == e + "," + (f + "," + g);
    assert all[3..][1..] == all[4..] && Joined(all[3..]) == d + "," + (e + "," + (f + "," + g));
    assert all[2..][1..] == all[3..] && Joined(all[2..]) == c + "," + (d + "," + (e + "," + (f + "," + g)));
    assert all[1..][1..] == all[2..];
  }

  lemma HeaderIsPlain()
    ensures Printed([HEADER]) == HEADER_LINE + "\r\n"
  {
    hide Joined;
    SevenPlainColumns("at", "direction", "kind", "stage", "originalPath", "newPath", "description");
    assert [HEADER][1..] == [];
  }

  // ---- reading --------------------------------------------------------------

  /** Something read, and the text after it. */
  datatype Read<T> = Read(value: T, rest: string)

  /** The inside of a quoted field, up to its closing quote. */
  function ReadQuoted(text: string): (r: Option<Read<string>>)
    ensures r.Some? ==> |r.value.rest| < |text|
  {
    if text == "" then None
    else if text[0] == '"' && |text| > 1 && text[1] == '"' then
      var more := ReadQuoted(text[2..]);
      if more.None? then None else Some(Read("\"" + more.value.value, more.value.rest))
    else if text[0] == '"' then Some(Read("", text[1..]))
    else
      var more := ReadQuoted(text[1..]);
      if more.None? then None else Some(Read([text[0]] + more.value.value, more.value.rest))
  }

  predicate EndsPlain(c: char) {
    c == ',' || c == '"' || c == '\r' || c == '\n'
  }

  function ReadPlain(text: string): (r: Read<string>)
    ensures |r.rest| <= |text|
  {
    if text == "" || EndsPlain(text[0]) then Read("", text)
    else
      var more := ReadPlain(text[1..]);
      Read([text[0]] + more.value, more.rest)
  }

  function ReadField(text: string): (r: Option<Read<string>>)
    ensures r.Some? ==> |r.value.rest| <= |text|
  {
    if text != "" && text[0] == '"' then ReadQuoted(text[1..]) else Some(ReadPlain(text))
  }

  /** One record and its line break, which the last record may lack. */
  function ReadRecord(text: string): (r: Option<Read<seq<string>>>)
    ensures r.Some? ==> |r.value.rest| < |text| || text == ""
    decreases |text|
  {
    var field := ReadField(text);
    if field.None? then None
    else
      var rest := field.value.rest;
      if rest == "" then Some(Read([field.value.value], ""))
      else if rest[0] == ',' then
        var more := ReadRecord(rest[1..]);
        if more.None? then None else Some(Read([field.value.value] + more.value.value, more.value.rest))
      else if |rest| > 1 && rest[0] == '\r' && rest[1] == '\n' then Some(Read([field.value.value], rest[2..]))
      else None
  }

  function ReadFile(text: string): Option<seq<seq<string>>>
    decreases |text|
  {
    if text == "" then Some([])
    else
      var record := ReadRecord(text);
      if record.None? then None
      else
        var more := ReadFile(record.value.rest);
        if more.None? then None else Some([record.value.value] + more.value)
  }

  // ---- what is printed reads back -------------------------------------------

  lemma {:induction false} DoubledReadsBack(value: string, rest: string)
    requires rest == "" || rest[0] != '"'
    ensures ReadQuoted(Doubled(value) + "\"" + rest) == Some(Read(value, rest))
  {
    var text := Doubled(value) + "\"" + rest;
    if value == "" {
      assert text == "\"" + rest;
      assert text[1..] == rest;
    } else if value[0] == '"' {
      DoubledReadsBack(value[1..], rest);
      assert text[2..] == Doubled(value[1..]) + "\"" + rest;
      assert value == "\"" + value[1..];
    } else {
      DoubledReadsBack(value[1..], rest);
      assert text[1..] == Doubled(value[1..]) + "\"" + rest;
      assert value == [value[0]] + value[1..];
    }
  }

  lemma {:induction false} PlainReadsBack(value: string, rest: string)
    requires forall c :: c in value ==> !EndsPlain(c)
    requires rest == "" || EndsPlain(rest[0])
    ensures ReadPlain(value + rest) == Read(value, rest)
  {
    if value == "" {
      assert value + rest == rest;
    } else {
      PlainReadsBack(value[1..], rest);
      assert (value + rest)[1..] == value[1..] + rest;
      assert value == [value[0]] + value[1..];
    }
  }

  lemma QuotedFieldReadsBack(value: string, rest: string)
    requires rest == "" || rest[0] != '"'
    ensures ReadField("\"" + Doubled(value) + "\"" + rest) == Some(Read(value, rest))
  {
    hide Doubled, ReadQuoted;
    var text := "\"" + Doubled(value) + "\"" + rest;
    DoubledReadsBack(value, rest);
    assert text[0] == '"';
    assert text[1..] == Doubled(value) + "\"" + rest;
  }

  lemma PlainFieldReadsBack(value: string, rest: string)
    requires !NeedsQuotes(value) && rest != "" && (rest[0] == ',' || rest[0] == '\r')
    ensures ReadField(value + rest) == Some(Read(value, rest))
  {
    hide ReadPlain;
    PlainReadsBack(value, rest);
    assert (value + rest)[0] == (if value == "" then rest[0] else value[0]);
    assert value != "" ==> value[0] in value;
  }

  /** A printed field reads back whatever it contains. */
  lemma FieldReadsBack(value: string, rest: string)
    requires rest != "" && (rest[0] == ',' || rest[0] == '\r')
    ensures ReadField(CsvField(value) + rest) == Some(Read(value, rest))
  {
    hide ReadField, NeedsQuotes, Doubled;
    if NeedsQuotes(value) {
      QuotedFieldReadsBack(value, rest);
    } else {
      PlainFieldReadsBack(value, rest);
    }
  }

  lemma LastFieldReadsBack(field: string, rest: string)
    ensures ReadRecord(Row([field]) + rest) == Some(Read([field], rest))
  {
    hide ReadField, CsvField;
    var after := "\r\n" + rest;
    FieldReadsBack(field, after);
    assert Row([field]) + rest == CsvField(field) + after;
    assert after[2..] == rest;
  }

  lemma {:induction false} RowReadsBack(fields: seq<string>, rest: string)
    requires fields != []
    ensures ReadRecord(Row(fields) + rest) == Some(Read(fields, rest))
    decreases |fields|
  {
    hide ReadField, CsvField;
    if |fields| == 1 {
      assert fields == [fields[0]];
      LastFieldReadsBack(fields[0], rest);
    } else {
      var after := "," + (Row(fields[1..]) + rest);
      FieldReadsBack(fields[0], after);
      assert Row(fields) + rest == CsvField(fields[0]) + after;
      assert after[1..] == Row(fields[1..]) + rest;
      RowReadsBack(fields[1..], rest);
      assert fields == [fields[0]] + fields[1..];
    }
  }

  lemma RowIsNotEmpty(fields: seq<string>)
    requires fields != []
    ensures Row(fields) != ""
  {
    hide Joined;
  }

  /** Reading a printed file gives back exactly its records. */
  lemma {:induction false} PrintedReadsBack(records: seq<seq<string>>)
    requires Filled(records)
    ensures ReadFile(Printed(records)) == Some(records)
    decreases |records|
  {
    hide ReadRecord, Row;
    if records != [] {
      RowIsNotEmpty(records[0]);
      RowReadsBack(records[0], Printed(records[1..]));
      PrintedReadsBack(records[1..]);
      assert records == [records[0]] + records[1..];
    }
  }

  lemma StageTextsDiffer(a: OperationStage, b: OperationStage)
    requires StageText(a) == StageText(b)
    ensures a == b
  {
    assert |StageText(a)| == |StageText(b)|;
    assert StageText(a)[0] == StageText(b)[0];
  }

  /** The file determines everything it was printed from: when, which way, how,
      with what outcome, from where, to where, and the description. */
  lemma ExportDeterminesHistory(a: seq<HistoryEntry>, da: map<int, string>, b: seq<HistoryEntry>, db: map<int, string>)
    ensures Exported(a, da) == Exported(b, db) ==>
      && |a| == |b|
      && forall i :: 0 <= i < |a| ==> SameRow(a[i], da, b[i], db)
  {
    hide SameRow;
    RecordsOfEntries(a, da);
    RecordsOfEntries(b, db);
    PrintedReadsBack(Records(a, da));
    PrintedReadsBack(Records(b, db));
    if Exported(a, da) == Exported(b, db) {
      forall i | 0 <= i < |a| ensures SameRow(a[i], da, b[i], db) {
        assert Records(a, da)[i + 1] == Records(b, db)[i + 1];
        FieldsDetermineEntry(a[i], da, b[i], db);
      }
    }
  }

  /** The text of an export. */
  function Exported(entries: seq<HistoryEntry>, descriptions: map<int, string>): string {
    RecordsOfEntries(entries, descriptions);
    Printed(Records(entries, descriptions))
  }

  /** Two entries agree on everything an export shows. */
  predicate SameRow(a: HistoryEntry, da: map<int, string>, b: HistoryEntry, db: map<int, string>) {
    && a.at == b.at && a.direction == b.direction && a.kind == b.kind && a.stage == b.stage
    && a.originalPath == b.originalPath && a.newPath == b.newPath && Described(a, da) == Described(b, db)
  }

  lemma FieldsDetermineEntry(a: HistoryEntry, da: map<int, string>, b: HistoryEntry, db: map<int, string>)
    ensures Fields(a, da) == Fields(b, db) <==> SameRow(a, da, b, db)
  {
    hide Iso8601Utc, StageText, ReadTimestamp, UnixSeconds;
    var fa, fb := Fields(a, da), Fields(b, db);
    if fa == fb {
      assert fa[0] == fb[0] && fa[1] == fb[1] && fa[2] == fb[2] && fa[3] == fb[3];
      assert fa[4] == fb[4] && fa[5] == fb[5] && fa[6] == fb[6];
      TimestampRoundTrip(a.at);
      TimestampRoundTrip(b.at);
      StageTextsDiffer(a.stage, b.stage);
      assert |DirectionText(a.direction)| == |DirectionText(b.direction)|;
      assert |KindText(a.kind)| == |KindText(b.kind)|;
    }
  }
}
