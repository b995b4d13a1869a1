/**
 * "Export CSV" of the customer tables: a header line of column names, then
 * one line per shown row, every cell between double quotes with each quote
 * inside it doubled. A reader of that format is given alongside, and the
 * export is proved to read back as exactly the header and the rows' cells.
 */
module CsvExport {
  import opened Wrappers
  import opened Strings
  import opened Models
  import opened CustomerTable

  // ---------------------------------------------------------------------
  // Writing
  // ---------------------------------------------------------------------

  /** `String(val).replace(/"/g, '""')` */
  function Escape(s: string): (r: string)
    ensures |r| >= |s|
    ensures '"' !in s ==> r == s
  {
    if s == [] then []
    else (if s[0] == '"' then "\"\"" else [s[0]]) + Escape(s[1..])
  }

  /** A cell as written: the escaped text between double quotes. */
  function Quote(s: string): string {
    "\"" + Escape(s) + "\""
  }

  /** A data line: the quoted cells joined with commas. */
  function Record(cells: seq<string>): string {
    Join(seq(|cells|, k requires 0 <= k < |cells| => Quote(cells[k])), ",")
  }

  /** The whole file: the header line (names unquoted), then the data lines, joined with line feeds. */
  function Csv(headers: seq<string>, records: seq<seq<string>>): string {
    Join([Join(headers, ",")] + seq(|records|, k requires 0 <= k < |records| => Record(records[k])), "\n")
  }

  /** The agent table's columns; the keys of the first row object, which has them in this order. */
  const AGENT_HEADERS: seq<string> :=
    ["Name", "Phone", "Email", "ContactTitle", "LastInteractionDate", "CallStatus", "FollowUpStatus",
     "DurationSeconds", "Note"]

  /** The supervisor table adds the agent's name in front. */
  const SUPERVISOR_HEADERS: seq<string> := ["Agent"] + AGENT_HEADERS

  /**
   * One row's cells under `AGENT_HEADERS`; `iso` is `Date.prototype.toISOString`.
   * Without a latest interaction the last five are empty; an absent call
   * duration is empty and a present one is its decimal text.
   */
  function AgentCells(t: TableRow, iso: Millis -> string): (cells: seq<string>)
    ensures |cells| == |AGENT_HEADERS|
    ensures cells[0] == t.customer.name && cells[1] == OrEmpty(t.customer.phone)
    ensures cells[2] == OrEmpty(t.customer.email) && cells[3] == OrEmpty(t.customer.contactTitle)
    ensures |t.interactions| == 0 ==> forall k :: 4 <= k < |cells| ==> cells[k] == ""
    ensures |t.interactions| > 0 ==> cells[4] == iso(t.interactions[0].date)
                                     && cells[5] == CallStatusName(t.interactions[0].callStatus)
                                     && cells[6] == FollowUpName(t.interactions[0].followUpStatus)
  {
    if |t.interactions| == 0 then
      [t.customer.name, OrEmpty(t.customer.phone), OrEmpty(t.customer.email), OrEmpty(t.customer.contactTitle),
       "", "", "", "", ""]
    else
      var latest := t.interactions[0];
      [t.customer.name, OrEmpty(t.customer.phone), OrEmpty(t.customer.email), OrEmpty(t.customer.contactTitle),
       iso(latest.date), CallStatusName(latest.callStatus), FollowUpName(latest.followUpStatus),
       if latest.callDuration.Some? then IntToString(latest.callDuration.value) else "",
       OrEmpty(latest.note)]
  }

  /** One row's cells under `SUPERVISOR_HEADERS`: the agent's name (or '') first. */
  function SupervisorCells(t: TableRow, iso: Millis -> string): (cells: seq<string>)
    ensures |cells| == |SUPERVISOR_HEADERS|
    ensures cells[0] == OrEmpty(t.agentName) && cells[1..] == AgentCells(t, iso)
  {
    [OrEmpty(t.agentName)] + AgentCells(t, iso)
  }

  function AgentRecords(rows: seq<TableRow>, iso: Millis -> string): seq<seq<string>> {
    seq(|rows|, k requires 0 <= k < |rows| => AgentCells(rows[k], iso))
  }

  function SupervisorRecords(rows: seq<TableRow>, iso: Millis -> string): seq<seq<string>> {
    seq(|rows|, k requires 0 <= k < |rows| => SupervisorCells(rows[k], iso))
  }

  /** `customers.csv`, from the agent table's `filteredAll`. */
  function AgentCsv(rows: seq<TableRow>, iso: Millis -> string): string {
    Csv(AGENT_HEADERS, AgentRecords(rows, iso))
  }

  /** `supervisor_customers.csv`, from the supervisor table's `filteredAll`. */
  function SupervisorCsv(rows: seq<TableRow>, iso: Millis -> string): string {
    Csv(SUPERVISOR_HEADERS, SupervisorRecords(rows, iso))
  }

  // ---------------------------------------------------------------------
  // Reading
  // ---------------------------------------------------------------------

  /** Reads a quoted cell's text that follows its opening quote: `""` is one quote, a lone `"` closes the cell. */
  function ReadQuoted(t: string): (r: Option<(string, string)>)
    ensures r.Some? ==> |r.value.1| < |t|
  {
    if t == [] then None
    else if t[0] == '"' then
      if |t| >= 2 && t[1] == '"' then
        match ReadQuoted(t[2..])
        case None => None
        case Some((v, rest)) => Some(("\"" + v, rest))
      else Some(("", t[1..]))
    else
      match ReadQuoted(t[1..])
      case None => None
      case Some((v, rest)) => Some(([t[0]] + v, rest))
  }

  /** Reads the comma-separated quoted cells of one line, up to a line feed or the end. */
  function ReadCells(t: string): (r: Option<(seq<string>, string)>)
    ensures r.Some? ==> |r.value.1| < |t|
    decreases |t|
  {
    if t == [] || t[0] != '"' then None
    else
      match ReadQuoted(t[1..])
      case None => None
      case Some((cell, rest)) =>
        if |rest| > 0 && rest[0] == ',' then
          match ReadCells(rest[1..])
          case None => None
          case Some((cells, after)) => Some(([cell] + cells, after))
        else Some(([cell], rest))
  }

  /** Reads data lines separated by line feeds, to the end. */
  function ReadRecords(t: string): Option<seq<seq<string>>>
    decreases |t|
  {
    match ReadCells(t)
    case None => None
    case Some((cells, rest)) =>
      if rest == [] then Some([cells])
      else if rest[0] == '\n' then
        match ReadRecords(rest[1..])
        case None => None
        case Some(more) => Some([cells] + more)
      else None
  }

  /** Splits off the first line. */
  function SplitLine(t: string): (r: (string, Option<string>))
    ensures r.1.None? ==> r.0 == t && '\n' !in t
    ensures r.1.Some? ==> t == r.0 + "\n" + r.1.value && '\n' !in r.0
  {
    if t == [] then ([], None)
    else if t[0] == '\n' then ([], Some(t[1..]))
    else
      var (line, rest) := SplitLine(t[1..]);
      ([t[0]] + line, rest)
  }

  /** Reads a whole file: the header line as it stands, and the data lines' cells. */
  function ReadCsv(t: string): Option<(string, seq<seq<string>>)> {
    match SplitLine(t)
    case (header, None) => Some((header, []))
    case (header, Some(body)) =>
      match ReadRecords(body)
      case None => None
      case Some(records) => Some((header, records))
  }

  // ---------------------------------------------------------------------
  // Round trip
  // ---------------------------------------------------------------------

  lemma ReadQuotedDoubled(u: string)
    ensures ReadQuoted("\"\"" + u) == match ReadQuoted(u) case None => None case Some((v, rest)) => Some(("\"" + v, rest))
  {
    assert ("\"\"" + u)[2..] == u;
  }

  lemma ReadQuotedPlain(c: char, u: string)
    requires c != '"'
    ensures ReadQuoted([c] + u) == match ReadQuoted(u) case None => None case Some((v, rest)) => Some(([c] + v, rest))
  {
    assert ([c] + u)[1..] == u;
  }

  /** A cell reads back as itself, whatever quotes it holds, and reading stops right after its closing quote. */
  lemma ReadQuotedClose(rest: string)
    requires rest == [] || rest[0] != '"'
    ensures ReadQuoted("\"" + rest) == Some(("", rest))
  {
    assert ("\"" + rest)[1..] == rest;
  }

  lemma EscapeStep(s: string, rest: string)
    requires s != []
    ensures Escape(s) + "\"" + rest == (if s[0] == '"' then "\"\"" else [s[0]]) + (Escape(s[1..]) + "\"" + rest)
  {
  }

  lemma {:induction false} ReadQuotedEscape(s: string, rest: string)
    requires rest == [] || rest[0] != '"'
    ensures ReadQuoted(Escape(s) + "\"" + rest) == Some((s, rest))
  {
    if s == [] {
      assert Escape(s) + "\"" + rest == "\"" + rest;
      ReadQuotedClose(rest);
    } else {
      var u := Escape(s[1..]) + "\"" + rest;
      ReadQuotedEscape(s[1..], rest);
      EscapeStep(s, rest);
      if s[0] == '"' {
        ReadQuotedDoubled(u);
        assert s == "\"" + s[1..];
      } else {
        ReadQuotedPlain(s[0], u);
        assert s == [s[0]] + s[1..];
      }
    }
  }



  /** A data line reads back as its cells, the reading stopping at the line feed or end after it. */
  lemma ReadCellsLast(cell: string, rest: string)
    requires rest == [] || rest[0] == '\n'
    ensures ReadCells(Quote(cell) + rest) == Some(([cell], rest))
  {
    var t := Quote(cell) + rest;
    assert t[0] == '"' && t[1..] == Escape(cell) + "\"" + rest;
    ReadQuotedEscape(cell, rest);
  }

  lemma ReadCellsCons(cell: string, tail: string)
    requires ReadCells(tail).Some?
    ensures ReadCells(Quote(cell) + ("," + tail)) == Some(([cell] + ReadCells(tail).value.0, ReadCells(tail).value.1))
  {
    var t := Quote(cell) + ("," + tail);
    assert t[0] == '"' && t[1..] == Escape(cell) + "\"" + ("," + tail);
    ReadQuotedEscape(cell, "," + tail);
    assert ("," + tail)[1..] == tail;
  }

  lemma RecordCons(cells: seq<string>)
    requires |cells| >= 2
    ensures Record(cells) == Quote(cells[0]) + "," + Record(cells[1..])
  {
    var quoted := seq(|cells|, k requires 0 <= k < |cells| => Quote(cells[k]));
    assert quoted[1..] == seq(|cells[1..]|, k requires 0 <= k < |cells[1..]| => Quote(cells[1..][k]));
  }

  lemma RecordThen(cells: seq<string>, rest: string)
    requires |cells| >= 2
    ensures Record(cells) + rest == Quote(cells[0]) + ("," + (Record(cells[1..]) + rest))
  {
    RecordCons(cells);
  }

  lemma {:induction false} ReadCellsRecord(cells: seq<string>, rest: string)
    requires |cells| >= 1
    requires rest == [] || rest[0] == '\n'
    ensures ReadCells(Record(cells) + rest) == Some((cells, rest))
  {
    if |cells| == 1 {
      assert Record(cells) == Quote(cells[0]);
      ReadCellsLast(cells[0], rest);
      assert cells == [cells[0]];
    } else {
      RecordThen(cells, rest);
      ReadCellsRecord(cells[1..], rest);
      ReadCellsCons(cells[0], Record(cells[1..]) + rest);
      assert cells == [cells[0]] + cells[1..];
    }
  }


  /** Every record has at least one cell. */
  predicate NonEmptyRecords(records: seq<seq<string>>) {
    forall k :: 0 <= k < |records| ==> |records[k]| >= 1
  }

  function Lines(records: seq<seq<string>>): seq<string> {
    seq(|records|, k requires 0 <= k < |records| => Record(records[k]))
  }

  /** The data lines read back as the records they were written from. */
  lemma JoinLinesCons(records: seq<seq<string>>)
    requires |records| >= 2
    ensures Join(Lines(records), "\n") == Record(records[0]) + ("\n" + Join(Lines(records[1..]), "\n"))
  {
    assert Lines(records)[1..] == Lines(records[1..]);
  }

  lemma ReadRecordsCons(cells: seq<string>, body: string)
    requires |cells| >= 1
    ensures ReadRecords(Record(cells) + ("\n" + body))
            == match ReadRecords(body) case None => None case Some(more) => Some([cells] + more)
  {
    ReadCellsRecord(cells, "\n" + body);
    assert ("\n" + body)[1..] == body;
  }

  lemma {:induction false} ReadRecordsLines(records: seq<seq<string>>)
    requires |records| >= 1 && NonEmptyRecords(records)
    ensures ReadRecords(Join(Lines(records), "\n")) == Some(records)
  {
    if |records| == 1 {
      ReadCellsRecord(records[0], []);
      assert Join(Lines(records), "\n") == Record(records[0]) + [];
      assert records == [records[0]];
    } else {
      JoinLinesCons(records);
      ReadRecordsCons(records[0], Join(Lines(records[1..]), "\n"));
      ReadRecordsLines(records[1..]);
      assert records == [records[0]] + records[1..];
    }
  }


  /** Comma-joining names none of which holds a line feed gives a line without one. */
  lemma {:induction false} JoinNoLineFeed(parts: seq<string>)
    requires forall k :: 0 <= k < |parts| ==> '\n' !in parts[k]
    ensures '\n' !in Join(parts, ",")
  {
    if |parts| > 1 {
      JoinNoLineFeed(parts[1..]);
    }
  }

  /** An exported file reads back as its header line and exactly its records, in order. */
  lemma ReadCsvRoundTrip(headers: seq<string>, records: seq<seq<string>>)
    requires forall k :: 0 <= k < |headers| ==> '\n' !in headers[k]
    requires NonEmptyRecords(records)
    ensures ReadCsv(Csv(headers, records)) == Some((Join(headers, ","), records))
  {
    var header := Join(headers, ",");
    JoinNoLineFeed(headers);
    var lines := [header] + Lines(records);
    assert Csv(headers, records) == Join(lines, "\n");
    if records == [] {
      assert Join(lines, "\n") == header;
      SplitNoLineFeed(header);
    } else {
      assert lines[1..] == Lines(records);
      var body := Join(Lines(records), "\n");
      assert Join(lines, "\n") == header + "\n" + body;
      SplitAtFirstLineFeed(header, body);
      ReadRecordsLines(records);
    }
  }

  lemma {:induction false} SplitNoLineFeed(line: string)
    requires '\n' !in line
    ensures SplitLine(line) == (line, None)
  {
    if line != [] {
      SplitNoLineFeed(line[1..]);
      assert line == [line[0]] + line[1..];
    }
  }

  lemma {:induction false} SplitAtFirstLineFeed(line: string, rest: string)
    requires '\n' !in line
    ensures SplitLine(line + "\n" + rest) == (line, Some(rest))
  {
    var t := line + "\n" + rest;
    if line == [] {
      assert t == "\n" + rest;
      assert t[1..] == rest;
    } else {
      assert t[1..] == line[1..] + "\n" + rest;
      SplitAtFirstLineFeed(line[1..], rest);
      assert line == [line[0]] + line[1..];
    }
  }

  /** The agent export reads back as its column names and, row by row, the cells of `filteredAll`. */
  lemma AgentCsvRoundTrip(rows: seq<TableRow>, iso: Millis -> string)
    ensures ReadCsv(AgentCsv(rows, iso)) == Some((Join(AGENT_HEADERS, ","), AgentRecords(rows, iso)))
    ensures |AgentRecords(rows, iso)| == |rows|
  {
    ReadCsvRoundTrip(AGENT_HEADERS, AgentRecords(rows, iso));
  }

  /** The supervisor export reads back likewise, with the agent's name in the first cell of every record. */
  lemma SupervisorCsvRoundTrip(rows: seq<TableRow>, iso: Millis -> string)
    ensures ReadCsv(SupervisorCsv(rows, iso)) == Some((Join(SUPERVISOR_HEADERS, ","), SupervisorRecords(rows, iso)))
    ensures |SupervisorRecords(rows, iso)| == |rows|
  {
    ReadCsvRoundTrip(SUPERVISOR_HEADERS, SupervisorRecords(rows, iso));
  }
}
