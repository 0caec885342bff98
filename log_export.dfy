// API/admin.js, `POST /admin/logs/publish`: the state-change logs, newest
// first, either as a JSON report or as CSV text built line by line. Each
// log arrives with its item and user references already populated.

module LogExport {
  import opened Wrappers
  import opened Text

  /**
   * A populated log: one record of the `Logs` collection (`Db.logs`, a
   * `Models.MoveLog` each) as `populate` returns it, newest first.
   * `itemName` and `userName` are absent when the reference is unset or
   * dangling; `createdAt` is the date as JavaScript prints it.
   */
  datatype LogView = LogView(
    id: string,
    itemName: Option<string>,
    operation: Option<string>,
    kind: Option<string>,
    message: Option<string>,
    userName: Option<string>,
    createdAt: string)

  /** The first line of the CSV file. */
  const CsvHeader: string := "ID,Item,Operation,Type,Message,User,Date"

  /** How a template literal prints a field that may be `undefined`. */
  function JsText(o: Option<string>): (r: string)
    ensures o.Some? ==> r == o.value
    ensures o.None? ==> r == "undefined"
  {
    if o.Some? then o.value else "undefined"
  }

  /**
   * The seven cells of one row, under the header's column names: a missing
   * item or user reads "N/A", a missing message reads as empty.
   */
  function Fields(l: LogView): (r: seq<string>)
    ensures |r| == 7
    ensures r[0] == l.id && r[6] == l.createdAt
    ensures r[1] == (if Truthy(l.itemName) then l.itemName.value else "N/A")
    ensures r[2] == JsText(l.operation) && r[3] == JsText(l.kind)
    ensures r[4] == (if Truthy(l.message) then l.message.value else "")
    ensures r[5] == (if Truthy(l.userName) then l.userName.value else "N/A")
  {
    [l.id, OrElse(l.itemName, "N/A"), JsText(l.operation), JsText(l.kind),
     OrElse(l.message, ""), OrElse(l.userName, "N/A"), l.createdAt]
  }

  function Quote(f: string): string {
    "\"" + f + "\""
  }

  /** One CSV line without its newline: every cell in double quotes, separated by commas. */
  function RowText(l: LogView): string {
    var fs := Fields(l);
    Join(seq(|fs|, i requires 0 <= i < |fs| => Quote(fs[i])), ',')
  }

  /** No cell of the log holds a line break. */
  predicate SingleLine(l: LogView) {
    forall i :: 0 <= i < |Fields(l)| ==> '\n' !in Fields(l)[i]
  }

  /** A log whose cells hold no line break makes a row without one. */
  lemma RowIsOneLine(l: LogView)
    requires SingleLine(l)
    ensures '\n' !in RowText(l)
  {
    var fs := Fields(l);
    var qs := seq(|fs|, i requires 0 <= i < |fs| => Quote(fs[i]));
    forall i | 0 <= i < |qs| ensures '\n' !in qs[i] {
      assert qs[i] == "\"" + fs[i] + "\"";
    }
    JoinAvoids(qs, ',', '\n');
  }

  /** The rows of all logs, each followed by a newline. */
  function Rows(logs: seq<LogView>): string {
    if logs == [] then "" else RowText(logs[0]) + "\n" + Rows(logs[1..])
  }

  function RowTexts(logs: seq<LogView>): (r: seq<string>)
    ensures |r| == |logs| && forall i :: 0 <= i < |logs| ==> r[i] == RowText(logs[i])
  {
    seq(|logs|, i requires 0 <= i < |logs| => RowText(logs[i]))
  }

  /** The whole file: the header line, then one line per log. */
  function CsvText(logs: seq<LogView>): string {
    CsvHeader + "\n" + Rows(logs)
  }

  /** Appending a log appends its line. */
  lemma {:induction false} RowsSnoc(logs: seq<LogView>, l: LogView)
    ensures Rows(logs + [l]) == Rows(logs) + RowText(l) + "\n"
  {
    if logs == [] {
      assert Rows([l]) == RowText(l) + "\n" + Rows([]);
    } else {
      assert (logs + [l])[1..] == logs[1..] + [l];
      RowsSnoc(logs[1..], l);
    }
  }

  /** The rows are the row texts, each terminated by a newline. */
  lemma {:induction false} RowsAreLines(logs: seq<LogView>)
    ensures Rows(logs) == Terminated(RowTexts(logs), '\n')
  {
    if logs != [] {
      RowsAreLines(logs[1..]);
      assert RowTexts(logs)[1..] == RowTexts(logs[1..]);
    }
  }

  /**
   * When no cell holds a line break, the file's lines are the header, one
   * row per log in order, and the empty text after the final newline.
   */
  lemma CsvLines(logs: seq<LogView>)
    requires forall i :: 0 <= i < |logs| ==> SingleLine(logs[i])
    ensures Split(CsvText(logs), '\n') == [CsvHeader] + RowTexts(logs) + [""]
    ensures |Split(CsvText(logs), '\n')| == |logs| + 2
  {
    forall i | 0 <= i < |logs| ensures '\n' !in RowText(logs[i]) {
      RowIsOneLine(logs[i]);
    }
    assert '\n' !in CsvHeader;
    SplitAfter(CsvHeader, '\n', Rows(logs));
    RowsAreLines(logs);
    SplitTerminated(RowTexts(logs), '\n');
  }

  /** One more pass of the export loop appends log `i`'s line. */
  lemma CsvTextStep(logs: seq<LogView>, i: nat)
    requires i < |logs|
    ensures CsvText(logs[..i + 1]) == CsvText(logs[..i]) + RowText(logs[i]) + "\n"
  {
    assert logs[..i + 1] == logs[..i] + [logs[i]];
    RowsSnoc(logs[..i], logs[i]);
  }

  /** The export loop: the header, then one line appended per log. */
  method ExportCsv(logs: seq<LogView>) returns (csv: string)
    ensures csv == CsvText(logs)
  {
    csv := CsvHeader + "\n";
    var i := 0;
    while i < |logs|
      invariant 0 <= i <= |logs|
      invariant csv == CsvText(logs[..i])
    {
      CsvTextStep(logs, i);
      csv := csv + RowText(logs[i]) + "\n";
      i := i + 1;
    }
    assert logs[..i] == logs;
  }

  /** The reply: a CSV file, or the JSON report with the record count. */
  datatype Published = CsvFile(text: string) | JsonReport(totalRecords: nat, logs: seq<LogView>)

  /** `format` defaults to "json"; only exactly "csv" gives the file. */
  method PublishLogs(format: Option<string>, logs: seq<LogView>) returns (r: Published)
    ensures format == Some("csv") ==> r == CsvFile(CsvText(logs))
    ensures format != Some("csv") ==> r == JsonReport(|logs|, logs)
  {
    var fmt := if format.Some? then format.value else "json";
    if fmt == "csv" {
      var csv := ExportCsv(logs);
      return CsvFile(csv);
    }
    return JsonReport(|logs|, logs);
  }
}
