/** The return-code flow of `open_db`, `add_item` and `print_items` in
    src/main.c. Every SQLite call is replaced by the result code it returned
    (and the text `sqlite3_errmsg` or the exec error pointer gave), so these are
    functions of those codes; what SQLite does with the file is not modelled. */
module Store {
  import opened Wrappers
  import opened Messages

  const SQLITE_OK := 0
  const SQLITE_BUSY := 5
  const SQLITE_ROW := 100
  const SQLITE_DONE := 101

  /** The code a function returns and the error text it left in `*error`. */
  datatype Status = Status(rc: int, error: Option<string>)

  /** `open_db`: open the file, then create the items table if it is missing.
      `execRc` and `execMsg` are only consulted once the open succeeded. */
  function OpenDb(openRc: int, openMsg: string, execRc: int, execMsg: string): (s: Status)
    ensures s.rc == SQLITE_OK <==> openRc == SQLITE_OK && execRc == SQLITE_OK
    ensures s.rc != SQLITE_OK ==> s.rc == if openRc != SQLITE_OK then openRc else execRc
    ensures s.error.Some? <==> s.rc != SQLITE_OK
    ensures openRc != SQLITE_OK ==> s.error == Some(OpenFailureText(openMsg))
    ensures openRc == SQLITE_OK && execRc != SQLITE_OK ==>
      s.error == Some(ErrorFromSqliteError("Cannot create items table", execMsg).text)
  {
    if openRc != SQLITE_OK then
      Status(openRc, Some(OpenFailureText(openMsg)))
    else if execRc != SQLITE_OK then
      Status(execRc, Some(ErrorFromSqliteError("Cannot create items table", execMsg).text))
    else
      Status(0, None)
  }

  /** The outcome of inserting an item, and whether its statement was finalized. */
  datatype Insertion = Insertion(status: Status, finalized: bool)

  /** `add_item` as src/main.c:64-93 writes it: after a successful prepare it
      tests `step != SQLITE_ROW`, which an INSERT's normal `SQLITE_DONE` meets,
      and then returns `rc`, still the prepare's `SQLITE_OK`. */
  function AddItemAsWritten(prepareRc: int, stepRc: int, finalizeRc: int, engineMsg: string): (r: Insertion)
    ensures r.status.rc != SQLITE_OK <==>
      prepareRc != SQLITE_OK || (stepRc == SQLITE_ROW && finalizeRc != SQLITE_OK)
    ensures prepareRc != SQLITE_OK ==> r.status.rc == prepareRc
    ensures prepareRc == SQLITE_OK && stepRc == SQLITE_ROW && finalizeRc != SQLITE_OK ==>
      r.status.rc == finalizeRc
    ensures r.finalized <==> prepareRc == SQLITE_OK && stepRc == SQLITE_ROW
    ensures r.status.error.Some? <==>
      !(prepareRc == SQLITE_OK && stepRc == SQLITE_ROW && finalizeRc == SQLITE_OK)
    ensures r.status.error.Some? ==> r.status.error == Some(InsertFailureText(engineMsg))
  {
    var failed := Some(InsertFailureText(engineMsg));
    if prepareRc != SQLITE_OK then Insertion(Status(prepareRc, failed), false)
    else if stepRc != SQLITE_ROW then Insertion(Status(prepareRc, failed), false)
    else if finalizeRc != SQLITE_OK then Insertion(Status(finalizeRc, failed), true)
    else Insertion(Status(0, None), true)
  }

  /** A step that fails outright (the engine is busy) is reported as success,
      and a normal insert leaves its statement unfinalized. */
  lemma AddItemAsWrittenHidesStepFailure(engineMsg: string)
    ensures AddItemAsWritten(SQLITE_OK, SQLITE_BUSY, SQLITE_OK, engineMsg).status.rc == SQLITE_OK
    ensures !AddItemAsWritten(SQLITE_OK, SQLITE_DONE, SQLITE_OK, engineMsg).finalized
  {
  }

  /** `add_item` as evidently intended: an INSERT step must end in
      `SQLITE_DONE`; any other step code is returned as the failure.
      `sqlite3_step` never returns `SQLITE_OK`, so a failing step is non-zero. */
  function AddItem(prepareRc: int, stepRc: int, finalizeRc: int, engineMsg: string): (r: Insertion)
    requires stepRc != SQLITE_OK
    ensures r.status.rc == SQLITE_OK <==>
      prepareRc == SQLITE_OK && stepRc == SQLITE_DONE && finalizeRc == SQLITE_OK
    ensures prepareRc != SQLITE_OK ==> r.status.rc == prepareRc
    ensures prepareRc == SQLITE_OK && stepRc != SQLITE_DONE ==> r.status.rc == stepRc
    ensures prepareRc == SQLITE_OK && stepRc == SQLITE_DONE && finalizeRc != SQLITE_OK ==>
      r.status.rc == finalizeRc
    ensures r.status.rc != SQLITE_OK ==> r.status.error == Some(InsertFailureText(engineMsg))
    ensures r.status.rc == SQLITE_OK ==> r.status.error == None
    ensures r.finalized <==> prepareRc == SQLITE_OK && stepRc == SQLITE_DONE
  {
    var failed := Some(InsertFailureText(engineMsg));
    if prepareRc != SQLITE_OK then Insertion(Status(prepareRc, failed), false)
    else if stepRc != SQLITE_DONE then Insertion(Status(stepRc, failed), false)
    else if finalizeRc != SQLITE_OK then Insertion(Status(finalizeRc, failed), true)
    else Insertion(Status(0, None), true)
  }

  /** `print_items_callback`: print the first column of a result row, if any. */
  function PrintRow(columns: seq<string>): (line: string)
  {
    if |columns| > 0 then columns[0] + "\n" else []
  }

  /** Index of the first newline in a text. */
  function FirstNewline(text: string): (i: nat)
    requires '\n' in text
    ensures i < |text| && text[i] == '\n' && '\n' !in text[..i]
  {
    if text[0] == '\n' then 0
    else
      assert text == [text[0]] + text[1..];
      1 + FirstNewline(text[1..])
  }

  /** A reader's view of printed text: the lines it holds, each without its
      newline; a last line without a newline counts too. */
  function Lines(text: string): (lines: seq<string>)
    decreases |text|
  {
    if '\n' !in text then (if text == [] then [] else [text])
    else
      var i := FirstNewline(text);
      [text[..i]] + Lines(text[i + 1..])
  }

  /** A newline with none before it is the first newline. */
  lemma {:induction false} FirstNewlineAt(text: string, j: nat)
    requires j < |text| && text[j] == '\n'
    requires forall k :: 0 <= k < j ==> text[k] != '\n'
    ensures '\n' in text && FirstNewline(text) == j
  {
    if j > 0 {
      FirstNewlineAt(text[1..], j - 1);
    }
  }

  /** A line without a newline, then its newline, reads back as that line. */
  lemma LinesCons(line: string, rest: string)
    requires '\n' !in line
    ensures Lines(line + "\n" + rest) == [line] + Lines(rest)
  {
    var text := line + "\n" + rest;
    FirstNewlineAt(text, |line|);
    assert text[..|line|] == line;
    assert text[|line| + 1..] == rest;
  }

  /** Every row has a first column, and no content holds a newline. */
  predicate PlainRows(rows: seq<seq<string>>)
  {
    forall k :: 0 <= k < |rows| ==> |rows[k]| > 0 && '\n' !in rows[k][0]
  }

  /** A reader of `text` sees one line per row, holding that row's content. */
  ghost predicate ReadsAsContents(text: string, rows: seq<seq<string>>)
    requires PlainRows(rows)
  {
    |Lines(text)| == |rows| && forall k :: 0 <= k < |rows| ==> Lines(text)[k] == rows[k][0]
  }

  /** What the callback prints for the rows the engine hands it, in order.
      When every row has a first column free of newlines, a reader sees one
      line per row, holding that row's content, even an empty one. */
  function Printed(rows: seq<seq<string>>): (text: string)
    ensures PlainRows(rows) ==> ReadsAsContents(text, rows)
  {
    if rows == [] then []
    else
      var rest := Printed(rows[1..]);
      if PlainRows(rows) then
        assert PlainRows(rows[1..]);
        LinesCons(rows[0][0], rest);
        PrintRow(rows[0]) + rest
      else
        PrintRow(rows[0]) + rest
  }

  /** Printing two batches of rows prints one after the other. */
  lemma {:induction false} PrintedConcat(a: seq<seq<string>>, b: seq<seq<string>>)
    ensures Printed(a + b) == Printed(a) + Printed(b)
  {
    if a == [] {
      assert a + b == b;
    } else {
      assert (a + b)[1..] == a[1..] + b;
      PrintedConcat(a[1..], b);
    }
  }

  /** The listing, and how `print_items` ended. */
  datatype Listing = Listing(output: string, status: Status)

  /** `print_items`: run the SELECT, printing each row it yields; return the
      exec's code, wrapping its error text when it failed. `rows` are the rows
      the engine delivered to the callback. */
  function PrintItems(queryRc: int, queryMsg: string, rows: seq<seq<string>>): (r: Listing)
    ensures r.status.rc == queryRc
    ensures r.output == Printed(rows)
    ensures r.status.error.Some? <==> queryRc != SQLITE_OK
    ensures queryRc != SQLITE_OK ==>
      EngineMessageOf(r.status.error.value, "Cannot get items") == Some(queryMsg)
  {
    if queryRc != SQLITE_OK then
      ErrorTextRoundTrip("Cannot get items", queryMsg);
      Listing(Printed(rows), Status(queryRc, Some(ErrorFromSqliteError("Cannot get items", queryMsg).text)))
    else
      Listing(Printed(rows), Status(queryRc, None))
  }

  /** A single (Content, CreatedOn) row prints as its content and a newline. */
  lemma PrintedOneRow(content: string, createdOn: string)
    ensures Printed([[content, createdOn]]) == content + "\n"
  {
    assert [[content, createdOn]][1..] == [];
  }

  /** The listing of an added "first" and "second" is "first\nsecond\n". */
  lemma ListingExample(t1: string, t2: string)
    ensures PrintItems(SQLITE_OK, "", [["first", t1], ["second", t2]]).output == "first\nsecond\n"
  {
    var rows := [["first", t1], ["second", t2]];
    PrintedOneRow("second", t2);
    assert rows[1..] == [["second", t2]];
  }
}
