/** The error texts src/main.c builds with `asprintf` around the storage
    engine's own message. */
module Messages {
  import opened Wrappers

  /** Text `asprintf` produced and the count it returned. */
  datatype Formatted = Formatted(text: string, written: int)

  /** `error_from_sqlite_error`: the message, ": ", the engine's text and a
      newline; `asprintf` returns the number of characters written. */
  function ErrorFromSqliteError(message: string, engineMsg: string): (r: Formatted)
    ensures r.written == |r.text| == |message| + 2 + |engineMsg| + 1
    ensures r.text[..|message|] == message && r.text[|r.text| - 1] == '\n'
  {
    var text := message + ": " + engineMsg + "\n";
    Formatted(text, |text|)
  }

  /** Read an error text back: the engine's message if `text` has the shape
      `message + ": " + ... + "\n"`. */
  function EngineMessageOf(text: string, message: string): (r: Option<string>)
    ensures r.Some? ==> |r.value| + |message| + 3 == |text|
  {
    if |text| >= |message| + 3 && text[..|message| + 2] == message + ": " && text[|text| - 1] == '\n'
    then Some(text[|message| + 2..|text| - 1])
    else None
  }

  /** The engine's message survives the formatting unchanged. */
  lemma ErrorTextRoundTrip(message: string, engineMsg: string)
    ensures EngineMessageOf(ErrorFromSqliteError(message, engineMsg).text, message) == Some(engineMsg)
  {
  }

  /** The text `open_db` reports when the store cannot be opened. */
  function OpenFailureText(engineMsg: string): (text: string)
    ensures EngineMessageOf(text, "Cannot open database") == Some(engineMsg)
  {
    var text := "Cannot open database: " + engineMsg + "\n";
    assert text == ErrorFromSqliteError("Cannot open database", engineMsg).text;
    ErrorTextRoundTrip("Cannot open database", engineMsg);
    text
  }

  /** The text `add_item` reports; unlike the others it has no newline. */
  function InsertFailureText(engineMsg: string): (text: string)
    ensures text + "\n" == ErrorFromSqliteError("Cannot insert item", engineMsg).text
  {
    "Cannot insert item: " + engineMsg
  }
}
