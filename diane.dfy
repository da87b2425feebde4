/** `main` from src/main.c: resolve the store path, open the store, then add
    the joined arguments as one item or list every item. Printing becomes the
    text each stream receives, `exit` the returned status. */
module Diane {
  import opened Wrappers
  import opened Paths
  import opened Messages
  import opened Store
  import opened Join

  const EXIT_SUCCESS := 0
  const EXIT_FAILURE := 1

  /** The two environment variables `db_file_path` reads. */
  datatype Environment = Environment(dianeDb: Option<string>, home: string)

  /** What the storage engine answers to each call `main` makes, in call order. */
  datatype Engine = Engine(
    openRc: int, openMsg: string,
    execRc: int, execMsg: string,
    prepareRc: int, stepRc: int, finalizeRc: int, insertMsg: string,
    queryRc: int, queryMsg: string, rows: seq<seq<string>>)

  /** How one run ends: exit status, standard output, standard error, and the
      content handed to `add_item`, if any. */
  datatype Termination = Termination(status: int, stdout: string, stderr: string, item: Option<string>)

  /** The note `main` stores: the arguments after the program name, joined
      with one space; with a single argument, that argument as it is. */
  function Item(argv: seq<string>): (item: string)
    ensures |argv| > 1 ==> item == Joined(argv[1..], " ")
    ensures |argv| > 1 ==> |item| == SumLengths(argv[1..]) + |argv| - 2
    ensures |argv| == 2 ==> item == argv[1]
    ensures |argv| <= 1 ==> item == []
  {
    if |argv| > 1 then
      assert Segment(argv, |argv|, 1) == argv[1..];
      JoinedLength(argv[1..], " ");
      Joined(Segment(argv, |argv|, 1), " ")
    else
      Joined(Segment(argv, |argv|, 1), " ")
  }

  /** The informational line printed once the store is open; the path can be
      read back from it. */
  function Banner(path: string): (line: string)
    ensures |line| == |path| + 16 && line[..15] == "Using database "
    ensures line[15..|line| - 1] == path && line[|line| - 1] == '\n'
  {
    "Using database " + path + "\n"
  }

  predicate Opened(engine: Engine)
  {
    engine.openRc == SQLITE_OK && engine.execRc == SQLITE_OK
  }

  /** `main` after `add_item` returned: the banner is out; a non-zero code
      sends the error text to stderr and fails the run. */
  function Inserted(path: string, item: string, added: Insertion): (t: Termination)
    requires added.status.rc != SQLITE_OK ==> added.status.error.Some?
  {
    if added.status.rc != 0 then
      Termination(EXIT_FAILURE, Banner(path), added.status.error.value, Some(item))
    else
      Termination(EXIT_SUCCESS, Banner(path), [], Some(item))
  }

  /** `main` after `print_items` returned: the banner, then the listing; a
      non-zero code sends the error text to stderr and fails the run. */
  function Listed(path: string, listed: Listing): (t: Termination)
    requires listed.status.rc != SQLITE_OK ==> listed.status.error.Some?
  {
    if listed.status.rc != 0 then
      Termination(EXIT_FAILURE, Banner(path) + listed.output, listed.status.error.value, None)
    else
      Termination(EXIT_SUCCESS, Banner(path) + listed.output, [], None)
  }

  /** One run of the program with arguments `argv` (`argv[0]` is the program
      name), with the corrected `join` and `add_item`. `sqlite3_step` never
      returns `SQLITE_OK`. */
  function Run(argv: seq<string>, env: Environment, engine: Engine): (t: Termination)
    requires Opened(engine) && |argv| > 1 ==> engine.stepRc != SQLITE_OK
    ensures t.status == EXIT_SUCCESS || t.status == EXIT_FAILURE
    ensures t.status == EXIT_SUCCESS <==>
      Opened(engine) &&
      if |argv| > 1 then
        engine.prepareRc == SQLITE_OK && engine.stepRc == SQLITE_DONE && engine.finalizeRc == SQLITE_OK
      else
        engine.queryRc == SQLITE_OK
    ensures t.stderr == [] <==> t.status == EXIT_SUCCESS
    ensures !Opened(engine) ==>
      t.stdout == [] && t.stderr == OpenDb(engine.openRc, engine.openMsg, engine.execRc, engine.execMsg).error.value
    ensures Opened(engine) && |argv| > 1 ==> t.stdout == Banner(DbFilePath(env.dianeDb, env.home))
    ensures Opened(engine) && |argv| > 1 && t.status == EXIT_FAILURE ==>
      t.stderr == InsertFailureText(engine.insertMsg)
    ensures Opened(engine) && |argv| <= 1 ==>
      t.stdout == Banner(DbFilePath(env.dianeDb, env.home)) + Printed(engine.rows)
    ensures Opened(engine) && |argv| <= 1 && t.status == EXIT_FAILURE ==>
      t.stderr == ErrorFromSqliteError("Cannot get items", engine.queryMsg).text
    ensures t.item.Some? <==> Opened(engine) && |argv| > 1
    ensures t.item.Some? ==> t.item.value == Joined(argv[1..], " ")
  {
    var path := DbFilePath(env.dianeDb, env.home);
    var store := OpenDb(engine.openRc, engine.openMsg, engine.execRc, engine.execMsg);
    if store.rc != 0 then
      Termination(EXIT_FAILURE, [], store.error.value, None)
    else if |argv| > 1 then
      Inserted(path, Item(argv), AddItem(engine.prepareRc, engine.stepRc, engine.finalizeRc, engine.insertMsg))
    else
      Listed(path, PrintItems(engine.queryRc, engine.queryMsg, engine.rows))
  }

  /** `main` as src/main.c:152-191 writes it, with the as-written `add_item`.
      A failed open ends the run before `join`; once the store is open, the
      as-written `join` stays inside its buffer only for at most one argument
      after the program name, so only those runs have a defined result. */
  function RunAsWritten(argv: seq<string>, env: Environment, engine: Engine): (t: Termination)
    requires |argv| <= 2 || !Opened(engine)
    ensures t.status == EXIT_SUCCESS <==>
      Opened(engine) &&
      if |argv| > 1 then
        engine.prepareRc == SQLITE_OK && (engine.stepRc != SQLITE_ROW || engine.finalizeRc == SQLITE_OK)
      else
        engine.queryRc == SQLITE_OK
    ensures t.stderr == [] <==> t.status == EXIT_SUCCESS
    ensures t.item.Some? <==> Opened(engine) && |argv| > 1
    ensures t.item.Some? ==> t.item.value == argv[1]
    ensures !Opened(engine) ==>
      t.stdout == [] && t.stderr == OpenDb(engine.openRc, engine.openMsg, engine.execRc, engine.execMsg).error.value
    ensures Opened(engine) && |argv| > 1 ==> t.stdout == Banner(DbFilePath(env.dianeDb, env.home))
    ensures Opened(engine) && |argv| > 1 && t.status == EXIT_FAILURE ==>
      t.stderr == InsertFailureText(engine.insertMsg)
    ensures Opened(engine) && |argv| <= 1 ==>
      t.stdout == Banner(DbFilePath(env.dianeDb, env.home)) + Printed(engine.rows)
    ensures Opened(engine) && |argv| <= 1 && t.status == EXIT_FAILURE ==>
      t.stderr == ErrorFromSqliteError("Cannot get items", engine.queryMsg).text
  {
    var path := DbFilePath(env.dianeDb, env.home);
    var store := OpenDb(engine.openRc, engine.openMsg, engine.execRc, engine.execMsg);
    if store.rc != 0 then
      Termination(EXIT_FAILURE, [], store.error.value, None)
    else if |argv| > 1 then
      Inserted(path, Item(argv), AddItemAsWritten(engine.prepareRc, engine.stepRc, engine.finalizeRc, engine.insertMsg))
    else
      Listed(path, PrintItems(engine.queryRc, engine.queryMsg, engine.rows))
  }

  /** Listing, and every failure before the insert, run the same as written
      and corrected. */
  lemma RunAsWrittenAgreesWithoutInsert(argv: seq<string>, env: Environment, engine: Engine)
    requires |argv| <= 1 || !Opened(engine)
    ensures RunAsWritten(argv, env, engine) == Run(argv, env, engine)
  {
  }

  /** `diane x` while the engine is busy: as written the note is lost and the
      run still exits 0 with nothing on stderr; corrected it fails and says why. */
  lemma BusyInsertLostAsWritten(word: string, env: Environment, engine: Engine)
    requires Opened(engine) && engine.prepareRc == SQLITE_OK && engine.stepRc == SQLITE_BUSY
    ensures RunAsWritten(["diane", word], env, engine).status == EXIT_SUCCESS
    ensures RunAsWritten(["diane", word], env, engine).stderr == []
    ensures Run(["diane", word], env, engine).status == EXIT_FAILURE
    ensures Run(["diane", word], env, engine).stderr == InsertFailureText(engine.insertMsg)
  {
  }

  /** The program name never reaches the store. */
  lemma ProgramNameNotStored(argv: seq<string>, other: seq<string>, env: Environment, engine: Engine)
    requires engine.stepRc != SQLITE_OK
    requires |argv| == |other| > 1 && argv[1..] == other[1..]
    ensures Run(argv, env, engine).item == Run(other, env, engine).item
  {
  }

  /** `diane hello world` stores "hello world". */
  lemma HelloWorldStored(env: Environment, engine: Engine)
    requires engine.stepRc != SQLITE_OK && Opened(engine)
    ensures Run(["diane", "hello", "world"], env, engine).item == Some("hello world")
  {
    var argv := ["diane", "hello", "world"];
    assert argv[1..] == ["hello", "world"];
    assert ["hello", "world"][..1] == ["hello"];
    assert Joined(["hello", "world"], " ") == "hello" + " " + "world" == "hello world";
  }

  /** A set override names the store, even when it is empty. */
  lemma OverrideNamesStore(argv: seq<string>, path: string, home: string, engine: Engine)
    requires engine.stepRc != SQLITE_OK && Opened(engine)
    ensures Banner(path) <= Run(argv, Environment(Some(path), home), engine).stdout
  {
  }
}
