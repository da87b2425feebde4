# diane, modelled in Dafny

diane is a small command-line note taker written in C over SQLite. With
arguments, `diane some words` joins the words after the program name with
single spaces and inserts them as one item. With no arguments, it prints the
content of every stored item, one per line. The store is the file named by the
`DIANE_DB` environment variable, or `$HOME/.diane_db`.

This project models the part of `src/main.c` that has logic of its own:

- `join` (module `Join`): the two-pass string join. It is modelled as imperative
  Dafny over an `array<char>` buffer, with `strlen` and `strcat` as verified
  methods (module `CStrings`). The first pass sizes the buffer. The second pass
  appends into the zeroed buffer. Both the sizing loop as written and the
  corrected one are modelled. The methods are proved against `Joined`, the
  specification of the joined text.
- `db_file_path` (module `Paths`): the two `getenv` results are inputs of type
  `Option<string>`.
- The error texts built with `asprintf` (module `Messages`).
- The return-code flow of `open_db`, `add_item` and `print_items` (module
  `Store`). Every SQLite call is replaced by the result code it returned and
  by the engine's message. These are pure functions of those inputs.
- `main` (module `Diane`): `Run` maps the arguments, the environment and the
  engine's answers to the exit status, the text on each output stream, and the
  content handed to `add_item`.

Three behaviours of the code worth noting:

- The override is used whenever `DIANE_DB` is present, even when it is empty.
- The "Using database" line is printed after a successful open in both modes (src/main.c:163).
- Items are listed `ORDER BY CreatedOn` alone (src/main.c:133); rows with the same timestamp come in whatever order SQLite returns.

## Model

| member | source | states |
|---|---|---|
| CStrings.StrLen | src/main.c:113-116 | the index returned is the buffer's first terminator: every earlier character is not NUL |
| CStrings.StrCat | src/main.c:113-116 | with room for the text and a terminator, the buffer afterwards holds the old string followed by the text, and the bytes past the new terminator are unchanged |
| Join.Segment | src/main.c:100 | the arguments read are `strings[start..count]`, none when `start >= count` |
| Join.JoinedLength | src/main.c:111-118 | n >= 1 joined strings have the length of their characters plus n - 1 separators |
| Join.JoinedSplit | src/main.c:111-118 | cutting the list anywhere cuts the joined text at exactly one separator, so separators sit only between neighbours |
| Join.JoinedCons | src/main.c:111-118 | the joined text is the first string, a separator, then the rest joined |
| Join.JoinedSize | src/main.c:98-108 | the corrected first pass yields the joined length plus one for the terminator (sum of lengths plus (n-1) separators plus one) |
| Join.SizeAsWritten | src/main.c:98-108 | the first pass as written yields at most the needed size, and exactly the needed size iff at most one string is joined or the separator is empty |
| Join.AsWrittenSizeIff | src/main.c:100-107 | the as-written sum never exceeds the joined length and equals it iff `count - start <= 1` or the separator is empty |
| Join.AsWrittenLength | src/main.c:100-107 | the sum the as-written loop reaches, visiting every (1 + separator length)-th string, is at most the total length of `strings[i..count]`, and equals it when the separator is empty |
| Join.AsWrittenOverflowExample | src/main.c:105 | for `diane hello world` the as-written pass allocates 6 characters where `strcat` writes 12 |
| Join.FillStep | src/main.c:111-118 | one turn appends the string and, unless it is the last, the separator; what has been written stays within the joined text |
| Join.FillTurn | src/main.c:113-117 | one turn's `strcat` calls take the buffer from the text written before the argument to the text written after it (and its separator) |
| Join.Fill | src/main.c:111-118 | on a zeroed buffer larger than the joined text, the `strcat` loop leaves the joined text, terminated, in the buffer |
| Join.Join | src/main.c:95-119 | with the corrected first pass the buffer is exactly the joined length plus one and holds the joined text |
| Join.JoinAsWritten | src/main.c:95-119 | the code as written is memory-safe exactly when at most one string is joined or the separator is empty, and then holds the joined text |
| Paths.DbFilePath | src/main.c:14-29 | a present override, even empty, is the path verbatim; otherwise the path is HOME followed by ten more characters |
| Paths.DefaultPathIsInHome | src/main.c:22-26 | without the override the path's last component is `.diane_db` and its directory part is HOME |
| Paths.TrailingSeparatorDoubles | src/main.c:24-25 | a HOME ending in `/` yields `//` in the path |
| Messages.ErrorFromSqliteError | src/main.c:31-37 | the text starts with the message and ends with a newline; the returned count is the text's length |
| Messages.ErrorTextRoundTrip | src/main.c:33 | the engine's message can be read back unchanged from the formatted text |
| Messages.OpenFailureText | src/main.c:44 | the open failure text has the same shape as the others, and carries the engine's message |
| Messages.InsertFailureText | src/main.c:66 | the insert failure text is the common shape without its trailing newline |
| Store.OpenDb | src/main.c:39-62 | returns 0 iff both the open and the CREATE TABLE succeed, otherwise the first failing code with its error text; an error is set iff the code is non-zero |
| Store.AddItemAsWritten | src/main.c:64-93 | non-zero iff prepare fails or the step yields ROW and finalize fails, and then it is the prepare's or the finalize's code; finalized iff the step yields ROW |
| Store.AddItemAsWrittenHidesStepFailure | src/main.c:78-83 | a busy step is reported as success, and a normal DONE step leaves the statement unfinalized |
| Store.AddItem | src/main.c:64-93 | corrected: 0 iff prepare succeeds, the step is DONE and finalize succeeds; otherwise the code of the first failing call (prepare, step or finalize); an error text is set iff the code is non-zero |
| Store.Printed | src/main.c:121-135 | when every row has a content free of newlines, reading the printed text line by line gives exactly one line per row, in order, holding that row's content (an empty content gives an empty line) |
| Store.PrintedConcat | src/main.c:135 | printing two batches of rows prints the first batch, then the second |
| Store.PrintItems | src/main.c:131-143 | the code is the query's code; the printed text is the rows' contents; an error is set iff the query failed, and it carries the engine's message |
| Store.ListingExample | src/main.c:131-143 | rows "first", "second" list as "first\nsecond\n" |
| Diane.Item | src/main.c:165-168 | the stored text is the arguments after `argv[0]` joined by single spaces: their characters plus one space between each pair; a single argument is stored as is |
| Diane.Banner | src/main.c:163 | the line is "Using database ", the path, and a newline; the path reads back from it |
| Diane.Run | src/main.c:152-191 | exit 0 iff the open, the table creation and the chosen operation all succeed; stderr is empty iff exit is 0 and otherwise holds the failing stage's text with the engine's message (open, insert or query); the "Using database" line is printed iff the open succeeded, alone when adding and followed by the listing when listing; with arguments the content is the arguments after `argv[0]` joined by spaces |
| Diane.RunAsWritten | src/main.c:152-191 | with the as-written `add_item`, for a failed open or at most one argument: every stream as in `Run`, the insert error on stderr when the insert fails; exit 0 iff the store opened and either prepare succeeded and the step was not ROW or finalize succeeded, or the listing succeeded |
| Diane.RunAsWrittenAgreesWithoutInsert | src/main.c:157-161 | listing, and every failed open whatever the arguments, behave the same as written and corrected |
| Diane.BusyInsertLostAsWritten | src/main.c:78-83 | `diane x` on a busy step exits 0 with empty stderr as written, while the corrected run exits 1 with the insert error |
| Diane.ProgramNameNotStored | src/main.c:165-168 | changing `argv[0]` never changes the stored content |
| Diane.HelloWorldStored | src/main.c:168 | `diane hello world` stores "hello world" |
| Diane.OverrideNamesStore | src/main.c:17-20 | with the override set, the banner names its value |

## Findings

| source | as written | input that shows it | evidently intended | confidence | as-written member | corrected member |
|---|---|---|---|---|---|---|
| src/main.c:105 | `i += sep_len` jumps over arguments and never counts separators | `diane hello world`: 6 characters allocated, 12 written by `strcat` | `length += sep_len` | high; not executed | Join.SizeAsWritten, Join.AsWrittenOverflowExample | Join.JoinedSize, Join.Join |
| src/main.c:79 | `step != SQLITE_ROW` returns `rc`, the prepare's 0 | step returns SQLITE_BUSY: `add_item` returns 0 and the failure is lost | `step != SQLITE_DONE`, returning the step's code | high; not executed | Store.AddItemAsWritten, Store.AddItemAsWrittenHidesStepFailure, Diane.RunAsWritten, Diane.BusyInsertLostAsWritten | Store.AddItem, Diane.Run |

`Diane.Run` uses the corrected `Join` (through its specification `Joined`) and
the corrected `AddItem`. `Diane.RunAsWritten` keeps the as-written `add_item`
for the runs whose as-written `join` is defined.

## Left out

- SQLite itself: creating the file and the table, binding and inserting the content, and the order and ties of `ORDER BY CreatedOn`. These happen inside the library. The model takes the result codes, the messages and the rows delivered to the callback as inputs.
- Persistence across runs and concurrent runs: these are file I/O with no coordination in the code.
- `sqlite3_close`, `free`, `sqlite3_free` and the `exit` in `on_error`: process and memory bookkeeping. `Run` records the exit status and the text each stream receives instead.
- `asprintf` returning -1 and `calloc` returning NULL: allocation failure is not modelled.
- `getenv("HOME")` returning NULL: formatting NULL with `%s` depends on the C library.
- The `int` width of `length` and `sep_len` in `join`: lengths are unbounded integers, so an overflow past `INT_MAX` is not modelled.
- A NULL Content column printed with `%s`: the program never stores one.
- Store.AddItem: requires that the step code is not SQLITE_OK, because `sqlite3_step` never returns it; the corrected code returns the step's code.
- Diane.Run: requires the same of the engine's step code when the store opened and an item is added, for the same reason.
- Diane.RunAsWritten: once the store is open, covers at most one argument after the program name. With two or more, the as-written `join` writes past its buffer, so that run has no defined result to model.
- Messages.ErrorFromSqliteError: strings are sequences of `char` while C counts bytes, so the returned count equals the byte count only for single-byte text. No caller uses the count.
