/** `db_file_path` from src/main.c: where the note store lives. The two
    `getenv` lookups are inputs; an unset variable is `None`. */
module Paths {
  import opened Wrappers

  /** The store's file name in the home directory. */
  const DIANE_DB_FILENAME: string := ".diane_db"

  /** The path separator; the same on every host. */
  const PATH_SEP: string := "/"

  /** The override's value if the variable is present at all (even empty),
      otherwise HOME, a separator and the file name, with no normalisation. */
  function DbFilePath(dianeDb: Option<string>, home: string): (path: string)
    ensures dianeDb.Some? ==> path == dianeDb.value
    ensures dianeDb.None? ==> |path| == |home| + 10 && path[..|home|] == home
  {
    match dianeDb
    case Some(override) => override
    case None => home + PATH_SEP + DIANE_DB_FILENAME
  }

  /** The last component of a path: everything after its last separator. */
  function BaseName(path: string): (name: string)
  {
    if path == [] || path[|path| - 1] == '/' then []
    else BaseName(path[..|path| - 1]) + [path[|path| - 1]]
  }

  /** Everything before the last separator of a path. */
  function DirName(path: string): (dir: string)
  {
    if path == [] then []
    else if path[|path| - 1] == '/' then path[..|path| - 1]
    else DirName(path[..|path| - 1])
  }

  lemma {:induction false} SplitAtLastSeparator(dir: string, name: string)
    requires '/' !in name
    ensures BaseName(dir + "/" + name) == name
    ensures DirName(dir + "/" + name) == dir
    decreases |name|
  {
    var path := dir + "/" + name;
    if name == [] {
      assert path[..|path| - 1] == dir;
    } else {
      var init := name[..|name| - 1];
      assert path[..|path| - 1] == dir + "/" + init;
      assert init + [name[|name| - 1]] == name;
      SplitAtLastSeparator(dir, init);
    }
  }

  /** Without the override the store is the file `.diane_db` in the directory
      HOME names, whatever HOME is. */
  lemma DefaultPathIsInHome(home: string)
    ensures BaseName(DbFilePath(None, home)) == DIANE_DB_FILENAME
    ensures DirName(DbFilePath(None, home)) == home
  {
    SplitAtLastSeparator(home, DIANE_DB_FILENAME);
  }

  /** A HOME that ends in a separator yields a doubled separator. */
  lemma TrailingSeparatorDoubles(home: string)
    requires home != [] && home[|home| - 1] == '/'
    ensures DbFilePath(None, home)[|home| - 1..|home| + 1] == "//"
  {
  }
}
