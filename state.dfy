/**
 * The migration entity and the pure parts of the state loader: the content hash rule, the
 * name indexes, the quoted table name, the order-file split and the mapping of tracking rows
 * and order lines to migrations (src/state.ts).
 */
module State {
  import opened Wrappers

  /**
   * The content digest. The source uses SHA-256 over UTF-8, hex-encoded; the model never looks
   * inside it, so every result below holds for any deterministic function of the text.
   */
  type Hasher = string -> string

  /** The `sql` and `hash` getters: one kind of text for the do and the undo side. */
  datatype Pair = Pair(doPart: string, undoPart: string)

  /** The `do` and `undo` getters: one side's script text with its hash. */
  datatype Script = Script(sql: string, hash: string)

  /** A migration: a named pair of scripts with their content hashes. It has no setters. */
  datatype Migration = Migration(name: string, doSql: string, undoSql: string, doHash: string, undoHash: string)
  {
    function Sql(): Pair {
      Pair(doSql, undoSql)
    }

    function Hash(): Pair {
      Pair(doHash, undoHash)
    }

    function Do(): Script {
      Script(doSql, doHash)
    }

    function Undo(): Script {
      Script(undoSql, undoHash)
    }
  }

  /** `given || hash(text)`: a missing hash and the empty string are both falsy and recomputed. */
  function HashOr(h: Hasher, given: Option<string>, text: string): string {
    if given.Some? && given.value != "" then given.value else h(text)
  }

  /** The `Migration` constructor; the two hashes are optional parameters. */
  function NewMigration(h: Hasher, name: string, doSql: string, undoSql: string,
                        doHash: Option<string>, undoHash: Option<string>): (m: Migration)
    ensures m.name == name && m.Sql() == Pair(doSql, undoSql)
    ensures m.Do() == Script(m.Sql().doPart, m.Hash().doPart)
    ensures m.Undo() == Script(m.Sql().undoPart, m.Hash().undoPart)
    ensures doHash.Some? && doHash.value != "" ==> m.Hash().doPart == doHash.value
    ensures undoHash.Some? && undoHash.value != "" ==> m.Hash().undoPart == undoHash.value
    ensures doHash.None? || doHash.value == "" ==> m.Hash().doPart == h(doSql)
    ensures undoHash.None? || undoHash.value == "" ==> m.Hash().undoPart == h(undoSql)
  {
    Migration(name, doSql, undoSql, HashOr(h, doHash, doSql), HashOr(h, undoHash, undoSql))
  }

  /** Built from script text alone, both hashes are the digests of the scripts. */
  lemma ComputedHashes(h: Hasher, name: string, doSql: string, undoSql: string)
    ensures NewMigration(h, name, doSql, undoSql, None, None).Hash() == Pair(h(doSql), h(undoSql))
  {
  }

  /** Explicit non-empty hashes are trusted as given, whatever the scripts are. */
  lemma ExplicitHashesKept(h: Hasher, name: string, doSql: string, undoSql: string, doHash: string, undoHash: string)
    requires doHash != "" && undoHash != ""
    ensures NewMigration(h, name, doSql, undoSql, Some(doHash), Some(undoHash)).Hash() == Pair(doHash, undoHash)
  {
  }

  /**
   * Storing a freshly built migration and building it again from the stored columns gives the
   * same migration: the stored hash is kept, or, when it is empty, recomputed to the same value.
   */
  lemma StoreAndReload(h: Hasher, name: string, doSql: string, undoSql: string)
    ensures var m := NewMigration(h, name, doSql, undoSql, None, None);
            NewMigration(h, m.name, m.doSql, m.undoSql, Some(m.doHash), Some(m.undoHash)) == m
  {
  }

  // ---------------------------------------------------------------------------------------
  // Indexes by name (the `tableByName` and `migrationsByName` getters)

  /** No later element of `list` has the name of `list[i]`. */
  ghost predicate LastWithName(list: seq<Migration>, i: int)
    requires 0 <= i < |list|
  {
    forall j :: i < j < |list| ==> list[j].name != list[i].name
  }

  /** The record a `reduce` over `list` builds, writing each migration under its name. */
  function IndexByName(list: seq<Migration>): (index: map<string, Migration>)
    ensures forall n :: n in index ==> index[n].name == n
    decreases |list|
  {
    if list == [] then map[]
    else
      var last := list[|list| - 1];
      assert list == list[..|list| - 1] + [last];
      IndexByName(list[..|list| - 1])[last.name := last]
  }

  /** The index has exactly the names of `list` as keys, and files each migration under its own name. */
  lemma {:induction false} IndexByNameKeys(list: seq<Migration>)
    ensures IndexByName(list).Keys == set m | m in list :: m.name
    ensures forall n :: n in IndexByName(list) ==> IndexByName(list)[n].name == n && IndexByName(list)[n] in list
    decreases |list|
  {
    if list != [] {
      var init := list[..|list| - 1];
      IndexByNameKeys(init);
      assert list == init + [list[|list| - 1]];
      forall n | n in IndexByName(init) ensures IndexByName(init)[n] in list {
        assert IndexByName(init)[n] in init;
      }
    }
  }

  /** With duplicate names the last occurrence wins. */
  lemma {:induction false} LastOccurrenceWins(list: seq<Migration>, i: int)
    requires 0 <= i < |list| && LastWithName(list, i)
    ensures list[i].name in IndexByName(list) && IndexByName(list)[list[i].name] == list[i]
    decreases |list|
  {
    if i < |list| - 1 {
      var init := list[..|list| - 1];
      assert LastWithName(init, i) by {
        forall j | i < j < |init| ensures init[j].name != init[i].name {
          assert init[j] == list[j];
        }
      }
      LastOccurrenceWins(init, i);
      assert list[|list| - 1].name != list[i].name;
    }
  }

  // ---------------------------------------------------------------------------------------
  // The quoted table name

  datatype StateConfig = StateConfig(path: string, orderFile: string, schema: string, table: string)

  /** The `tableName` getter: schema and table each wrapped in double quotes, nothing escaped. */
  function TableName(config: StateConfig): (name: string)
    ensures |name| == |config.schema| + |config.table| + 5
    ensures name[..1 + |config.schema|] == "\"" + config.schema && name[|name| - 1 - |config.table|..] == config.table + "\""
  {
    "\"" + config.schema + "\".\"" + config.table + "\""
  }

  /** Because nothing is escaped, two different configurations can name the same table. */
  lemma TableNameAmbiguous()
    ensures TableName(StateConfig("", "", "a\".\"b", "c")) == TableName(StateConfig("", "", "a", "b\".\"c"))
  {
  }

  /** The quoted name determines schema and table as long as neither contains a double quote. */
  lemma TableNameInjective(c1: StateConfig, c2: StateConfig)
    requires '"' !in c1.schema && '"' !in c2.schema
    requires TableName(c1) == TableName(c2)
    ensures c1.schema == c2.schema && c1.table == c2.table
  {
    var s1, s2 := c1.schema, c2.schema;
    var n1, n2 := TableName(c1), TableName(c2);
    assert n1[1 + |s1|] == '"';
    assert n2[1 + |s2|] == '"';
    assert |s1| == |s2|;
    assert s1 == n1[1..1 + |s1|] == n2[1..1 + |s2|] == s2;
    assert c1.table == n1[|s1| + 4..|n1| - 1] == n2[|s2| + 4..|n2| - 1] == c2.table;
  }

  // ---------------------------------------------------------------------------------------
  // The order file

  /** `text.split('\n')`: the pieces between newlines; the empty text gives one empty piece. */
  function SplitLines(text: string): (parts: seq<string>)
    ensures |parts| >= 1
    ensures forall i :: 0 <= i < |parts| ==> '\n' !in parts[i]
  {
    if text == [] then [""]
    else
      var rest := SplitLines(text[1..]);
      if text[0] == '\n' then [""] + rest
      else [[text[0]] + rest[0]] + rest[1..]
  }

  /** `parts.join('\n')`. */
  function JoinLines(parts: seq<string>): string {
    if |parts| == 0 then ""
    else if |parts| == 1 then parts[0]
    else parts[0] + "\n" + JoinLines(parts[1..])
  }

  /**
   * `.filter(row => !!row)`: the empty string is the only falsy string. A single entry is kept
   * exactly when it is not empty; with NonEmptyAppend this fixes the filter on every list.
   */
  function NonEmpty(parts: seq<string>): (kept: seq<string>)
    ensures forall i :: 0 <= i < |kept| ==> kept[i] != "" && kept[i] in parts
    ensures (forall i :: 0 <= i < |parts| ==> parts[i] != "") ==> kept == parts
    ensures |parts| == 1 ==> kept == if parts[0] == "" then [] else parts
  {
    if parts == [] then []
    else if parts[0] == "" then NonEmpty(parts[1..])
    else [parts[0]] + NonEmpty(parts[1..])
  }

  /** The filter works entry by entry: filtering a concatenation filters each part, in order. */
  lemma {:induction false} NonEmptyAppend(a: seq<string>, b: seq<string>)
    ensures NonEmpty(a + b) == NonEmpty(a) + NonEmpty(b)
  {
    if a == [] {
      assert a + b == b;
    } else {
      assert (a + b)[0] == a[0];
      assert (a + b)[1..] == a[1..] + b;
      NonEmptyAppend(a[1..], b);
    }
  }

  /**
   * The order list: the file split on newlines with the empty lines dropped. Each line is
   * non-empty and newline-free; OrderLinesAppend and OrderLinesLine determine it on every file.
   */
  function OrderLines(file: string): (lines: seq<string>)
    ensures forall i :: 0 <= i < |lines| ==> lines[i] != "" && '\n' !in lines[i]
  {
    NonEmpty(SplitLines(file))
  }

  /** Splitting loses nothing: joining the pieces gives back the text. */
  lemma {:induction false} JoinSplit(text: string)
    ensures JoinLines(SplitLines(text)) == text
  {
    if text != [] {
      JoinSplit(text[1..]);
      var rest := SplitLines(text[1..]);
      if text[0] != '\n' && |rest| > 1 {
        assert JoinLines(rest) == rest[0] + "\n" + JoinLines(rest[1..]);
        assert [[text[0]] + rest[0]] + rest[1..] == [[text[0]] + rest[0]] + rest[1..][0..];
      }
    }
  }

  lemma {:induction false} SplitNoNewline(w: string)
    requires '\n' !in w
    ensures SplitLines(w) == [w]
  {
    if w != [] {
      SplitNoNewline(w[1..]);
      assert [w[0]] + w[1..] == w;
    }
  }

  lemma {:induction false} SplitAfterLine(w: string, rest: string)
    requires '\n' !in w
    ensures SplitLines(w + "\n" + rest) == [w] + SplitLines(rest)
  {
    if w == [] {
      assert w + "\n" + rest == "\n" + rest;
      assert ("\n" + rest)[1..] == rest;
    } else {
      SplitAfterLine(w[1..], rest);
      assert (w + "\n" + rest)[1..] == w[1..] + "\n" + rest;
      assert [w[0]] + w[1..] == w;
    }
  }

  /** Joining newline-free pieces and splitting again gives the pieces back. */
  lemma {:induction false} SplitJoin(parts: seq<string>)
    requires |parts| >= 1
    requires forall i :: 0 <= i < |parts| ==> '\n' !in parts[i]
    ensures SplitLines(JoinLines(parts)) == parts
  {
    if |parts| == 1 {
      SplitNoNewline(parts[0]);
    } else {
      SplitJoin(parts[1..]);
      SplitAfterLine(parts[0], JoinLines(parts[1..]));
      assert [parts[0]] + parts[1..] == parts;
    }
  }

  /** A newline splits the text into the pieces before it followed by the pieces after it. */
  lemma {:induction false} SplitAppend(x: string, y: string)
    ensures SplitLines(x + "\n" + y) == SplitLines(x) + SplitLines(y)
  {
    if x == [] {
      assert x + "\n" + y == "\n" + y;
      assert ("\n" + y)[1..] == y;
    } else {
      assert (x + "\n" + y)[0] == x[0];
      assert (x + "\n" + y)[1..] == x[1..] + "\n" + y;
      SplitAppend(x[1..], y);
    }
  }

  /** The order lines of two texts joined by a newline: those of the first, then those of the second. */
  lemma OrderLinesAppend(x: string, y: string)
    ensures OrderLines(x + "\n" + y) == OrderLines(x) + OrderLines(y)
  {
    SplitAppend(x, y);
    NonEmptyAppend(SplitLines(x), SplitLines(y));
  }

  /** A text without newlines is one order line, or none when it is empty. */
  lemma OrderLinesLine(w: string)
    requires '\n' !in w
    ensures OrderLines(w) == if w == "" then [] else [w]
  {
    SplitNoNewline(w);
  }

  /** An order file written one name per line reads back as exactly those names. */
  lemma OrderRoundTrip(names: seq<string>)
    requires forall i :: 0 <= i < |names| ==> names[i] != "" && '\n' !in names[i]
    ensures OrderLines(JoinLines(names)) == names
  {
    if names != [] {
      SplitJoin(names);
    }
  }

  /** A final newline after the last name adds no order line. */
  lemma OrderTrailingNewline(names: seq<string>)
    requires forall i :: 0 <= i < |names| ==> names[i] != "" && '\n' !in names[i]
    ensures OrderLines(JoinLines(names) + "\n") == names
  {
    OrderLinesAppend(JoinLines(names), "");
    assert JoinLines(names) + "\n" + "" == JoinLines(names) + "\n";
    OrderLinesLine("");
    OrderRoundTrip(names);
  }

  /** A blank line between two groups of names is dropped. */
  lemma OrderBlankLine(a: seq<string>, b: seq<string>)
    requires forall i :: 0 <= i < |a| ==> a[i] != "" && '\n' !in a[i]
    requires forall i :: 0 <= i < |b| ==> b[i] != "" && '\n' !in b[i]
    ensures OrderLines(JoinLines(a) + "\n\n" + JoinLines(b)) == a + b
  {
    var ja, jb := JoinLines(a), JoinLines(b);
    assert ja + "\n\n" + jb == ja + "\n" + ("" + "\n" + jb);
    OrderLinesAppend(ja, "" + "\n" + jb);
    OrderLinesAppend("", jb);
    OrderLinesLine("");
    OrderRoundTrip(a);
    OrderRoundTrip(b);
  }

  // ---------------------------------------------------------------------------------------
  // Tracking rows and order lines to migrations

  /** A row of the tracking table, as `SELECT *` returns it. */
  datatype VersionRecord = VersionRecord(name: string, doHash: string, doSql: string,
                                         undoHash: string, undoSql: string, execDate: int)

  /** The applied sequence: one migration per row, in row order, carrying the stored hashes. */
  function FromRows(h: Hasher, rows: seq<VersionRecord>): (ms: seq<Migration>)
    ensures |ms| == |rows|
    ensures forall i :: 0 <= i < |rows| ==>
      && ms[i].name == rows[i].name
      && ms[i].Sql() == Pair(rows[i].doSql, rows[i].undoSql)
      && (rows[i].doHash != "" ==> ms[i].doHash == rows[i].doHash)
      && (rows[i].undoHash != "" ==> ms[i].undoHash == rows[i].undoHash)
  {
    seq(|rows|, i requires 0 <= i < |rows| =>
      NewMigration(h, rows[i].name, rows[i].doSql, rows[i].undoSql, Some(rows[i].doHash), Some(rows[i].undoHash)))
  }

  function DoFile(name: string): string {
    name + ".do.sql"
  }

  function UndoFile(name: string): string {
    name + ".undo.sql"
  }

  /** Both script files of `name` could be read. */
  predicate Loadable(files: map<string, string>, name: string) {
    DoFile(name) in files && UndoFile(name) in files
  }

  /** The migration built for an order line from its two script files, hashes computed. */
  function Load(h: Hasher, files: map<string, string>, name: string): Migration
    requires Loadable(files, name)
  {
    NewMigration(h, name, files[DoFile(name)], files[UndoFile(name)], None, None)
  }

  /**
   * The desired sequence: one migration per order line, in order; no value when a script file
   * of some line cannot be read (the loader's rejection).
   */
  function FromOrder(h: Hasher, order: seq<string>, files: map<string, string>): (r: Option<seq<Migration>>)
    ensures r.Some? <==> forall i :: 0 <= i < |order| ==> Loadable(files, order[i])
    ensures r.Some? ==> |r.value| == |order| && forall i :: 0 <= i < |order| ==>
      && r.value[i].name == order[i]
      && r.value[i].Sql() == Pair(files[DoFile(order[i])], files[UndoFile(order[i])])
      && r.value[i].Hash() == Pair(h(r.value[i].doSql), h(r.value[i].undoSql))
  {
    if forall i :: 0 <= i < |order| ==> Loadable(files, order[i]) then
      Some(seq(|order|, i requires 0 <= i < |order| && Loadable(files, order[i]) => Load(h, files, order[i])))
    else None
  }

  // ---------------------------------------------------------------------------------------
  // The state object

  /**
   * The loaded state. The file reads and the SELECT are I/O: the methods below take their
   * results as parameters and assign the fields as the `init*` methods do. `loaded` stands for
   * the `isReady` promise: true once `init` has resolved, false while it has not or after it
   * rejected.
   */
  class State {
    const config: StateConfig
    var table: seq<Migration>
    var order: seq<string>
    var migrations: seq<Migration>
    var loaded: bool

    constructor (config: StateConfig)
      ensures this.config == config && table == [] && order == [] && migrations == [] && !loaded
    {
      this.config := config;
      table, order, migrations := [], [], [];
      loaded := false;
    }

    /**
     * `init`, which the constructor starts and `isReady` awaits: the three loaders in sequence.
     * `rows` is the result of the SELECT (none when the query rejects) and `orderFile` the
     * contents of the order file (none when it cannot be read). The first loader that rejects
     * stops the sequence, and `isReady` then rejects.
     */
    method Init(h: Hasher, rows: Option<seq<VersionRecord>>, orderFile: Option<string>, files: map<string, string>) returns (ok: bool)
      modifies this`table, this`order, this`migrations, this`loaded
      ensures ok <==> rows.Some? && orderFile.Some? && FromOrder(h, OrderLines(orderFile.value), files).Some?
      ensures loaded == ok
      ensures table == if rows.Some? then FromRows(h, rows.value) else old(table)
      ensures order == if rows.Some? && orderFile.Some? then OrderLines(orderFile.value) else old(order)
      ensures migrations == if ok then FromOrder(h, order, files).value else old(migrations)
    {
      loaded := false;
      if rows.None? {
        return false;
      }
      InitTable(h, rows.value);
      if orderFile.None? {
        return false;
      }
      InitOrder(orderFile.value);
      ok := InitMigrations(h, files);
      loaded := ok;
    }

    /** `initTable` after its SELECT: the rows, ordered by execution date, become migrations. */
    method InitTable(h: Hasher, rows: seq<VersionRecord>)
      modifies this`table
      ensures table == FromRows(h, rows)
    {
      table := FromRows(h, rows);
    }

    /** `initOrder` after reading the order file. */
    method InitOrder(file: string)
      modifies this`order
      ensures order == OrderLines(file)
    {
      order := OrderLines(file);
    }

    /**
     * `initMigrations`: fills a dictionary with one migration per order line, then maps the order
     * onto it. A script file that cannot be read rejects and leaves `migrations` unassigned.
     */
    method InitMigrations(h: Hasher, files: map<string, string>) returns (ok: bool)
      modifies this`migrations
      ensures ok == FromOrder(h, order, files).Some?
      ensures ok ==> migrations == FromOrder(h, order, files).value
      ensures !ok ==> migrations == old(migrations)
    {
      var built: map<string, Migration> := map[];
      for i := 0 to |order|
        invariant forall j :: 0 <= j < i ==> Loadable(files, order[j])
        invariant forall j :: 0 <= j < i ==> order[j] in built && built[order[j]] == Load(h, files, order[j])
      {
        if !Loadable(files, order[i]) {
          return false;
        }
        built := built[order[i] := NewMigration(h, order[i], files[DoFile(order[i])], files[UndoFile(order[i])], None, None)];
      }
      var result: seq<Migration> := [];
      for i := 0 to |order|
        invariant |result| == i
        invariant forall j :: 0 <= j < i ==> result[j] == Load(h, files, order[j])
      {
        result := result + [built[order[i]]];
      }
      migrations := result;
      ok := true;
    }

    /** The `tableByName` getter: a `reduce` writing each applied migration under its name. */
    method TableByName() returns (index: map<string, Migration>)
      ensures index == IndexByName(table)
    {
      index := ByName(table);
    }

    /** The `migrationsByName` getter. */
    method MigrationsByName() returns (index: map<string, Migration>)
      ensures index == IndexByName(migrations)
    {
      index := ByName(migrations);
    }
  }

  /** The `reduce` both getters run: later migrations overwrite earlier ones of the same name. */
  method ByName(list: seq<Migration>) returns (mem: map<string, Migration>)
    ensures mem == IndexByName(list)
  {
    mem := map[];
    for i := 0 to |list|
      invariant mem == IndexByName(list[..i])
    {
      assert list[..i + 1][..i] == list[..i];
      mem := mem[list[i].name := list[i]];
    }
    assert list[..|list|] == list;
  }
}
