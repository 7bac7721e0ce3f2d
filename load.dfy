/** The load stage (airflow_home/dags/scripts/load.py): the SQL `insert_df_into_db` builds, the
    truncate-then-insert it runs against the warehouse, and the fixed loop of `load_data` over the
    parquet files the transform stage wrote. */
module Load {
  import opened Results
  import opened Text
  import opened Calendar
  import opened Helpers
  import opened Frames
  import Mappers
  import Transform

  // ---------------------------------------------------------------------------------------------
  // The statement text.

  /** `", ".join(list(df))`: the column names, in order. */
  function ColumnList(columns: seq<string>): string
  {
    Join(columns, ", ")
  }

  /** `n` placeholders `%s` separated by a comma and a space; the empty string for no column. */
  function Placeholders(n: nat): string
  {
    DropLastTwo(Repeat("%s, ", n))
  }

  /** `n` copies of one string. */
  function Copies(s: string, n: nat): (parts: seq<string>)
    ensures |parts| == n && forall i :: 0 <= i < n ==> parts[i] == s
  {
    if n == 0 then [] else [s] + Copies(s, n - 1)
  }

  /** The parameterised insert of one row: the table name, its columns comma-separated in brackets,
      and one `%s` placeholder per column. */
  function InsertSql(table: string, columns: seq<string>): string
  {
    "INSERT INTO " + table + " (" + ColumnList(columns) + ") VALUES (" + Placeholders(|columns|) + ")"
  }

  /** The statement that empties a table before it is reloaded. */
  function TruncateSql(table: string): string
  {
    "TRUNCATE TABLE " + table + ";"
  }

  /** `[tuple(x) for x in df.values.tolist()]`: one tuple per row, its values in column order. */
  function Parameters(df: Table): seq<seq<Value>>
  {
    df.rows
  }

  /** The placeholder list is `n` copies of `%s` separated by `", "`, with no separator left over. */
  lemma {:induction false} PlaceholdersJoined(n: nat)
    ensures Placeholders(n) == Join(Copies("%s", n), ", ")
  {
    if n == 1 {
      assert Repeat("%s, ", 1) == "%s, ";
    } else if n >= 2 {
      var rest := Repeat("%s, ", n - 1);
      assert Repeat("%s, ", n) == "%s, " + rest;
      assert DropLastTwo("%s, " + rest) == "%s, " + DropLastTwo(rest);
      PlaceholdersJoined(n - 1);
      assert Copies("%s", n)[1..] == Copies("%s", n - 1);
    }
  }

  /** The number of `%s` markers in a string. */
  function Markers(s: string): nat
  {
    if |s| < 2 then 0 else (if s[0] == '%' && s[1] == 's' then 1 else 0) + Markers(s[1..])
  }

  lemma MarkersAfterSeparator(rest: string)
    ensures Markers("%s, " + rest) == 1 + Markers(rest)
  {
    var s := "%s, " + rest;
    assert s[0] == '%' && s[1] == 's' && s[1..] == "s, " + rest;
    assert Markers(s) == 1 + Markers("s, " + rest);
    assert ("s, " + rest)[1..] == ", " + rest;
    assert Markers("s, " + rest) == Markers(", " + rest);
    assert (", " + rest)[1..] == " " + rest;
    assert Markers(", " + rest) == Markers(" " + rest);
    assert (" " + rest)[1..] == rest;
    if |rest| == 0 {
      assert Markers(" " + rest) == 0;
    } else {
      assert Markers(" " + rest) == Markers(rest);
    }
  }

  /** The statement has exactly one `%s` per column. */
  lemma {:induction false} PlaceholderCount(n: nat)
    ensures Markers(Placeholders(n)) == n
  {
    PlaceholdersJoined(n);
    JoinedMarkers(n);
  }

  lemma {:induction false} JoinedMarkers(n: nat)
    ensures Markers(Join(Copies("%s", n), ", ")) == n
  {
    if n == 1 {
      assert Join(Copies("%s", 1), ", ") == "%s";
      assert Markers("%s") == 1 + Markers("s");
    } else if n >= 2 {
      var tail := Join(Copies("%s", n - 1), ", ");
      assert Copies("%s", n)[1..] == Copies("%s", n - 1);
      assert Join(Copies("%s", n), ", ") == "%s, " + tail;
      MarkersAfterSeparator(tail);
      JoinedMarkers(n - 1);
    }
  }

  /** Every parameter tuple has one value per placeholder, when every row has one value per column. */
  lemma StatementFitsRows(table: string, df: Table)
    requires forall i :: 0 <= i < |df.rows| ==> |df.rows[i]| == |df.columns|
    ensures forall i :: 0 <= i < |Parameters(df)| ==> |Parameters(df)[i]| == Markers(Placeholders(|df.columns|))
  {
    PlaceholderCount(|df.columns|);
  }

  // The column list read back: splitting at `", "` gives the column names, in order.

  /** Splitting a string at every comma followed by a space. */
  function Fields(s: string): (parts: seq<string>)
    ensures |parts| >= 1
  {
    if |s| == 0 then [""]
    else if |s| >= 2 && s[0] == ',' && s[1] == ' ' then [""] + Fields(s[2..])
    else
      var rest := Fields(s[1..]);
      [[s[0]] + rest[0]] + rest[1..]
  }

  lemma {:induction false} FieldsPlain(c: string, tail: string)
    requires ',' !in c
    ensures Fields(c + tail) == [c + Fields(tail)[0]] + Fields(tail)[1..]
  {
    if |c| != 0 {
      var s := c + tail;
      assert s[0] == c[0] && c[0] != ',';
      assert s[1..] == c[1..] + tail;
      FieldsPlain(c[1..], tail);
      var rest := Fields(s[1..]);
      assert rest[0] == c[1..] + Fields(tail)[0] && rest[1..] == Fields(tail)[1..];
      assert Fields(s) == [[c[0]] + rest[0]] + rest[1..];
      assert [c[0]] + (c[1..] + Fields(tail)[0]) == c + Fields(tail)[0];
    } else {
      var f := Fields(tail);
      assert c + tail == tail && c + f[0] == f[0];
      assert [f[0]] + f[1..] == f;
    }
  }

  lemma FieldsSeparated(c: string, tail: string)
    requires ',' !in c
    ensures Fields(c + ", " + tail) == [c] + Fields(tail)
  {
    var s := ", " + tail;
    assert s[2..] == tail;
    assert Fields(s) == [""] + Fields(tail);
    FieldsPlain(c, s);
    assert c + "" == c;
    assert c + ", " + tail == c + s;
  }

  /** Column names without commas are recovered, in order, from the column list. */
  lemma {:induction false} ColumnListRoundTrip(columns: seq<string>)
    requires |columns| >= 1
    requires forall i :: 0 <= i < |columns| ==> ',' !in columns[i]
    ensures Fields(ColumnList(columns)) == columns
  {
    if |columns| == 1 {
      FieldsPlain(columns[0], "");
      assert columns[0] + "" == columns[0];
    } else {
      FieldsSeparated(columns[0], Join(columns[1..], ", "));
      ColumnListRoundTrip(columns[1..]);
    }
  }

  // ---------------------------------------------------------------------------------------------
  // The warehouse.

  /** A statement the warehouse carried out. */
  datatype Statement = Execute(sql: string) | ExecuteMany(sql: string, params: seq<seq<Value>>) | Commit

  /** The MySQL database behind the SQLAlchemy engine: whether it accepts connections, the rows of
      each table, and every statement it carried out. */
  class Warehouse {
    var online: bool
    var tables: map<string, seq<seq<Value>>>
    ghost var executed: seq<Statement>

    constructor (online0: bool, tables0: map<string, seq<seq<Value>>>)
      ensures online == online0 && tables == tables0 && executed == []
    {
      online := online0;
      tables := tables0;
      executed := [];
    }
  }

  /** `create_db_conn(...)`: the engine when a test connection succeeds, nothing otherwise. */
  method CreateDbConn(server: Warehouse) returns (engine: Warehouse?)
    ensures engine == (if server.online then server else null)
  {
    if server.online {
      engine := server;
    } else {
      engine := null;
    }
  }

  /** The statements one successful `insert_df_into_db` carries out: the truncate, the batched insert
      and a single commit. */
  function InsertLog(table: string, df: Table): (log: seq<Statement>)
    ensures |log| == 3 && log[0].Execute? && log[1].ExecuteMany? && log[2] == Commit
    ensures log[1].params == Parameters(df)
  {
    [Execute(TruncateSql(table)), ExecuteMany(InsertSql(table, df.columns), Parameters(df)), Commit]
  }

  /** A table's rows after `insert_df_into_db`: replaced by the frame's rows when the warehouse is
      reachable and has the table, unchanged otherwise. */
  function Replaced(tables: map<string, seq<seq<Value>>>, online: bool, table: string, df: Table): (after: map<string, seq<seq<Value>>>)
    ensures after.Keys == tables.Keys
    ensures online && table in tables ==> after[table] == df.rows
    ensures forall t :: t in tables && (t != table || !online) ==> after[t] == tables[t]
  {
    if online && table in tables then tables[table := df.rows] else tables
  }

  /** What the warehouse logged for one call. */
  function Logged(online: bool, present: bool, table: string, df: Table): seq<Statement>
  {
    if online && present then InsertLog(table, df) else []
  }

  /** The error that leaves `insert_df_into_db` as written: when no raw connection was opened, its
      `finally: conn.close()` names a variable that was never bound. */
  datatype LoadError = UnboundConnection(table: string) | NoSuchKey(bucket: string, key: string)

  /** `insert_df_into_db(df, engine, table_name)` as written: the truncate and insert when the
      warehouse is reachable; a failed statement is printed and swallowed; but with no connection
      (no engine, or the warehouse unreachable) the `finally` clause raises. */
  method InsertDfIntoDbAsWritten(df: Table, engine: Warehouse?, table: string) returns (escaped: Option<LoadError>)
    modifies engine
    ensures escaped == (if engine == null || !old(engine.online) then Some(UnboundConnection(table)) else None)
    ensures engine != null ==>
      && engine.online == old(engine.online)
      && engine.tables == Replaced(old(engine.tables), old(engine.online), table, df)
      && engine.executed == old(engine.executed) + Logged(old(engine.online), table in old(engine.tables), table, df)
  {
    if engine == null || !engine.online {
      return Some(UnboundConnection(table));
    }
    Replace(df, engine, table);
    escaped := None;
  }

  /** `insert_df_into_db(df, engine, table_name)` with the connection closed only when one was opened:
      every failure is printed and swallowed. */
  method InsertDfIntoDb(df: Table, engine: Warehouse?, table: string)
    modifies engine
    ensures engine != null ==>
      && engine.online == old(engine.online)
      && engine.tables == Replaced(old(engine.tables), old(engine.online), table, df)
      && engine.executed == old(engine.executed) + Logged(old(engine.online), table in old(engine.tables), table, df)
  {
    if engine != null && engine.online {
      Replace(df, engine, table);
    }
  }

  /** The body of the `try`: `TRUNCATE` (a missing table raises here and nothing changes), then the
      batched insert, then the commit. */
  method Replace(df: Table, engine: Warehouse, table: string)
    requires engine.online
    modifies engine
    ensures engine.online
    ensures engine.tables == Replaced(old(engine.tables), true, table, df)
    ensures engine.executed == old(engine.executed) + Logged(true, table in old(engine.tables), table, df)
  {
    if table !in engine.tables {
      assert engine.executed + [] == engine.executed;
      return;
    }
    ghost var before := engine.executed;
    engine.executed := engine.executed + [Execute(TruncateSql(table))];
    engine.tables := engine.tables[table := []];
    var sql := InsertSql(table, df.columns);
    engine.executed := engine.executed + [ExecuteMany(sql, Parameters(df))];
    engine.tables := engine.tables[table := engine.tables[table] + Parameters(df)];
    engine.executed := engine.executed + [Commit];
    assert engine.executed == before + InsertLog(table, df);
    assert [] + Parameters(df) == df.rows;
  }

  // ---------------------------------------------------------------------------------------------
  // load_data

  /** The key `load_data` reads a table from: the dated file name of the table with the parquet suffix. */
  function ParquetKey(today: Date, table: string): string
    requires ValidDate(today)
  {
    GenerateFilename(today, table) + ".parquet"
  }

  /** The `s3://` address of a key in a bucket. */
  function S3Path(bucket: string, key: string): string
  {
    "s3://" + bucket + "/" + key
  }

  /** The object `load_data` reads for a table is the one `save_df_to_parquet_s3` wrote for it. */
  lemma ReadsWhatTransformWrote(today: Date, bucket: string, table: string)
    requires ValidDate(today)
    ensures S3Path(bucket, ParquetKey(today, table)) == Transform.ParquetPath(today, bucket, table)
  {
  }

  /** `retrieve_s3_parquet(bucket_name, file_name)`: a missing object escapes as an error. */
  function RetrieveS3Parquet(objects: map<string, Table>, bucket: string, key: string): (df: Result<Table, LoadError>)
    ensures df.Success? <==> S3Path(bucket, key) in objects
    ensures df.Success? ==> df.value == objects[S3Path(bucket, key)]
    ensures df.Failure? ==> df.error == NoSuchKey(bucket, key)
  {
    if S3Path(bucket, key) in objects then Success(objects[S3Path(bucket, key)]) else Failure(NoSuchKey(bucket, key))
  }

  /** The outcome of loading the named tables in order: the warehouse tables and log afterwards,
      and the error that stopped the loop, if any. */
  datatype Loads = Loads(tables: map<string, seq<seq<Value>>>, log: seq<Statement>, failure: Option<LoadError>)

  function Loaded(objects: map<string, Table>, bucket: string, today: Date, names: seq<string>, online: bool,
                  tables: map<string, seq<seq<Value>>>): Loads
    requires ValidDate(today)
    decreases names
  {
    if names == [] then Loads(tables, [], None)
    else
      var df := RetrieveS3Parquet(objects, bucket, ParquetKey(today, names[0]));
      if df.Failure? then Loads(tables, [], Some(df.error))
      else
        var rest := Loaded(objects, bucket, today, names[1..], online, Replaced(tables, online, names[0], df.value));
        Loads(rest.tables, Logged(online, names[0] in tables, names[0], df.value) + rest.log, rest.failure)
  }

  /** An unreachable warehouse is left untouched, whatever the bucket holds. */
  lemma {:induction false} LoadedOffline(objects: map<string, Table>, bucket: string, today: Date, names: seq<string>,
                                         tables: map<string, seq<seq<Value>>>)
    requires ValidDate(today)
    ensures Loaded(objects, bucket, today, names, false, tables).tables == tables
    ensures Loaded(objects, bucket, today, names, false, tables).log == []
    decreases names
  {
    if names != [] {
      LoadedOffline(objects, bucket, today, names[1..], tables);
    }
  }

  /** With the warehouse reachable and every file present, each named table that exists in the
      warehouse ends up holding exactly the rows of its parquet file, whatever it held before. */
  lemma {:induction false} LoadedHolds(objects: map<string, Table>, bucket: string, today: Date, names: seq<string>,
                                       tables: map<string, seq<seq<Value>>>, k: nat)
    requires ValidDate(today) && Distinct(names)
    requires forall i :: 0 <= i < |names| ==> S3Path(bucket, ParquetKey(today, names[i])) in objects
    requires k < |names| && names[k] in tables
    ensures var after := Loaded(objects, bucket, today, names, true, tables);
      && after.failure == None
      && names[k] in after.tables
      && after.tables[names[k]] == objects[S3Path(bucket, ParquetKey(today, names[k]))].rows
    decreases names
  {
    var df := objects[S3Path(bucket, ParquetKey(today, names[0]))];
    var next := Replaced(tables, true, names[0], df);
    forall i | 0 <= i < |names[1..]| ensures S3Path(bucket, ParquetKey(today, names[1..][i])) in objects {
      assert names[1..][i] == names[i + 1];
    }
    if k == 0 {
      LoadedKeeps(objects, bucket, today, names[1..], next, names[0]);
    } else {
      LoadedHolds(objects, bucket, today, names[1..], next, k - 1);
    }
  }

  /** A table not named again keeps its rows through the rest of the loop. */
  lemma {:induction false} LoadedKeeps(objects: map<string, Table>, bucket: string, today: Date, names: seq<string>,
                                       tables: map<string, seq<seq<Value>>>, table: string)
    requires ValidDate(today) && table !in names && table in tables
    requires forall i :: 0 <= i < |names| ==> S3Path(bucket, ParquetKey(today, names[i])) in objects
    ensures var after := Loaded(objects, bucket, today, names, true, tables);
      after.failure == None && table in after.tables && after.tables[table] == tables[table]
    decreases names
  {
    if names != [] {
      var df := objects[S3Path(bucket, ParquetKey(today, names[0]))];
      forall i | 0 <= i < |names[1..]| ensures S3Path(bucket, ParquetKey(today, names[1..][i])) in objects {
        assert names[1..][i] == names[i + 1];
      }
      LoadedKeeps(objects, bucket, today, names[1..], Replaced(tables, true, names[0], df), table);
    }
  }

  lemma LoadStep(objects: map<string, Table>, bucket: string, today: Date, names: seq<string>, online: bool, i: nat,
                 tables: map<string, seq<seq<Value>>>, log: seq<Statement>,
                 tables': map<string, seq<seq<Value>>>, log': seq<Statement>)
    requires ValidDate(today) && i < |names|
    requires RetrieveS3Parquet(objects, bucket, ParquetKey(today, names[i])).Success?
    requires var df := RetrieveS3Parquet(objects, bucket, ParquetKey(today, names[i])).value;
      && tables' == Replaced(tables, online, names[i], df)
      && log' == log + Logged(online, names[i] in tables, names[i], df)
    ensures var here := Loaded(objects, bucket, today, names[i..], online, tables);
      var rest := Loaded(objects, bucket, today, names[i + 1..], online, tables');
      Loads(here.tables, log + here.log, here.failure) == Loads(rest.tables, log' + rest.log, rest.failure)
  {
    assert names[i..][1..] == names[i + 1..];
    assert names[i..][0] == names[i];
  }

  lemma LoadStop(objects: map<string, Table>, bucket: string, today: Date, names: seq<string>, online: bool, i: nat,
                 tables: map<string, seq<seq<Value>>>, log: seq<Statement>)
    requires ValidDate(today) && i < |names|
    requires RetrieveS3Parquet(objects, bucket, ParquetKey(today, names[i])).Failure?
    ensures var here := Loaded(objects, bucket, today, names[i..], online, tables);
      Loads(here.tables, log + here.log, here.failure)
        == Loads(tables, log, Some(RetrieveS3Parquet(objects, bucket, ParquetKey(today, names[i])).error))
  {
    assert names[i..][0] == names[i];
    assert log + [] == log;
  }

  lemma Appended(a: seq<Statement>, b: seq<Statement>, c: seq<Statement>)
    ensures a + b + c == a + (b + c)
  {
  }

  lemma LoadDone(objects: map<string, Table>, bucket: string, today: Date, names: seq<string>, online: bool,
                 tables: map<string, seq<seq<Value>>>, log: seq<Statement>)
    requires ValidDate(today)
    ensures var here := Loaded(objects, bucket, today, names[|names|..], online, tables);
      Loads(here.tables, log + here.log, here.failure) == Loads(tables, log, None)
  {
    assert names[|names|..] == [];
    assert log + [] == log;
  }

  /** `load_data(...)`, with the connection closed only when one was opened: connects once, then
      reads and loads each table in `TableNames` order. A missing parquet file escapes and ends the
      loop; the tables loaded before it stay loaded. */
  method LoadData(server: Warehouse, store: Transform.ParquetStore, bucket: string, today: Date) returns (outcome: Outcome<LoadError>)
    requires ValidDate(today)
    modifies server
    ensures var run := Loaded(store.objects, bucket, today, Transform.TableNames, old(server.online), old(server.tables));
      && outcome == (if run.failure.Some? then Fail(run.failure.value) else Pass)
      && server.tables == run.tables
      && server.executed == old(server.executed) + run.log
      && server.online == old(server.online)
  {
    var engine := CreateDbConn(server);
    var tables := Transform.TableNames;
    ghost var online, initialLog := server.online, server.executed;
    ghost var whole := Loaded(store.objects, bucket, today, tables, online, server.tables);
    ghost var log: seq<Statement> := [];
    assert tables[0..] == tables;
    assert log + whole.log == whole.log;
    var i := 0;
    while i < |tables|
      invariant 0 <= i <= |tables|
      invariant server.online == online
      invariant engine == (if online then server else null)
      invariant var here := Loaded(store.objects, bucket, today, tables[i..], online, server.tables);
        whole == Loads(here.tables, log + here.log, here.failure)
      invariant server.executed == initialLog + log
    {
      var key := ParquetKey(today, tables[i]);
      var df := RetrieveS3Parquet(store.objects, bucket, key);
      if df.Failure? {
        LoadStop(store.objects, bucket, today, tables, online, i, server.tables, log);
        return Fail(df.error);
      }
      ghost var before, present := server.tables, tables[i] in server.tables;
      ghost var step := Logged(online, present, tables[i], df.value);
      InsertDfIntoDb(df.value, engine, tables[i]);
      ghost var log' := log + step;
      if online {
        assert server.executed == initialLog + log + step;
      } else {
        assert step == [] && server.tables == before;
      }
      Appended(initialLog, log, step);
      LoadStep(store.objects, bucket, today, tables, online, i, before, log, server.tables, log');
      log := log';
      i := i + 1;
    }
    LoadDone(store.objects, bucket, today, tables, online, server.tables, log);
    outcome := Pass;
  }

  /** `load_data(...)` as written, calling `insert_df_into_db` as written: with the warehouse reachable
      it loads exactly as `LoadData` does; with it unreachable, `create_db_conn` gives no engine, the
      first parquet file is read, and the unbound `conn.close()` of its insert escapes, so the loop
      stops at `fact_players` with the warehouse untouched. */
  method LoadDataAsWritten(server: Warehouse, store: Transform.ParquetStore, bucket: string, today: Date)
    returns (outcome: Outcome<LoadError>)
    requires ValidDate(today)
    modifies server
    ensures server.online == old(server.online)
    ensures old(server.online) ==>
      var run := Loaded(store.objects, bucket, today, Transform.TableNames, true, old(server.tables));
      && outcome == (if run.failure.Some? then Fail(run.failure.value) else Pass)
      && server.tables == run.tables
      && server.executed == old(server.executed) + run.log
    ensures !old(server.online) ==>
      var first := RetrieveS3Parquet(store.objects, bucket, ParquetKey(today, "fact_players"));
      && outcome == Fail(if first.Failure? then first.error else UnboundConnection("fact_players"))
      && server.tables == old(server.tables)
      && server.executed == old(server.executed)
  {
    var engine := CreateDbConn(server);
    var tables := Transform.TableNames;
    ghost var online, initialLog, initialTables := server.online, server.executed, server.tables;
    ghost var whole := Loaded(store.objects, bucket, today, tables, online, server.tables);
    ghost var log: seq<Statement> := [];
    assert tables[0..] == tables;
    assert log + whole.log == whole.log;
    var i := 0;
    while i < |tables|
      invariant 0 <= i <= |tables|
      invariant server.online == online
      invariant engine == (if online then server else null)
      invariant !online ==> i == 0 && server.tables == initialTables && log == []
      invariant var here := Loaded(store.objects, bucket, today, tables[i..], online, server.tables);
        whole == Loads(here.tables, log + here.log, here.failure)
      invariant server.executed == initialLog + log
    {
      var key := ParquetKey(today, tables[i]);
      var df := RetrieveS3Parquet(store.objects, bucket, key);
      if df.Failure? {
        LoadStop(store.objects, bucket, today, tables, online, i, server.tables, log);
        return Fail(df.error);
      }
      ghost var before, present := server.tables, tables[i] in server.tables;
      ghost var step := Logged(online, present, tables[i], df.value);
      var escaped := InsertDfIntoDbAsWritten(df.value, engine, tables[i]);
      if escaped.Some? {
        return Fail(escaped.value);
      }
      ghost var log' := log + step;
      assert server.executed == initialLog + log + step;
      Appended(initialLog, log, step);
      LoadStep(store.objects, bucket, today, tables, online, i, before, log, server.tables, log');
      log := log';
      i := i + 1;
    }
    LoadDone(store.objects, bucket, today, tables, online, server.tables, log);
    outcome := Pass;
  }

  /** After a run in which every mapper succeeded and the sink accepted every write, loading from the
      same bucket on the same day fills each warehouse table that exists with exactly the rows its
      mapper produced. */
  lemma TransformThenLoad(results: seq<Result<Table, Mappers.Failure>>, today: Date, bucket: string,
                          objects: map<string, Table>, failing: set<string>, tables: map<string, seq<seq<Value>>>, k: nat)
    requires ValidDate(today) && |results| == |Transform.TableNames|
    requires forall i :: 0 <= i < |results| ==> results[i].Success?
    requires forall i :: 0 <= i < |results| ==> Transform.ParquetPath(today, bucket, Transform.TableNames[i]) !in failing
    requires k < |results| && Transform.TableNames[k] in tables
    ensures var run := Transform.Sequenced(Transform.TableNames, results);
      var stored := Transform.Persisted(objects, failing, today, bucket, run.saved);
      var after := Loaded(stored, bucket, today, Transform.TableNames, true, tables);
      && after.failure == None
      && Transform.TableNames[k] in after.tables
      && after.tables[Transform.TableNames[k]] == results[k].value.rows
  {
    var names := Transform.TableNames;
    Transform.TableNamesDistinct();
    var run := Transform.Sequenced(names, results);
    Transform.SequencedAllSucceed(names, results);
    var stored := Transform.Persisted(objects, failing, today, bucket, run.saved);
    forall i | 0 <= i < |names| ensures S3Path(bucket, ParquetKey(today, names[i])) in stored {
      Transform.RunPersists(names, results, today, bucket, objects, failing, i);
      ReadsWhatTransformWrote(today, bucket, names[i]);
    }
    Transform.RunPersists(names, results, today, bucket, objects, failing, k);
    ReadsWhatTransformWrote(today, bucket, names[k]);
    LoadedHolds(stored, bucket, today, names, tables, k);
  }

  /** Every table `load_data` reads after a transform run into the same bucket is inserted with one
      value per placeholder in each parameter tuple, provided the tables the bucket held before the
      run had one value per column in every row. */
  lemma TransformedRowsFit(buckets: Mappers.Buckets, source: string, today: Date, bucket: string,
                           objects: map<string, Table>, failing: set<string>, table: string)
    requires ValidDate(today)
    requires Transform.AllRectangular(objects)
    ensures var run := Transform.Sequenced(Transform.TableNames, Transform.Mapped(buckets, source, today));
      var stored := Transform.Persisted(objects, failing, today, bucket, run.saved);
      var df := RetrieveS3Parquet(stored, bucket, ParquetKey(today, table));
      df.Success? ==>
        forall i :: 0 <= i < |Parameters(df.value)| ==> |Parameters(df.value)[i]| == Markers(Placeholders(|df.value.columns|))
  {
    Transform.RunRectangular(buckets, source, today, bucket, objects, failing);
    var run := Transform.Sequenced(Transform.TableNames, Transform.Mapped(buckets, source, today));
    StoredRowsFit(Transform.Persisted(objects, failing, today, bucket, run.saved), bucket, today, table);
  }

  /** A parquet file read from a bucket of tables with one value per column in every row is inserted
      with one value per placeholder in each parameter tuple. */
  lemma StoredRowsFit(stored: map<string, Table>, bucket: string, today: Date, table: string)
    requires ValidDate(today)
    requires Transform.AllRectangular(stored)
    ensures var df := RetrieveS3Parquet(stored, bucket, ParquetKey(today, table));
      df.Success? ==>
        forall i :: 0 <= i < |Parameters(df.value)| ==> |Parameters(df.value)[i]| == Markers(Placeholders(|df.value.columns|))
  {
    var df := RetrieveS3Parquet(stored, bucket, ParquetKey(today, table));
    if df.Success? {
      StatementFitsRows(table, df.value);
    }
  }
}
