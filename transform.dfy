/** `transform_data` (airflow_home/dags/scripts/transform.py): the four mappers run in a fixed order,
    each table written as parquet to the destination bucket as soon as it is built. A mapper's
    exception ends the run; a failed write is logged and the run goes on. */
module Transform {
  import opened Results
  import opened Text
  import opened Calendar
  import opened Helpers
  import opened Frames
  import opened Mappers
  import opened FactPlayers

  /** The tables in the order `transform_data` builds them and `load_data` loads them. */
  const TableNames := ["fact_players", "dim_players", "dim_teams", "dim_fixtures"]

  lemma TableNamesDistinct()
    ensures |TableNames| == 4 && Distinct(TableNames)
  {
  }

  /** Where a table is saved: the `s3://` URL in the destination bucket of the dated file name of the
      table with the parquet suffix. */
  function ParquetPath(today: Date, destination: string, table: string): (path: string)
    requires ValidDate(today)
  {
    "s3://" + destination + "/" + GenerateFilename(today, table) + ".parquet"
  }

  /** For one day and one bucket, distinct tables are written to distinct paths. */
  lemma ParquetPathInjective(today: Date, destination: string, a: string, b: string)
    requires ValidDate(today)
    requires ParquetPath(today, destination, a) == ParquetPath(today, destination, b)
    ensures a == b
  {
    var pa, pb := ParquetPath(today, destination, a), ParquetPath(today, destination, b);
    var head := "s3://" + destination + "/";
    var na, nb := GenerateFilename(today, a), GenerateFilename(today, b);
    assert pa == head + na + ".parquet" && pb == head + nb + ".parquet";
    assert |na| == |nb|;
    assert pa[|head|..|head| + |na|] == na;
    assert pb[|head|..|head| + |nb|] == nb;
    assert a == na[11..] && b == nb[11..];
  }

  /** The sink `wr.s3.to_parquet` writes to: what each path holds, and which paths cannot be written
      (a missing bucket, refused credentials). */
  class ParquetStore {
    var objects: map<string, Table>
    var failing: set<string>
    /** Every write attempted, by path, in call order. */
    ghost var attempts: seq<string>

    constructor (objects0: map<string, Table>, failing0: set<string>)
      ensures objects == objects0 && failing == failing0 && attempts == []
    {
      objects := objects0;
      failing := failing0;
      attempts := [];
    }

    /** `wr.s3.to_parquet(table, path)`: stores the table unless the path is failing, in which case
        it raises (returns false) and nothing is stored. */
    method ToParquet(table: Table, path: string) returns (ok: bool)
      modifies this
      ensures ok == (path !in failing)
      ensures objects == Written(old(objects), failing, path, table)
      ensures failing == old(failing) && attempts == old(attempts) + [path]
    {
      ok := path !in failing;
      if ok {
        objects := objects[path := table];
      }
      attempts := attempts + [path];
    }
  }

  /** The objects after one write attempt. */
  function Written(objects: map<string, Table>, failing: set<string>, path: string, table: Table): map<string, Table>
  {
    if path in failing then objects else objects[path := table]
  }

  /** `save_df_to_parquet_s3(table_name, table_df, destination_bucket)`: writes the table to its path
      and swallows any error the write raises. */
  method SaveDfToParquetS3(store: ParquetStore, table: string, frame: Table, destination: string, today: Date)
    requires ValidDate(today)
    modifies store
    ensures var path := ParquetPath(today, destination, table);
      && store.objects == Written(old(store.objects), old(store.failing), path, frame)
      && store.failing == old(store.failing) && store.attempts == old(store.attempts) + [path]
  {
    var path := ParquetPath(today, destination, table);
    var _ := store.ToParquet(frame, path);
  }

  // ---------------------------------------------------------------------------------------------
  // The specification of a run.

  /** What each mapper gives for the source bucket, in `TableNames` order. */
  function Mapped(buckets: Buckets, source: string, today: Date): (results: seq<Result<Table, Failure>>)
    requires ValidDate(today)
    ensures |results| == |TableNames|
    ensures forall i :: 0 <= i < |results| && results[i].Success? ==> Rectangular(results[i].value)
  {
    [FactPlayersTable(buckets, source, today), DimPlayers(buckets, source, today),
     DimTeams(buckets, source, today), DimFixtures(buckets, source, today)]
  }

  /** A run: the (table name, table) pairs handed to the sink, in order, and the mapper failure
      that ended it, if any. */
  datatype Run = Run(saved: seq<(string, Table)>, failure: Option<Failure>)

  /** The tables before the first failing mapper are saved, in order; the first failure ends the run. */
  function Sequenced(names: seq<string>, results: seq<Result<Table, Failure>>): Run
    requires |names| == |results|
  {
    if |results| == 0 then Run([], None)
    else if results[0].Failure? then Run([], Some(results[0].error))
    else
      var rest := Sequenced(names[1..], results[1..]);
      Run([(names[0], results[0].value)] + rest.saved, rest.failure)
  }

  /** Every mapper succeeds exactly when the run saves every table, in order, with no failure. */
  lemma {:induction false} SequencedAllSucceed(names: seq<string>, results: seq<Result<Table, Failure>>)
    requires |names| == |results|
    ensures (forall i :: 0 <= i < |results| ==> results[i].Success?) <==> Sequenced(names, results).failure == None
    ensures Sequenced(names, results).failure == None ==>
      && |Sequenced(names, results).saved| == |names|
      && forall i :: 0 <= i < |names| ==> Sequenced(names, results).saved[i] == (names[i], results[i].value)
  {
    if |results| != 0 {
      SequencedAllSucceed(names[1..], results[1..]);
      if results[0].Success? {
        forall i | 1 <= i < |results| ensures results[i] == results[1..][i - 1] {
        }
      }
    }
  }

  /** When mapper `k` is the first to fail, the run saves exactly the `k` tables before it and
      reports that mapper's failure: the later mappers are never run. */
  lemma {:induction false} SequencedStopsAt(names: seq<string>, results: seq<Result<Table, Failure>>, k: nat)
    requires |names| == |results| && k < |results|
    requires forall i :: 0 <= i < k ==> results[i].Success?
    requires results[k].Failure?
    ensures Sequenced(names, results).failure == Some(results[k].error)
    ensures |Sequenced(names, results).saved| == k
    ensures forall i :: 0 <= i < k ==> Sequenced(names, results).saved[i] == (names[i], results[i].value)
  {
    if k != 0 {
      assert results[0].Success?;
      forall i | 0 <= i < k - 1 ensures results[1..][i].Success? {
        assert results[1..][i] == results[i + 1];
      }
      SequencedStopsAt(names[1..], results[1..], k - 1);
    }
  }

  /** The saved entries are a prefix of the names, paired with their tables. */
  lemma {:induction false} SequencedPrefix(names: seq<string>, results: seq<Result<Table, Failure>>)
    requires |names| == |results|
    ensures var run := Sequenced(names, results);
      && |run.saved| <= |names|
      && (forall i :: 0 <= i < |run.saved| ==> run.saved[i].0 == names[i] && results[i] == Success(run.saved[i].1))
      && (run.failure.Some? <==> |run.saved| < |names|)
      && (run.failure.Some? ==> results[|run.saved|] == Failure(run.failure.value))
  {
    if |results| != 0 && results[0].Success? {
      SequencedPrefix(names[1..], results[1..]);
    }
  }

  /** The paths written for the saved tables, in order. */
  function Paths(today: Date, destination: string, saved: seq<(string, Table)>): (paths: seq<string>)
    requires ValidDate(today)
    ensures |paths| == |saved|
    ensures forall i :: 0 <= i < |saved| ==> paths[i] == ParquetPath(today, destination, saved[i].0)
  {
    if saved == [] then [] else [ParquetPath(today, destination, saved[0].0)] + Paths(today, destination, saved[1..])
  }

  /** The sink's objects after the saved tables have been written in order. */
  function Persisted(objects: map<string, Table>, failing: set<string>, today: Date, destination: string, saved: seq<(string, Table)>): map<string, Table>
    requires ValidDate(today)
    decreases saved
  {
    if saved == [] then objects
    else Persisted(Written(objects, failing, ParquetPath(today, destination, saved[0].0), saved[0].1), failing, today, destination, saved[1..])
  }

  /** A table saved under a name no other saved table has, to a path that can be written, is what its
      path holds afterwards. */
  lemma {:induction false} PersistedHolds(objects: map<string, Table>, failing: set<string>, today: Date, destination: string, saved: seq<(string, Table)>, k: nat)
    requires ValidDate(today)
    requires k < |saved| && ParquetPath(today, destination, saved[k].0) !in failing
    requires forall i :: 0 <= i < |saved| && i != k ==> saved[i].0 != saved[k].0
    ensures var after := Persisted(objects, failing, today, destination, saved);
      ParquetPath(today, destination, saved[k].0) in after && after[ParquetPath(today, destination, saved[k].0)] == saved[k].1
    decreases saved
  {
    var path := ParquetPath(today, destination, saved[k].0);
    var next := Written(objects, failing, ParquetPath(today, destination, saved[0].0), saved[0].1);
    if k == 0 {
      forall i | 0 <= i < |saved[1..]| ensures ParquetPath(today, destination, saved[1..][i].0) != path {
        assert saved[1..][i] == saved[i + 1];
        if ParquetPath(today, destination, saved[i + 1].0) == path {
          ParquetPathInjective(today, destination, saved[i + 1].0, saved[0].0);
        }
      }
      PersistedKeeps(next, failing, today, destination, saved[1..], path);
    } else {
      forall i | 0 <= i < |saved[1..]| && i != k - 1 ensures saved[1..][i].0 != saved[1..][k - 1].0 {
        assert saved[1..][i] == saved[i + 1];
      }
      PersistedHolds(next, failing, today, destination, saved[1..], k - 1);
    }
  }

  /** A path that none of the saved tables is written to keeps its contents. */
  lemma {:induction false} PersistedKeeps(objects: map<string, Table>, failing: set<string>, today: Date, destination: string, saved: seq<(string, Table)>, path: string)
    requires ValidDate(today)
    requires forall i :: 0 <= i < |saved| ==> ParquetPath(today, destination, saved[i].0) != path
    ensures var after := Persisted(objects, failing, today, destination, saved);
      (path in after <==> path in objects) && (path in objects ==> after[path] == objects[path])
    decreases saved
  {
    if saved != [] {
      var next := Written(objects, failing, ParquetPath(today, destination, saved[0].0), saved[0].1);
      forall i | 0 <= i < |saved[1..]| ensures ParquetPath(today, destination, saved[1..][i].0) != path {
        assert saved[1..][i] == saved[i + 1];
      }
      PersistedKeeps(next, failing, today, destination, saved[1..], path);
    }
  }

  /** For distinct table names, every table a run saves to a path that can be written is what that
      path holds after the run: no later write of the same run overwrites it. */
  lemma RunPersists(names: seq<string>, results: seq<Result<Table, Failure>>, today: Date, destination: string, objects: map<string, Table>, failing: set<string>, k: nat)
    requires ValidDate(today) && |names| == |results| && Distinct(names)
    requires var run := Sequenced(names, results);
      k < |names| && k < |run.saved| && ParquetPath(today, destination, names[k]) !in failing
    ensures var run := Sequenced(names, results);
      var after := Persisted(objects, failing, today, destination, run.saved);
      && ParquetPath(today, destination, names[k]) in after
      && results[k] == Success(after[ParquetPath(today, destination, names[k])])
  {
    SequencedPrefix(names, results);
    var run := Sequenced(names, results);
    PersistedHolds(objects, failing, today, destination, run.saved, k);
  }

  /** Every table the store holds has one value per column in every row. */
  predicate AllRectangular(objects: map<string, Table>)
  {
    forall p :: p in objects ==> Rectangular(objects[p])
  }

  /** Writing tables whose rows hold one value per column into a store of such tables leaves only
      such tables in the store. */
  lemma {:induction false} PersistedRectangular(objects: map<string, Table>, failing: set<string>, today: Date, destination: string, saved: seq<(string, Table)>)
    requires ValidDate(today)
    requires AllRectangular(objects)
    requires forall i :: 0 <= i < |saved| ==> Rectangular(saved[i].1)
    ensures AllRectangular(Persisted(objects, failing, today, destination, saved))
    decreases saved
  {
    if saved != [] {
      var next := Written(objects, failing, ParquetPath(today, destination, saved[0].0), saved[0].1);
      assert AllRectangular(next);
      assert forall i :: 0 <= i < |saved[1..]| ==> saved[1..][i] == saved[i + 1];
      PersistedRectangular(next, failing, today, destination, saved[1..]);
      assert Persisted(objects, failing, today, destination, saved) == Persisted(next, failing, today, destination, saved[1..]);
    }
  }

  /** After a run, every table in the destination bucket has one value per column in every row,
      provided the tables it held before did. */
  lemma RunRectangular(buckets: Buckets, source: string, today: Date, destination: string, objects: map<string, Table>, failing: set<string>)
    requires ValidDate(today)
    requires AllRectangular(objects)
    ensures AllRectangular(Persisted(objects, failing, today, destination, Sequenced(TableNames, Mapped(buckets, source, today)).saved))
  {
    var results := Mapped(buckets, source, today);
    SequencedPrefix(TableNames, results);
    var run := Sequenced(TableNames, results);
    assert forall i :: 0 <= i < |run.saved| ==> results[i] == Success(run.saved[i].1);
    PersistedRectangular(objects, failing, today, destination, run.saved);
  }

  /** A path the sink refuses keeps whatever it held before the run. */
  lemma {:induction false} PersistedFailing(objects: map<string, Table>, failing: set<string>, today: Date, destination: string, saved: seq<(string, Table)>, path: string)
    requires ValidDate(today) && path in failing
    ensures var after := Persisted(objects, failing, today, destination, saved);
      (path in after <==> path in objects) && (path in objects ==> after[path] == objects[path])
    decreases saved
  {
    if saved != [] {
      PersistedFailing(Written(objects, failing, ParquetPath(today, destination, saved[0].0), saved[0].1), failing, today, destination, saved[1..], path);
    }
  }

  /** The sink is called once per saved table, at that table's path, in `names` order; it is called
      for every name exactly when no mapper fails. */
  lemma RunPaths(names: seq<string>, results: seq<Result<Table, Failure>>, today: Date, destination: string)
    requires ValidDate(today) && |names| == |results|
    ensures var run := Sequenced(names, results);
      var paths := Paths(today, destination, run.saved);
      && |paths| <= |names|
      && (forall i :: 0 <= i < |paths| ==> paths[i] == ParquetPath(today, destination, names[i]))
      && (|paths| == |names| <==> run.failure == None)
  {
    SequencedPrefix(names, results);
  }

  // ---------------------------------------------------------------------------------------------
  // The run itself.

  /** The sink's attempts and objects after one more saved table, in terms of the run so far. */
  lemma Booked(attempts0: seq<string>, objects0: map<string, Table>, failing: set<string>, today: Date, destination: string,
               attempts: seq<string>, objects: map<string, Table>, saved: seq<(string, Table)>, entry: (string, Table))
    requires ValidDate(today)
    requires attempts == attempts0 + Paths(today, destination, saved)
    requires objects == Persisted(objects0, failing, today, destination, saved)
    ensures attempts + [ParquetPath(today, destination, entry.0)] == attempts0 + Paths(today, destination, saved + [entry])
    ensures Written(objects, failing, ParquetPath(today, destination, entry.0), entry.1)
      == Persisted(objects0, failing, today, destination, saved + [entry])
  {
    PathsAppend(today, destination, saved, entry);
    PersistedAppend(objects0, failing, today, destination, saved, entry);
  }

  lemma PathsAppend(today: Date, destination: string, saved: seq<(string, Table)>, entry: (string, Table))
    requires ValidDate(today)
    ensures Paths(today, destination, saved + [entry]) == Paths(today, destination, saved) + [ParquetPath(today, destination, entry.0)]
  {
  }

  lemma {:induction false} PersistedAppend(objects: map<string, Table>, failing: set<string>, today: Date, destination: string, saved: seq<(string, Table)>, entry: (string, Table))
    requires ValidDate(today)
    ensures Persisted(objects, failing, today, destination, saved + [entry])
      == Written(Persisted(objects, failing, today, destination, saved), failing, ParquetPath(today, destination, entry.0), entry.1)
    decreases saved
  {
    if saved != [] {
      assert (saved + [entry])[1..] == saved[1..] + [entry];
      PersistedAppend(Written(objects, failing, ParquetPath(today, destination, saved[0].0), saved[0].1), failing, today, destination, saved[1..], entry);
    } else {
      assert (saved + [entry])[1..] == [];
    }
  }

  /** A run of four mappers, case by case: the saved tables are the successes before the first
      failure. */
  lemma SequencedFour(names: seq<string>, results: seq<Result<Table, Failure>>)
    requires |names| == |results| == 4
    ensures results[0].Failure? ==> Sequenced(names, results) == Run([], Some(results[0].error))
    ensures results[0].Success? && results[1].Failure? ==>
      Sequenced(names, results) == Run([] + [(names[0], results[0].value)], Some(results[1].error))
    ensures results[0].Success? && results[1].Success? && results[2].Failure? ==>
      Sequenced(names, results)
        == Run([] + [(names[0], results[0].value)] + [(names[1], results[1].value)], Some(results[2].error))
    ensures results[0].Success? && results[1].Success? && results[2].Success? && results[3].Failure? ==>
      Sequenced(names, results)
        == Run([] + [(names[0], results[0].value)] + [(names[1], results[1].value)] + [(names[2], results[2].value)],
               Some(results[3].error))
    ensures (forall i :: 0 <= i < 4 ==> results[i].Success?) ==>
      Sequenced(names, results)
        == Run([] + [(names[0], results[0].value)] + [(names[1], results[1].value)] + [(names[2], results[2].value)]
                  + [(names[3], results[3].value)], None)
  {
    var run := Sequenced(names, results);
    if results[0].Failure? {
      SequencedStopsAt(names, results, 0);
    } else if results[1].Failure? {
      SequencedStopsAt(names, results, 1);
      assert run.saved == [] + [(names[0], results[0].value)];
    } else if results[2].Failure? {
      SequencedStopsAt(names, results, 2);
      assert run.saved == [] + [(names[0], results[0].value)] + [(names[1], results[1].value)];
    } else if results[3].Failure? {
      SequencedStopsAt(names, results, 3);
      assert run.saved == [] + [(names[0], results[0].value)] + [(names[1], results[1].value)]
        + [(names[2], results[2].value)];
    } else {
      SequencedAllSucceed(names, results);
      assert run.saved == [] + [(names[0], results[0].value)] + [(names[1], results[1].value)]
        + [(names[2], results[2].value)] + [(names[3], results[3].value)];
    }
  }



  /** The sink's log and objects after the tables of `saved` were handed to it in order. */
  ghost predicate Booking(attempts: seq<string>, objects: map<string, Table>, failing: set<string>, today: Date, destination: string,
                          attempts0: seq<string>, objects0: map<string, Table>, saved: seq<(string, Table)>)
    requires ValidDate(today)
  {
    attempts == attempts0 + Paths(today, destination, saved) && objects == Persisted(objects0, failing, today, destination, saved)
  }

  /** One save statement of `transform_data`, whose argument is a mapper call:
      when the mapper raised, the save never runs (`stop`); otherwise the table is saved, one more
      entry of the run. */
  method SaveOrRaise(store: ParquetStore, name: string, result: Result<Table, Failure>, destination: string, today: Date,
                     ghost saved: seq<(string, Table)>, ghost objects0: map<string, Table>, ghost attempts0: seq<string>)
    returns (stop: bool)
    requires ValidDate(today)
    requires Booking(store.attempts, store.objects, store.failing, today, destination, attempts0, objects0, saved)
    modifies store
    ensures stop == result.Failure? && store.failing == old(store.failing)
    ensures stop ==> store.attempts == old(store.attempts) && store.objects == old(store.objects)
    ensures !stop ==> Booking(store.attempts, store.objects, store.failing, today, destination, attempts0, objects0, saved + [(name, result.value)])
  {
    if result.Failure? {
      return true;
    }
    Booked(attempts0, objects0, store.failing, today, destination, store.attempts, store.objects, saved, (name, result.value));
    SaveDfToParquetS3(store, name, result.value, destination, today);
    stop := false;
  }

  /** The mapper results a list of deferred mapper calls gives, in order. */
  ghost function Evaluated(stages: seq<() -> Result<Table, Failure>>): (results: seq<Result<Table, Failure>>)
    ensures |results| == |stages| && forall i :: 0 <= i < |stages| ==> results[i] == stages[i]()
  {
    seq(|stages|, i requires 0 <= i < |stages| => stages[i]())
  }

  /** The body of `transform_data` over its four mapper calls, each held back until its turn: a
      stage's mapper runs only after the previous table was saved, and a mapper failure escapes before
      anything else runs. */
  method SaveStages(store: ParquetStore, stages: seq<() -> Result<Table, Failure>>, destination: string, today: Date)
    returns (outcome: Outcome<Failure>)
    requires ValidDate(today) && |stages| == |TableNames|
    modifies store
    ensures var run := Sequenced(TableNames, Evaluated(stages));
      && outcome == (if run.failure.Some? then Fail(run.failure.value) else Pass)
      && store.attempts == old(store.attempts) + Paths(today, destination, run.saved)
      && store.objects == Persisted(old(store.objects), old(store.failing), today, destination, run.saved)
      && store.failing == old(store.failing)
  {
    ghost var results := Evaluated(stages);
    ghost var initial, initialAttempts := store.objects, store.attempts;
    SequencedFour(TableNames, results);
    ghost var saved: seq<(string, Table)> := [];
    assert Paths(today, destination, saved) == [] && initialAttempts + [] == initialAttempts;

    var fact := stages[0]();
    var stop := SaveOrRaise(store, TableNames[0], fact, destination, today, saved, initial, initialAttempts);
    if stop {
      return Fail(fact.error);
    }
    saved := saved + [(TableNames[0], fact.value)];

    var players := stages[1]();
    stop := SaveOrRaise(store, TableNames[1], players, destination, today, saved, initial, initialAttempts);
    if stop {
      return Fail(players.error);
    }
    saved := saved + [(TableNames[1], players.value)];

    var teams := stages[2]();
    stop := SaveOrRaise(store, TableNames[2], teams, destination, today, saved, initial, initialAttempts);
    if stop {
      return Fail(teams.error);
    }
    saved := saved + [(TableNames[2], teams.value)];

    var fixtures := stages[3]();
    stop := SaveOrRaise(store, TableNames[3], fixtures, destination, today, saved, initial, initialAttempts);
    if stop {
      return Fail(fixtures.error);
    }
    saved := saved + [(TableNames[3], fixtures.value)];
    outcome := Pass;
  }

  /** `transform_data(source_bucket, destination_bucket)`: runs the mappers in `TableNames` order and
      saves each table before the next mapper runs. A mapper failure escapes and ends the run; the
      tables already saved stay saved. The sink's own failures change nothing but the objects. */
  method TransformData(buckets: Buckets, store: ParquetStore, source: string, destination: string, today: Date)
    returns (outcome: Outcome<Failure>)
    requires ValidDate(today)
    modifies store
    ensures var run := Sequenced(TableNames, Mapped(buckets, source, today));
      && outcome == (if run.failure.Some? then Fail(run.failure.value) else Pass)
      && store.attempts == old(store.attempts) + Paths(today, destination, run.saved)
      && store.objects == Persisted(old(store.objects), old(store.failing), today, destination, run.saved)
      && store.failing == old(store.failing)
  {
    var stages := [() => FactPlayersTable(buckets, source, today), () => DimPlayers(buckets, source, today),
                   () => DimTeams(buckets, source, today), () => DimFixtures(buckets, source, today)];
    assert Evaluated(stages) == Mapped(buckets, source, today);
    outcome := SaveStages(store, stages, destination, today);
  }
}
