/** The pandas operations the transform stage is built from, over a plain relational model: a frame
    is a set of column names and a sequence of records, a record maps column names to values, and a
    column a record does not carry reads as null (pandas fills it with NaN). */
module Frames {
  import opened Results
  import opened Calendar
  import opened Documents

  /** A cell value. `Null` stands for None/NaN/NaT, the only values `dropna` and `fillna` see as missing. */
  datatype Value =
    | Null
    | Bool(b: bool)
    | Int(i: int)
    | Str(s: string)
    | Nested(doc: Json)
    | DateValue(date: Date)
    | TimeValue(time: TimeOfDay)

  /** A JSON value as it lands in a DataFrame cell: lists and objects are kept whole. */
  function ValueOf(j: Json): (v: Value)
    ensures v == Null <==> j == JNull
  {
    match j
    case JNull => Null
    case JBool(b) => Bool(b)
    case JInt(i) => Int(i)
    case JStr(s) => Str(s)
    case _ => Nested(j)
  }

  type Record = map<string, Value>

  datatype Frame = Frame(columns: set<string>, records: seq<Record>)

  /** An output table: named columns in order, and rows holding one value per column. */
  datatype Table = Table(columns: seq<string>, rows: seq<seq<Value>>)

  /** Every row of the table holds one value per column, as in any `DataFrame`. */
  predicate Rectangular(t: Table)
  {
    forall i :: 0 <= i < |t.rows| ==> |t.rows[i]| == |t.columns|
  }

  function Cell(r: Record, c: string): Value
  {
    if c in r then r[c] else Null
  }

  /** Every record only carries keys among the frame's columns. */
  ghost predicate WellFormed(f: Frame)
  {
    forall i :: 0 <= i < |f.records| ==> f.records[i].Keys <= f.columns
  }

  // ---------------------------------------------------------------------------------------------
  // pd.DataFrame(data)

  predicate AllObjects(items: seq<Json>)
  {
    forall i :: 0 <= i < |items| ==> items[i].JObject?
  }

  function RecordOf(fields: map<string, Json>): (r: Record)
    ensures r.Keys == fields.Keys
  {
    map k | k in fields :: ValueOf(fields[k])
  }

  /** The union of the keys of a list of objects. */
  function KeysOf(items: seq<Json>): (keys: set<string>)
    requires AllObjects(items)
    ensures forall i :: 0 <= i < |items| ==> items[i].fields.Keys <= keys
    ensures forall k :: k in keys ==> exists i :: 0 <= i < |items| && k in items[i].fields
  {
    if |items| == 0 then {} else items[0].fields.Keys + KeysOf(items[1..])
  }

  /** The lengths of the values of a column-oriented object; -1 marks a value that is not a list. */
  function Lengths(fields: map<string, Json>): set<int>
  {
    set k | k in fields :: if fields[k].JArray? then |fields[k].items| else -1
  }

  lemma SingletonUnique(s: set<int>)
    requires |s| == 1
    ensures exists a :: a in s
    ensures forall a, b :: a in s && b in s ==> a == b
  {
    assert s != {};
    forall a, b | a in s && b in s ensures a == b {
      assert |s - {a}| == 0;
      assert b in s - {a} || b == a;
    }
  }

  function ColumnValue(fields: map<string, Json>, k: string, i: nat): Value
    requires k in fields
  {
    if fields[k].JArray? && i < |fields[k].items| then ValueOf(fields[k].items[i]) else Null
  }

  /** `pd.DataFrame(data)` for the shapes the API files take: `None` gives an empty frame, a list of
      objects one record per object with the union of their keys as columns, and an object of
      equally long lists one column per key. Any other shape is refused (`None`). */
  function FrameOf(doc: Json): (f: Option<Frame>)
    ensures f.Some? ==> WellFormed(f.value)
    ensures doc.JArray? && AllObjects(doc.items) ==>
      f.Some? && |f.value.records| == |doc.items|
      && (forall i :: 0 <= i < |doc.items| ==> f.value.records[i] == RecordOf(doc.items[i].fields))
      && (forall c :: c in f.value.columns <==> exists i :: 0 <= i < |doc.items| && c in doc.items[i].fields)
    ensures doc.JObject? && f.Some? ==> f.value.columns == doc.fields.Keys
  {
    match doc
    case JNull => Some(Frame({}, []))
    case JArray(items) =>
      if AllObjects(items) then
        Some(Frame(KeysOf(items), seq(|items|, i requires 0 <= i < |items| => RecordOf(items[i].fields))))
      else None
    case JObject(fields) =>
      if |fields| == 0 then Some(Frame({}, []))
      else
        var lengths := Lengths(fields);
        if |lengths| != 1 then None
        else
          SingletonUnique(lengths);
          var n :| n in lengths;
          if n < 0 then None
          else Some(Frame(fields.Keys, seq(n, i requires 0 <= i < n => map k | k in fields :: ColumnValue(fields, k, i))))
    case _ => None
  }

  // ---------------------------------------------------------------------------------------------
  // DataFrame.rename(columns=...)

  /** A rename mapping, as the ordered pairs of a Python dict literal. */
  type Renames = seq<(string, string)>

  /** The mappings the transform uses: no source or target repeats, and no target is also a source. */
  ghost predicate Proper(m: Renames)
  {
    forall i, j :: 0 <= i < |m| && 0 <= j < |m| ==>
      m[i].1 != m[j].0 && (i != j ==> m[i].0 != m[j].0 && m[i].1 != m[j].1)
  }

  ghost predicate IsSource(m: Renames, c: string)
  {
    exists i :: 0 <= i < |m| && m[i].0 == c
  }

  ghost predicate IsTarget(m: Renames, c: string)
  {
    exists i :: 0 <= i < |m| && m[i].1 == c
  }

  function Renamed(m: Renames, k: string): string
  {
    if |m| == 0 then k else if m[0].0 == k then m[0].1 else Renamed(m[1..], k)
  }

  function RenamedKeys(m: Renames, keys: set<string>): set<string>
  {
    set k | k in keys :: Renamed(m, k)
  }

  /** The key of `r` whose value ends up under `n`: a renamed key takes precedence over a key that
      already carried the new name. */
  function Origin(m: Renames, r: Record, n: string): string
  {
    if |m| == 0 then n else if m[0].0 in r && m[0].1 == n then m[0].0 else Origin(m[1..], r, n)
  }

  lemma {:induction false} OriginPresent(m: Renames, r: Record, k: string)
    requires k in r
    ensures Origin(m, r, Renamed(m, k)) in r
  {
    if |m| != 0 && m[0].0 != k {
      OriginPresent(m[1..], r, k);
    }
  }

  function RenameRecord(m: Renames, r: Record): (renamed: Record)
    ensures renamed.Keys == RenamedKeys(m, r.Keys)
  {
    assert forall n :: n in RenamedKeys(m, r.Keys) ==> Origin(m, r, n) in r by {
      forall n | n in RenamedKeys(m, r.Keys) ensures Origin(m, r, n) in r {
        var k :| k in r && Renamed(m, k) == n;
        OriginPresent(m, r, k);
      }
    }
    map n | n in RenamedKeys(m, r.Keys) :: r[Origin(m, r, n)]
  }

  function RenameFrame(m: Renames, f: Frame): (g: Frame)
    ensures |g.records| == |f.records| && g.columns == RenamedKeys(m, f.columns)
    ensures forall i :: 0 <= i < |f.records| ==> g.records[i] == RenameRecord(m, f.records[i])
    ensures WellFormed(f) ==> WellFormed(g)
  {
    Frame(RenamedKeys(m, f.columns), seq(|f.records|, i requires 0 <= i < |f.records| => RenameRecord(m, f.records[i])))
  }

  lemma {:induction false} RenamedOfSource(m: Renames, i: int)
    requires Proper(m) && 0 <= i < |m|
    ensures Renamed(m, m[i].0) == m[i].1
  {
    if i > 0 {
      assert m[0].0 != m[i].0;
      assert m[i].0 == m[1..][i - 1].0 && m[i].1 == m[1..][i - 1].1;
      RenamedOfSource(m[1..], i - 1);
    }
  }

  lemma {:induction false} RenamedOfOther(m: Renames, k: string)
    requires !IsSource(m, k)
    ensures Renamed(m, k) == k
  {
    if |m| != 0 {
      assert m[0].0 != k;
      assert !IsSource(m[1..], k) by {
        forall j | 0 <= j < |m[1..]| ensures m[1..][j].0 != k {
          assert m[1..][j] == m[j + 1];
        }
      }
      RenamedOfOther(m[1..], k);
    }
  }

  /** Only the source of a pair, or a key that is neither a source nor renamed away, ends up under a
      target name. */
  lemma {:induction false} RenamedToTarget(m: Renames, i: int, k: string)
    requires Proper(m) && 0 <= i < |m|
    requires Renamed(m, k) == m[i].1
    ensures k == m[i].0 || (k == m[i].1 && !IsSource(m, k))
  {
    if IsSource(m, k) {
      var j :| 0 <= j < |m| && m[j].0 == k;
      RenamedOfSource(m, j);
    } else {
      RenamedOfOther(m, k);
    }
  }

  lemma {:induction false} OriginOfTarget(m: Renames, r: Record, i: int)
    requires Proper(m) && 0 <= i < |m| && m[i].0 in r
    ensures Origin(m, r, m[i].1) == m[i].0
  {
    if i > 0 {
      assert m[0].1 != m[i].1;
      assert m[i] == m[1..][i - 1];
      OriginOfTarget(m[1..], r, i - 1);
    }
  }

  lemma {:induction false} OriginOfOther(m: Renames, r: Record, c: string)
    requires !IsTarget(m, c)
    ensures Origin(m, r, c) == c
  {
    if |m| != 0 {
      assert m[0].1 != c;
      assert !IsTarget(m[1..], c) by {
        forall j | 0 <= j < |m[1..]| ensures m[1..][j].1 != c {
          assert m[1..][j] == m[j + 1];
        }
      }
      OriginOfOther(m[1..], r, c);
    }
  }

  /** After a rename, a target column holds what its source held, provided the record did not carry
      the target name already. */
  lemma RenameCellTarget(m: Renames, r: Record, i: int)
    requires Proper(m) && 0 <= i < |m| && m[i].1 !in r
    ensures Cell(RenameRecord(m, r), m[i].1) == Cell(r, m[i].0)
  {
    var t := m[i].1;
    if m[i].0 in r {
      RenamedOfSource(m, i);
      OriginOfTarget(m, r, i);
    } else if t in RenameRecord(m, r) {
      var k :| k in r && Renamed(m, k) == t;
      RenamedToTarget(m, i, k);
    }
  }

  /** A column the mapping neither reads nor writes keeps its value. */
  lemma RenameCellOther(m: Renames, r: Record, c: string)
    requires Proper(m) && !IsSource(m, c) && !IsTarget(m, c)
    ensures Cell(RenameRecord(m, r), c) == Cell(r, c)
  {
    OriginOfOther(m, r, c);
    if c in r {
      RenamedOfOther(m, c);
    } else if c in RenameRecord(m, r) {
      var k :| k in r && Renamed(m, k) == c;
      if IsSource(m, k) {
        var j :| 0 <= j < |m| && m[j].0 == k;
        RenamedOfSource(m, j);
      } else {
        RenamedOfOther(m, k);
      }
    }
  }

  /** A target column exists after the rename exactly when its source or the target itself existed;
      any other column keeps its presence unless it is a source. */
  lemma RenameColumns(m: Renames, columns: set<string>)
    requires Proper(m)
    ensures forall i :: 0 <= i < |m| ==> (m[i].1 in RenamedKeys(m, columns) <==> m[i].0 in columns || m[i].1 in columns)
    ensures forall c :: !IsSource(m, c) && !IsTarget(m, c) ==> (c in RenamedKeys(m, columns) <==> c in columns)
  {
    forall i | 0 <= i < |m|
      ensures m[i].1 in RenamedKeys(m, columns) <==> m[i].0 in columns || m[i].1 in columns
    {
      if m[i].0 in columns {
        RenamedOfSource(m, i);
      } else if m[i].1 in columns {
        assert !IsSource(m, m[i].1);
        RenamedOfOther(m, m[i].1);
      }
      if m[i].1 in RenamedKeys(m, columns) {
        var k :| k in columns && Renamed(m, k) == m[i].1;
        RenamedToTarget(m, i, k);
      }
    }
    forall c | !IsSource(m, c) && !IsTarget(m, c)
      ensures c in RenamedKeys(m, columns) <==> c in columns
    {
      if c in columns {
        RenamedOfOther(m, c);
      }
      if c in RenamedKeys(m, columns) {
        var k :| k in columns && Renamed(m, k) == c;
        if IsSource(m, k) {
          var j :| 0 <= j < |m| && m[j].0 == k;
          RenamedOfSource(m, j);
        } else {
          RenamedOfOther(m, k);
        }
      }
    }
  }

  /** A column of the original record, moved to its new name, keeps its value when the record
      carries no target name. */
  lemma RenameCellKey(m: Renames, r: Record, c: string)
    requires Proper(m) && !IsTarget(m, c)
    requires forall i :: 0 <= i < |m| ==> m[i].1 !in r
    ensures Cell(RenameRecord(m, r), Renamed(m, c)) == Cell(r, c)
  {
    if IsSource(m, c) {
      var j :| 0 <= j < |m| && m[j].0 == c;
      RenamedOfSource(m, j);
      RenameCellTarget(m, r, j);
    } else {
      RenamedOfOther(m, c);
      RenameCellOther(m, r, c);
    }
  }

  // ---------------------------------------------------------------------------------------------
  // Column selection: df[[...]] raises KeyError naming the columns that are not there.

  /** The requested columns that the frame lacks, in request order. */
  function Missing(wanted: seq<string>, present: set<string>): (missing: seq<string>)
    ensures forall c :: c in missing <==> c in wanted && c !in present
    ensures |missing| == 0 <==> forall j :: 0 <= j < |wanted| ==> wanted[j] in present
  {
    if |wanted| == 0 then []
    else (if wanted[0] in present then [] else [wanted[0]]) + Missing(wanted[1..], present)
  }

  function RowOf(r: Record, columns: seq<string>): (row: seq<Value>)
    ensures |row| == |columns|
  {
    seq(|columns|, j requires 0 <= j < |columns| => Cell(r, columns[j]))
  }

  function RowsOf(records: seq<Record>, columns: seq<string>): (rows: seq<seq<Value>>)
    ensures |rows| == |records|
    ensures forall i :: 0 <= i < |rows| ==> |rows[i]| == |columns|
  {
    seq(|records|, i requires 0 <= i < |records| => RowOf(records[i], columns))
  }

  lemma RowsOfAppend(a: seq<Record>, b: seq<Record>, columns: seq<string>)
    ensures RowsOf(a + b, columns) == RowsOf(a, columns) + RowsOf(b, columns)
  {
    assert forall i :: 0 <= i < |b| ==> (a + b)[|a| + i] == b[i];
  }

  /** Selecting columns, in the given order, as the output table. */
  function Select(f: Frame, columns: seq<string>): (t: Result<Table, seq<string>>)
    ensures t.Failure? <==> exists j :: 0 <= j < |columns| && columns[j] !in f.columns
    ensures t.Failure? ==> t.error == Missing(columns, f.columns)
    ensures t.Success? ==> t.value == Table(columns, RowsOf(f.records, columns))
    ensures t.Success? ==> Rectangular(t.value)
  {
    var missing := Missing(columns, f.columns);
    if |missing| != 0 then Failure(missing) else Success(Table(columns, RowsOf(f.records, columns)))
  }

  /** Selecting columns succeeds exactly when every one of them is present. */
  lemma SelectSucceeds(f: Frame, columns: seq<string>)
    ensures Select(f, columns).Success? <==> forall c :: c in columns ==> c in f.columns
  {
    if Select(f, columns).Failure? {
      var j :| 0 <= j < |columns| && columns[j] !in f.columns;
      assert columns[j] in columns;
    }
  }

  function Restrict(r: Record, columns: seq<string>): (s: Record)
    ensures forall c :: c in columns ==> Cell(s, c) == Cell(r, c)
    ensures s.Keys <= set j | 0 <= j < |columns| :: columns[j]
  {
    map k | k in r && k in columns :: r[k]
  }

  /** Selecting columns, kept as a frame for further steps. */
  function Project(f: Frame, columns: seq<string>): (g: Result<Frame, seq<string>>)
    ensures g.Failure? <==> exists j :: 0 <= j < |columns| && columns[j] !in f.columns
    ensures g.Failure? ==> g.error == Missing(columns, f.columns)
    ensures g.Success? ==> WellFormed(g.value) && |g.value.records| == |f.records|
    ensures g.Success? ==> g.value.columns == set j | 0 <= j < |columns| :: columns[j]
    ensures g.Success? ==> forall i, c :: 0 <= i < |f.records| && c in columns ==> Cell(g.value.records[i], c) == Cell(f.records[i], c)
  {
    var missing := Missing(columns, f.columns);
    if |missing| != 0 then Failure(missing)
    else Success(Frame(set j | 0 <= j < |columns| :: columns[j], seq(|f.records|, i requires 0 <= i < |f.records| => Restrict(f.records[i], columns))))
  }

  /** The column a selected name reads after a rename: a target reads its source, any other name
      itself. */
  function Source(m: Renames, c: string): string
  {
    if |m| == 0 then c else if m[0].1 == c then m[0].0 else Source(m[1..], c)
  }

  function Sources(m: Renames, columns: seq<string>): (sources: seq<string>)
    ensures |sources| == |columns|
  {
    seq(|columns|, j requires 0 <= j < |columns| => Source(m, columns[j]))
  }

  lemma {:induction false} SourceOfTarget(m: Renames, i: int)
    requires Proper(m) && 0 <= i < |m|
    ensures Source(m, m[i].1) == m[i].0
  {
    if i > 0 {
      assert m[0].1 != m[i].1;
      assert m[i] == m[1..][i - 1];
      SourceOfTarget(m[1..], i - 1);
    }
  }

  lemma {:induction false} SourceOfOther(m: Renames, c: string)
    requires !IsTarget(m, c)
    ensures Source(m, c) == c
  {
    if |m| != 0 {
      assert m[0].1 != c;
      assert !IsTarget(m[1..], c) by {
        forall j | 0 <= j < |m[1..]| ensures m[1..][j].1 != c {
          assert m[1..][j] == m[j + 1];
        }
      }
      SourceOfOther(m[1..], c);
    }
  }

  /** No target name of the mapping is already a column. */
  ghost predicate ClashFree(m: Renames, columns: set<string>)
  {
    forall i :: 0 <= i < |m| ==> m[i].1 !in columns
  }

  /** After a rename, a name that is not a source is present exactly when the column it reads was,
      and holds that column's values. */
  lemma RenamedColumnReads(m: Renames, f: Frame, c: string)
    requires Proper(m) && WellFormed(f) && ClashFree(m, f.columns) && !IsSource(m, c)
    ensures c in RenameFrame(m, f).columns <==> Source(m, c) in f.columns
    ensures forall i :: 0 <= i < |f.records| ==> Cell(RenameFrame(m, f).records[i], c) == Cell(f.records[i], Source(m, c))
  {
    var g := RenameFrame(m, f);
    RenameColumns(m, f.columns);
    if IsTarget(m, c) {
      var k :| 0 <= k < |m| && m[k].1 == c;
      SourceOfTarget(m, k);
      forall i | 0 <= i < |f.records| ensures Cell(g.records[i], c) == Cell(f.records[i], Source(m, c)) {
        RenameCellTarget(m, f.records[i], k);
      }
    } else {
      SourceOfOther(m, c);
      forall i | 0 <= i < |f.records| ensures Cell(g.records[i], c) == Cell(f.records[i], Source(m, c)) {
        RenameCellOther(m, f.records[i], c);
      }
    }
  }

  /** Renaming and then selecting names that are not sources reads, row by row and in order, the
      source columns of the original frame; it fails exactly when one of those is absent. */
  lemma RenameSelect(m: Renames, f: Frame, columns: seq<string>)
    requires Proper(m) && WellFormed(f) && ClashFree(m, f.columns)
    requires forall j :: 0 <= j < |columns| ==> !IsSource(m, columns[j])
    ensures Select(RenameFrame(m, f), columns).Success? <==> Select(f, Sources(m, columns)).Success?
    ensures Select(RenameFrame(m, f), columns).Success? ==>
      Select(RenameFrame(m, f), columns).value == Table(columns, RowsOf(f.records, Sources(m, columns)))
  {
    var g := RenameFrame(m, f);
    var sources := Sources(m, columns);
    forall j | 0 <= j < |columns|
      ensures columns[j] in g.columns <==> sources[j] in f.columns
      ensures forall i :: 0 <= i < |f.records| ==> Cell(g.records[i], columns[j]) == Cell(f.records[i], sources[j])
    {
      RenamedColumnReads(m, f, columns[j]);
    }
    forall i | 0 <= i < |f.records| ensures RowOf(g.records[i], columns) == RowOf(f.records[i], sources) {
    }
    assert RowsOf(g.records, columns) == RowsOf(f.records, sources);
  }

  // ---------------------------------------------------------------------------------------------
  // Column assignment, concatenation, merges, fillna and dropna.

  /** Assigning a scalar to a column: every record gets the value. */
  function WithConstant(f: Frame, name: string, v: Value): (g: Frame)
    ensures |g.records| == |f.records| && g.columns == f.columns + {name}
    ensures forall i :: 0 <= i < |f.records| ==> g.records[i] == f.records[i][name := v]
    ensures WellFormed(f) ==> WellFormed(g)
  {
    Frame(f.columns + {name}, seq(|f.records|, i requires 0 <= i < |f.records| => f.records[i][name := v]))
  }

  /** Concatenation with a fresh index: the rows of `a`, then those of `b`, over the union of columns. */
  function Concat(a: Frame, b: Frame): (g: Frame)
    ensures g.records == a.records + b.records && g.columns == a.columns + b.columns
    ensures WellFormed(a) && WellFormed(b) ==> WellFormed(g)
  {
    Frame(a.columns + b.columns, a.records + b.records)
  }

  /** `l` joined with each of `rs` in turn; the right record's cells win a shared name. */
  function Extend(l: Record, rs: seq<Record>): (joined: seq<Record>)
    ensures |joined| == |rs|
    ensures forall j :: 0 <= j < |rs| ==> joined[j] == l + rs[j]
  {
    seq(|rs|, j requires 0 <= j < |rs| => l + rs[j])
  }

  lemma ExtendCons(l: Record, rs: seq<Record>)
    requires |rs| != 0
    ensures Extend(l, rs) == [l + rs[0]] + Extend(l, rs[1..])
  {
  }

  /** Cartesian product, left rows outermost: each left row followed by every right row. */
  function CrossRecords(left: seq<Record>, right: seq<Record>): (rs: seq<Record>)
    ensures |rs| == |left| * |right|
  {
    if |left| == 0 then [] else Extend(left[0], right) + CrossRecords(left[1..], right)
  }

  /** The pair of the `i`-th left record and the `j`-th right record sits at `i * |right| + j`. */
  lemma {:induction false} CrossRecordsAt(left: seq<Record>, right: seq<Record>, i: int, j: int)
    requires 0 <= i < |left| && 0 <= j < |right|
    ensures 0 <= i * |right| + j < |CrossRecords(left, right)|
    ensures CrossRecords(left, right)[i * |right| + j] == left[i] + right[j]
  {
    if i == 0 {
      assert CrossRecords(left, right)[j] == Extend(left[0], right)[j];
    } else {
      CrossRecordsAt(left[1..], right, i - 1, j);
      assert (i - 1) * |right| + j + |right| == i * |right| + j;
      assert CrossRecords(left, right)[i * |right| + j] == CrossRecords(left[1..], right)[(i - 1) * |right| + j];
    }
  }

  /** The cross merge of two frames: every left row paired with every right row. */
  function CrossMerge(a: Frame, b: Frame): Frame
  {
    Frame(a.columns + b.columns, CrossRecords(a.records, b.records))
  }

  /** The join keys agree; a missing key on both sides agrees too, as pandas matches NaN with NaN. */
  predicate KeysAgree(a: Record, b: Record, on: seq<string>)
  {
    forall j :: 0 <= j < |on| ==> Cell(a, on[j]) == Cell(b, on[j])
  }

  /** The right records matching `l`, in right order. */
  function Matches(l: Record, right: seq<Record>, on: seq<string>): (ms: seq<Record>)
    ensures |ms| <= |right|
    ensures forall j :: 0 <= j < |ms| ==> ms[j] in right && KeysAgree(l, ms[j], on)
  {
    if |right| == 0 then []
    else (if KeysAgree(l, right[0], on) then [right[0]] else []) + Matches(l, right[1..], on)
  }

  /** The output records of one left record: one per match, or the record alone, with nulls for
      every right column, when nothing matches. */
  function MergeOne(l: Record, right: seq<Record>, on: seq<string>): seq<Record>
  {
    var ms := Matches(l, right, on);
    if |ms| == 0 then [l] else Extend(l, ms)
  }

  function LeftMergeRecords(left: seq<Record>, right: seq<Record>, on: seq<string>): seq<Record>
  {
    if |left| == 0 then [] else MergeOne(left[0], right, on) + LeftMergeRecords(left[1..], right, on)
  }

  /** The left merge of two frames on the key columns `on`; a join key missing from either side is a
      KeyError. */
  function LeftMerge(a: Frame, b: Frame, on: seq<string>): (g: Result<Frame, seq<string>>)
    ensures g.Failure? <==> exists j :: 0 <= j < |on| && (on[j] !in a.columns || on[j] !in b.columns)
  {
    var missing := Missing(on, a.columns) + Missing(on, b.columns);
    if |missing| != 0 then Failure(missing)
    else Success(Frame(a.columns + b.columns, LeftMergeRecords(a.records, b.records, on)))
  }

  /** Every right record that agrees with `l` is among its matches. */
  lemma {:induction false} MatchesComplete(l: Record, right: seq<Record>, on: seq<string>, k: int)
    requires 0 <= k < |right| && KeysAgree(l, right[k], on)
    ensures right[k] in Matches(l, right, on)
  {
    if k > 0 {
      MatchesComplete(l, right[1..], on, k - 1);
    }
  }

  lemma {:induction false} LeftMergeRecordsAppend(a: seq<Record>, b: seq<Record>, right: seq<Record>, on: seq<string>)
    ensures LeftMergeRecords(a + b, right, on) == LeftMergeRecords(a, right, on) + LeftMergeRecords(b, right, on)
  {
    if |a| != 0 {
      var head, tail := MergeOne(a[0], right, on), a[1..];
      assert (a + b)[0] == a[0] && (a + b)[1..] == tail + b;
      assert LeftMergeRecords(a + b, right, on) == head + LeftMergeRecords(tail + b, right, on);
      LeftMergeRecordsAppend(tail, b, right, on);
      assert LeftMergeRecords(a, right, on) == head + LeftMergeRecords(tail, right, on);
      assert head + (LeftMergeRecords(tail, right, on) + LeftMergeRecords(b, right, on))
        == (head + LeftMergeRecords(tail, right, on)) + LeftMergeRecords(b, right, on);
    } else {
      assert a + b == b;
    }
  }

  /** The selected null-free rows that the right records matching `l` contribute, in right order. */
  function MatchedRows(l: Record, right: seq<Record>, on: seq<string>, columns: seq<string>): seq<seq<Value>>
  {
    if |right| == 0 then []
    else
      var row := RowOf(l + right[0], columns);
      (if KeysAgree(l, right[0], on) && NoNull(row) then [row] else []) + MatchedRows(l, right[1..], on, columns)
  }

  lemma ExtendAppend(l: Record, a: seq<Record>, b: seq<Record>)
    ensures Extend(l, a + b) == Extend(l, a) + Extend(l, b)
  {
    var joined, whole := Extend(l, a + b), Extend(l, a) + Extend(l, b);
    forall j | 0 <= j < |joined|
      ensures joined[j] == whole[j]
    {
      if j < |a| {
        assert (a + b)[j] == a[j];
      } else {
        assert (a + b)[j] == b[j - |a|];
      }
    }
  }

  lemma {:induction false} ExtendMatchesRows(l: Record, right: seq<Record>, on: seq<string>, columns: seq<string>)
    ensures NonNullRows(RowsOf(Extend(l, Matches(l, right, on)), columns)) == MatchedRows(l, right, on, columns)
  {
    if |right| != 0 {
      ExtendMatchesRows(l, right[1..], on, columns);
      var head := if KeysAgree(l, right[0], on) then [right[0]] else [];
      var rest := Matches(l, right[1..], on);
      var row := RowOf(l + right[0], columns);
      var front := if KeysAgree(l, right[0], on) && NoNull(row) then [row] else [];
      assert Matches(l, right, on) == head + rest;
      ExtendAppend(l, head, rest);
      RowsOfAppend(Extend(l, head), Extend(l, rest), columns);
      NonNullRowsAppend(RowsOf(Extend(l, head), columns), RowsOf(Extend(l, rest), columns));
      assert NonNullRows(RowsOf(Extend(l, head), columns)) == front by {
        if KeysAgree(l, right[0], on) {
          assert RowsOf(Extend(l, head), columns) == [row];
        } else {
          assert RowsOf(Extend(l, head), columns) == [];
        }
      }
      assert MatchedRows(l, right, on, columns) == front + MatchedRows(l, right[1..], on, columns);
    }
  }

  /** After selecting `columns` and dropping rows with a null, a left record contributes exactly its
      matched rows, when its own row has a null in the selection (a column only the right side
      supplies): the unmatched record, kept with nulls by the left merge, is always dropped. */
  lemma MergeOneRows(l: Record, right: seq<Record>, on: seq<string>, columns: seq<string>)
    requires !NoNull(RowOf(l, columns))
    ensures NonNullRows(RowsOf(MergeOne(l, right, on), columns)) == MatchedRows(l, right, on, columns)
  {
    ExtendMatchesRows(l, right, on, columns);
    if |Matches(l, right, on)| == 0 {
      assert RowsOf([l], columns) == [RowOf(l, columns)];
      assert NonNullRows(RowsOf([l], columns)) == [];
    }
  }

  /** One record's cell `c` with a null replaced by `v`. */
  function FillCell(r: Record, c: string, v: Value): (s: Record)
    ensures Cell(s, c) == (if Cell(r, c) == Null then v else Cell(r, c))
    ensures s.Keys == r.Keys + {c}
  {
    r[c := if Cell(r, c) == Null then v else Cell(r, c)]
  }

  /** Replacing the nulls of column `c` by `v`, in place of the column. */
  function FillNull(f: Frame, c: string, v: Value): (g: Frame)
    ensures |g.records| == |f.records| && g.columns == f.columns + {c}
    ensures forall i :: 0 <= i < |f.records| ==> g.records[i] == FillCell(f.records[i], c, v)
    ensures WellFormed(f) ==> WellFormed(g)
  {
    Frame(f.columns + {c}, seq(|f.records|, i requires 0 <= i < |f.records| => FillCell(f.records[i], c, v)))
  }

  predicate Complete(r: Record, columns: set<string>)
  {
    forall c :: c in columns ==> Cell(r, c) != Null
  }

  /** `df.dropna()` on a frame: the records with no null in any of the frame's columns, in order. */
  function CompleteRecords(records: seq<Record>, columns: set<string>): (kept: seq<Record>)
    ensures |kept| <= |records|
    ensures forall r :: r in kept <==> r in records && Complete(r, columns)
  {
    if |records| == 0 then []
    else (if Complete(records[0], columns) then [records[0]] else []) + CompleteRecords(records[1..], columns)
  }

  function DropIncomplete(f: Frame): Frame
  {
    Frame(f.columns, CompleteRecords(f.records, f.columns))
  }

  /** The elements whose flag is set, in order. */
  function Keep<T>(xs: seq<T>, flags: seq<bool>): (kept: seq<T>)
    requires |xs| == |flags|
    ensures |kept| <= |xs|
  {
    if |xs| == 0 then [] else (if flags[0] then [xs[0]] else []) + Keep(xs[1..], flags[1..])
  }

  function CompleteFlags(records: seq<Record>, columns: set<string>): (flags: seq<bool>)
    ensures |flags| == |records|
  {
    seq(|records|, i requires 0 <= i < |records| => Complete(records[i], columns))
  }

  /** Selecting from the complete records is keeping the selected rows of the complete records. */
  lemma {:induction false} CompleteRows(records: seq<Record>, columns: set<string>, selected: seq<string>)
    ensures RowsOf(CompleteRecords(records, columns), selected) == Keep(RowsOf(records, selected), CompleteFlags(records, columns))
  {
    if |records| != 0 {
      CompleteRows(records[1..], columns, selected);
      assert RowsOf(records, selected)[1..] == RowsOf(records[1..], selected);
      assert CompleteFlags(records, columns)[1..] == CompleteFlags(records[1..], columns);
      var head := if Complete(records[0], columns) then [records[0]] else [];
      RowsOfAppend(head, CompleteRecords(records[1..], columns), selected);
    }
  }

  predicate NoNull(row: seq<Value>)
  {
    forall j :: 0 <= j < |row| ==> row[j] != Null
  }

  /** `df.dropna()` on a selected table: the rows without a null, in order. */
  function NonNullRows(rows: seq<seq<Value>>): (kept: seq<seq<Value>>)
    ensures |kept| <= |rows|
    ensures forall row :: row in kept <==> row in rows && NoNull(row)
  {
    if |rows| == 0 then []
    else (if NoNull(rows[0]) then [rows[0]] else []) + NonNullRows(rows[1..])
  }

  /** Dropping rows keeps every remaining row as wide as the table's columns. */
  lemma NonNullRowsRectangular(t: Table)
    requires Rectangular(t)
    ensures Rectangular(Table(t.columns, NonNullRows(t.rows)))
  {
    var kept := NonNullRows(t.rows);
    forall i | 0 <= i < |kept| ensures |kept[i]| == |t.columns| {
      assert kept[i] in t.rows;
    }
  }

  lemma {:induction false} NonNullRowsAppend(a: seq<seq<Value>>, b: seq<seq<Value>>)
    ensures NonNullRows(a + b) == NonNullRows(a) + NonNullRows(b)
  {
    if |a| != 0 {
      assert (a + b)[1..] == a[1..] + b;
      NonNullRowsAppend(a[1..], b);
    } else {
      assert a + b == b;
    }
  }

  lemma {:induction false} CompleteRecordsAppend(a: seq<Record>, b: seq<Record>, columns: set<string>)
    ensures CompleteRecords(a + b, columns) == CompleteRecords(a, columns) + CompleteRecords(b, columns)
  {
    if |a| != 0 {
      assert (a + b)[1..] == a[1..] + b;
      CompleteRecordsAppend(a[1..], b, columns);
    } else {
      assert a + b == b;
    }
  }
}
