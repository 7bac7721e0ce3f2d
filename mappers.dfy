/** The table mappers of the transform stage (airflow_home/dags/scripts/transform.py) other than the
    fact table: reading the raw JSON files, the error each step can raise, `transform_dim_players`,
    `transform_dim_teams` and `transform_dim_fixtures`. */
module Mappers {
  import opened Results
  import opened Text
  import opened Calendar
  import opened Documents
  import opened Helpers
  import opened Frames
  import Extract

  /** Why a mapper gives no table. Every `KeyError` is re-raised as `MissingColumns` carrying the
      mapper's name; anything else escapes unchanged. */
  datatype Failure =
    | MissingColumns(mapper: string, keys: seq<string>)
    | NoSuchBucket(bucket: string)
    | NoSuchKey(bucket: string, key: string)
    | NotSubscriptable(mapper: string)
    | Unframeable(mapper: string)
    | UnparseableKickoff(value: Value)

  const MissingText := " Missing required columns: "

  /** The text of the re-raised `KeyError`: the mapper's name, the fixed phrase, then the keys. */
  function MissingMessage(f: Failure): (text: string)
    requires f.MissingColumns?
    ensures |text| >= |f.mapper + MissingText| && text[..|f.mapper + MissingText|] == f.mapper + MissingText
  {
    var head := f.mapper + MissingText;
    assert (head + Join(f.keys, ", "))[..|head|] == head;
    head + Join(f.keys, ", ")
  }

  type Buckets = map<string, map<string, Json>>

  /** The key `{date}/{name}.json` the mappers read; it is the key the extract stage writes for the
      endpoint of the same name. */
  function RawKey(today: Date, name: string): (key: string)
    requires ValidDate(today)
    ensures key == Extract.ObjectKey(today, name)
  {
    IsoDate(today) + "/" + name + ".json"
  }

  /** `retrieve_s3_json`: a missing bucket or key is a client error that escapes. */
  function Fetch(buckets: Buckets, bucket: string, key: string): (doc: Result<Json, Failure>)
    ensures doc.Success? <==> bucket in buckets && key in buckets[bucket]
    ensures doc.Success? ==> doc.value == buckets[bucket][key]
  {
    if bucket !in buckets then Failure(NoSuchBucket(bucket))
    else if key !in buckets[bucket] then Failure(NoSuchKey(bucket, key))
    else Success(buckets[bucket][key])
  }

  /** `doc[name]`: a `KeyError` when the object lacks it, a `TypeError` when `doc` is not an object. */
  function Field(doc: Json, name: string, mapper: string): (value: Result<Json, Failure>)
    ensures value.Success? <==> doc.JObject? && name in doc.fields
    ensures value.Success? ==> value.value == doc.fields[name]
    ensures doc.JObject? && name !in doc.fields ==> value == Failure(MissingColumns(mapper, [name]))
  {
    if !doc.JObject? then Failure(NotSubscriptable(mapper))
    else if name !in doc.fields then Failure(MissingColumns(mapper, [name]))
    else Success(doc.fields[name])
  }

  function Framed(doc: Json, mapper: string): (f: Result<Frame, Failure>)
    ensures f.Success? <==> FrameOf(doc).Some?
    ensures f.Success? ==> f.value == FrameOf(doc).value
  {
    match FrameOf(doc)
    case None => Failure(Unframeable(mapper))
    case Some(frame) => Success(frame)
  }

  /** A pandas `KeyError` naming absent columns, re-raised with the mapper's name. */
  function Keyed<T>(r: Result<T, seq<string>>, mapper: string): Result<T, Failure>
  {
    match r
    case Failure(missing) => Failure(MissingColumns(mapper, missing))
    case Success(v) => Success(v)
  }

  // ---------------------------------------------------------------------------------------------
  // transform_dim_players and transform_dim_teams

  const DimPlayersName := "transform_dim_players"
  const PlayerRenames: Renames := [("id", "player_id"), ("team", "team_id")]
  const DimPlayersColumns := ["first_name", "second_name", "web_name", "player_id", "team_id"]
  const PlayerSourceColumns := ["first_name", "second_name", "web_name", "id", "team"]

  function DimPlayersOf(bootstrap: Json): (t: Result<Table, Failure>)
    ensures t.Success? ==> t.value.columns == DimPlayersColumns && Rectangular(t.value)
  {
    var elements :- Field(bootstrap, "elements", DimPlayersName);
    var frame :- Framed(elements, DimPlayersName);
    Keyed(Select(RenameFrame(PlayerRenames, frame), DimPlayersColumns), DimPlayersName)
  }

  /** `transform_dim_players(bucket)` on the day `today`. */
  function DimPlayers(buckets: Buckets, bucket: string, today: Date): (t: Result<Table, Failure>)
    requires ValidDate(today)
    ensures t.Success? ==> t.value.columns == DimPlayersColumns && Rectangular(t.value)
  {
    var bootstrap :- Fetch(buckets, bucket, RawKey(today, "bootstrap-static"));
    DimPlayersOf(bootstrap)
  }

  /** One row per element, in order, holding the element's first name, second name, web name, id and
      team unchanged; it fails exactly when one of those five keys occurs in no element. */
  lemma DimPlayersTable(bootstrap: Json, frame: Frame)
    requires bootstrap.JObject? && "elements" in bootstrap.fields
    requires FrameOf(bootstrap.fields["elements"]) == Some(frame)
    requires ClashFree(PlayerRenames, frame.columns)
    ensures DimPlayersOf(bootstrap).Success? <==> forall c :: c in PlayerSourceColumns ==> c in frame.columns
    ensures DimPlayersOf(bootstrap).Success? ==>
      DimPlayersOf(bootstrap).value == Table(DimPlayersColumns, RowsOf(frame.records, PlayerSourceColumns))
  {
    PlayerRenamesFit();
    RenameSelect(PlayerRenames, frame, DimPlayersColumns);
    SelectSucceeds(frame, PlayerSourceColumns);
  }

  lemma PlayerRenamesFit()
    ensures Proper(PlayerRenames)
    ensures forall j :: 0 <= j < |DimPlayersColumns| ==> !IsSource(PlayerRenames, DimPlayersColumns[j])
    ensures Sources(PlayerRenames, DimPlayersColumns) == PlayerSourceColumns
  {
    var m := PlayerRenames;
    forall j | 0 <= j < |DimPlayersColumns| ensures !IsSource(m, DimPlayersColumns[j]) {
      assert forall i :: 0 <= i < |m| ==> m[i].0 in {"id", "team"};
    }
    SourceOfTarget(m, 0);
    SourceOfTarget(m, 1);
    forall c | c in ["first_name", "second_name", "web_name"] ensures Source(m, c) == c {
      assert forall i :: 0 <= i < |m| ==> m[i].1 in {"player_id", "team_id"};
      SourceOfOther(m, c);
    }
  }

  const DimTeamsName := "transform_dim_teams"
  const TeamRenames: Renames := [("id", "team_id"), ("name", "team_name"), ("short_name", "team_name_short")]
  const DimTeamsColumns := ["team_id", "team_name", "team_name_short"]
  const TeamSourceColumns := ["id", "name", "short_name"]

  function DimTeamsOf(bootstrap: Json): (t: Result<Table, Failure>)
    ensures t.Success? ==> t.value.columns == DimTeamsColumns && Rectangular(t.value)
  {
    var teams :- Field(bootstrap, "teams", DimTeamsName);
    var frame :- Framed(teams, DimTeamsName);
    Keyed(Select(RenameFrame(TeamRenames, frame), DimTeamsColumns), DimTeamsName)
  }

  /** `transform_dim_teams(bucket)` on the day `today`. */
  function DimTeams(buckets: Buckets, bucket: string, today: Date): (t: Result<Table, Failure>)
    requires ValidDate(today)
    ensures t.Success? ==> t.value.columns == DimTeamsColumns && Rectangular(t.value)
  {
    var bootstrap :- Fetch(buckets, bucket, RawKey(today, "bootstrap-static"));
    DimTeamsOf(bootstrap)
  }

  /** One row per team, in order, holding its id, name and short name unchanged; it fails exactly
      when one of those keys occurs in no team. */
  lemma DimTeamsTable(bootstrap: Json, frame: Frame)
    requires bootstrap.JObject? && "teams" in bootstrap.fields
    requires FrameOf(bootstrap.fields["teams"]) == Some(frame)
    requires ClashFree(TeamRenames, frame.columns)
    ensures DimTeamsOf(bootstrap).Success? <==> forall c :: c in TeamSourceColumns ==> c in frame.columns
    ensures DimTeamsOf(bootstrap).Success? ==>
      DimTeamsOf(bootstrap).value == Table(DimTeamsColumns, RowsOf(frame.records, TeamSourceColumns))
  {
    TeamRenamesFit();
    RenameSelect(TeamRenames, frame, DimTeamsColumns);
    SelectSucceeds(frame, TeamSourceColumns);
  }

  lemma TeamRenamesFit()
    ensures Proper(TeamRenames)
    ensures forall j :: 0 <= j < |DimTeamsColumns| ==> !IsSource(TeamRenames, DimTeamsColumns[j])
    ensures Sources(TeamRenames, DimTeamsColumns) == TeamSourceColumns
  {
    var m := TeamRenames;
    forall j | 0 <= j < |DimTeamsColumns| ensures !IsSource(m, DimTeamsColumns[j]) {
      assert forall i :: 0 <= i < |m| ==> m[i].0 in {"id", "name", "short_name"};
    }
    SourceOfTarget(m, 0);
    SourceOfTarget(m, 1);
    SourceOfTarget(m, 2);
  }

  /** A bootstrap file without the list a mapper reads raises the mapper's `KeyError`. */
  lemma MissingListIsKeyError(fields: map<string, Json>)
    ensures "elements" !in fields ==> DimPlayersOf(JObject(fields)) == Failure(MissingColumns(DimPlayersName, ["elements"]))
    ensures "teams" !in fields ==> DimTeamsOf(JObject(fields)) == Failure(MissingColumns(DimTeamsName, ["teams"]))
  {
  }

  // ---------------------------------------------------------------------------------------------
  // transform_dim_fixtures

  /** An Internet date-time in UTC with whole seconds, `YYYY-MM-DDTHH:MM:SSZ` (section 5.6 of RFC 3339). */
  function KickoffText(d: Date, t: TimeOfDay): (s: string)
    requires ValidDate(d) && ValidTime(t)
    ensures |s| == 20
  {
    IsoDate(d) + "T" + IsoTime(t) + "Z"
  }

  /** The date and time as one number whose order is the order of the instants, for fields in range. */
  function Instant(d: Date, t: TimeOfDay): int
  {
    ((((d.year * 100 + d.month) * 100 + d.day) * 100 + t.hour) * 100 + t.minute) * 100 + t.second
  }

  /** The whole-second instants a pandas timestamp can hold (nanoseconds since the epoch in a signed
      64-bit integer): from 1677-09-21T00:12:44Z to 2262-04-11T23:47:16Z. */
  predicate InTimestampRange(d: Date, t: TimeOfDay)
  {
    Instant(Date(1677, 9, 21), TimeOfDay(0, 12, 44)) <= Instant(d, t) <= Instant(Date(2262, 4, 11), TimeOfDay(23, 47, 16))
  }

  /** `pd.to_datetime` of one kickoff string, split into `.dt.date` and `.dt.time`; an instant a
      timestamp cannot hold is out of bounds and refused like a malformed string. */
  function ParseKickoff(s: string): Option<(Date, TimeOfDay)>
  {
    if |s| == 20 && s[10] == 'T' && s[19] == 'Z' then
      match ParseIsoDate(s[..10])
      case None => None
      case Some(d) =>
        match ParseIsoTime(s[11..19])
        case None => None
        case Some(t) => if InTimestampRange(d, t) then Some((d, t)) else None
    else None
  }

  lemma KickoffRoundTrip(d: Date, t: TimeOfDay)
    requires ValidDate(d) && ValidTime(t) && InTimestampRange(d, t)
    ensures ParseKickoff(KickoffText(d, t)) == Some((d, t))
  {
    var s := KickoffText(d, t);
    assert s[..10] == IsoDate(d) && s[11..19] == IsoTime(t);
    IsoDateRoundTrip(d);
    IsoTimeRoundTrip(t);
  }

  /** A well-formed kickoff at an instant a timestamp cannot hold does not convert, for instance
      the years 1500 and 2300. */
  lemma KickoffOutOfBounds(d: Date, t: TimeOfDay)
    requires ValidDate(d) && ValidTime(t) && !InTimestampRange(d, t)
    ensures ParseKickoff(KickoffText(d, t)) == None
    ensures !InTimestampRange(Date(1500, 1, 1), TimeOfDay(0, 0, 0)) && !InTimestampRange(Date(2300, 1, 1), TimeOfDay(0, 0, 0))
  {
    var s := KickoffText(d, t);
    assert s[..10] == IsoDate(d) && s[11..19] == IsoTime(t);
    IsoDateRoundTrip(d);
    IsoTimeRoundTrip(t);
  }

  /** A kickoff that parses is the text of the date and time it parses to, an instant in range. */
  lemma ParseKickoffSound(s: string)
    requires ParseKickoff(s).Some?
    ensures ValidDate(ParseKickoff(s).value.0) && ValidTime(ParseKickoff(s).value.1)
    ensures InTimestampRange(ParseKickoff(s).value.0, ParseKickoff(s).value.1)
    ensures KickoffText(ParseKickoff(s).value.0, ParseKickoff(s).value.1) == s
  {
    ParseIsoDateSound(s[..10]);
    ParseIsoTimeSound(s[11..19]);
    assert s == s[..10] + "T" + s[11..19] + "Z";
  }

  /** The `fixture_date` and `fixture_time` cells of one kickoff: null stays null (NaT), a date-time
      string gives its two parts, anything else makes the conversion raise. */
  function Stamp(v: Value): (st: Option<(Value, Value)>)
    ensures st.Some? ==> (st.value.0 == Null <==> v == Null) && (st.value.1 == Null <==> v == Null)
  {
    match v
    case Null => Some((Null, Null))
    case Str(s) =>
      (match ParseKickoff(s)
       case Some((d, t)) => Some((DateValue(d), TimeValue(t)))
       case None => None)
    case _ => None
  }

  const Kickoff := "kickoff_time"
  const FixtureDate := "fixture_date"
  const FixtureTime := "fixture_time"
  const HomeScore := "home_team_score"
  const AwayScore := "away_team_score"

  /** Record `i` holds the first kickoff that does not convert. */
  predicate FirstUnparseable(records: seq<Record>, i: int)
  {
    && 0 <= i < |records|
    && Stamp(Cell(records[i], Kickoff)).None?
    && forall j :: 0 <= j < i ==> Stamp(Cell(records[j], Kickoff)).Some?
  }

  /** The converted kickoff column; the first value that does not convert is the error. */
  function Stamps(records: seq<Record>): (stamps: Result<seq<(Value, Value)>, Failure>)
    ensures stamps.Success? <==> forall i :: 0 <= i < |records| ==> Stamp(Cell(records[i], Kickoff)).Some?
    ensures stamps.Success? ==> |stamps.value| == |records|
    ensures stamps.Success? ==> forall i :: 0 <= i < |records| ==> Stamp(Cell(records[i], Kickoff)) == Some(stamps.value[i])
    ensures stamps.Failure? ==>
      exists i :: FirstUnparseable(records, i) && stamps.error == UnparseableKickoff(Cell(records[i], Kickoff))
  {
    if |records| == 0 then Success([])
    else
      match Stamp(Cell(records[0], Kickoff))
      case None => Failure(UnparseableKickoff(Cell(records[0], Kickoff)))
      case Some(st) =>
        var rest :- Stamps(records[1..]);
        Success([st] + rest)
  }

  function StampCell(r: Record, st: (Value, Value)): Record
  {
    r[FixtureDate := st.0][FixtureTime := st.1]
  }

  /** The two assignments of the converted kickoff columns. */
  function Stamped(f: Frame, stamps: seq<(Value, Value)>): (g: Frame)
    requires |stamps| == |f.records|
    ensures |g.records| == |f.records| && g.columns == f.columns + {FixtureDate, FixtureTime}
    ensures forall i :: 0 <= i < |f.records| ==> g.records[i] == StampCell(f.records[i], stamps[i])
  {
    Frame(f.columns + {FixtureDate, FixtureTime}, seq(|f.records|, i requires 0 <= i < |f.records| => StampCell(f.records[i], stamps[i])))
  }

  const DimFixturesName := "transform_dim_fixtures"
  const FixtureRenames: Renames := [
    ("id", "fixture_id"), ("event", "gameweek_id"), ("finished", "match_finished"),
    ("team_h", "home_team_id"), ("team_a", "away_team_id"),
    ("team_h_score", HomeScore), ("team_a_score", AwayScore),
    ("team_h_difficulty", "home_team_difficulty"), ("team_a_difficulty", "away_team_difficulty")]
  const DimFixturesColumns := [
    "fixture_id", "gameweek_id", FixtureDate, FixtureTime, "match_finished", "home_team_id", "away_team_id",
    HomeScore, AwayScore, "home_team_difficulty", "away_team_difficulty"]
  /** The raw keys the output reads, `kickoff_time` included. */
  const FixtureSourceColumns := [
    "id", "event", Kickoff, "finished", "team_h", "team_a",
    "team_h_score", "team_a_score", "team_h_difficulty", "team_a_difficulty"]

  function DimFixturesOf(fixtures: Json): (t: Result<Table, Failure>)
    ensures t.Success? ==> t.value.columns == DimFixturesColumns && Rectangular(t.value)
  {
    var frame :- Framed(fixtures, DimFixturesName);
    FixturesOfFrame(frame)
  }

  /** The fixture mapper once the document is a frame: the renames and the kickoff conversion. */
  function FixturesOfFrame(frame: Frame): (t: Result<Table, Failure>)
    ensures t.Success? ==> t.value.columns == DimFixturesColumns && Rectangular(t.value)
  {
    var renamed := RenameFrame(FixtureRenames, frame);
    if Kickoff !in renamed.columns then Failure(MissingColumns(DimFixturesName, [Kickoff]))
    else
      var stamps :- Stamps(renamed.records);
      FixturesOfDated(Stamped(renamed, stamps))
  }

  /** The fixture mapper from the kickoff columns on: the two score fills and the selection. */
  function FixturesOfDated(dated: Frame): (t: Result<Table, Failure>)
    ensures t.Success? ==> t.value.columns == DimFixturesColumns && Rectangular(t.value)
  {
    if HomeScore !in dated.columns then Failure(MissingColumns(DimFixturesName, [HomeScore]))
    else
      var homeFilled := FillNull(dated, HomeScore, Int(0));
      if AwayScore !in homeFilled.columns then Failure(MissingColumns(DimFixturesName, [AwayScore]))
      else
        var filled := FillNull(homeFilled, AwayScore, Int(0));
        Keyed(Select(DropIncomplete(filled), DimFixturesColumns), DimFixturesName)
  }

  /** `transform_dim_fixtures(bucket)` on the day `today`. */
  function DimFixtures(buckets: Buckets, bucket: string, today: Date): (t: Result<Table, Failure>)
    requires ValidDate(today)
    ensures t.Success? ==> t.value.columns == DimFixturesColumns && Rectangular(t.value)
  {
    var fixtures :- Fetch(buckets, bucket, RawKey(today, "fixtures"));
    DimFixturesOf(fixtures)
  }

  // The specification of the fixture table, over the raw fixture records.

  function OrZero(v: Value): Value
  {
    if v == Null then Int(0) else v
  }

  /** A fixture survives when no column other than the two scores is null in it, raw columns the
      output does not keep included. */
  predicate Survives(r: Record, columns: set<string>)
  {
    forall c :: c in columns && c != "team_h_score" && c != "team_a_score" ==> Cell(r, c) != Null
  }

  function FixtureRow(r: Record): seq<Value>
  {
    var st := Stamp(Cell(r, Kickoff));
    var stamp := if st.Some? then st.value else (Null, Null);
    [Cell(r, "id"), Cell(r, "event"), stamp.0, stamp.1, Cell(r, "finished"), Cell(r, "team_h"), Cell(r, "team_a"),
     OrZero(Cell(r, "team_h_score")), OrZero(Cell(r, "team_a_score")), Cell(r, "team_h_difficulty"), Cell(r, "team_a_difficulty")]
  }

  /** The fixture table's rows: the row of each surviving fixture, in input order. */
  function ExpectedFixtures(records: seq<Record>, columns: set<string>): seq<seq<Value>>
  {
    Keep(FixtureRows(records), SurvivalFlags(records, columns))
  }

  function FixtureRows(records: seq<Record>): (rows: seq<seq<Value>>)
    ensures |rows| == |records|
  {
    seq(|records|, i requires 0 <= i < |records| => FixtureRow(records[i]))
  }

  function SurvivalFlags(records: seq<Record>, columns: set<string>): (flags: seq<bool>)
    ensures |flags| == |records|
  {
    seq(|records|, i requires 0 <= i < |records| => Survives(records[i], columns))
  }

  /** An unplayed fixture, null in its two scores and nowhere else, survives with a 0-0 score. */
  lemma UnplayedFixture(r: Record, columns: set<string>)
    requires Cell(r, "team_h_score") == Null && Cell(r, "team_a_score") == Null
    requires forall c :: c in columns && c != "team_h_score" && c != "team_a_score" ==> Cell(r, c) != Null
    ensures Survives(r, columns)
    ensures FixtureRow(r)[7] == Int(0) && FixtureRow(r)[8] == Int(0)
  {
  }

  /** A null anywhere but in the scores, in a raw column the table does not keep as well, drops the fixture. */
  lemma OtherNullDrops(r: Record, columns: set<string>, c: string)
    requires c in columns && c != "team_h_score" && c != "team_a_score" && Cell(r, c) == Null
    ensures !Survives(r, columns)
  {
  }

  /** No raw key already carries a name the mapper writes. */
  ghost predicate FixtureNamesFree(columns: set<string>)
  {
    ClashFree(FixtureRenames, columns) && FixtureDate !in columns && FixtureTime !in columns
  }

  lemma FixtureRenamesProper()
    ensures Proper(FixtureRenames)
  {
    FixtureRenameSourcesDistinct();
    FixtureRenameTargetsDistinct();
    FixtureRenameTargetsNotSources();
  }

  lemma FixtureRenameSourcesDistinct()
    ensures forall i, j :: 0 <= i < |FixtureRenames| && 0 <= j < |FixtureRenames| && i != j ==>
      FixtureRenames[i].0 != FixtureRenames[j].0
  {
  }

  lemma FixtureRenameTargetsDistinct()
    ensures forall i, j :: 0 <= i < |FixtureRenames| && 0 <= j < |FixtureRenames| && i != j ==>
      FixtureRenames[i].1 != FixtureRenames[j].1
  {
  }

  lemma FixtureRenameTargetsNotSources()
    ensures forall i, j :: 0 <= i < |FixtureRenames| && 0 <= j < |FixtureRenames| ==>
      FixtureRenames[i].1 != FixtureRenames[j].0
  {
  }

  lemma FixtureNamesUntouched()
    ensures !IsSource(FixtureRenames, Kickoff) && !IsTarget(FixtureRenames, Kickoff)
    ensures !IsSource(FixtureRenames, FixtureDate) && !IsTarget(FixtureRenames, FixtureDate)
    ensures !IsSource(FixtureRenames, FixtureTime) && !IsTarget(FixtureRenames, FixtureTime)
  {
    var m := FixtureRenames;
    assert forall i :: 0 <= i < |m| ==> m[i].0 in FixtureSourceColumns && m[i].0 != Kickoff;
    assert forall i :: 0 <= i < |m| ==> m[i].1 in DimFixturesColumns && m[i].1 != FixtureDate && m[i].1 != FixtureTime;
  }

  lemma FixtureSourcesNotTargets()
    ensures forall c :: c in FixtureSourceColumns ==> !IsTarget(FixtureRenames, c)
  {
    var m := FixtureRenames;
    assert forall i :: 0 <= i < |m| ==> m[i].1 in DimFixturesColumns;
  }

  lemma FixtureOutputsNotSources()
    ensures forall j :: 0 <= j < |DimFixturesColumns| ==> !IsSource(FixtureRenames, DimFixturesColumns[j])
  {
    var m := FixtureRenames;
    assert forall i :: 0 <= i < |m| ==> m[i].0 in FixtureSourceColumns;
  }

  lemma FixtureSources()
    ensures Sources(FixtureRenames, DimFixturesColumns) == [
      "id", "event", FixtureDate, FixtureTime, "finished", "team_h", "team_a",
      "team_h_score", "team_a_score", "team_h_difficulty", "team_a_difficulty"]
  {
    var m := FixtureRenames;
    FixtureRenamesProper();
    FixtureNamesUntouched();
    forall i | 0 <= i < |m| ensures Source(m, m[i].1) == m[i].0 {
      SourceOfTarget(m, i);
    }
    SourceOfOther(m, FixtureDate);
    SourceOfOther(m, FixtureTime);
    assert DimFixturesColumns == [m[0].1, m[1].1, FixtureDate, FixtureTime, m[2].1, m[3].1, m[4].1, m[5].1, m[6].1, m[7].1, m[8].1];
  }

  /** Where a raw column ends up: only `team_h_score` and `team_a_score` are moved to the score
      names, and nothing is moved to the two date-time names. */
  lemma RenamedFixtureName(c: string)
    requires !IsTarget(FixtureRenames, c)
    ensures Renamed(FixtureRenames, c) == HomeScore <==> c == "team_h_score"
    ensures Renamed(FixtureRenames, c) == AwayScore <==> c == "team_a_score"
    ensures Renamed(FixtureRenames, c) == FixtureDate ==> c == FixtureDate
    ensures Renamed(FixtureRenames, c) == FixtureTime ==> c == FixtureTime
  {
    var m := FixtureRenames;
    FixtureRenamesProper();
    assert m[5] == ("team_h_score", HomeScore) && m[6] == ("team_a_score", AwayScore);
    if IsSource(m, c) {
      var j :| 0 <= j < |m| && m[j].0 == c;
      RenamedOfSource(m, j);
      FixtureNamesUntouched();
      assert m[j].1 != FixtureDate && m[j].1 != FixtureTime;
      assert m[j].1 == HomeScore <==> j == 5;
      assert m[j].1 == AwayScore <==> j == 6;
      assert c == "team_h_score" <==> j == 5;
      assert c == "team_a_score" <==> j == 6;
    } else {
      RenamedOfOther(m, c);
      assert c != HomeScore && c != AwayScore;
      assert c != "team_h_score" && c != "team_a_score";
    }
  }

  /** A raw fixture record after the rename, the two kickoff assignments and the two score fills. */
  function Prepared(r: Record, st: (Value, Value)): Record
  {
    FillCell(FillCell(StampCell(RenameRecord(FixtureRenames, r), st), HomeScore, Int(0)), AwayScore, Int(0))
  }

  function PreparedRecords(records: seq<Record>, stamps: seq<(Value, Value)>): (prepared: seq<Record>)
    requires |stamps| == |records|
    ensures |prepared| == |records|
  {
    seq(|records|, i requires 0 <= i < |records| => Prepared(records[i], stamps[i]))
  }

  /** The columns of the prepared frame. */
  function PreparedColumns(columns: set<string>): set<string>
  {
    RenamedKeys(FixtureRenames, columns) + {FixtureDate, FixtureTime} + {HomeScore} + {AwayScore}
  }

  lemma PreparedCell(r: Record, st: (Value, Value), c: string)
    requires FixtureNamesFree(r.Keys)
    requires !IsTarget(FixtureRenames, c) && c != FixtureDate && c != FixtureTime
    ensures Cell(Prepared(r, st), Renamed(FixtureRenames, c)) ==
      if c == "team_h_score" || c == "team_a_score" then OrZero(Cell(r, c)) else Cell(r, c)
  {
    FixtureRenamesProper();
    RenamedFixtureName(c);
    RenameCellKey(FixtureRenames, r, c);
  }

  /** A prepared fixture with no null cell had no null outside its scores. */
  lemma CompleteSurvives(r: Record, st: (Value, Value), columns: set<string>)
    requires r.Keys <= columns && FixtureNamesFree(columns)
    requires Complete(Prepared(r, st), PreparedColumns(columns))
    ensures Survives(r, columns)
  {
    assert FixtureNamesFree(r.Keys);
    forall c | c in columns && c != "team_h_score" && c != "team_a_score" ensures Cell(r, c) != Null {
      PreparedCell(r, st, c);
    }
  }

  /** The four written cells of a fixture with a kickoff are never null. */
  lemma WrittenPresent(r: Record, st: (Value, Value))
    requires Stamp(Cell(r, Kickoff)) == Some(st) && Cell(r, Kickoff) != Null
    ensures var p := Prepared(r, st);
      && Cell(p, FixtureDate) != Null && Cell(p, FixtureTime) != Null
      && Cell(p, HomeScore) != Null && Cell(p, AwayScore) != Null
  {
    PreparedWritten(r, st);
  }

  /** A renamed raw column of a surviving fixture, other than its scores, is not null. */
  lemma RenamedPresent(r: Record, st: (Value, Value), columns: set<string>, n: string)
    requires r.Keys <= columns && FixtureNamesFree(columns) && Survives(r, columns)
    requires n in RenamedKeys(FixtureRenames, columns)
    requires n != FixtureDate && n != FixtureTime && n != HomeScore && n != AwayScore
    ensures Cell(Prepared(r, st), n) != Null
  {
    assert FixtureNamesFree(r.Keys);
    var c :| c in columns && Renamed(FixtureRenames, c) == n;
    PreparedCell(r, st, c);
    RenamedFixtureName(c);
  }

  /** A surviving fixture has a kickoff. */
  lemma SurvivorKickoff(r: Record, columns: set<string>)
    requires Kickoff in columns && Survives(r, columns)
    ensures Cell(r, Kickoff) != Null
  {
    assert Kickoff != "team_h_score" && Kickoff != "team_a_score";
  }

  /** One column of a prepared surviving fixture is not null. */
  lemma PreparedPresent(r: Record, st: (Value, Value), columns: set<string>, n: string)
    requires r.Keys <= columns && FixtureNamesFree(columns) && Kickoff in columns
    requires Stamp(Cell(r, Kickoff)) == Some(st)
    requires Survives(r, columns)
    requires n in PreparedColumns(columns)
    ensures Cell(Prepared(r, st), n) != Null
  {
    if n != FixtureDate && n != FixtureTime && n != HomeScore && n != AwayScore {
      RenamedPresent(r, st, columns, n);
    } else {
      SurvivorKickoff(r, columns);
      WrittenPresent(r, st);
    }
  }

  /** A fixture with no null outside its scores has no null cell once prepared. */
  lemma SurvivesComplete(r: Record, st: (Value, Value), columns: set<string>)
    requires r.Keys <= columns && FixtureNamesFree(columns) && Kickoff in columns
    requires Stamp(Cell(r, Kickoff)) == Some(st)
    requires Survives(r, columns)
    ensures Complete(Prepared(r, st), PreparedColumns(columns))
  {
    forall n | n in PreparedColumns(columns) ensures Cell(Prepared(r, st), n) != Null {
      PreparedPresent(r, st, columns, n);
    }
  }

  lemma PreparedSurvives(r: Record, st: (Value, Value), columns: set<string>)
    requires r.Keys <= columns && FixtureNamesFree(columns) && Kickoff in columns
    requires Stamp(Cell(r, Kickoff)) == Some(st)
    ensures Complete(Prepared(r, st), PreparedColumns(columns)) <==> Survives(r, columns)
  {
    if Complete(Prepared(r, st), PreparedColumns(columns)) {
      CompleteSurvives(r, st, columns);
    }
    if Survives(r, columns) {
      SurvivesComplete(r, st, columns);
    }
  }

  /** The renamed record holds each raw column under its new name. */
  lemma FixtureTargetCells(r: Record)
    requires FixtureNamesFree(r.Keys)
    ensures var q := RenameRecord(FixtureRenames, r);
      && Cell(q, "fixture_id") == Cell(r, "id") && Cell(q, "gameweek_id") == Cell(r, "event")
      && Cell(q, "match_finished") == Cell(r, "finished")
      && Cell(q, "home_team_id") == Cell(r, "team_h") && Cell(q, "away_team_id") == Cell(r, "team_a")
      && Cell(q, HomeScore) == Cell(r, "team_h_score") && Cell(q, AwayScore) == Cell(r, "team_a_score")
      && Cell(q, "home_team_difficulty") == Cell(r, "team_h_difficulty")
      && Cell(q, "away_team_difficulty") == Cell(r, "team_a_difficulty")
  {
    FixtureRenamesProper();
    RenameCellTarget(FixtureRenames, r, 0);
    RenameCellTarget(FixtureRenames, r, 1);
    RenameCellTarget(FixtureRenames, r, 2);
    RenameCellTarget(FixtureRenames, r, 3);
    RenameCellTarget(FixtureRenames, r, 4);
    RenameCellTarget(FixtureRenames, r, 5);
    RenameCellTarget(FixtureRenames, r, 6);
    RenameCellTarget(FixtureRenames, r, 7);
    RenameCellTarget(FixtureRenames, r, 8);
  }

  /** A row of eleven columns, cell by cell. */
  lemma RowOfEleven(p: Record, cs: seq<string>)
    requires |cs| == 11
    ensures RowOf(p, cs) == [Cell(p, cs[0]), Cell(p, cs[1]), Cell(p, cs[2]), Cell(p, cs[3]),
      Cell(p, cs[4]), Cell(p, cs[5]), Cell(p, cs[6]), Cell(p, cs[7]), Cell(p, cs[8]),
      Cell(p, cs[9]), Cell(p, cs[10])]
  {
    var row := [Cell(p, cs[0]), Cell(p, cs[1]), Cell(p, cs[2]), Cell(p, cs[3]),
      Cell(p, cs[4]), Cell(p, cs[5]), Cell(p, cs[6]), Cell(p, cs[7]), Cell(p, cs[8]),
      Cell(p, cs[9]), Cell(p, cs[10])];
    forall j | 0 <= j < 11 ensures RowOf(p, cs)[j] == row[j] { }
  }

  /** The kickoff assignments and the score fills leave every other renamed cell alone. */
  lemma PreparedOther(r: Record, st: (Value, Value), c: string)
    requires c != FixtureDate && c != FixtureTime && c != HomeScore && c != AwayScore
    ensures Cell(Prepared(r, st), c) == Cell(RenameRecord(FixtureRenames, r), c)
  {
  }

  /** The converted kickoff columns, and the scores with null read as 0. */
  lemma PreparedWritten(r: Record, st: (Value, Value))
    ensures var p, q := Prepared(r, st), RenameRecord(FixtureRenames, r);
      && Cell(p, FixtureDate) == st.0 && Cell(p, FixtureTime) == st.1
      && Cell(p, HomeScore) == OrZero(Cell(q, HomeScore)) && Cell(p, AwayScore) == OrZero(Cell(q, AwayScore))
  {
  }

  /** The selected row of a prepared fixture is its reference row. */
  lemma PreparedRow(r: Record, st: (Value, Value))
    requires FixtureNamesFree(r.Keys)
    requires Stamp(Cell(r, Kickoff)) == Some(st)
    ensures RowOf(Prepared(r, st), DimFixturesColumns) == FixtureRow(r)
  {
    RowOfEleven(Prepared(r, st), DimFixturesColumns);
    PreparedWritten(r, st);
    FixtureTargetCells(r);
    PreparedOther(r, st, "fixture_id");
    PreparedOther(r, st, "gameweek_id");
    PreparedOther(r, st, "match_finished");
    PreparedOther(r, st, "home_team_id");
    PreparedOther(r, st, "away_team_id");
    PreparedOther(r, st, "home_team_difficulty");
    PreparedOther(r, st, "away_team_difficulty");
  }

  /** The kickoff of each renamed record is the raw record's, so the stamps are the raw kickoffs'. */
  lemma FixtureKickoffs(frame: Frame, stamps: seq<(Value, Value)>)
    requires WellFormed(frame) && FixtureNamesFree(frame.columns)
    requires Stamps(RenameFrame(FixtureRenames, frame).records) == Success(stamps)
    ensures Kickoff in RenameFrame(FixtureRenames, frame).columns <==> Kickoff in frame.columns
    ensures |stamps| == |frame.records|
    ensures forall i :: 0 <= i < |frame.records| ==> Stamp(Cell(frame.records[i], Kickoff)) == Some(stamps[i])
  {
    FixtureRenamesProper();
    FixtureNamesUntouched();
    RenamedColumnReads(FixtureRenames, frame, Kickoff);
    SourceOfOther(FixtureRenames, Kickoff);
  }

  /** Renaming, the kickoff assignments and the two fills prepare each record on its own. */
  lemma FixturesPrepared(frame: Frame, stamps: seq<(Value, Value)>)
    requires |stamps| == |frame.records|
    ensures var filled := FillNull(FillNull(Stamped(RenameFrame(FixtureRenames, frame), stamps), HomeScore, Int(0)), AwayScore, Int(0));
      && filled.columns == PreparedColumns(frame.columns)
      && filled.records == PreparedRecords(frame.records, stamps)
  {
  }

  /** The rows and the null flags of the prepared records are the reference rows and survival flags. */
  lemma PreparedRowsAndFlags(records: seq<Record>, stamps: seq<(Value, Value)>, columns: set<string>)
    requires |stamps| == |records|
    requires forall i :: 0 <= i < |records| ==> records[i].Keys <= columns
    requires FixtureNamesFree(columns) && Kickoff in columns
    requires forall i :: 0 <= i < |records| ==> Stamp(Cell(records[i], Kickoff)) == Some(stamps[i])
    ensures RowsOf(PreparedRecords(records, stamps), DimFixturesColumns) == FixtureRows(records)
    ensures CompleteFlags(PreparedRecords(records, stamps), PreparedColumns(columns)) == SurvivalFlags(records, columns)
  {
    var prepared := PreparedRecords(records, stamps);
    forall i | 0 <= i < |records|
      ensures RowOf(prepared[i], DimFixturesColumns) == FixtureRow(records[i])
      ensures Complete(prepared[i], PreparedColumns(columns)) == Survives(records[i], columns)
    {
      assert FixtureNamesFree(records[i].Keys);
      PreparedSurvives(records[i], stamps[i], columns);
      PreparedRow(records[i], stamps[i]);
    }
  }

  /** A successful fixture run went through every step: the stamps exist and the table is the
      selection from the complete prepared records. */
  lemma DimFixturesSteps(doc: Json, frame: Frame)
    requires FrameOf(doc) == Some(frame)
    requires DimFixturesOf(doc).Success?
    ensures var renamed := RenameFrame(FixtureRenames, frame);
      && Kickoff in renamed.columns
      && Stamps(renamed.records).Success?
      && var filled := FillNull(FillNull(Stamped(renamed, Stamps(renamed.records).value), HomeScore, Int(0)), AwayScore, Int(0));
         DimFixturesOf(doc).value == Table(DimFixturesColumns, RowsOf(CompleteRecords(filled.records, filled.columns), DimFixturesColumns))
  {
  }

  /** The complete prepared records, selected, are the reference rows of the surviving fixtures. */
  lemma PreparedTable(frame: Frame)
    requires WellFormed(frame) && FixtureNamesFree(frame.columns)
    requires Kickoff in RenameFrame(FixtureRenames, frame).columns
    requires Stamps(RenameFrame(FixtureRenames, frame).records).Success?
    ensures var renamed := RenameFrame(FixtureRenames, frame);
      var filled := FillNull(FillNull(Stamped(renamed, Stamps(renamed.records).value), HomeScore, Int(0)), AwayScore, Int(0));
      RowsOf(CompleteRecords(filled.records, filled.columns), DimFixturesColumns) == ExpectedFixtures(frame.records, frame.columns)
  {
    var renamed := RenameFrame(FixtureRenames, frame);
    var stamps := Stamps(renamed.records).value;
    FixtureKickoffs(frame, stamps);
    var filled := FillNull(FillNull(Stamped(renamed, stamps), HomeScore, Int(0)), AwayScore, Int(0));
    FixturesPrepared(frame, stamps);
    PreparedRowsAndFlags(frame.records, stamps, frame.columns);
    CompleteRows(filled.records, filled.columns, DimFixturesColumns);
  }

  /** The fixture table holds, in input order, one row per surviving fixture: its id, round, kickoff
      date and time, finished flag, teams, scores with a missing score read as 0, and difficulties. A
      fixture survives when nothing but its scores is null, in any raw column. */
  lemma DimFixturesTable(doc: Json, frame: Frame)
    requires FrameOf(doc) == Some(frame) && FixtureNamesFree(frame.columns)
    requires DimFixturesOf(doc).Success?
    ensures DimFixturesOf(doc).value == Table(DimFixturesColumns, ExpectedFixtures(frame.records, frame.columns))
  {
    DimFixturesSteps(doc, frame);
    PreparedTable(frame);
  }

  /** Which columns the renamed fixture frame has, in terms of the raw keys. */
  lemma FixtureColumns(frame: Frame)
    requires WellFormed(frame) && FixtureNamesFree(frame.columns)
    ensures var renamed := RenameFrame(FixtureRenames, frame);
      && (Kickoff in renamed.columns <==> Kickoff in frame.columns)
      && (HomeScore in renamed.columns <==> "team_h_score" in frame.columns)
      && (AwayScore in renamed.columns <==> "team_a_score" in frame.columns)
      && (forall i :: 0 <= i < |frame.records| ==> Cell(renamed.records[i], Kickoff) == Cell(frame.records[i], Kickoff))
  {
    var m := FixtureRenames;
    FixtureRenamesProper();
    FixtureNamesUntouched();
    RenamedColumnReads(m, frame, Kickoff);
    SourceOfOther(m, Kickoff);
    TargetPresent(frame.columns, 5);
    TargetPresent(frame.columns, 6);
  }

  /** A rename target is a column after the rename exactly when its source was one. */
  lemma TargetPresent(columns: set<string>, i: int)
    requires FixtureNamesFree(columns) && 0 <= i < |FixtureRenames|
    ensures FixtureRenames[i].1 in RenamedKeys(FixtureRenames, columns) <==> FixtureRenames[i].0 in columns
  {
    FixtureRenamesProper();
    RenameColumns(FixtureRenames, columns);
  }

  /** The selection of the prepared fixtures finds every output column exactly when the raw keys
      of all renamed columns but the two scores are present: the scores and the date-time parts
      are always written. */
  lemma FixtureOutputsPresent(columns: set<string>)
    requires FixtureNamesFree(columns)
    ensures (forall j :: 0 <= j < |DimFixturesColumns| ==> DimFixturesColumns[j] in PreparedColumns(columns))
      <==> forall i :: 0 <= i < |FixtureRenames| && i != 5 && i != 6 ==> FixtureRenames[i].0 in columns
  {
    var m, out := FixtureRenames, DimFixturesColumns;
    var renamed := RenamedKeys(m, columns);
    assert out == [m[0].1, m[1].1, FixtureDate, FixtureTime, m[2].1, m[3].1, m[4].1, m[5].1, m[6].1, m[7].1, m[8].1];
    assert PreparedColumns(columns) == renamed + {FixtureDate, FixtureTime, m[5].1, m[6].1};
    if forall j :: 0 <= j < |out| ==> out[j] in PreparedColumns(columns) {
      forall i | 0 <= i < |m| && i != 5 && i != 6 ensures m[i].0 in columns {
        TargetPresent(columns, i);
        FixtureNamesUntouched();
        var j := if i < 2 then i else i + 2;
        assert out[j] == m[i].1;
        assert m[i].1 != FixtureDate && m[i].1 != FixtureTime;
        FixtureRenameTargetsDistinct();
      }
    } else {
      var j :| 0 <= j < |out| && out[j] !in PreparedColumns(columns);
      var i := if j < 2 then j else j - 2;
      assert 0 <= i < |m| && i != 5 && i != 6 && m[i].1 == out[j];
      TargetPresent(columns, i);
    }
  }

  /** When `transform_dim_fixtures` raises. It succeeds exactly when every raw key it reads is a
      column and every kickoff converts. Without `kickoff_time` the `KeyError` names it, before
      anything else; otherwise the first kickoff that does not convert raises that error, which is
      not a `KeyError`; every other failure is this mapper's `KeyError`. */
  lemma DimFixturesSucceeds(doc: Json, frame: Frame)
    requires FrameOf(doc) == Some(frame) && FixtureNamesFree(frame.columns)
    ensures DimFixturesOf(doc).Success? <==>
      && (forall c :: c in FixtureSourceColumns ==> c in frame.columns)
      && (forall i :: 0 <= i < |frame.records| ==> Stamp(Cell(frame.records[i], Kickoff)).Some?)
    ensures Kickoff !in frame.columns ==> DimFixturesOf(doc) == Failure(MissingColumns(DimFixturesName, [Kickoff]))
    ensures forall i :: Kickoff in frame.columns && FirstUnparseable(frame.records, i) ==>
      DimFixturesOf(doc) == Failure(UnparseableKickoff(Cell(frame.records[i], Kickoff)))
    ensures DimFixturesOf(doc).Failure? ==>
      || (DimFixturesOf(doc).error.MissingColumns? && DimFixturesOf(doc).error.mapper == DimFixturesName)
      || DimFixturesOf(doc).error.UnparseableKickoff?
  {
    DimFixturesSuccessIff(doc, frame);
    if Kickoff !in frame.columns {
      DimFixturesMissingKickoff(doc, frame);
    }
    forall i | Kickoff in frame.columns && FirstUnparseable(frame.records, i)
      ensures DimFixturesOf(doc) == Failure(UnparseableKickoff(Cell(frame.records[i], Kickoff)))
    {
      DimFixturesBadKickoff(doc, frame, i);
    }
    DimFixturesFailureKinds(doc, frame);
  }

  /** Without `kickoff_time` the fixture table's `KeyError` names that column alone. */
  lemma DimFixturesMissingKickoff(doc: Json, frame: Frame)
    requires FrameOf(doc) == Some(frame) && FixtureNamesFree(frame.columns)
    requires Kickoff !in frame.columns
    ensures DimFixturesOf(doc) == Failure(MissingColumns(DimFixturesName, [Kickoff]))
  {
    FixtureColumns(frame);
    assert Framed(doc, DimFixturesName) == Success(frame);
  }

  /** The first kickoff that does not convert is the error `transform_dim_fixtures` raises. */
  lemma DimFixturesBadKickoff(doc: Json, frame: Frame, i: int)
    requires FrameOf(doc) == Some(frame) && FixtureNamesFree(frame.columns)
    requires Kickoff in frame.columns && FirstUnparseable(frame.records, i)
    ensures DimFixturesOf(doc) == Failure(UnparseableKickoff(Cell(frame.records[i], Kickoff)))
  {
    var renamed := RenameFrame(FixtureRenames, frame);
    FixtureColumns(frame);
    assert Framed(doc, DimFixturesName) == Success(frame);
    assert FirstUnparseable(renamed.records, i);
    var st := Stamps(renamed.records);
    assert Stamp(Cell(renamed.records[i], Kickoff)).None?;
    assert st.Failure?;
    assert DimFixturesOf(doc) == Failure(st.error);
    var k :| FirstUnparseable(renamed.records, k) && st.error == UnparseableKickoff(Cell(renamed.records[k], Kickoff));
    assert !(i < k) && !(k < i);
  }

  /** `transform_dim_fixtures` succeeds exactly when every raw key it reads is a column and every
      kickoff converts. */
  lemma DimFixturesSuccessIff(doc: Json, frame: Frame)
    requires FrameOf(doc) == Some(frame) && FixtureNamesFree(frame.columns)
    ensures DimFixturesOf(doc).Success? <==>
      && (forall c :: c in FixtureSourceColumns ==> c in frame.columns)
      && (forall i :: 0 <= i < |frame.records| ==> Stamp(Cell(frame.records[i], Kickoff)).Some?)
  {
    var renamed := RenameFrame(FixtureRenames, frame);
    assert Framed(doc, DimFixturesName) == Success(frame);
    assert DimFixturesOf(doc) == FixturesOfFrame(frame);
    FixtureColumns(frame);
    if Kickoff !in frame.columns {
      assert Kickoff in FixtureSourceColumns;
      return;
    }
    var st := Stamps(renamed.records);
    if st.Failure? {
      var k :| FirstUnparseable(renamed.records, k);
      assert Stamp(Cell(frame.records[k], Kickoff)).None?;
      return;
    }
    assert forall i :: 0 <= i < |frame.records| ==> Stamp(Cell(frame.records[i], Kickoff)).Some?;
    assert FixturesOfFrame(frame) == FixturesOfDated(Stamped(renamed, st.value));
    FixturesDatedSucceeds(frame, st.value);
  }

  /** Past the kickoff conversion, the fixture mapper succeeds exactly when every raw key it reads
      is a column. */
  lemma FixturesDatedSucceeds(frame: Frame, stamps: seq<(Value, Value)>)
    requires WellFormed(frame) && FixtureNamesFree(frame.columns) && Kickoff in frame.columns
    requires |stamps| == |frame.records|
    ensures FixturesOfDated(Stamped(RenameFrame(FixtureRenames, frame), stamps)).Success? <==>
      forall c :: c in FixtureSourceColumns ==> c in frame.columns
  {
    var renamed := RenameFrame(FixtureRenames, frame);
    FixtureColumns(frame);
    FixtureSourcesPresent(frame.columns);
    var dated := Stamped(renamed, stamps);
    var homeFilled := FillNull(dated, HomeScore, Int(0));
    var filled := FillNull(homeFilled, AwayScore, Int(0));
    assert HomeScore in dated.columns <==> "team_h_score" in frame.columns;
    assert AwayScore in homeFilled.columns <==> "team_a_score" in frame.columns;
    if HomeScore in dated.columns && AwayScore in homeFilled.columns {
      FixturesPrepared(frame, stamps);
      assert DropIncomplete(filled).columns == PreparedColumns(frame.columns);
      SelectSucceeds(DropIncomplete(filled), DimFixturesColumns);
    }
  }

  /** The raw keys the fixture table reads are all columns exactly when the kickoff and the two
      scores are and every output column is among the prepared ones. */
  lemma FixtureSourcesPresent(columns: set<string>)
    requires FixtureNamesFree(columns)
    ensures (forall c :: c in FixtureSourceColumns ==> c in columns) <==>
      && Kickoff in columns && "team_h_score" in columns && "team_a_score" in columns
      && forall c :: c in DimFixturesColumns ==> c in PreparedColumns(columns)
  {
    FixtureSourcesSplit(columns);
    FixtureOutputsPresent(columns);
    var out, prepared := DimFixturesColumns, PreparedColumns(columns);
    assert (forall c :: c in out ==> c in prepared) <==> forall j :: 0 <= j < |out| ==> out[j] in prepared;
  }

  /** Every failure of `transform_dim_fixtures` is its own `KeyError` or an unconvertible kickoff. */
  lemma DimFixturesFailureKinds(doc: Json, frame: Frame)
    requires FrameOf(doc) == Some(frame) && FixtureNamesFree(frame.columns)
    ensures DimFixturesOf(doc).Failure? ==>
      || (DimFixturesOf(doc).error.MissingColumns? && DimFixturesOf(doc).error.mapper == DimFixturesName)
      || DimFixturesOf(doc).error.UnparseableKickoff?
  {
    var renamed := RenameFrame(FixtureRenames, frame);
    assert Framed(doc, DimFixturesName) == Success(frame);
    if Kickoff !in renamed.columns {
      return;
    }
    var st := Stamps(renamed.records);
    if st.Failure? {
      assert DimFixturesOf(doc) == Failure(st.error);
      return;
    }
    var dated := Stamped(renamed, st.value);
    var homeFilled := FillNull(dated, HomeScore, Int(0));
    var filled := FillNull(homeFilled, AwayScore, Int(0));
    if HomeScore in dated.columns && AwayScore in homeFilled.columns {
      var selected := Select(DropIncomplete(filled), DimFixturesColumns);
      assert DimFixturesOf(doc) == Keyed(selected, DimFixturesName);
      if selected.Failure? {
        assert Keyed(selected, DimFixturesName) == Failure(MissingColumns(DimFixturesName, selected.error));
      }
    }
  }

  /** All raw keys the fixture table reads are present exactly when the kickoff, the two scores and
      the other renamed keys are. */
  lemma FixtureSourcesSplit(columns: set<string>)
    ensures (forall c :: c in FixtureSourceColumns ==> c in columns) <==>
      && Kickoff in columns && "team_h_score" in columns && "team_a_score" in columns
      && forall i :: 0 <= i < |FixtureRenames| && i != 5 && i != 6 ==> FixtureRenames[i].0 in columns
  {
    var m := FixtureRenames;
    assert FixtureSourceColumns == [m[0].0, m[1].0, Kickoff, m[2].0, m[3].0, m[4].0, m[5].0, m[6].0, m[7].0, m[8].0];
  }

  /** A bootstrap-style document of lists without `kickoff_time` raises the mapper's `KeyError`
      naming that column. */
  lemma DictOfListsMissesKickoff()
    ensures var doc := JObject(map["elements" := JArray([JObject(map["team" := JInt(1), "id" := JInt(1)])]),
                                   "test" := JArray([JObject(map["id" := JInt(1)])])]);
      DimFixturesOf(doc) == Failure(MissingColumns(DimFixturesName, [Kickoff]))
  {
    var fields := map["elements" := JArray([JObject(map["team" := JInt(1), "id" := JInt(1)])]),
                      "test" := JArray([JObject(map["id" := JInt(1)])])];
    assert Lengths(fields) == {1};
    var frame := FrameOf(JObject(fields)).value;
    assert frame.columns == {"elements", "test"};
    FixtureNamesUntouched();
    assert FixtureNamesFree(frame.columns);
    DimFixturesSucceeds(JObject(fields), frame);
  }

}
