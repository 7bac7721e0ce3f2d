/** `transform_fact_players` (airflow_home/dags/scripts/transform.py): every player paired with every
    gameweek, left-joined on team and gameweek with the fixtures seen from either side, narrowed to
    seven columns and then stripped of rows with a null. */
module FactPlayers {
  import opened Results
  import opened Calendar
  import opened Documents
  import opened Frames
  import opened Mappers

  const FactPlayersName := "transform_fact_players"
  const EventRenames: Renames := [("id", "gameweek_id")]
  const ElementRenames: Renames := [("id", "player_id"), ("team", "team_id")]
  const HomeRenames: Renames := [
    ("team_h", "team_id"), ("team_a", "opposition_team_id"), ("team_h_difficulty", "fixture_difficulty_rating"),
    ("event", "gameweek_id"), ("id", "fixture_id")]
  const AwayRenames: Renames := [
    ("team_a", "team_id"), ("team_h", "opposition_team_id"), ("team_a_difficulty", "fixture_difficulty_rating"),
    ("event", "gameweek_id"), ("id", "fixture_id")]
  const JoinKeys := ["team_id", "gameweek_id"]
  const FactColumns := [
    "player_id", "team_id", "gameweek_id", "fixture_id", "opposition_team_id", "fixture_difficulty_rating", "is_home"]

  /** The fixtures from the home side's point of view, flagged `is_home = True`. */
  function HomeView(fixtures: Frame): Frame
  {
    WithConstant(RenameFrame(HomeRenames, fixtures), "is_home", Bool(true))
  }

  /** The fixtures from the away side's point of view, flagged `is_home = False`. */
  function AwayView(fixtures: Frame): Frame
  {
    WithConstant(RenameFrame(AwayRenames, fixtures), "is_home", Bool(false))
  }

  /** Both views stacked, every home row before every away row. */
  function FixtureViews(fixtures: Frame): Frame
  {
    Concat(HomeView(fixtures), AwayView(fixtures))
  }

  /** Each player with each gameweek: players outermost, gameweeks in order within a player. */
  function PlayerGameweeks(players: Frame, gameweeks: Frame): Frame
  {
    CrossMerge(RenameFrame(ElementRenames, players), RenameFrame(EventRenames, gameweeks))
  }

  function FactPlayersOf(bootstrap: Json, fixturesDoc: Json): (t: Result<Table, Failure>)
    ensures t.Success? ==> t.value.columns == FactColumns && Rectangular(t.value)
  {
    var elementsDoc :- Field(bootstrap, "elements", FactPlayersName);
    var elements :- Framed(elementsDoc, FactPlayersName);
    var eventsDoc :- Field(bootstrap, "events", FactPlayersName);
    var events :- Framed(eventsDoc, FactPlayersName);
    var fixtures :- Framed(fixturesDoc, FactPlayersName);
    var gameweeks :- Keyed(Project(events, ["id"]), FactPlayersName);
    var players :- Keyed(Project(elements, ["id", "team"]), FactPlayersName);
    var merged :- Keyed(LeftMerge(PlayerGameweeks(players, gameweeks), FixtureViews(fixtures), JoinKeys), FactPlayersName);
    var selected :- Keyed(Select(merged, FactColumns), FactPlayersName);
    NonNullRowsRectangular(selected);
    Success(Table(FactColumns, NonNullRows(selected.rows)))
  }

  /** `transform_fact_players(bucket)` on the day `today`: the bootstrap file, then the fixtures file. */
  function FactPlayersTable(buckets: Buckets, bucket: string, today: Date): (t: Result<Table, Failure>)
    requires ValidDate(today)
    ensures t.Success? ==> t.value.columns == FactColumns && Rectangular(t.value)
  {
    var bootstrap :- Fetch(buckets, bucket, RawKey(today, "bootstrap-static"));
    var fixtures :- Fetch(buckets, bucket, RawKey(today, "fixtures"));
    FactPlayersOf(bootstrap, fixtures)
  }

  // ---------------------------------------------------------------------------------------------
  // The specification of the fact table, over the raw records.

  /** A fixture as one of its two teams sees it. */
  datatype View = View(fixture: Value, gameweek: Value, team: Value, opposition: Value, difficulty: Value, home: bool)

  function HomeSide(f: Record): View
  {
    View(Cell(f, "id"), Cell(f, "event"), Cell(f, "team_h"), Cell(f, "team_a"), Cell(f, "team_h_difficulty"), true)
  }

  function AwaySide(f: Record): View
  {
    View(Cell(f, "id"), Cell(f, "event"), Cell(f, "team_a"), Cell(f, "team_h"), Cell(f, "team_a_difficulty"), false)
  }

  function HomeSides(fixtures: seq<Record>): (views: seq<View>)
    ensures |views| == |fixtures|
  {
    seq(|fixtures|, i requires 0 <= i < |fixtures| => HomeSide(fixtures[i]))
  }

  function AwaySides(fixtures: seq<Record>): (views: seq<View>)
    ensures |views| == |fixtures|
  {
    seq(|fixtures|, i requires 0 <= i < |fixtures| => AwaySide(fixtures[i]))
  }

  /** The home view of every fixture, then the away view of every fixture. */
  function Views(fixtures: seq<Record>): seq<View>
  {
    HomeSides(fixtures) + AwaySides(fixtures)
  }

  /** The view a row of the stacked frame holds. */
  function ViewOf(r: Record): View
  {
    View(Cell(r, "fixture_id"), Cell(r, "gameweek_id"), Cell(r, "team_id"), Cell(r, "opposition_team_id"),
         Cell(r, "fixture_difficulty_rating"), Cell(r, "is_home") == Bool(true))
  }

  /** The player's team plays in that view of a fixture of that gameweek. */
  predicate Plays(player: Record, event: Record, v: View)
  {
    v.team == Cell(player, "team") && v.gameweek == Cell(event, "id")
  }

  function FactRow(player: Record, event: Record, v: View): seq<Value>
  {
    [Cell(player, "id"), Cell(player, "team"), Cell(event, "id"), v.fixture, v.opposition, v.difficulty, Bool(v.home)]
  }

  /** The rows of one player and one gameweek: one per view the player's team plays in, in view
      order, unless a selected value is null. */
  function ViewRows(player: Record, event: Record, views: seq<View>): seq<seq<Value>>
  {
    if |views| == 0 then []
    else
      var row := FactRow(player, event, views[0]);
      (if Plays(player, event, views[0]) && NoNull(row) then [row] else []) + ViewRows(player, event, views[1..])
  }

  function EventRows(player: Record, events: seq<Record>, views: seq<View>): seq<seq<Value>>
  {
    if |events| == 0 then [] else ViewRows(player, events[0], views) + EventRows(player, events[1..], views)
  }

  /** The fact table: players in order, for each the gameweeks in order, for each the matching views. */
  function ExpectedFacts(players: seq<Record>, events: seq<Record>, views: seq<View>): seq<seq<Value>>
  {
    if |players| == 0 then [] else EventRows(players[0], events, views) + ExpectedFacts(players[1..], events, views)
  }

  // Properties of the reference

  /** A row of one player and gameweek comes from a view the player's team plays in that gameweek
      and whose seven values are all present, and every such view gives its row. */
  lemma {:induction false} ViewRowsExactly(p: Record, g: Record, views: seq<View>, row: seq<Value>)
    ensures row in ViewRows(p, g, views) <==>
      exists v :: v in views && Plays(p, g, v) && NoNull(FactRow(p, g, v)) && row == FactRow(p, g, v)
  {
    if |views| != 0 {
      ViewRowsExactly(p, g, views[1..], row);
      assert forall v :: v in views <==> v == views[0] || v in views[1..];
    }
  }

  lemma {:induction false} ViewRowsAppend(p: Record, g: Record, a: seq<View>, b: seq<View>)
    ensures ViewRows(p, g, a + b) == ViewRows(p, g, a) + ViewRows(p, g, b)
  {
    if |a| != 0 {
      assert (a + b)[0] == a[0] && (a + b)[1..] == a[1..] + b;
      ViewRowsAppend(p, g, a[1..], b);
      var head := if Plays(p, g, a[0]) && NoNull(FactRow(p, g, a[0])) then [FactRow(p, g, a[0])] else [];
      assert ViewRows(p, g, a + b) == head + ViewRows(p, g, a[1..] + b);
      assert ViewRows(p, g, a) == head + ViewRows(p, g, a[1..]);
    } else {
      assert a + b == b;
    }
  }

  /** A player-gameweek pair whose team has no fixture that gameweek gives no row. */
  lemma {:induction false} NoFixtureNoRow(p: Record, g: Record, views: seq<View>)
    requires forall v :: v in views ==> !Plays(p, g, v)
    ensures ViewRows(p, g, views) == []
  {
    if |views| != 0 {
      assert views[0] in views;
      NoFixtureNoRow(p, g, views[1..]);
    }
  }

  /** A double gameweek: two fixtures of the team that gameweek, among any number of other
      teams' fixtures, give the player two rows in fixture order. */
  lemma DoubleGameweek(p: Record, g: Record, a: seq<View>, v1: View, b: seq<View>, v2: View, c: seq<View>)
    requires forall v :: v in a + b + c ==> !Plays(p, g, v)
    requires Plays(p, g, v1) && Plays(p, g, v2) && NoNull(FactRow(p, g, v1)) && NoNull(FactRow(p, g, v2))
    ensures ViewRows(p, g, a + [v1] + b + [v2] + c) == [FactRow(p, g, v1), FactRow(p, g, v2)]
  {
    NoFixtureNoRow(p, g, a);
    NoFixtureNoRow(p, g, b);
    NoFixtureNoRow(p, g, c);
    ViewRowsAppend(p, g, a, [v1]);
    ViewRowsAppend(p, g, a + [v1], b);
    ViewRowsAppend(p, g, a + [v1] + b, [v2]);
    ViewRowsAppend(p, g, a + [v1] + b + [v2], c);
  }

  /** A fixture whose gameweek is null never gives a row: it matches only a gameweek whose own id is
      null, and that null is among the selected values. */
  lemma NullEventNeverMatches(p: Record, g: Record, v: View)
    requires v.gameweek == Null
    ensures ViewRows(p, g, [v]) == []
  {
    if Plays(p, g, v) {
      assert FactRow(p, g, v)[2] == Null;
    }
  }

  /** The views of a fixture do not read its kick-off time, so a null kick-off time leaves the
      fixture's fact rows as they are. */
  lemma KickoffNotViewed(f: Record)
    ensures HomeSide(f["kickoff_time" := Null]) == HomeSide(f)
    ensures AwaySide(f["kickoff_time" := Null]) == AwaySide(f)
  {
  }

  /** No raw fixture key already carries a name the mapper writes or selects. */
  ghost predicate FactNamesFree(columns: set<string>)
  {
    && "player_id" !in columns && "team_id" !in columns && "opposition_team_id" !in columns
    && "fixture_difficulty_rating" !in columns && "gameweek_id" !in columns && "fixture_id" !in columns
  }

  // ---------------------------------------------------------------------------------------------
  // The two views of a fixture

  /** The shape shared by both side renames: the names differ in length, except the two team
      columns, which differ in their last letter. */
  ghost predicate SideShaped(m: Renames)
  {
    && |m| == 5
    && |m[0].0| == 6 && |m[1].0| == 6 && |m[2].0| == 17 && |m[3].0| == 5 && |m[4].0| == 2
    && m[0].0[5] != m[1].0[5]
    && |m[0].1| == 7 && |m[1].1| == 18 && |m[2].1| == 25 && |m[3].1| == 11 && |m[4].1| == 10
  }

  lemma SideRenamesProper(m: Renames)
    requires SideShaped(m)
    ensures Proper(m)
    ensures !IsSource(m, "player_id") && !IsTarget(m, "player_id")
  {
    assert |"player_id"| == 9;
  }

  lemma HomeRenamesProper()
    ensures Proper(HomeRenames)
    ensures !IsSource(HomeRenames, "player_id") && !IsTarget(HomeRenames, "player_id")
  {
    SideRenamesProper(HomeRenames);
  }

  lemma AwayRenamesProper()
    ensures Proper(AwayRenames)
    ensures !IsSource(AwayRenames, "player_id") && !IsTarget(AwayRenames, "player_id")
  {
    SideRenamesProper(AwayRenames);
  }

  /** A record of the stacked frame stands for the view `v`, carries no player id and a boolean flag. */
  ghost predicate ViewRecord(r: Record, v: View)
  {
    "player_id" !in r && ViewOf(r) == v && Cell(r, "is_home") == Bool(v.home)
  }

  /** Setting the flag leaves the other cells alone. */
  lemma Flagged(r: Record, home: bool)
    ensures ViewOf(r["is_home" := Bool(home)]) == View(Cell(r, "fixture_id"), Cell(r, "gameweek_id"),
      Cell(r, "team_id"), Cell(r, "opposition_team_id"), Cell(r, "fixture_difficulty_rating"), home)
    ensures Cell(r["is_home" := Bool(home)], "is_home") == Bool(home)
    ensures "player_id" in r["is_home" := Bool(home)] <==> "player_id" in r
  {
  }

  /** A side rename brings in no player id. */
  lemma NoPlayerId(m: Renames, f: Record)
    requires Proper(m) && "player_id" !in f
    requires !IsSource(m, "player_id") && !IsTarget(m, "player_id")
    ensures "player_id" !in RenameRecord(m, f)
  {
    RenameColumns(m, f.Keys);
  }

  lemma HomeCells(f: Record)
    requires FactNamesFree(f.Keys)
    ensures var r := RenameRecord(HomeRenames, f);
      && Cell(r, "team_id") == Cell(f, "team_h") && Cell(r, "opposition_team_id") == Cell(f, "team_a")
      && Cell(r, "fixture_difficulty_rating") == Cell(f, "team_h_difficulty")
      && Cell(r, "gameweek_id") == Cell(f, "event") && Cell(r, "fixture_id") == Cell(f, "id")
      && "player_id" !in r
  {
    var m := HomeRenames;
    HomeRenamesProper();
    RenameCellTarget(m, f, 0);
    RenameCellTarget(m, f, 1);
    RenameCellTarget(m, f, 2);
    RenameCellTarget(m, f, 3);
    RenameCellTarget(m, f, 4);
    NoPlayerId(m, f);
  }

  lemma AwayCells(f: Record)
    requires FactNamesFree(f.Keys)
    ensures var r := RenameRecord(AwayRenames, f);
      && Cell(r, "team_id") == Cell(f, "team_a") && Cell(r, "opposition_team_id") == Cell(f, "team_h")
      && Cell(r, "fixture_difficulty_rating") == Cell(f, "team_a_difficulty")
      && Cell(r, "gameweek_id") == Cell(f, "event") && Cell(r, "fixture_id") == Cell(f, "id")
      && "player_id" !in r
  {
    var m := AwayRenames;
    AwayRenamesProper();
    RenameCellTarget(m, f, 0);
    RenameCellTarget(m, f, 1);
    RenameCellTarget(m, f, 2);
    RenameCellTarget(m, f, 3);
    RenameCellTarget(m, f, 4);
    NoPlayerId(m, f);
  }

  lemma HomeRecord(f: Record)
    requires FactNamesFree(f.Keys)
    ensures ViewRecord(RenameRecord(HomeRenames, f)["is_home" := Bool(true)], HomeSide(f))
  {
    HomeCells(f);
    Flagged(RenameRecord(HomeRenames, f), true);
  }

  lemma AwayRecord(f: Record)
    requires FactNamesFree(f.Keys)
    ensures ViewRecord(RenameRecord(AwayRenames, f)["is_home" := Bool(false)], AwaySide(f))
  {
    AwayCells(f);
    Flagged(RenameRecord(AwayRenames, f), false);
  }

  /** The first half of the stacked frame is the home view, fixture by fixture. */
  lemma HomeAt(fixtures: Frame, k: int)
    requires 0 <= k < |fixtures.records|
    ensures FixtureViews(fixtures).records[k] == RenameRecord(HomeRenames, fixtures.records[k])["is_home" := Bool(true)]
    ensures Views(fixtures.records)[k] == HomeSide(fixtures.records[k])
  {
    assert FixtureViews(fixtures).records[k] == HomeView(fixtures).records[k];
  }

  /** The second half is the away view, fixture by fixture. */
  lemma AwayAt(fixtures: Frame, k: int)
    requires 0 <= k < |fixtures.records|
    ensures FixtureViews(fixtures).records[|fixtures.records| + k] == RenameRecord(AwayRenames, fixtures.records[k])["is_home" := Bool(false)]
    ensures Views(fixtures.records)[|fixtures.records| + k] == AwaySide(fixtures.records[k])
  {
    AwayRowAt(fixtures, k);
    AwaySideAt(fixtures.records, k);
  }

  lemma AwayRowAt(fixtures: Frame, k: int)
    requires 0 <= k < |fixtures.records|
    ensures FixtureViews(fixtures).records[|fixtures.records| + k] == AwayView(fixtures).records[k]
  {
    HomeViewLength(fixtures);
    SecondPart(HomeView(fixtures), AwayView(fixtures), k);
  }

  lemma HomeViewLength(fixtures: Frame)
    ensures |HomeView(fixtures).records| == |fixtures.records|
  {
  }

  lemma SecondPart(a: Frame, b: Frame, k: int)
    requires 0 <= k < |b.records|
    ensures Concat(a, b).records[|a.records| + k] == b.records[k]
  {
  }

  lemma AwaySideAt(fixtures: seq<Record>, k: int)
    requires 0 <= k < |fixtures|
    ensures Views(fixtures)[|fixtures| + k] == AwaySide(fixtures[k])
  {
  }

  lemma HomeViewAt(fixtures: Frame, k: int)
    requires WellFormed(fixtures) && FactNamesFree(fixtures.columns)
    requires 0 <= k < |fixtures.records|
    ensures ViewRecord(FixtureViews(fixtures).records[k], Views(fixtures.records)[k])
  {
    HomeAt(fixtures, k);
    assert fixtures.records[k].Keys <= fixtures.columns;
    HomeRecord(fixtures.records[k]);
  }

  lemma AwayViewAt(fixtures: Frame, k: int)
    requires WellFormed(fixtures) && FactNamesFree(fixtures.columns)
    requires 0 <= k < |fixtures.records|
    ensures ViewRecord(FixtureViews(fixtures).records[|fixtures.records| + k], Views(fixtures.records)[|fixtures.records| + k])
  {
    AwayAt(fixtures, k);
    assert fixtures.records[k].Keys <= fixtures.columns;
    AwayRecord(fixtures.records[k]);
  }

  lemma ViewsLength(fixtures: Frame)
    ensures |FixtureViews(fixtures).records| == |Views(fixtures.records)| == 2 * |fixtures.records|
  {
    HomeViewLength(fixtures);
  }

  /** The stacked frame holds two rows per fixture: row `i` is the home view of fixture `i` (its home
      team as `team_id`, its away team as the opposition, the home difficulty, `is_home` true) and row
      `n + i` the mirror away view. */
  lemma ViewsLayout(fixtures: Frame)
    requires WellFormed(fixtures) && FactNamesFree(fixtures.columns)
    ensures |FixtureViews(fixtures).records| == |Views(fixtures.records)| == 2 * |fixtures.records|
    ensures forall k :: 0 <= k < |fixtures.records| ==>
      && Views(fixtures.records)[k] == HomeSide(fixtures.records[k])
      && Views(fixtures.records)[|fixtures.records| + k] == AwaySide(fixtures.records[k])
    ensures forall k :: 0 <= k < |Views(fixtures.records)| ==>
      ViewRecord(FixtureViews(fixtures).records[k], Views(fixtures.records)[k])
  {
    var n := |fixtures.records|;
    ViewsLength(fixtures);
    forall k | 0 <= k < 2 * n
      ensures ViewRecord(FixtureViews(fixtures).records[k], Views(fixtures.records)[k])
    {
      if k < n {
        HomeViewAt(fixtures, k);
      } else {
        AwayViewAt(fixtures, k - n);
      }
    }
  }

  // ---------------------------------------------------------------------------------------------
  // The player-gameweek pairs

  /** A renamed player record: its id and team under their new names, nothing else. */
  ghost predicate PlayerOf(l: Record, p: Record)
  {
    l.Keys <= {"player_id", "team_id"} && Cell(l, "player_id") == Cell(p, "id") && Cell(l, "team_id") == Cell(p, "team")
  }

  /** A renamed gameweek record: its id under its new name, nothing else. */
  ghost predicate GameweekOf(l: Record, g: Record)
  {
    l.Keys <= {"gameweek_id"} && Cell(l, "gameweek_id") == Cell(g, "id")
  }

  lemma PlayerRecord(q: Record, p: Record)
    requires q.Keys <= {"id", "team"} && Cell(q, "id") == Cell(p, "id") && Cell(q, "team") == Cell(p, "team")
    ensures PlayerOf(RenameRecord(ElementRenames, q), p)
  {
    var m := ElementRenames;
    assert Proper(m);
    RenameCellTarget(m, q, 0);
    RenameCellTarget(m, q, 1);
    RenamedOfSource(m, 0);
    RenamedOfSource(m, 1);
  }

  lemma GameweekRecord(q: Record, g: Record)
    requires q.Keys <= {"id"} && Cell(q, "id") == Cell(g, "id")
    ensures GameweekOf(RenameRecord(EventRenames, q), g)
  {
    var m := EventRenames;
    assert Proper(m);
    RenameCellTarget(m, q, 0);
    RenamedOfSource(m, 0);
  }

  /** A pair's own row always has a null in the selection: it has no fixture id. */
  lemma PairRowHasNull(lp: Record, lg: Record)
    requires lp.Keys <= {"player_id", "team_id"} && lg.Keys <= {"gameweek_id"}
    ensures !NoNull(RowOf(lp + lg, FactColumns))
  {
    assert RowOf(lp + lg, FactColumns)[3] == Cell(lp + lg, "fixture_id");
  }

  lemma AgreeOnTwo(a: Record, b: Record, k0: string, k1: string)
    ensures KeysAgree(a, b, [k0, k1]) <==> Cell(a, k0) == Cell(b, k0) && Cell(a, k1) == Cell(b, k1)
  {
    assert [k0, k1][0] == k0 && [k0, k1][1] == k1;
  }

  lemma RowOfSeven(r: Record, cs: seq<string>)
    requires |cs| == 7
    ensures RowOf(r, cs) == [Cell(r, cs[0]), Cell(r, cs[1]), Cell(r, cs[2]), Cell(r, cs[3]), Cell(r, cs[4]), Cell(r, cs[5]), Cell(r, cs[6])]
  {
    var row := [Cell(r, cs[0]), Cell(r, cs[1]), Cell(r, cs[2]), Cell(r, cs[3]), Cell(r, cs[4]), Cell(r, cs[5]), Cell(r, cs[6])];
    forall j | 0 <= j < 7 ensures RowOf(r, cs)[j] == row[j] { }
  }

  /** The cells of a pair: the player's id and team, the gameweek's id, nothing else. */
  lemma PairCells(lp: Record, lg: Record, p: Record, g: Record)
    requires PlayerOf(lp, p) && GameweekOf(lg, g)
    ensures var l := lp + lg;
      && Cell(l, "player_id") == Cell(p, "id") && Cell(l, "team_id") == Cell(p, "team") && Cell(l, "gameweek_id") == Cell(g, "id")
      && "fixture_id" !in l && "opposition_team_id" !in l && "fixture_difficulty_rating" !in l
  {
  }

  /** A player-gameweek pair joins a view exactly when the player's team plays in it that gameweek,
      and the joined row is then the reference row. */
  lemma JoinPair(lp: Record, lg: Record, p: Record, g: Record, r: Record, v: View)
    requires PlayerOf(lp, p) && GameweekOf(lg, g) && ViewRecord(r, v)
    ensures KeysAgree(lp + lg, r, JoinKeys) <==> Plays(p, g, v)
    ensures Plays(p, g, v) ==> RowOf(lp + lg + r, FactColumns) == FactRow(p, g, v)
  {
    var l := lp + lg;
    PairCells(lp, lg, p, g);
    AgreeOnTwo(l, r, "team_id", "gameweek_id");
    if Plays(p, g, v) {
      RowOfSeven(l + r, FactColumns);
    }
  }

  // ---------------------------------------------------------------------------------------------
  // The merge, pair by pair

  lemma {:induction false} ViewRowsMatch(lp: Record, lg: Record, p: Record, g: Record, rs: seq<Record>, views: seq<View>)
    requires PlayerOf(lp, p) && GameweekOf(lg, g)
    requires |rs| == |views| && forall k :: 0 <= k < |rs| ==> ViewRecord(rs[k], views[k])
    ensures MatchedRows(lp + lg, rs, JoinKeys, FactColumns) == ViewRows(p, g, views)
  {
    if |rs| != 0 {
      JoinPair(lp, lg, p, g, rs[0], views[0]);
      ViewRowsMatch(lp, lg, p, g, rs[1..], views[1..]);
    }
  }

  lemma {:induction false} EventRowsMatch(lp: Record, p: Record, gws: seq<Record>, events: seq<Record>, rs: seq<Record>, views: seq<View>)
    requires PlayerOf(lp, p)
    requires |gws| == |events| && forall k :: 0 <= k < |gws| ==> GameweekOf(gws[k], events[k])
    requires |rs| == |views| && forall k :: 0 <= k < |rs| ==> ViewRecord(rs[k], views[k])
    ensures NonNullRows(RowsOf(LeftMergeRecords(Extend(lp, gws), rs, JoinKeys), FactColumns)) == EventRows(p, events, views)
  {
    if |gws| == 0 {
      assert Extend(lp, gws) == [];
    } else {
      var first := lp + gws[0];
      ExtendCons(lp, gws);
      LeftMergeRecordsAppend([first], Extend(lp, gws[1..]), rs, JoinKeys);
      assert LeftMergeRecords([first], rs, JoinKeys) == MergeOne(first, rs, JoinKeys);
      var a, b := MergeOne(first, rs, JoinKeys), LeftMergeRecords(Extend(lp, gws[1..]), rs, JoinKeys);
      RowsOfAppend(a, b, FactColumns);
      NonNullRowsAppend(RowsOf(a, FactColumns), RowsOf(b, FactColumns));
      PairRowHasNull(lp, gws[0]);
      MergeOneRows(first, rs, JoinKeys, FactColumns);
      ViewRowsMatch(lp, gws[0], p, events[0], rs, views);
      EventRowsMatch(lp, p, gws[1..], events[1..], rs, views);
    }
  }

  lemma {:induction false} FactsMatch(pls: seq<Record>, players: seq<Record>, gws: seq<Record>, events: seq<Record>, rs: seq<Record>, views: seq<View>)
    requires |pls| == |players| && forall k :: 0 <= k < |pls| ==> PlayerOf(pls[k], players[k])
    requires |gws| == |events| && forall k :: 0 <= k < |gws| ==> GameweekOf(gws[k], events[k])
    requires |rs| == |views| && forall k :: 0 <= k < |rs| ==> ViewRecord(rs[k], views[k])
    ensures NonNullRows(RowsOf(LeftMergeRecords(CrossRecords(pls, gws), rs, JoinKeys), FactColumns)) == ExpectedFacts(players, events, views)
  {
    if |pls| != 0 {
      var a, b := Extend(pls[0], gws), CrossRecords(pls[1..], gws);
      LeftMergeRecordsAppend(a, b, rs, JoinKeys);
      var ma, mb := LeftMergeRecords(a, rs, JoinKeys), LeftMergeRecords(b, rs, JoinKeys);
      RowsOfAppend(ma, mb, FactColumns);
      NonNullRowsAppend(RowsOf(ma, FactColumns), RowsOf(mb, FactColumns));
      EventRowsMatch(pls[0], players[0], gws, events, rs, views);
      FactsMatch(pls[1..], players[1..], gws, events, rs, views);
    }
  }

  // ---------------------------------------------------------------------------------------------
  // The fact table

  /** The projected, renamed players: one per element, in order. */
  lemma PlayersOf(elements: Frame)
    requires Project(elements, ["id", "team"]).Success?
    ensures var pls := RenameFrame(ElementRenames, Project(elements, ["id", "team"]).value).records;
      |pls| == |elements.records| && forall k :: 0 <= k < |pls| ==> PlayerOf(pls[k], elements.records[k])
  {
    var players := Project(elements, ["id", "team"]).value;
    assert players.columns == {"id", "team"} by {
      assert forall c :: c in players.columns <==> c == "id" || c == "team" by {
        assert ["id", "team"][0] == "id" && ["id", "team"][1] == "team";
      }
    }
    forall k | 0 <= k < |players.records|
      ensures PlayerOf(RenameRecord(ElementRenames, players.records[k]), elements.records[k])
    {
      assert players.records[k].Keys <= players.columns;
      PlayerRecord(players.records[k], elements.records[k]);
    }
  }

  /** The projected, renamed gameweeks: one per event, in order. */
  lemma GameweeksOf(events: Frame)
    requires Project(events, ["id"]).Success?
    ensures var gws := RenameFrame(EventRenames, Project(events, ["id"]).value).records;
      |gws| == |events.records| && forall k :: 0 <= k < |gws| ==> GameweekOf(gws[k], events.records[k])
  {
    var gameweeks := Project(events, ["id"]).value;
    assert gameweeks.columns == {"id"} by {
      assert forall c :: c in gameweeks.columns <==> c == "id" by {
        assert ["id"][0] == "id";
      }
    }
    forall k | 0 <= k < |gameweeks.records|
      ensures GameweekOf(RenameRecord(EventRenames, gameweeks.records[k]), events.records[k])
    {
      assert gameweeks.records[k].Keys <= gameweeks.columns;
      GameweekRecord(gameweeks.records[k], events.records[k]);
    }
  }

  /** A successful run went through every step: both projections, the merge and the selection. */
  lemma FactPlayersSteps(bootstrap: Json, fixturesDoc: Json, elements: Frame, events: Frame, fixtures: Frame)
    requires bootstrap.JObject? && "elements" in bootstrap.fields && "events" in bootstrap.fields
    requires FrameOf(bootstrap.fields["elements"]) == Some(elements)
    requires FrameOf(bootstrap.fields["events"]) == Some(events)
    requires FrameOf(fixturesDoc) == Some(fixtures)
    requires FactPlayersOf(bootstrap, fixturesDoc).Success?
    ensures Project(events, ["id"]).Success? && Project(elements, ["id", "team"]).Success?
    ensures var pairs := PlayerGameweeks(Project(elements, ["id", "team"]).value, Project(events, ["id"]).value);
      FactPlayersOf(bootstrap, fixturesDoc).value ==
        Table(FactColumns, NonNullRows(RowsOf(LeftMergeRecords(pairs.records, FixtureViews(fixtures).records, JoinKeys), FactColumns)))
  {
  }

  /** The fact table holds, players in input order, then gameweeks in input order, then views in
      stacked order, one row per view in which the player's team plays that gameweek: the player,
      team, gameweek, fixture, opponent, difficulty and side. A pair without a fixture gives no row,
      a double gameweek two, and a row with a null among those seven values is dropped. */
  lemma FactPlayersRows(bootstrap: Json, fixturesDoc: Json, elements: Frame, events: Frame, fixtures: Frame)
    requires bootstrap.JObject? && "elements" in bootstrap.fields && "events" in bootstrap.fields
    requires FrameOf(bootstrap.fields["elements"]) == Some(elements)
    requires FrameOf(bootstrap.fields["events"]) == Some(events)
    requires FrameOf(fixturesDoc) == Some(fixtures) && FactNamesFree(fixtures.columns)
    requires FactPlayersOf(bootstrap, fixturesDoc).Success?
    ensures FactPlayersOf(bootstrap, fixturesDoc).value ==
      Table(FactColumns, ExpectedFacts(elements.records, events.records, Views(fixtures.records)))
  {
    FactPlayersSteps(bootstrap, fixturesDoc, elements, events, fixtures);
    PlayersOf(elements);
    GameweeksOf(events);
    ViewsLayout(fixtures);
    var pls := RenameFrame(ElementRenames, Project(elements, ["id", "team"]).value).records;
    var gws := RenameFrame(EventRenames, Project(events, ["id"]).value).records;
    FactsMatch(pls, elements.records, gws, events.records, FixtureViews(fixtures).records, Views(fixtures.records));
  }

  /** The names a side rename brings in, and the raw columns each comes from. */
  lemma SideColumns(m: Renames, fc: set<string>)
    requires SideShaped(m) && FactNamesFree(fc)
    requires m[2].1 == "fixture_difficulty_rating" && m[3] == ("event", "gameweek_id") && m[4] == ("id", "fixture_id")
    requires m[0].1 == "team_id" && m[1].1 == "opposition_team_id"
    ensures var cs := RenamedKeys(m, fc);
      && ("team_id" in cs <==> m[0].0 in fc) && ("opposition_team_id" in cs <==> m[1].0 in fc)
      && ("fixture_difficulty_rating" in cs <==> m[2].0 in fc)
      && ("gameweek_id" in cs <==> "event" in fc) && ("fixture_id" in cs <==> "id" in fc)
      && "player_id" !in cs
  {
    SideRenamesProper(m);
    RenameColumns(m, fc);
  }

  /** Which of the names the join and the selection need the stacked frame has. */
  lemma ViewColumns(fixtures: Frame)
    requires FactNamesFree(fixtures.columns)
    ensures var cs, fc := FixtureViews(fixtures).columns, fixtures.columns;
      && ("team_id" in cs <==> "team_h" in fc || "team_a" in fc)
      && ("opposition_team_id" in cs <==> "team_h" in fc || "team_a" in fc)
      && ("fixture_difficulty_rating" in cs <==> "team_h_difficulty" in fc || "team_a_difficulty" in fc)
      && ("gameweek_id" in cs <==> "event" in fc)
      && ("fixture_id" in cs <==> "id" in fc)
      && "is_home" in cs && "player_id" !in cs
  {
    SideColumns(HomeRenames, fixtures.columns);
    SideColumns(AwayRenames, fixtures.columns);
    StackedColumns(fixtures);
  }

  lemma StackedColumns(fixtures: Frame)
    ensures FixtureViews(fixtures).columns
      == RenamedKeys(HomeRenames, fixtures.columns) + RenamedKeys(AwayRenames, fixtures.columns) + {"is_home"}
  {
  }

  /** The columns of the player-gameweek pairs. */
  lemma PairColumns(elements: Frame, events: Frame)
    requires Project(elements, ["id", "team"]).Success? && Project(events, ["id"]).Success?
    ensures PlayerGameweeks(Project(elements, ["id", "team"]).value, Project(events, ["id"]).value).columns
      == {"player_id", "team_id", "gameweek_id"}
  {
    var players, gameweeks := Project(elements, ["id", "team"]).value, Project(events, ["id"]).value;
    assert players.columns == {"id", "team"} by {
      assert ["id", "team"][0] == "id" && ["id", "team"][1] == "team";
    }
    assert gameweeks.columns == {"id"} by {
      assert ["id"][0] == "id";
    }
    assert Proper(ElementRenames) && Proper(EventRenames);
    RenamedOfSource(ElementRenames, 0);
    RenamedOfSource(ElementRenames, 1);
    RenamedOfSource(EventRenames, 0);
  }

  /** A run succeeds exactly when both projections, the merge and the selection do, and every
      failure is a `KeyError`. */
  lemma FactPlayersGate(bootstrap: Json, fixturesDoc: Json, elements: Frame, events: Frame, fixtures: Frame)
    requires bootstrap.JObject? && "elements" in bootstrap.fields && "events" in bootstrap.fields
    requires FrameOf(bootstrap.fields["elements"]) == Some(elements)
    requires FrameOf(bootstrap.fields["events"]) == Some(events)
    requires FrameOf(fixturesDoc) == Some(fixtures)
    ensures FactPlayersOf(bootstrap, fixturesDoc).Success? <==>
      && Project(events, ["id"]).Success? && Project(elements, ["id", "team"]).Success?
      && var pairs := PlayerGameweeks(Project(elements, ["id", "team"]).value, Project(events, ["id"]).value);
         var merged := LeftMerge(pairs, FixtureViews(fixtures), JoinKeys);
         merged.Success? && Select(merged.value, FactColumns).Success?
    ensures FactPlayersOf(bootstrap, fixturesDoc).Failure? ==> FactPlayersOf(bootstrap, fixturesDoc).error.MissingColumns?
  {
  }

  lemma ProjectedKeys(elements: Frame, events: Frame)
    ensures Project(events, ["id"]).Success? <==> "id" in events.columns
    ensures Project(elements, ["id", "team"]).Success? <==> "id" in elements.columns && "team" in elements.columns
  {
    assert ["id"][0] == "id";
    assert ["id", "team"][0] == "id" && ["id", "team"][1] == "team";
  }

  lemma MergeKeys(pairs: Frame, views: Frame)
    requires pairs.columns == {"player_id", "team_id", "gameweek_id"}
    ensures LeftMerge(pairs, views, JoinKeys).Success? <==> "team_id" in views.columns && "gameweek_id" in views.columns
    ensures LeftMerge(pairs, views, JoinKeys).Success? ==> LeftMerge(pairs, views, JoinKeys).value.columns == pairs.columns + views.columns
  {
    assert JoinKeys[0] == "team_id" && JoinKeys[1] == "gameweek_id";
  }

  /** Given the join columns of the pairs and the columns of the stacked views, the merge and the
      selection succeed exactly when the views carry every fact column but `player_id`. */
  lemma MergedKeys(pairs: Frame, views: Frame)
    requires pairs.columns == {"player_id", "team_id", "gameweek_id"}
    ensures var merged := LeftMerge(pairs, views, JoinKeys);
      merged.Success? && Select(merged.value, FactColumns).Success? <==>
        forall j :: 1 <= j < 7 ==> FactColumns[j] in views.columns
  {
    MergeKeys(pairs, views);
    NeededColumns(views.columns);
    var merged := LeftMerge(pairs, views, JoinKeys);
    if merged.Success? {
      NeededColumns(merged.value.columns);
      assert FactColumns[0] == "player_id";
    }
  }

  /** The fact columns after `player_id`, one by one. */
  lemma NeededColumns(cs: set<string>)
    ensures (forall j :: 1 <= j < 7 ==> FactColumns[j] in cs) <==>
      && "team_id" in cs && "gameweek_id" in cs && "fixture_id" in cs
      && "opposition_team_id" in cs && "fixture_difficulty_rating" in cs && "is_home" in cs
  {
    assert FactColumns[1] == "team_id" && FactColumns[2] == "gameweek_id" && FactColumns[3] == "fixture_id";
    assert FactColumns[4] == "opposition_team_id" && FactColumns[5] == "fixture_difficulty_rating" && FactColumns[6] == "is_home";
  }

  /** The view columns the fact table needs, in terms of the fixture columns. */
  lemma ViewsFit(fixtures: Frame)
    requires FactNamesFree(fixtures.columns)
    ensures var fc := fixtures.columns;
      (forall j :: 1 <= j < 7 ==> FactColumns[j] in FixtureViews(fixtures).columns) <==>
        && "id" in fc && "event" in fc && ("team_h" in fc || "team_a" in fc)
        && ("team_h_difficulty" in fc || "team_a_difficulty" in fc)
  {
    ViewColumns(fixtures);
    NeededColumns(FixtureViews(fixtures).columns);
  }

  /** The fact table is built exactly when the elements carry `id` and `team`, the events `id`, and
      the fixtures `id`, `event`, one of the team columns and one of the difficulty columns; any
      other shape raises the mapper's `KeyError`. */
  lemma FactPlayersSucceeds(bootstrap: Json, fixturesDoc: Json, elements: Frame, events: Frame, fixtures: Frame)
    requires bootstrap.JObject? && "elements" in bootstrap.fields && "events" in bootstrap.fields
    requires FrameOf(bootstrap.fields["elements"]) == Some(elements)
    requires FrameOf(bootstrap.fields["events"]) == Some(events)
    requires FrameOf(fixturesDoc) == Some(fixtures) && FactNamesFree(fixtures.columns)
    ensures var fc := fixtures.columns;
      FactPlayersOf(bootstrap, fixturesDoc).Success? <==>
        && "id" in events.columns && "id" in elements.columns && "team" in elements.columns
        && "id" in fc && "event" in fc && ("team_h" in fc || "team_a" in fc)
        && ("team_h_difficulty" in fc || "team_a_difficulty" in fc)
    ensures FactPlayersOf(bootstrap, fixturesDoc).Failure? ==> FactPlayersOf(bootstrap, fixturesDoc).error.MissingColumns?
  {
    FactPlayersGate(bootstrap, fixturesDoc, elements, events, fixtures);
    ProjectedKeys(elements, events);
    ViewsFit(fixtures);
    if Project(elements, ["id", "team"]).Success? && Project(events, ["id"]).Success? {
      PairColumns(elements, events);
      MergedKeys(PlayerGameweeks(Project(elements, ["id", "team"]).value, Project(events, ["id"]).value), FixtureViews(fixtures));
    }
  }
}
