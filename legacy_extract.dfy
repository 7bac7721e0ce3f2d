/** The earlier extract script (scripts/extract.py): a longer endpoint list that depends on the
    manager's team id, a filename helper that appends `.json` itself, and a `retrieve_data` that
    swallows HTTP errors and returns `None`. It shares the run model of the Airflow stage. */
module LegacyExtract {
  import opened Results
  import opened Text
  import opened Calendar
  import opened Documents
  import opened Storage
  import Extract
  import opened Helpers

  /** The picks endpoint of one team in one round: `entry/`, the team id as Python formats it,
      `/event/`, the round in decimal, `/picks`. */
  function PicksEndpoint(teamId: string, round: nat): string
  {
    "entry/" + teamId + "/event/" + NatToString(round) + "/picks"
  }

  /** The four endpoints that do not depend on the round. */
  function FixedEndpoints(teamId: string): seq<string>
  {
    ["fixtures", "bootstrap-static", "entry/" + teamId + "/history", "entry/" + teamId]
  }

  /** The list `generate_endpoints(team_id)` returns: the four fixed endpoints, the live endpoints of
      rounds 0 to 37 (`range(38)`), then the picks endpoints of rounds 0 to 37. */
  function Endpoints(teamId: string): (endpoints: seq<string>)
    ensures |endpoints| == 80
    ensures endpoints[..4] == FixedEndpoints(teamId)
    ensures forall r :: 0 <= r < 38 ==> endpoints[4 + r] == Extract.LiveEndpoint(r)
    ensures forall r :: 0 <= r < 38 ==> endpoints[42 + r] == PicksEndpoint(teamId, r)
  {
    FixedEndpoints(teamId)
      + seq(38, r requires 0 <= r < 38 => Extract.LiveEndpoint(r))
      + seq(38, r requires 0 <= r < 38 => PicksEndpoint(teamId, r))
  }

  lemma PicksEndpointInjective(teamId: string, a: nat, b: nat)
    requires PicksEndpoint(teamId, a) == PicksEndpoint(teamId, b)
    ensures a == b
  {
    var s, t := PicksEndpoint(teamId, a), PicksEndpoint(teamId, b);
    var from := 6 + |teamId| + 7;
    assert s[from..|s| - 6] == NatToString(a);
    assert t[from..|t| - 6] == NatToString(b);
    NatToStringInjective(a, b);
  }

  /** Whatever the team id, no endpoint appears twice. */
  lemma EndpointsDistinct(teamId: string)
    ensures Distinct(Endpoints(teamId))
  {
    var e := Endpoints(teamId);
    var n := |teamId|;
    forall i, j | 0 <= i < j < |e| ensures e[i] != e[j] {
      if 42 <= i {
        if e[i] == e[j] {
          PicksEndpointInjective(teamId, i - 42, j - 42);
        }
      } else if 4 <= i && j < 42 {
        if e[i] == e[j] {
          Extract.LiveEndpointInjective(i - 4, j - 4);
        }
      } else if 4 <= i {
        assert e[i][1] == 'v' && e[j][1] == 'n';
      } else if 4 <= j < 42 {
        assert e[j][1] == 'v';
        assert e[i][0] != 'e' || e[i][1] == 'n';
      } else if 42 <= j {
        assert |e[j]| >= 6 + n + 13;
        assert |e[i]| < 6 + n + 13;
      } else {
        var fixed := FixedEndpoints(teamId);
        assert e[i] == fixed[i] && e[j] == fixed[j];
        assert fixed[0][0] == 'f' && fixed[1][0] == 'b' && fixed[2][0] == 'e' && fixed[3][0] == 'e';
        assert |fixed[2]| != |fixed[3]|;
      }
    }
  }

  /** The live block comes before the picks block, and the live rounds are numbered from 0, where the
      Airflow list numbers them from 1: round 38 is never requested here. */
  lemma LiveRoundsFromZero(teamId: string)
    ensures Endpoints(teamId)[4] == Extract.LiveEndpoint(0)
    ensures Extract.LiveEndpoint(38) !in Endpoints(teamId)
    ensures Extract.Endpoints()[2] == Extract.LiveEndpoint(1) && Extract.Endpoints()[39] == Extract.LiveEndpoint(38)
  {
    var e := Endpoints(teamId);
    var last := Extract.LiveEndpoint(38);
    forall k | 0 <= k < |e| ensures e[k] != last {
      if 4 <= k < 42 {
        if e[k] == last {
          Extract.LiveEndpointInjective(k - 4, 38);
        }
      } else if 42 <= k {
        assert e[k][1] == 'n' && last[1] == 'v';
      } else {
        assert e[k] == FixedEndpoints(teamId)[k];
        assert last[1] == 'v';
      }
    }
  }

  /** `generate_endpoints(team_id)`: the fixed list extended twice, live rounds then picks rounds. */
  method GenerateEndpoints(teamId: string) returns (endpoints: seq<string>)
    ensures endpoints == Endpoints(teamId)
  {
    endpoints := FixedEndpoints(teamId);
    for round := 0 to 38
      invariant |endpoints| == 4 + round
      invariant endpoints[..4] == FixedEndpoints(teamId)
      invariant forall r :: 0 <= r < round ==> endpoints[4 + r] == Extract.LiveEndpoint(r)
    {
      endpoints := endpoints + [Extract.LiveEndpoint(round)];
    }
    for round := 0 to 38
      invariant |endpoints| == 42 + round
      invariant endpoints[..4] == FixedEndpoints(teamId)
      invariant forall r :: 0 <= r < 38 ==> endpoints[4 + r] == Extract.LiveEndpoint(r)
      invariant forall r :: 0 <= r < round ==> endpoints[42 + r] == PicksEndpoint(teamId, r)
    {
      endpoints := endpoints + [PicksEndpoint(teamId, round)];
    }
    assert |endpoints| == 80;
    assert endpoints == Endpoints(teamId);
  }

  /** This script's `generate_filename(endpoint)`: the extension is part of the name. It gives the
      same key as the Airflow helper followed by `.json`. */
  function GenerateFilename(today: Date, endpoint: string): (name: string)
    requires ValidDate(today)
    ensures name == Helpers.GenerateFilename(today, endpoint) + ".json"
  {
    IsoDate(today) + "/" + endpoint + ".json"
  }

  /** This script's `retrieve_data(endpoint)`: an HTTP error status is printed and `None` is returned;
      a connection failure still escapes. */
  function RetrieveData(api: string -> Extract.Reply, endpoint: string): Result<Json, Extract.ExtractError>
  {
    var url := Extract.RequestUrl(endpoint);
    match api(url)
    case Unreachable => Failure(Extract.ConnectionError(url))
    case Reply(status, body) => if Extract.IsHttpErrorStatus(status) then Success(JNull) else Success(body)
  }

  function Attempts(api: string -> Extract.Reply, today: Date, endpoints: seq<string>): (attempts: seq<(string, Result<Json, Extract.ExtractError>)>)
    requires ValidDate(today)
    ensures |attempts| == |endpoints|
  {
    seq(|endpoints|, i requires 0 <= i < |endpoints| => (GenerateFilename(today, endpoints[i]), RetrieveData(api, endpoints[i])))
  }

  /** An endpoint answering with an HTTP error does not stop the run: `null` is saved under its key
      and the later endpoints are still fetched. With every URL reachable, every endpoint is saved. */
  lemma HttpErrorSavesNull(api: string -> Extract.Reply, today: Date, bucket: string, endpoints: seq<string>)
    requires ValidDate(today)
    requires forall i :: 0 <= i < |endpoints| ==> api(Extract.RequestUrl(endpoints[i])).Reply?
    ensures var run := Extract.SaveRun(bucket, true, Attempts(api, today, endpoints));
      && run.failure == None
      && |run.writes| == |endpoints|
      && forall i :: 0 <= i < |endpoints| ==>
           && run.writes[i].0 == GenerateFilename(today, endpoints[i])
           && (Extract.IsHttpErrorStatus(api(Extract.RequestUrl(endpoints[i])).status) ==> run.writes[i].1 == JNull)
  {
    Extract.SaveRunSavesAll(bucket, Attempts(api, today, endpoints));
  }

  /** The loop of `extract_data(team_id, bucket_name)` over the endpoint list: fetch, then save, one
      endpoint at a time, until an exception escapes. */
  method SaveEndpoints(api: string -> Extract.Reply, store: ObjectStore, bucket: string, today: Date, endpoints: seq<string>)
    returns (outcome: Outcome<Extract.ExtractError>)
    requires ValidDate(today)
    modifies store
    ensures var run := Extract.SaveRun(bucket, bucket in old(store.buckets), Attempts(api, today, endpoints));
      && outcome == (if run.failure.Some? then Fail(run.failure.value) else Pass)
      && store.puts == old(store.puts) + PutLog(bucket, run.writes)
      && store.buckets == Extract.AfterRun(old(store.buckets), bucket, run.writes)
  {
    ghost var initial, initialPuts := store.buckets, store.puts;
    ghost var present := bucket in initial;
    ghost var attempts := Attempts(api, today, endpoints);
    ghost var whole := Extract.SaveRun(bucket, present, attempts);
    ghost var written: seq<(string, Json)> := [];
    var i := 0;
    assert attempts[i..] == attempts;
    while i < |endpoints|
      invariant 0 <= i <= |endpoints|
      invariant (bucket in store.buckets) == present
      invariant var rest := Extract.SaveRun(bucket, present, attempts[i..]);
        whole == Extract.Run(written + rest.writes, rest.failure)
      invariant store.puts == initialPuts + PutLog(bucket, written)
      invariant store.buckets == Extract.AfterRun(initial, bucket, written)
    {
      var data := RetrieveData(api, endpoints[i]);
      var filename := GenerateFilename(today, endpoints[i]);
      assert attempts[i] == (filename, data);
      if data.Failure? {
        Extract.FetchStop(bucket, present, attempts, i, written, data.error);
        return Fail(data.error);
      }
      var ok := store.PutObject(data.value, bucket, filename);
      Extract.PutLogAppend(bucket, initialPuts, written, filename, data.value);
      if !ok {
        Extract.PutStop(bucket, present, attempts, i, written, filename, data.value);
        return Fail(Extract.ClientError(bucket, filename));
      }
      Extract.SaveStep(bucket, present, attempts, i, written, filename, data.value);
      Extract.AfterRunAppend(initial, bucket, written, filename, data.value);
      written := written + [(filename, data.value)];
      i := i + 1;
    }
    Extract.RunDone(bucket, present, attempts, written);
    outcome := Pass;
  }

  /** `extract_data(team_id, bucket_name)`. */
  method ExtractData(api: string -> Extract.Reply, store: ObjectStore, teamId: string, bucket: string, today: Date)
    returns (outcome: Outcome<Extract.ExtractError>)
    requires ValidDate(today)
    modifies store
    ensures var run := Extract.SaveRun(bucket, bucket in old(store.buckets), Attempts(api, today, Endpoints(teamId)));
      && outcome == (if run.failure.Some? then Fail(run.failure.value) else Pass)
      && store.puts == old(store.puts) + PutLog(bucket, run.writes)
      && store.buckets == Extract.AfterRun(old(store.buckets), bucket, run.writes)
  {
    var endpoints := GenerateEndpoints(teamId);
    outcome := SaveEndpoints(api, store, bucket, today, endpoints);
  }
}
