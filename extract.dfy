/** The Airflow extract stage (airflow_home/dags/scripts/extract.py): build the endpoint list, fetch each
    endpoint from the API and save the document under a dated key. The HTTP API is a parameter
    (a function from URL to reply) and the bucket is an `ObjectStore`. */
module Extract {
  import opened Results
  import opened Text
  import opened Calendar
  import opened Documents
  import opened Helpers
  import opened Storage

  const BaseUrl: string := "https://fantasy.premierleague.com/api/"

  /** The live-data endpoint of one gameweek round: `event/`, the round in decimal, `/live`. */
  function LiveEndpoint(round: nat): string
  {
    "event/" + NatToString(round) + "/live"
  }

  lemma LiveEndpointInjective(a: nat, b: nat)
    requires LiveEndpoint(a) == LiveEndpoint(b)
    ensures a == b
  {
    var s, t := LiveEndpoint(a), LiveEndpoint(b);
    assert s[6..|s| - 5] == NatToString(a);
    assert t[6..|t| - 5] == NatToString(b);
    NatToStringInjective(a, b);
  }

  /** The list `generate_endpoints()` returns: two fixed endpoints, then one live endpoint for each of
      the rounds 1 to 38 in ascending order. */
  function Endpoints(): (endpoints: seq<string>)
    ensures |endpoints| == 40
    ensures endpoints[0] == "fixtures" && endpoints[1] == "bootstrap-static"
    ensures forall k :: 2 <= k < 40 ==> endpoints[k] == LiveEndpoint(k - 1)
  {
    ["fixtures", "bootstrap-static"] + seq(38, i requires 0 <= i < 38 => LiveEndpoint(i + 1))
  }

  /** No endpoint is fetched or saved twice. */
  lemma EndpointsDistinct()
    ensures Distinct(Endpoints())
  {
    var e := Endpoints();
    forall i, j | 0 <= i < j < |e| ensures e[i] != e[j] {
      if 2 <= i {
        if e[i] == e[j] {
          LiveEndpointInjective(i - 1, j - 1);
        }
      } else if 2 <= j {
        assert e[j][0] == 'e' && e[i][0] != 'e';
      }
    }
  }

  /** `generate_endpoints()`: the fixed list extended round by round. */
  method GenerateEndpoints() returns (endpoints: seq<string>)
    ensures endpoints == Endpoints()
  {
    endpoints := ["fixtures", "bootstrap-static"];
    for round := 1 to 39
      invariant |endpoints| == round + 1
      invariant endpoints[0] == "fixtures" && endpoints[1] == "bootstrap-static"
      invariant forall k :: 2 <= k < |endpoints| ==> endpoints[k] == LiveEndpoint(k - 1)
    {
      endpoints := endpoints + [LiveEndpoint(round)];
    }
  }

  /** The URL `retrieve_data` requests for an endpoint. */
  function RequestUrl(endpoint: string): string
  {
    BaseUrl + endpoint + "/"
  }

  /** Distinct endpoints are requested at distinct URLs. */
  lemma RequestUrlInjective(a: string, b: string)
    requires RequestUrl(a) == RequestUrl(b)
    ensures a == b
  {
    var u, v := RequestUrl(a), RequestUrl(b);
    assert a == u[|BaseUrl|..|u| - 1];
    assert b == v[|BaseUrl|..|v| - 1];
  }

  /** What the API answers for a URL: a status code with a decoded JSON body, or no answer at all
      (connection failure or timeout). */
  datatype Reply = Reply(status: int, body: Json) | Unreachable

  /** The exceptions that escape the extract stage. */
  datatype ExtractError =
    | HttpError(url: string, status: int)     // raised by `raise_for_status`, logged and re-raised
    | ConnectionError(url: string)            // raised by `requests.get`, never caught
    | ClientError(bucket: string, key: string) // raised by `put_object`, logged and re-raised

  /** `raise_for_status` raises for client (4xx) and server (5xx) status codes. */
  predicate IsHttpErrorStatus(status: int)
  {
    400 <= status < 600
  }

  /** `retrieve_data(endpoint)`: the decoded body, or the exception it lets escape. */
  function RetrieveData(api: string -> Reply, endpoint: string): Result<Json, ExtractError>
  {
    var url := RequestUrl(endpoint);
    match api(url)
    case Unreachable => Failure(ConnectionError(url))
    case Reply(status, body) => if IsHttpErrorStatus(status) then Failure(HttpError(url, status)) else Success(body)
  }

  /** The key `extract_data` saves an endpoint's document under. */
  function ObjectKey(today: Date, endpoint: string): string
    requires ValidDate(today)
  {
    GenerateFilename(today, endpoint) + ".json"
  }

  lemma ObjectKeyInjective(today: Date, a: string, b: string)
    requires ValidDate(today) && ObjectKey(today, a) == ObjectKey(today, b)
    ensures a == b
  {
    var k := ObjectKey(today, a);
    assert GenerateFilename(today, a) == k[..|k| - 5] == GenerateFilename(today, b);
    FilenameInjective(today, a, today, b);
  }

  /** For each endpoint, in order: the key its document is saved under and what fetching it gives. */
  function Attempts(api: string -> Reply, today: Date, endpoints: seq<string>): (attempts: seq<(string, Result<Json, ExtractError>)>)
    requires ValidDate(today)
    ensures |attempts| == |endpoints|
  {
    seq(|endpoints|, i requires 0 <= i < |endpoints| => (ObjectKey(today, endpoints[i]), RetrieveData(api, endpoints[i])))
  }

  /** The put calls an extract run makes, in order, and the exception that ends it, if any. */
  datatype Run = Run(writes: seq<(string, Json)>, failure: Option<ExtractError>)

  /** The `extract_data` loop: for each endpoint, fetch, then save; the first exception ends the run. */
  function SaveRun(bucket: string, present: bool, attempts: seq<(string, Result<Json, ExtractError>)>): Run
  {
    if attempts == [] then Run([], None)
    else
      var (key, fetched) := attempts[0];
      match fetched
      case Failure(e) => Run([], Some(e))
      case Success(body) =>
        if !present then Run([(key, body)], Some(ClientError(bucket, key)))
        else
          var rest := SaveRun(bucket, present, attempts[1..]);
          Run([(key, body)] + rest.writes, rest.failure)
  }

  /** When every fetch succeeds and the bucket exists, every document is saved, in order, under its
      key, and the run completes. */
  lemma {:induction false} SaveRunSavesAll(bucket: string, attempts: seq<(string, Result<Json, ExtractError>)>)
    requires forall i :: 0 <= i < |attempts| ==> attempts[i].1.Success?
    ensures var run := SaveRun(bucket, true, attempts);
      && run.failure == None
      && |run.writes| == |attempts|
      && forall i :: 0 <= i < |attempts| ==> run.writes[i] == (attempts[i].0, attempts[i].1.value)
  {
    if attempts != [] {
      forall i | 0 <= i < |attempts[1..]| ensures attempts[1..][i].1.Success? {
        assert attempts[1..][i] == attempts[i + 1];
      }
      SaveRunSavesAll(bucket, attempts[1..]);
    }
  }

  /** A fetch that fails ends the run: the endpoints before it are saved, the rest are never fetched. */
  lemma {:induction false} SaveRunStopsAtFailure(bucket: string, attempts: seq<(string, Result<Json, ExtractError>)>, k: nat)
    requires k < |attempts|
    requires forall i :: 0 <= i < k ==> attempts[i].1.Success?
    requires attempts[k].1.Failure?
    ensures var run := SaveRun(bucket, true, attempts);
      && run.failure == Some(attempts[k].1.error)
      && |run.writes| == k
      && forall i :: 0 <= i < k ==> run.writes[i] == (attempts[i].0, attempts[i].1.value)
  {
    if k > 0 {
      forall i | 0 <= i < k - 1 ensures attempts[1..][i].1.Success? {
        assert attempts[1..][i] == attempts[i + 1];
      }
      assert attempts[1..][k - 1] == attempts[k];
      SaveRunStopsAtFailure(bucket, attempts[1..], k - 1);
    }
  }

  /** Without the bucket, the first successful fetch ends the run with a `ClientError` and nothing is stored. */
  lemma SaveRunMissingBucket(bucket: string, attempts: seq<(string, Result<Json, ExtractError>)>)
    requires attempts != [] && attempts[0].1.Success?
    ensures SaveRun(bucket, false, attempts).failure == Some(ClientError(bucket, attempts[0].0))
  {
  }

  /** When every fetch succeeds, one document per endpoint is saved, in endpoint order, under the
      endpoint's dated key, and the run completes. */
  lemma ExtractSavesEachEndpoint(api: string -> Reply, today: Date, bucket: string, endpoints: seq<string>)
    requires ValidDate(today)
    requires forall i :: 0 <= i < |endpoints| ==> RetrieveData(api, endpoints[i]).Success?
    ensures var run := SaveRun(bucket, true, Attempts(api, today, endpoints));
      && run.failure == None
      && |run.writes| == |endpoints|
      && forall i :: 0 <= i < |endpoints| ==>
           run.writes[i] == (ObjectKey(today, endpoints[i]), RetrieveData(api, endpoints[i]).value)
  {
    SaveRunSavesAll(bucket, Attempts(api, today, endpoints));
  }

  /** An HTTP error (or a connection failure) on one endpoint is re-raised: the endpoints before it are
      saved and the later ones are never fetched. */
  lemma ExtractStopsAtFailedFetch(api: string -> Reply, today: Date, bucket: string, endpoints: seq<string>, k: nat)
    requires ValidDate(today) && k < |endpoints|
    requires forall i :: 0 <= i < k ==> RetrieveData(api, endpoints[i]).Success?
    requires RetrieveData(api, endpoints[k]).Failure?
    ensures var run := SaveRun(bucket, true, Attempts(api, today, endpoints));
      && run.failure == Some(RetrieveData(api, endpoints[k]).error)
      && |run.writes| == k
      && forall i :: 0 <= i < k ==> run.writes[i].0 == ObjectKey(today, endpoints[i])
  {
    SaveRunStopsAtFailure(bucket, Attempts(api, today, endpoints), k);
  }

  /** With distinct endpoints and every fetch succeeding, an empty bucket ends up holding exactly one
      object per endpoint (two endpoints give two objects). */
  lemma ExtractObjectCount(api: string -> Reply, today: Date, bucket: string, endpoints: seq<string>)
    requires ValidDate(today) && Distinct(endpoints)
    requires forall i :: 0 <= i < |endpoints| ==> RetrieveData(api, endpoints[i]).Success?
    ensures |Stored(map[], SaveRun(bucket, true, Attempts(api, today, endpoints)).writes)| == |endpoints|
  {
    var writes := SaveRun(bucket, true, Attempts(api, today, endpoints)).writes;
    ExtractSavesEachEndpoint(api, today, bucket, endpoints);
    forall i, j | 0 <= i < j < |writes| ensures writes[i].0 != writes[j].0 {
      if writes[i].0 == writes[j].0 {
        ObjectKeyInjective(today, endpoints[i], endpoints[j]);
      }
    }
    StoredCount(map[], writes);
  }

  /** The effect of a run's writes on the store's buckets. */
  function AfterRun(buckets: map<string, map<string, Json>>, bucket: string, writes: seq<(string, Json)>): map<string, map<string, Json>>
  {
    if bucket in buckets then buckets[bucket := Stored(buckets[bucket], writes)] else buckets
  }

  lemma AfterRunAppend(buckets: map<string, map<string, Json>>, bucket: string, writes: seq<(string, Json)>, key: string, body: Json)
    requires bucket in buckets
    ensures var before := AfterRun(buckets, bucket, writes);
      AfterRun(buckets, bucket, writes + [(key, body)]) == before[bucket := before[bucket][key := body]]
  {
    StoredAppend(bucket, buckets[bucket], writes, [(key, body)]);
  }

  /** One more put extends the put log by its (bucket, key) pair. */
  lemma PutLogAppend(bucket: string, before: seq<(string, string)>, writes: seq<(string, Json)>, key: string, body: Json)
    ensures before + PutLog(bucket, writes) + [(bucket, key)] == before + PutLog(bucket, writes + [(key, body)])
  {
    StoredAppend(bucket, map[], writes, [(key, body)]);
    assert PutLog(bucket, [(key, body)]) == [(bucket, key)];
  }

  /** The run over `attempts[i..]` after `written`, when fetch `i` raised: it ends there. */
  lemma FetchStop(bucket: string, present: bool, attempts: seq<(string, Result<Json, ExtractError>)>, i: nat,
                  written: seq<(string, Json)>, error: ExtractError)
    requires i < |attempts| && attempts[i].1 == Failure(error)
    ensures var here := SaveRun(bucket, present, attempts[i..]);
      Run(written + here.writes, here.failure) == Run(written, Some(error))
  {
    assert attempts[i..][0] == attempts[i];
    assert written + [] == written;
  }

  /** The run over `attempts[i..]` after `written`, when fetch `i` succeeded but the bucket is missing:
      the put is attempted and its client error ends the run. */
  lemma PutStop(bucket: string, present: bool, attempts: seq<(string, Result<Json, ExtractError>)>, i: nat,
                written: seq<(string, Json)>, key: string, body: Json)
    requires i < |attempts| && attempts[i] == (key, Success(body)) && !present
    ensures var here := SaveRun(bucket, present, attempts[i..]);
      Run(written + here.writes, here.failure) == Run(written + [(key, body)], Some(ClientError(bucket, key)))
  {
    assert attempts[i..][0] == attempts[i];
  }

  /** The run over `attempts[i..]` after `written`, when fetch `i` succeeded and the bucket exists, is
      the run over `attempts[i + 1..]` after one more write. */
  lemma SaveStep(bucket: string, present: bool, attempts: seq<(string, Result<Json, ExtractError>)>, i: nat,
                 written: seq<(string, Json)>, key: string, body: Json)
    requires i < |attempts| && attempts[i] == (key, Success(body)) && present
    ensures var here := SaveRun(bucket, present, attempts[i..]);
      var rest := SaveRun(bucket, present, attempts[i + 1..]);
      Run(written + here.writes, here.failure) == Run(written + [(key, body)] + rest.writes, rest.failure)
  {
    assert attempts[i..][0] == attempts[i];
    assert attempts[i..][1..] == attempts[i + 1..];
    var rest := SaveRun(bucket, present, attempts[i + 1..]);
    assert written + ([(key, body)] + rest.writes) == written + [(key, body)] + rest.writes;
  }

  lemma RunDone(bucket: string, present: bool, attempts: seq<(string, Result<Json, ExtractError>)>, written: seq<(string, Json)>)
    ensures var here := SaveRun(bucket, present, attempts[|attempts|..]);
      Run(written + here.writes, here.failure) == Run(written, None)
  {
    assert attempts[|attempts|..] == [];
    assert written + [] == written;
  }

  /** The loop of `extract_data(bucket_name)` over the endpoint list: fetch, then save, one endpoint
      at a time, until an exception escapes. */
  method SaveEndpoints(api: string -> Reply, store: ObjectStore, bucket: string, today: Date, endpoints: seq<string>) returns (outcome: Outcome<ExtractError>)
    requires ValidDate(today)
    modifies store
    ensures var run := SaveRun(bucket, bucket in old(store.buckets), Attempts(api, today, endpoints));
      && outcome == (if run.failure.Some? then Fail(run.failure.value) else Pass)
      && store.puts == old(store.puts) + PutLog(bucket, run.writes)
      && store.buckets == AfterRun(old(store.buckets), bucket, run.writes)
  {
    ghost var initial, initialPuts := store.buckets, store.puts;
    ghost var present := bucket in initial;
    ghost var attempts := Attempts(api, today, endpoints);
    ghost var whole := SaveRun(bucket, present, attempts);
    ghost var written: seq<(string, Json)> := [];
    var i := 0;
    assert attempts[i..] == attempts;
    while i < |endpoints|
      invariant 0 <= i <= |endpoints|
      invariant (bucket in store.buckets) == present
      invariant var rest := SaveRun(bucket, present, attempts[i..]);
        whole == Run(written + rest.writes, rest.failure)
      invariant store.puts == initialPuts + PutLog(bucket, written)
      invariant store.buckets == AfterRun(initial, bucket, written)
    {
      var fetched := RetrieveData(api, endpoints[i]);
      var key := ObjectKey(today, endpoints[i]);
      assert attempts[i] == (key, fetched);
      if fetched.Failure? {
        FetchStop(bucket, present, attempts, i, written, fetched.error);
        return Fail(fetched.error);
      }
      var ok := store.PutObject(fetched.value, bucket, key);
      PutLogAppend(bucket, initialPuts, written, key, fetched.value);
      if !ok {
        PutStop(bucket, present, attempts, i, written, key, fetched.value);
        return Fail(ClientError(bucket, key));
      }
      SaveStep(bucket, present, attempts, i, written, key, fetched.value);
      AfterRunAppend(initial, bucket, written, key, fetched.value);
      written := written + [(key, fetched.value)];
      i := i + 1;
    }
    RunDone(bucket, present, attempts, written);
    outcome := Pass;
  }

  /** `extract_data(bucket_name)`. */
  method ExtractData(api: string -> Reply, store: ObjectStore, bucket: string, today: Date) returns (outcome: Outcome<ExtractError>)
    requires ValidDate(today)
    modifies store
    ensures var run := SaveRun(bucket, bucket in old(store.buckets), Attempts(api, today, Endpoints()));
      && outcome == (if run.failure.Some? then Fail(run.failure.value) else Pass)
      && store.puts == old(store.puts) + PutLog(bucket, run.writes)
      && store.buckets == AfterRun(old(store.buckets), bucket, run.writes)
  {
    var endpoints := GenerateEndpoints();
    outcome := SaveEndpoints(api, store, bucket, today, endpoints);
  }
}
