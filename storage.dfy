/** The S3 object store the extract stage writes JSON documents to and the transform stage reads
    them from. Only what the pipeline observes is kept: which buckets exist and what each key holds. */
module Storage {
  import opened Documents

  class ObjectStore {
    /** Bucket name to (key to stored document). */
    var buckets: map<string, map<string, Json>>
    /** Every `put_object` call, as (bucket, key), in call order. */
    ghost var puts: seq<(string, string)>

    constructor (initial: map<string, map<string, Json>>)
      ensures buckets == initial && puts == []
    {
      buckets := initial;
      puts := [];
    }

    /** The S3 put of a JSON document under a key: stores the document when the bucket exists and
        reports a `ClientError` (returns false) when it does not. */
    method PutObject(body: Json, bucket: string, key: string) returns (ok: bool)
      modifies this
      ensures ok == (bucket in old(buckets))
      ensures buckets == if ok then old(buckets)[bucket := old(buckets)[bucket][key := body]] else old(buckets)
      ensures puts == old(puts) + [(bucket, key)]
    {
      ok := bucket in buckets;
      if ok {
        buckets := buckets[bucket := buckets[bucket][key := body]];
      }
      puts := puts + [(bucket, key)];
    }
  }

  /** The contents of a bucket after the given (key, document) writes, in order. */
  function Stored(objects: map<string, Json>, writes: seq<(string, Json)>): map<string, Json>
    decreases writes
  {
    if writes == [] then objects else Stored(objects[writes[0].0 := writes[0].1], writes[1..])
  }

  /** The put-call log entries for the given writes to one bucket. */
  function PutLog(bucket: string, writes: seq<(string, Json)>): seq<(string, string)>
  {
    if writes == [] then [] else [(bucket, writes[0].0)] + PutLog(bucket, writes[1..])
  }

  /** Writes under pairwise distinct keys not yet in the bucket add exactly one object each. */
  lemma {:induction false} StoredCount(objects: map<string, Json>, writes: seq<(string, Json)>)
    requires forall i, j :: 0 <= i < j < |writes| ==> writes[i].0 != writes[j].0
    requires forall i :: 0 <= i < |writes| ==> writes[i].0 !in objects
    ensures |Stored(objects, writes)| == |objects| + |writes|
    decreases writes
  {
    if writes != [] {
      var next := objects[writes[0].0 := writes[0].1];
      assert |next| == |objects| + 1;
      forall i | 0 <= i < |writes[1..]| ensures writes[1..][i].0 !in next {
        assert writes[1..][i] == writes[i + 1];
      }
      StoredCount(next, writes[1..]);
    }
  }

  lemma {:induction false} StoredAppend(bucket: string, objects: map<string, Json>, a: seq<(string, Json)>, b: seq<(string, Json)>)
    ensures Stored(objects, a + b) == Stored(Stored(objects, a), b)
    ensures PutLog(bucket, a + b) == PutLog(bucket, a) + PutLog(bucket, b)
    decreases a
  {
    if a != [] {
      assert (a + b)[1..] == a[1..] + b;
      StoredAppend(bucket, objects[a[0].0 := a[0].1], a[1..], b);
    } else {
      assert a + b == b;
    }
  }
}
