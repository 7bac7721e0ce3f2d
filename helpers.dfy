/** The object-key helper shared by the Airflow extract, transform and load stages. */
module Helpers {
  import opened Results
  import opened Text
  import opened Calendar

  /** `generate_filename(endpoint)`: today's date, a slash, then the name, with no extension.
      The clock is a parameter. */
  function GenerateFilename(today: Date, endpoint: string): (name: string)
    requires ValidDate(today)
    ensures |name| == 11 + |endpoint|
    ensures name[..10] == IsoDate(today) && name[10] == '/' && name[11..] == endpoint
    ensures '/' !in name[..10]
  {
    IsoDate(today) + "/" + endpoint
  }

  /** Splits a key at its first slash, as `key.split("/", 1)` does; `None` when there is no slash. */
  function SplitAtFirstSlash(key: string): Option<(string, string)>
  {
    if key == [] then None
    else if key[0] == '/' then Some(([], key[1..]))
    else match SplitAtFirstSlash(key[1..])
      case None => None
      case Some(parts) => Some(([key[0]] + parts.0, parts.1))
  }

  lemma {:induction false} SplitJoined(head: string, tail: string)
    requires '/' !in head
    ensures SplitAtFirstSlash(head + "/" + tail) == Some((head, tail))
  {
    var key := head + "/" + tail;
    if head != [] {
      assert key[1..] == head[1..] + "/" + tail;
      SplitJoined(head[1..], tail);
      assert [head[0]] + head[1..] == head;
    } else {
      assert key[1..] == tail;
    }
  }

  /** Splitting a generated name at its first slash gives back the date and the endpoint. */
  lemma FilenameSplits(today: Date, endpoint: string)
    requires ValidDate(today)
    ensures SplitAtFirstSlash(GenerateFilename(today, endpoint)) == Some((IsoDate(today), endpoint))
  {
    SplitJoined(IsoDate(today), endpoint);
  }

  /** Distinct (date, endpoint) pairs give distinct names. */
  lemma FilenameInjective(d1: Date, e1: string, d2: Date, e2: string)
    requires ValidDate(d1) && ValidDate(d2)
    requires GenerateFilename(d1, e1) == GenerateFilename(d2, e2)
    ensures d1 == d2 && e1 == e2
  {
    FilenameSplits(d1, e1);
    FilenameSplits(d2, e2);
    IsoDateInjective(d1, d2);
  }
}
