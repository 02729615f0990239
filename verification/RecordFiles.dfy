/** Files of records in the log format, and what is left of them when they are
    cut (db/log_writer.cc, db/log_reader.cc). */
module RecordFiles {
  import opened Keys
  import opened Coding
  import L = Log
  import LR = LogReader
  import LC = LogCrash
  import LogRecords

  /** All records understood, or none. */
  function ParseAll<T>(parse: Bytes -> Option<T>, records: seq<Bytes>): Option<seq<T>> {
    if records == [] then Some([])
    else
      var front, last := ParseAll(parse, records[..|records| - 1]), parse(records[|records| - 1]);
      if front.Some? && last.Some? then Some(front.value + [last.value]) else None
  }

  /** A reader that gives up on the first corruption or bad record. */
  function ReadFile<T>(parse: Bytes -> Option<T>, file: Bytes): Option<seq<T>> {
    var (records, c) := LC.ReadAll(file, LR.START);
    if c.drops == [] then ParseAll(parse, records) else None
  }

  ghost predicate Means<T(!new)>(parse: Bytes -> Option<T>, records: seq<Bytes>, values: seq<T>) {
    |records| == |values| && forall i :: 0 <= i < |records| ==> parse(records[i]) == Some(values[i])
  }

  lemma {:induction false} ParsesAll<T(!new)>(parse: Bytes -> Option<T>, records: seq<Bytes>, values: seq<T>)
    requires Means(parse, records, values)
    ensures ParseAll(parse, records) == Some(values)
  {
    if records != [] {
      var n := |records| - 1;
      ParsesAll(parse, records[..n], values[..n]);
      assert values == values[..n] + [values[n]];
    }
  }

  lemma {:induction false} ParsedMeans<T(!new)>(parse: Bytes -> Option<T>, records: seq<Bytes>, values: seq<T>)
    requires ParseAll(parse, records) == Some(values)
    ensures Means(parse, records, values)
  {
    if records != [] {
      var n := |records| - 1;
      ParsedMeans(parse, records[..n], ParseAll(parse, records[..n]).value);
    }
  }

  /** A file that is read at all has nothing unreadable in it: its records are
      all understood, and every payload byte is in one of them or in the record
      still open at its end. */
  lemma NothingLost<T(!new)>(parse: Bytes -> Option<T>, file: Bytes, values: seq<T>)
    requires ReadFile(parse, file) == Some(values)
    ensures var tr := LogRecords.Trace(file, LR.START);
            && Means(parse, LogRecords.RecordsOf(tr), values)
            && LogRecords.Unreadable(tr) == 0
            && LogRecords.Weight(tr) == LogRecords.Sizes(LogRecords.RecordsOf(tr)) + LogRecords.Size(LogRecords.Open(tr, None))
  {
    hide LC.ReadAll; hide LogRecords.Trace; hide LogRecords.RecordsOf; hide LogRecords.Unreadable; hide LogRecords.Weight;
    hide LogRecords.Open; hide LogRecords.Sizes; hide ParseAll; hide Means;
    LogRecords.RecordsAreGroups(file);
    ParsedMeans(parse, LC.ReadAll(file, LR.START).0, values);
  }

  /** Cut at any byte, a file still gives exactly the records wholly in it. */
  lemma CutFile<T(!new)>(parse: Bytes -> Option<T>, records: seq<Bytes>, values: seq<T>, n: nat)
    requires Means(parse, records, values) && n <= |L.File(records)|
    ensures ReadFile(parse, L.File(records)[..n]) == Some(values[..LC.Whole(records, n)])
  {
    hide LC.ReadAll; hide LC.Whole; hide L.File; hide ParseAll;
    LC.CrashPrefix(records, n);
    WholeBound(records, n);
    var k := LC.Whole(records, n);
    ParsesAll(parse, records[..k], values[..k]);
  }

  lemma WholeBound(records: seq<Bytes>, n: nat)
    ensures LC.Whole(records, n) <= |records|
  {
  }

  lemma {:induction false} WholeFrom(records: seq<Bytes>, k: nat, n: nat)
    requires k <= |records| && |L.File(records[..k])| <= n
    ensures LC.Whole(records, n) >= k
    decreases |records|
  {
    hide L.File;
    if k == |records| {
      assert records[..k] == records;
    } else {
      assert records[..|records| - 1][..k] == records[..k];
      WholeFrom(records[..|records| - 1], k, n);
    }
  }

  lemma WholeFile<T(!new)>(parse: Bytes -> Option<T>, records: seq<Bytes>, values: seq<T>)
    requires Means(parse, records, values)
    ensures ReadFile(parse, L.File(records)) == Some(values)
  {
    hide ReadFile; hide L.File; hide LC.Whole;
    var n := |L.File(records)|;
    assert records[..|records|] == records && L.File(records)[..n] == L.File(records) && values[..|values|] == values;
    CutFile(parse, records, values, n);
    WholeFrom(records, |records|, n);
    WholeBound(records, n);
  }

  /** A file that ends inside the record being appended reads as without the
      record, or with it when all of it is there. */
  lemma TornFile<T(!new)>(parse: Bytes -> Option<T>, records: seq<Bytes>, values: seq<T>, r: Bytes, v: T, torn: Bytes)
    requires Means(parse, records, values) && parse(r) == Some(v)
    requires L.File(records) <= torn <= L.File(records + [r])
    ensures ReadFile(parse, torn) == Some(values) || ReadFile(parse, torn) == Some(values + [v])
  {
    hide ReadFile; hide L.File; hide LC.Whole;
    var all, all' := records + [r], values + [v];
    assert all[..|records|] == records && all'[..|values|] == values && all'[..|values| + 1] == all';
    assert Means(parse, all, all');
    CutFile(parse, all, all', |torn|);
    assert torn == L.File(all)[..|torn|];
    WholeFrom(all, |records|, |torn|);
    WholeBound(all, |torn|);
  }
}
