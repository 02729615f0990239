/** The format of a block (table/block_builder.cc): prefix-compressed entries,
    an offset for every entry that starts without compression, their count. */
module Block {
  import opened Coding

  datatype KV = KV(key: Bytes, value: Bytes)

  /** Length of the longest common prefix. */
  function Shared(a: Bytes, b: Bytes): (n: nat)
    ensures n <= |a| && n <= |b| && a[..n] == b[..n]
    ensures n < |a| && n < |b| ==> a[n] != b[n]
  {
    if a == [] || b == [] || a[0] != b[0] then 0
    else
      var n := Shared(a[1..], b[1..]);
      assert a[..1 + n] == [a[0]] + a[1..][..n] && b[..1 + n] == [b[0]] + b[1..][..n];
      1 + n
  }

  /** Entry i is written without compression. */
  predicate AtRestart(i: nat, interval: nat)
    requires interval > 0
  {
    i % interval == 0
  }

  /** How many bytes entry i shares with the one before. */
  function SharedAt(kvs: seq<KV>, interval: nat, i: nat): (n: nat)
    requires i < |kvs| && interval > 0
    ensures n <= |kvs[i].key|
    ensures AtRestart(i, interval) ==> n == 0
    ensures i > 0 && !AtRestart(i, interval) ==> n <= |kvs[i - 1].key| && kvs[i - 1].key[..n] == kvs[i].key[..n]
  {
    if i == 0 || AtRestart(i, interval) then 0 else Shared(kvs[i - 1].key, kvs[i].key)
  }

  function Head(shared: nat, rest: nat, value: nat): Bytes {
    Varint(shared) + Varint(rest) + Varint(value)
  }

  function EntryBytes(shared: nat, kv: KV): (s: Bytes)
    requires shared <= |kv.key|
    ensures |s| >= 3
  {
    Head(shared, |kv.key| - shared, |kv.value|) + kv.key[shared..] + kv.value
  }

  /** The first n entries. */
  function Data(kvs: seq<KV>, interval: nat, n: nat): Bytes
    requires n <= |kvs| && interval > 0
  {
    if n == 0 then [] else Data(kvs, interval, n - 1) + EntryBytes(SharedAt(kvs, interval, n - 1), kvs[n - 1])
  }

  function Offset(kvs: seq<KV>, interval: nat, n: nat): nat
    requires n <= |kvs| && interval > 0
  {
    |Data(kvs, interval, n)|
  }

  /** How many restart points n entries have; there is always one. */
  function RestartCount(n: nat, interval: nat): (c: nat)
    requires interval > 0
    ensures c >= 1
  {
    if n == 0 then 1 else (n - 1) / interval + 1
  }

  /** The entry that restart point j belongs to. */
  function StartOf(j: nat, interval: nat): nat {
    j * interval
  }

  lemma RestartInside(n: nat, interval: nat, j: nat)
    requires interval > 0 && j < RestartCount(n, interval)
    ensures StartOf(j, interval) <= n && (j > 0 ==> StartOf(j, interval) < n) && AtRestart(StartOf(j, interval), interval)
  {
    Multiple(j, interval);
    if j > 0 {
      var q := (n - 1) / interval;
      assert j <= q;
      assert q * interval <= n - 1;
      MultipleGrows(j, q, interval);
    }
  }

  lemma Multiple(j: nat, k: nat)
    requires k > 0
    ensures (j * k) % k == 0
    decreases j
  {
    if j > 0 {
      Multiple(j - 1, k);
      assert j * k == (j - 1) * k + k;
      AddModulus((j - 1) * k, k);
    }
  }

  lemma AddModulus(n: nat, k: nat)
    requires k > 0
    ensures (n + k) % k == n % k && (n + k) / k == n / k + 1
  {
    assert n + k == (n / k + 1) * k + n % k;
    DivUnique(n + k, k, n / k + 1, n % k);
  }

  lemma DivUnique(n: nat, k: nat, q: nat, r: nat)
    requires k > 0 && r < k && n == q * k + r
    ensures n / k == q && n % k == r
  {
    var d := n / k - q;
    assert n == n / k * k + n % k;
    assert d * k == r - n % k;
    var e := if d > 0 then d else if d < 0 then -d else 1;
    MultipleGrows(1, e, k);
    assert e * k == if d > 0 then d * k else if d < 0 then -(d * k) else k;
  }

  lemma MultipleGrows(a: nat, b: nat, k: nat)
    requires a <= b
    ensures a * k <= b * k
  {
  }

  function RestartOffsets(kvs: seq<KV>, interval: nat): (r: seq<nat>)
    requires interval > 0
    ensures |r| == RestartCount(|kvs|, interval)
  {
    seq(RestartCount(|kvs|, interval), j requires 0 <= j < RestartCount(|kvs|, interval) =>
      RestartInside(|kvs|, interval, j); Offset(kvs, interval, StartOf(j, interval)))
  }

  function Fixeds(offsets: seq<nat>): (s: Bytes)
    requires forall i :: 0 <= i < |offsets| ==> offsets[i] < TWO32
    ensures |s| == 4 * |offsets|
  {
    if offsets == [] then [] else Fixeds(offsets[..|offsets| - 1]) + Fixed32(offsets[|offsets| - 1])
  }

  method PutFixeds(buffer: Bytes, offsets: seq<nat>) returns (r: Bytes)
    requires forall i :: 0 <= i < |offsets| ==> offsets[i] < TWO32
    ensures r == buffer + Fixeds(offsets)
  {
    hide Fixed32;
    r := buffer;
    for i := 0 to |offsets|
      invariant r == buffer + Fixeds(offsets[..i])
    {
      assert offsets[..i + 1][..i] == offsets[..i];
      r := r + Fixed32(offsets[i]);
    }
    assert offsets[..|offsets|] == offsets;
  }

  lemma {:induction false} FixedsAt(offsets: seq<nat>, j: nat, rest: Bytes)
    requires forall i :: 0 <= i < |offsets| ==> offsets[i] < TWO32
    requires j < |offsets|
    ensures GetFixed32((Fixeds(offsets) + rest)[4 * j..]) == offsets[j]
  {
    var n := |offsets| - 1;
    var front, last := offsets[..n], Fixed32(offsets[n]);
    assert Fixeds(offsets) + rest == Fixeds(front) + (last + rest);
    hide Fixed32; hide GetFixed32;
    if j == n {
      assert (Fixeds(front) + (last + rest))[4 * j..] == last + rest;
      Fixed32RoundTrip(offsets[n], rest);
    } else {
      FixedsAt(front, j, last + rest);
    }
  }

  lemma {:induction false} OffsetGrows(kvs: seq<KV>, interval: nat, m: nat, n: nat)
    requires m <= n <= |kvs| && interval > 0
    ensures Data(kvs, interval, m) <= Data(kvs, interval, n)
    ensures m < n ==> Offset(kvs, interval, m) < Offset(kvs, interval, n)
    decreases n
  {
    hide EntryBytes; hide SharedAt;
    if m < n {
      OffsetGrows(kvs, interval, m, n - 1);
    }
  }

  /** Every offset fits its four bytes. */
  ghost predicate Small(kvs: seq<KV>, interval: nat)
    requires interval > 0
  {
    && Offset(kvs, interval, |kvs|) < TWO32 && RestartCount(|kvs|, interval) < TWO32
    && forall i :: 0 <= i < |kvs| ==> |kvs[i].key| < TWO32 && |kvs[i].value| < TWO32
  }

  /** An upper bound for the size of the entries, whatever they share. */
  function Bulk(kvs: seq<KV>): nat {
    if kvs == [] then 0
    else
      var kv := kvs[|kvs| - 1];
      Bulk(kvs[..|kvs| - 1]) + |kv.key| + |kv.value| + 15
  }

  lemma BulkAppend(kvs: seq<KV>, kv: KV)
    ensures Bulk(kvs + [kv]) == Bulk(kvs) + |kv.key| + |kv.value| + 15
  {
    assert (kvs + [kv])[..|kvs|] == kvs;
  }

  lemma {:induction false} BulkParts(kvs: seq<KV>)
    ensures |kvs| <= Bulk(kvs)
    ensures forall i :: 0 <= i < |kvs| ==> |kvs[i].key| + |kvs[i].value| <= Bulk(kvs)
  {
    if kvs != [] {
      BulkParts(kvs[..|kvs| - 1]);
    }
  }

  lemma EntryBulk(shared: nat, kv: KV)
    requires shared <= |kv.key| < TWO32 && |kv.value| < TWO32
    ensures |EntryBytes(shared, kv)| <= |kv.key| + |kv.value| + 15
  {
    hide Varint; hide Power128;
    Limits();
    VarintLength(shared, 5);
    VarintLength(|kv.key| - shared, 5);
    VarintLength(|kv.value|, 5);
  }

  lemma {:induction false} OffsetBulk(kvs: seq<KV>, interval: nat, n: nat)
    requires interval > 0 && n <= |kvs| && forall i :: 0 <= i < |kvs| ==> |kvs[i].key| < TWO32 && |kvs[i].value| < TWO32
    ensures Offset(kvs, interval, n) <= Bulk(kvs[..n])
  {
    hide EntryBytes; hide SharedAt;
    if n > 0 {
      OffsetBulk(kvs, interval, n - 1);
      SharedFits(kvs, interval, n - 1);
      EntryBulk(SharedAt(kvs, interval, n - 1), kvs[n - 1]);
      assert kvs[..n][..n - 1] == kvs[..n - 1];
    }
  }

  lemma SharedFits(kvs: seq<KV>, interval: nat, i: nat)
    requires i < |kvs| && interval > 0
    ensures SharedAt(kvs, interval, i) <= |kvs[i].key|
  {
  }

  lemma CountBound(n: nat, interval: nat)
    requires interval > 0
    ensures RestartCount(n, interval) <= n + 1
  {
    if n > 0 {
      DivideShrinks(n - 1, interval);
    }
  }

  lemma DivideShrinks(n: nat, k: nat)
    requires k > 0
    ensures n / k <= n
  {
    var q := n / k;
    assert n == q * k + n % k;
    MultipleGrows(1, k, q);
  }

  /** Entries below 2^32 bytes make a block. */
  lemma BulkSmall(kvs: seq<KV>, interval: nat)
    requires interval > 0 && Bulk(kvs) < TWO32 - 1
    ensures Small(kvs, interval)
  {
    hide Bulk; hide RestartCount; hide Data;
    BulkParts(kvs);
    OffsetBulk(kvs, interval, |kvs|);
    assert kvs[..|kvs|] == kvs;
    CountBound(|kvs|, interval);
  }

  lemma SmallOffsets(kvs: seq<KV>, interval: nat)
    requires interval > 0 && Small(kvs, interval)
    ensures forall j :: 0 <= j < |RestartOffsets(kvs, interval)| ==> RestartOffsets(kvs, interval)[j] < TWO32
  {
    forall j | 0 <= j < |RestartOffsets(kvs, interval)|
      ensures RestartOffsets(kvs, interval)[j] < TWO32
    {
      RestartInside(|kvs|, interval, j);
      OffsetGrows(kvs, interval, StartOf(j, interval), |kvs|);
    }
  }

  /** The finished block. */
  function BlockBytes(kvs: seq<KV>, interval: nat): Bytes
    requires interval > 0 && Small(kvs, interval)
  {
    SmallOffsets(kvs, interval);
    var offsets := RestartOffsets(kvs, interval);
    Data(kvs, interval, |kvs|) + Fixeds(offsets) + Fixed32(|offsets|)
  }
}
