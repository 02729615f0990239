/** Building a block entry by entry (table/block_builder.cc). */
module BlockBuilding {
  import opened Coding
  import opened Block

  lemma {:induction false} DataAppend(kvs: seq<KV>, kv: KV, interval: nat, n: nat)
    requires interval > 0 && n <= |kvs|
    ensures Data(kvs + [kv], interval, n) == Data(kvs, interval, n)
  {
    hide SharedAt; hide EntryBytes;
    if n > 0 {
      DataAppend(kvs, kv, interval, n - 1);
      SharedAppend(kvs, kv, interval, n - 1);
      assert (kvs + [kv])[n - 1] == kvs[n - 1];
    }
  }

  lemma SharedAppend(kvs: seq<KV>, kv: KV, interval: nat, i: nat)
    requires interval > 0 && i < |kvs|
    ensures SharedAt(kvs + [kv], interval, i) == SharedAt(kvs, interval, i)
  {
    hide Shared;
    var all := kvs + [kv];
    assert all[i] == kvs[i];
    if i > 0 {
      assert all[i - 1] == kvs[i - 1];
    }
  }

  lemma CountAppend(n: nat, interval: nat)
    requires interval > 0
    ensures RestartCount(n + 1, interval) == RestartCount(n, interval) + if n > 0 && n % interval == 0 then 1 else 0
    ensures n > 0 && n % interval == 0 ==> StartOf(RestartCount(n, interval), interval) == n
  {
    if n > 0 {
      NextModulus(n, interval);
      if n % interval == 0 {
        ExactMultiple(n, interval);
      }
    }
  }

  lemma OffsetAt(kvs: seq<KV>, interval: nat, j: nat)
    requires interval > 0 && j < RestartCount(|kvs|, interval)
    ensures StartOf(j, interval) <= |kvs| && RestartOffsets(kvs, interval)[j] == Offset(kvs, interval, StartOf(j, interval))
  {
    RestartInside(|kvs|, interval, j);
  }

  lemma NextModulus(n: nat, k: nat)
    requires k > 0 && n > 0
    ensures (n - 1) % k + 1 == k ==> n % k == 0 && n / k == (n - 1) / k + 1
    ensures (n - 1) % k + 1 < k ==> n % k == (n - 1) % k + 1 && n / k == (n - 1) / k
  {
    var q, r := (n - 1) / k, (n - 1) % k;
    assert n == q * k + r + 1;
    if r + 1 == k {
      assert n == (q + 1) * k;
      DivUnique(n, k, q + 1, 0);
    } else {
      DivUnique(n, k, q, r + 1);
    }
  }

  lemma ExactMultiple(n: nat, k: nat)
    requires k > 0 && n % k == 0
    ensures n / k * k == n
  {
  }

  /** A new restart point appears with every interval-th entry. */
  lemma RestartsAppend(kvs: seq<KV>, kv: KV, interval: nat)
    requires interval > 0
    ensures RestartOffsets(kvs + [kv], interval) ==
              RestartOffsets(kvs, interval) + if |kvs| > 0 && |kvs| % interval == 0 then [Offset(kvs, interval, |kvs|)] else []
  {
    var n := |kvs|;
    CountAppend(n, interval);
    var r, r' := RestartOffsets(kvs, interval), RestartOffsets(kvs + [kv], interval);
    hide RestartOffsets; hide RestartCount; hide Data; hide StartOf;
    forall j | 0 <= j < |r|
      ensures r'[j] == r[j]
    {
      OffsetAt(kvs, interval, j);
      OffsetAt(kvs + [kv], interval, j);
      DataAppend(kvs, kv, interval, StartOf(j, interval));
    }
    if n > 0 && n % interval == 0 {
      OffsetAt(kvs + [kv], interval, |r|);
      DataAppend(kvs, kv, interval, n);
    }
  }

  function Counter(n: nat, interval: nat): (c: nat)
    requires interval > 0
  {
    if n == 0 then 0 else (n - 1) % interval + 1
  }

  class BlockBuilder {
    const interval: nat
    var buffer: Bytes
    var restarts: seq<nat>
    var counter: nat
    var lastKey: Bytes
    ghost var kvs: seq<KV>

    ghost predicate Valid()
      reads this
    {
      && interval > 0
      && buffer == Data(kvs, interval, |kvs|) && restarts == RestartOffsets(kvs, interval)
      && counter == Counter(|kvs|, interval)
      && lastKey == if kvs == [] then [] else kvs[|kvs| - 1].key
    }

    constructor (interval: nat)
      requires interval > 0
      ensures Valid() && this.interval == interval && kvs == []
    {
      this.interval := interval;
      buffer, restarts, counter, lastKey, kvs := [], [0], 0, [], [];
      new;
      assert Offset([], interval, 0) == 0;
      assert RestartOffsets([], interval) == [0];
    }

    method Reset()
      requires Valid()
      modifies this
      ensures Valid() && kvs == []
    {
      buffer, restarts, counter, lastKey, kvs := [], [0], 0, [], [];
      assert Offset([], interval, 0) == 0;
      assert RestartOffsets([], interval) == [0];
    }

    method IsEmpty() returns (empty: bool)
      requires Valid()
      ensures empty <==> kvs == []
    {
      hide EntryBytes; hide RestartOffsets;
      empty := buffer == [];
    }

    method Add(key: Bytes, value: Bytes)
      requires Valid()
      modifies this
      ensures Valid() && kvs == old(kvs) + [KV(key, value)]
    {
      hide RestartOffsets; hide EntryBytes; hide Shared; hide SharedAt; hide Data; hide Counter; hide Head; hide AtRestart;
      var shared := 0;
      ghost var kv := KV(key, value);
      AddShares(kvs, kv, interval);
      RestartsAppend(kvs, kv, interval);
      DataAppend(kvs, kv, interval, |kvs|);
      if counter < interval {
        shared := CommonPrefix(lastKey, key);
      } else {
        restarts := restarts + [|buffer|];
        counter := 0;
      }
      var s := EntryHead(shared, |key| - shared, |value|);
      EntryParts(shared, kv, s);
      buffer := buffer + (s + key[shared..] + value);
      lastKey := lastKey[..shared] + key[shared..];
      counter := counter + 1;
      kvs := kvs + [kv];
    }

    /** The builder's bytes with the restart array appended. */
    method Finish() returns (block: Bytes)
      requires Valid() && Small(kvs, interval)
      ensures block == BlockBytes(kvs, interval)
    {
      SmallOffsets(kvs, interval);
      hide RestartOffsets; hide Data; hide Fixed32;
      block := PutFixeds(buffer, restarts);
      block := block + Fixed32(|restarts|);
    }
  }

  method CommonPrefix(a: Bytes, b: Bytes) returns (n: nat)
    ensures n == Shared(a, b)
  {
    n := 0;
    while n < |a| && n < |b| && a[n] == b[n]
      invariant n <= |a| && n <= |b| && Shared(a, b) == n + Shared(a[n..], b[n..])
    {
      assert a[n..][1..] == a[n + 1..] && b[n..][1..] == b[n + 1..];
      n := n + 1;
    }
  }

  method EntryHead(shared: nat, rest: nat, value: nat) returns (s: Bytes)
    ensures s == Head(shared, rest, value)
  {
    var a := PutVarint(shared);
    var b := PutVarint(rest);
    var c := PutVarint(value);
    s := a + b + c;
  }

  lemma EntryParts(shared: nat, kv: KV, head: Bytes)
    requires shared <= |kv.key| && head == Head(shared, |kv.key| - shared, |kv.value|)
    ensures EntryBytes(shared, kv) == head + kv.key[shared..] + kv.value
  {
  }

  /** What the counter decides: the shared length of the next entry. */
  lemma AddShares(kvs: seq<KV>, kv: KV, interval: nat)
    requires interval > 0
    ensures var n, all := |kvs|, kvs + [kv];
            var last := if kvs == [] then [] else kvs[n - 1].key;
            && (Counter(n, interval) < interval ==> SharedAt(all, interval, n) == Shared(last, kv.key))
            && (Counter(n, interval) >= interval ==> SharedAt(all, interval, n) == 0 && n > 0 && n % interval == 0)
            && (Counter(n, interval) < interval && n > 0 ==> n % interval != 0)
            && Counter(n + 1, interval) == 1 + (if Counter(n, interval) < interval then Counter(n, interval) else 0)
            && last[..Shared(last, kv.key)] + kv.key[Shared(last, kv.key)..] == kv.key
            && Data(all, interval, n + 1) == Data(all, interval, n) + EntryBytes(SharedAt(all, interval, n), kv)
  {
    hide EntryBytes;
    if |kvs| > 0 {
      NextModulus(|kvs|, interval);
    }
    assert (kvs + [kv])[|kvs|] == kv;
  }
}
