/** A table built from a list answers every lookup as the list does. */
module TableTrip {
  import opened Keys
  import opened Coding
  import opened Block
  import opened InternalKeys
  import opened BlockBuilding
  import opened BlockReading
  import opened TableSearch
  import opened TableFormat
  import opened TableParts
  import opened TableFilters
  import opened TableFile
  import FB = FilterBlock

  // ----- size bounds, for a list and the entries after which a block is closed

  /** No block is closed before the last entry of the stretch. */
  predicate Stretch(full: seq<bool>, a: nat, b: nat)
    requires b <= |full|
  {
    forall k :: a <= k < b - 1 ==> !full[k]
  }

  /** Every block fits its 32-bit offsets. */
  ghost predicate BlocksFit(kvs: seq<KV>, full: seq<bool>, interval: nat)
    requires interval > 0 && |full| == |kvs|
  {
    forall a, b :: 0 <= a <= b <= |kvs| && Stretch(full, a, b) ==> Small(kvs[a..b], interval)
  }

  /** What the index entries of the blocks closed by the first n entries cost. */
  function IndexTotal(kvs: seq<KV>, full: seq<bool>, n: nat): nat
    requires n <= |kvs| == |full|
  {
    if n == 0 then 0 else IndexTotal(kvs, full, n - 1) + if full[n - 1] then IndexCost(kvs[n - 1].key) else 0
  }

  function IndexNeed(kvs: seq<KV>, full: seq<bool>): nat
    requires |full| == |kvs|
  {
    if kvs == [] then IndexCost([]) else IndexTotal(kvs, full, |kvs| - 1) + IndexCost(kvs[|kvs| - 1].key)
  }

  function Closed(full: seq<bool>, n: nat): nat
    requires n <= |full|
  {
    if n == 0 then 0 else Closed(full, n - 1) + if full[n - 1] then 1 else 0
  }

  lemma {:induction false} ClosedCost(kvs: seq<KV>, full: seq<bool>, n: nat)
    requires n <= |kvs| == |full|
    ensures 35 * Closed(full, n) <= IndexTotal(kvs, full, n)
  {
    if n > 0 {
      ClosedCost(kvs, full, n - 1);
    }
  }

  lemma {:induction false} ClosedGrows(full: seq<bool>, m: nat, n: nat)
    requires m <= n <= |full|
    ensures Closed(full, m) <= Closed(full, n)
    decreases n
  {
    if m < n {
      ClosedGrows(full, m, n - 1);
    }
  }

  /** An index of fewer than 2^32 bytes belongs to a file of fewer than 2^63. */
  lemma FileBound(kvs: seq<KV>, full: seq<bool>, i: nat)
    requires i <= |kvs| == |full| && IndexNeed(kvs, full) < TWO32 - 1
    ensures MAX_RAW * Closed(full, i) < TWO63 - MAX_RAW
  {
    if kvs != [] {
      var n := |kvs|;
      ClosedCost(kvs, full, n - 1);
      ClosedGrows(full, i, n);
      assert Closed(full, n) <= Closed(full, n - 1) + 1;
    }
  }

  /** What a policy has to be like. */
  ghost predicate PolicyOk(policy: Policy, perKey: nat, n: nat) {
    && FB.NeverMisses(policy.create, policy.matches) && |policy.name| < 0x8000_0000
    && FB.Economical(policy.create, perKey) && perKey * n < TWO32
  }

  // ----- building

  ghost predicate Fed(b: TableBuilder, kvs: seq<KV>, full: seq<bool>, a: nat, i: nat)
    requires i <= |kvs| == |full|
    reads b, b.dataBlock, b.indexBlock, b.filter
  {
    && b.Valid() && Entries(b.parts) == kvs[..i] && a <= i && b.parts.tail == kvs[a..i]
    && (forall k :: a <= k < i ==> !full[k])
    && |b.file| <= MAX_RAW * Closed(full, i)
    && (if i == 0 then b.lastKey == [] && !b.pending && Bulk(b.indexBlock.kvs) == 0
        else b.lastKey == kvs[i - 1].key && b.pending == full[i - 1] && Bulk(b.indexBlock.kvs) <= IndexTotal(kvs, full, i - 1))
  }

  method Build(kvs: seq<KV>, full: seq<bool>, interval: nat, policy: Option<Policy>, ghost perKey: nat)
    returns (file: Bytes, ghost p: Parts, ghost meta: Handle, ghost index: Handle)
    requires interval > 0 && InKeyOrder(kvs) && |full| == |kvs|
    requires BlocksFit(kvs, full, interval) && IndexNeed(kvs, full) < TWO32 - 1
    requires policy.Some? ==> PolicyOk(policy.value, perKey, |kvs|)
    ensures IsTable(file, p, interval, meta, index) && Flat(p.blocks) == kvs && FilterStored(file, p, interval, meta, policy)
  {
    hide TableBuilder.Valid; hide Small; hide Bulk; hide IndexCost; hide IndexTotal; hide Closed; hide Entries; hide InternalLess; hide InKeyOrder;
    hide BlocksFit; hide IndexNeed; hide PolicyOk; hide IsTable; hide FilterStored; hide Flat;
    var b := new TableBuilder(interval, policy);
    ghost var a := 0;
    StartFed(b, kvs, full);
    for i := 0 to |kvs|
      invariant fresh(b) && fresh(b.dataBlock) && fresh(b.indexBlock) && (b.filter != null ==> fresh(b.filter))
      invariant b.interval == interval && b.policy == policy && Fed(b, kvs, full, a, i)
    {
      BeforeAdd(b, kvs, full, interval, a, i);
      ghost var bulk, pending, lastKey, tail, entries, was := Bulk(b.indexBlock.kvs), b.pending, b.lastKey, b.parts.tail, Entries(b.parts), b.file;
      b.Add(kvs[i].key, kvs[i].value, full[i]);
      ghost var a' := if full[i] then i + 1 else a;
      AfterAdd(b, kvs, full, a, i, a', bulk, pending, lastKey, tail, entries, was);
      a := a';
    }
    BeforeFinish(b, kvs, full, interval, a, perKey);
    meta, index := b.Finish();
    file, p := b.file, b.parts;
  }

  lemma StartFed(b: TableBuilder, kvs: seq<KV>, full: seq<bool>)
    requires |full| == |kvs| && b.Valid() && Entries(b.parts) == []
    requires b.file == [] && b.parts.tail == [] && b.lastKey == [] && !b.pending && b.indexBlock.kvs == []
    ensures Fed(b, kvs, full, 0, 0)
  {
    hide TableBuilder.Valid; hide Entries;
    assert kvs[0..0] == [] && kvs[..0] == [];
  }

  lemma BeforeAdd(b: TableBuilder, kvs: seq<KV>, full: seq<bool>, interval: nat, a: nat, i: nat)
    requires interval > 0 && i < |kvs| == |full| && InKeyOrder(kvs) && BlocksFit(kvs, full, interval) && IndexNeed(kvs, full) < TWO32 - 1
    requires Fed(b, kvs, full, a, i)
    ensures b.Valid() && |kvs[i].key| >= 8 && (Entries(b.parts) != [] ==> InternalLess(b.lastKey, kvs[i].key))
    ensures Small(b.parts.tail + [KV(kvs[i].key, kvs[i].value)], interval) && |b.file| < TWO64
  {
    hide TableBuilder.Valid; hide Small; hide Bulk; hide IndexTotal; hide Closed; hide Entries; hide InternalLess; hide IndexNeed;
    FileBound(kvs, full, i);
    assert Stretch(full, a, i + 1);
    assert kvs[a..i + 1] == kvs[a..i] + [kvs[i]];
    assert Small(kvs[a..i + 1], interval);
  }

  lemma AfterAdd(b: TableBuilder, kvs: seq<KV>, full: seq<bool>, a: nat, i: nat, a': nat,
                 bulk: nat, pending: bool, lastKey: Bytes, tail: seq<KV>, entries: seq<KV>, was: Bytes)
    requires i < |kvs| == |full| && a <= i && a' == (if full[i] then i + 1 else a) && b.Valid()
    requires entries == kvs[..i] && tail == kvs[a..i] && (forall k :: a <= k < i ==> !full[k]) && |was| <= MAX_RAW * Closed(full, i)
    requires if i == 0 then !pending && bulk == 0 else lastKey == kvs[i - 1].key && pending == full[i - 1] && bulk <= IndexTotal(kvs, full, i - 1)
    requires Entries(b.parts) == entries + [KV(kvs[i].key, kvs[i].value)] && b.lastKey == kvs[i].key && b.pending == full[i]
    requires b.parts.tail == (if full[i] then [] else tail + [KV(kvs[i].key, kvs[i].value)])
    requires |b.file| <= |was| + (if full[i] then MAX_RAW else 0)
    requires Bulk(b.indexBlock.kvs) <= bulk + (if pending then IndexCost(lastKey) else 0)
    ensures Fed(b, kvs, full, a', i + 1)
  {
    hide TableBuilder.Valid; hide Entries; hide Bulk;
    assert KV(kvs[i].key, kvs[i].value) == kvs[i];
    assert kvs[..i + 1] == kvs[..i] + [kvs[i]] && kvs[a..i + 1] == kvs[a..i] + [kvs[i]] && kvs[i + 1..i + 1] == [];
    assert MAX_RAW * (Closed(full, i) + 1) == MAX_RAW * Closed(full, i) + MAX_RAW;
  }

  lemma BeforeFinish(b: TableBuilder, kvs: seq<KV>, full: seq<bool>, interval: nat, a: nat, perKey: nat)
    requires interval > 0 && |full| == |kvs| && BlocksFit(kvs, full, interval) && IndexNeed(kvs, full) < TWO32 - 1
    requires Fed(b, kvs, full, a, |kvs|) && (b.policy.Some? ==> PolicyOk(b.policy.value, perKey, |kvs|))
    ensures b.Valid() && Small(b.parts.tail, interval) && |b.file| < TWO63 - MAX_RAW && Entries(b.parts) == kvs
    ensures Bulk(b.indexBlock.kvs) + IndexCost(b.lastKey) < TWO32 - 1
    ensures b.policy.Some? ==> FB.NeverMisses(b.policy.value.create, b.policy.value.matches) && |b.policy.value.name| < 0x8000_0000
    ensures b.filter != null ==> b.filter.Weight() < TWO32
  {
    FileBound(kvs, full, |kvs|);
    hide Small; hide Bulk; hide IndexTotal; hide Closed; hide Entries; hide Built; hide BlockBuilder.Valid; hide Recorded;
    hide FB.NeverMisses; hide FB.Economical; hide FB.FilterBlockBuilder.Valid; hide FB.FilterBlockBuilder.Weight; hide IndexCost;
    assert Stretch(full, a, |kvs|);
    assert Small(kvs[a..|kvs|], interval);
    hide BlocksFit;
    assert kvs[..|kvs|] == kvs;
    if b.filter != null {
      RecordedCount(b.parts, b.filter.added, b.filter.current);
      FilterCost(b.filter, perKey);
    }
  }

  lemma RecordedCount(p: Parts, added: seq<FB.Added>, current: nat)
    requires Recorded(p, added, current)
    ensures |added| == |Entries(p)|
  {
    hide Entries;
  }

  // ----- the whole trip

  /** For every strictly increasing list, every choice of where blocks end, with
      or without filters, a lookup in the bytes of the table finds what a linear
      search of the list finds. */
  method BuildAndGet(kvs: seq<KV>, full: seq<bool>, interval: nat, writing: Option<Policy>, ghost perKey: nat, reading: Option<Policy>, k: Bytes)
    returns (r: Option<KV>)
    requires interval > 0 && InKeyOrder(kvs) && |full| == |kvs| && |k| >= 8
    requires BlocksFit(kvs, full, interval) && IndexNeed(kvs, full) < TWO32 - 1
    requires writing.Some? ==> PolicyOk(writing.value, perKey, |kvs|)
    requires reading.Some? ==> ByUser(reading.value.matches) && Agrees(reading.value, writing)
    ensures r == LinearGet(kvs, k)
  {
    hide *;
    var file;
    ghost var p, meta, index;
    file, p, meta, index := Build(kvs, full, interval, writing, perKey);
    r := Get(file, k, reading, p, interval, meta, index, writing);
  }
}
