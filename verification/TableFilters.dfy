/** The filter block of a table: how the builder feeds it, where the file keeps
    it and how a reader finds it (table/table_builder.cc, table/table.cc,
    db/dbformat.cc InternalFilterPolicy). */
module TableFilters {
  import opened Keys
  import opened Coding
  import opened Block
  import opened InternalKeys
  import opened TableFormat
  import opened TableParts
  import FB = FilterBlock
  import Bloom

  datatype Policy = Policy(name: Bytes, create: FB.Create, matches: FB.Matches)

  // ----- InternalFilterPolicy

  function UserPart(key: Bytes): Bytes {
    if |key| >= 8 then UserOf(key) else key
  }

  function UserParts(keys: seq<Bytes>): seq<Bytes> {
    seq(|keys|, i requires 0 <= i < |keys| => UserPart(keys[i]))
  }

  /** The user's policy, asked about user keys only. */
  function Internal(user: Policy): Policy {
    Policy(user.name, keys => user.create(UserParts(keys)), (key, filter) => user.matches(UserPart(key), filter))
  }

  /** Keys of one user key are answered alike. */
  ghost predicate ByUser(matches: FB.Matches) {
    forall a, b, filter :: UserPart(a) == UserPart(b) ==> matches(a, filter) == matches(b, filter)
  }

  lemma InternalNeverMisses(user: Policy)
    requires FB.NeverMisses(user.create, user.matches)
    ensures FB.NeverMisses(Internal(user).create, Internal(user).matches) && ByUser(Internal(user).matches)
  {
    hide UserPart;
    var p := Internal(user);
    forall keys, key | key in keys
      ensures p.matches(key, p.create(keys))
    {
      var i :| 0 <= i < |keys| && keys[i] == key;
      assert UserParts(keys)[i] == UserPart(key);
      assert UserPart(key) in UserParts(keys);
    }
  }

  function BloomPolicy(name: Bytes, hash: Bloom.Hash, bitsPerKey: nat, k: nat): Policy
    requires k < 256
  {
    Policy(name, keys => Bloom.Filter(hash, keys, bitsPerKey, k), (key, filter) => Bloom.MayMatch(hash, key, filter))
  }

  /** What a database with Bloom filters hands to its tables. */
  lemma BloomTables(name: Bytes, hash: Bloom.Hash, bitsPerKey: nat, k: nat)
    requires k < 256
    ensures var p := Internal(BloomPolicy(name, hash, bitsPerKey, k)); FB.NeverMisses(p.create, p.matches) && ByUser(p.matches)
  {
    hide Bloom.Filter; hide Bloom.MayMatch;
    FB.BloomNeverMisses(hash, bitsPerKey, k);
    InternalNeverMisses(BloomPolicy(name, hash, bitsPerKey, k));
  }

  lemma BloomCost(name: Bytes, hash: Bloom.Hash, bitsPerKey: nat, k: nat)
    requires k < 256
    ensures FB.Economical(Internal(BloomPolicy(name, hash, bitsPerKey, k)).create, bitsPerKey + 9)
  {
    hide Bloom.Filter; hide UserPart;
    var p := Internal(BloomPolicy(name, hash, bitsPerKey, k));
    forall keys: seq<Bytes> | keys != []
      ensures |p.create(keys)| <= (bitsPerKey + 9) * |keys|
    {
      Bloom.FilterLength(hash, UserParts(keys), bitsPerKey, k);
    }
  }

  // ----- feeding the filter block

  /** The filter block knows every key, each under the offset of its block. */
  ghost predicate Recorded(p: Parts, added: seq<FB.Added>, current: nat) {
    && current == |p.file| && |p.handles| == |p.blocks| && |added| == |Entries(p)|
    && (forall i, j :: 0 <= i < |p.blocks| && 0 <= j < |p.blocks[i]| ==> FB.Added(p.blocks[i][j].key, p.handles[i].offset) in added)
    && forall j :: 0 <= j < |p.tail| ==> FB.Added(p.tail[j].key, |p.file|) in added
  }

  lemma RecordedAdd(p: Parts, q: Parts, added: seq<FB.Added>, current: nat, kv: KV)
    requires Recorded(p, added, current) && q.file == p.file && q.blocks == p.blocks && q.handles == p.handles && q.tail == p.tail + [kv]
    ensures Recorded(q, added + [FB.Added(kv.key, current)], current)
  {
  }

  lemma RecordedSame(p: Parts, q: Parts, added: seq<FB.Added>, current: nat)
    requires Recorded(p, added, current) && q.file == p.file && q.blocks == p.blocks && q.handles == p.handles && q.tail == p.tail
    ensures Recorded(q, added, current) && current == |q.file|
  {
  }

  /** What a policy spends on a table's keys. */
  lemma FilterCost(filter: FB.FilterBlockBuilder, perKey: nat)
    requires filter.Valid() && FB.Economical(filter.create, perKey)
    ensures filter.Weight() <= perKey * |filter.added|
  {
    hide FB.FilterBlockBuilder.Valid; hide FB.FilterBlockBuilder.Weight; hide FB.Economical; hide FB.FilterTotal; hide FB.FilterIndex;
    filter.WeightIs();
    FB.TotalBound(filter.create, perKey, filter.added, FB.FilterIndex(filter.current) + 1);
  }

  lemma RecordedFlush(p: Parts, q: Parts, added: seq<FB.Added>, current: nat, contents: Bytes)
    requires Recorded(p, added, current) && q.file == p.file + RawBlock(contents) && Entries(q) == Entries(p)
    requires q.blocks == p.blocks + [p.tail] && q.handles == p.handles + [Handle(|p.file|, |contents|)] && q.tail == []
    ensures Recorded(q, added, |q.file|) && current <= |q.file|
  {
    hide RawBlock; hide Entries;
  }

  // ----- where it is stored

  const FILTER_DOT: Bytes := [0x66, 0x69, 0x6c, 0x74, 0x65, 0x72, 0x2e]

  /** "filter." and the policy's name. */
  function MetaKey(name: Bytes): Bytes {
    FILTER_DOT + name
  }

  function MetaEntry(name: Bytes, filter: Handle): KV {
    KV(MetaKey(name), EncodeHandle(filter))
  }

  lemma MetaSmall(name: Bytes, filter: Handle, interval: nat)
    requires interval > 0 && |name| < 0x8000_0000 && HandleOk(filter)
    ensures Small([MetaEntry(name, filter)], interval)
  {
    var kv := MetaEntry(name, filter);
    HandleLength(filter);
    hide EncodeHandle; hide Varint; hide Power128;
    Limits();
    VarintLength(0, 5);
    VarintLength(|kv.key|, 5);
    VarintLength(|kv.value|, 5);
    assert Offset([kv], interval, 0) == 0;
    assert Data([kv], interval, 1) == Data([kv], interval, 0) + EntryBytes(0, kv);
  }

  /** The metaindex block names the filter block, which answers for all keys. */
  ghost predicate FilterAt(file: Bytes, p: Parts, interval: nat, meta: Handle, policy: Policy, filter: Handle, block: Bytes) {
    && interval > 0 && HandleOk(filter) && StoredAt(file, [MetaEntry(policy.name, filter)], meta, interval)
    && ReadBlock(file, filter) == Some(block) && AllAnswered(p, block, policy.matches)
  }

  /** No key of the table is ruled out for the block it is in. */
  ghost predicate AllAnswered(p: Parts, block: Bytes, matches: FB.Matches) {
    && |p.handles| == |p.blocks|
    && forall i, j :: 0 <= i < |p.blocks| && 0 <= j < |p.blocks[i]| ==>
         FB.KeyMayMatch(block, p.handles[i].offset, p.blocks[i][j].key, matches)
  }

  /** A file written with this policy, or without one. */
  ghost predicate FilterStored(file: Bytes, p: Parts, interval: nat, meta: Handle, policy: Option<Policy>) {
    match policy
    case None => interval > 0 && StoredAt(file, [], meta, interval)
    case Some(q) => exists filter, block :: FilterAt(file, p, interval, meta, q, filter, block)
  }

  /** All of a table's keys were recorded before the filter block was finished. */
  lemma AllMatch(p: Parts, added: seq<FB.Added>, current: nat, block: Bytes, matches: FB.Matches)
    requires Recorded(p, added, current) && forall a :: a in added ==> FB.KeyMayMatch(block, a.offset, a.key, matches)
    ensures AllAnswered(p, block, matches)
  {
    hide FB.KeyMayMatch;
    forall i, j | 0 <= i < |p.blocks| && 0 <= j < |p.blocks[i]|
      ensures FB.KeyMayMatch(block, p.handles[i].offset, p.blocks[i][j].key, matches)
    {
      assert FB.Added(p.blocks[i][j].key, p.handles[i].offset) in added;
    }
  }

  // ----- asking it

  /** What a reader with a filter, or without one, asks. */
  predicate Asks(filter: Option<Bytes>, matches: FB.Matches, offset: nat, key: Bytes) {
    filter.Some? ==> FB.KeyMayMatch(filter.value, offset, key, matches)
  }

  function Asker(filter: Option<Bytes>, matches: FB.Matches): (nat, Bytes) -> bool {
    (offset: nat, key: Bytes) => Asks(filter, matches, offset, key)
  }

  /** The answer depends on the user key only. */
  lemma SameAnswer(block: Bytes, offset: nat, a: Bytes, b: Bytes, matches: FB.Matches)
    requires ByUser(matches) && UserPart(a) == UserPart(b)
    ensures FB.KeyMayMatch(block, offset, a, matches) == FB.KeyMayMatch(block, offset, b, matches)
  {
    hide FB.ShiftRight; hide GetFixed32; hide UserPart;
  }
}
