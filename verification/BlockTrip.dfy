/** A block built from a list iterates back to the list. */
module BlockTrip {
  import opened Keys
  import opened Coding
  import opened Block
  import opened BlockBuilding
  import opened BlockReading

  method Build(kvs: seq<KV>, interval: nat) returns (block: Bytes)
    requires interval > 0 && Small(kvs, interval)
    ensures block == BlockBytes(kvs, interval)
  {
    hide BlockBuilder.Valid; hide Small; hide BlockBytes;
    var builder := new BlockBuilder(interval);
    for i := 0 to |kvs|
      invariant fresh(builder) && builder.Valid() && builder.interval == interval && builder.kvs == kvs[..i]
    {
      builder.Add(kvs[i].key, kvs[i].value);
    }
    assert kvs[..|kvs|] == kvs;
    block := builder.Finish();
  }

  /** The entries a forward pass visits. */
  method ReadForward(block: Bytes, less: Order, ghost kvs: seq<KV>, ghost interval: nat) returns (r: seq<KV>)
    requires IsBlock(block, kvs, interval) && Transitive(less) && InOrder(less, kvs)
    ensures r == kvs
  {
    hide IsBlock; hide InOrder; hide Transitive; hide Iter.Fixed; hide Iter.On; hide Iter.Before;
    var it := new Iter(block, less, kvs, interval);
    it.SeekToFirst();
    r := [];
    while it.current < it.restarts
      invariant fresh(it) && it.Valid() && it.kvs == kvs && |r| <= |kvs| && r == kvs[..|r|] && it.at == Place(|r|, |kvs|)
      decreases |kvs| - |r|
    {
      it.Standing();
      var kv := it.Current();
      r := r + [kv];
      it.Next();
    }
    it.Standing();
  }

  /** The entries a backward pass visits, last one first. */
  method ReadBackward(block: Bytes, less: Order, ghost kvs: seq<KV>, ghost interval: nat) returns (r: seq<KV>)
    requires IsBlock(block, kvs, interval) && Transitive(less) && InOrder(less, kvs)
    ensures |r| == |kvs| && forall i :: 0 <= i < |r| ==> r[i] == kvs[|kvs| - 1 - i]
  {
    hide IsBlock; hide InOrder; hide Transitive; hide Iter.Fixed; hide Iter.On; hide Iter.Before;
    var it := new Iter(block, less, kvs, interval);
    it.SeekToLast();
    r := [];
    while it.current < it.restarts
      invariant fresh(it) && it.Valid() && it.kvs == kvs && |r| <= |kvs|
      invariant forall i :: 0 <= i < |r| ==> r[i] == kvs[|kvs| - 1 - i]
      invariant it.at == if |r| < |kvs| then Some(|kvs| - 1 - |r|) else None
      decreases |kvs| - |r|
    {
      it.Standing();
      var kv := it.Current();
      r := r + [kv];
      it.Prev();
    }
    it.Standing();
  }
}
