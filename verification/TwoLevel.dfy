/** A cursor over blocks found through an index (table/two_level_iterator.cc),
    some of which may be empty. */
module TwoLevel {
  import opened Keys
  import opened Coding
  import opened Block
  import opened BlockReading
  import opened InternalKeys
  import opened TableSearch

  /** Entries before block i. */
  function Base(blocks: seq<seq<KV>>, i: nat): nat
    requires i <= |blocks|
  {
    |Flat(blocks[..i])|
  }

  lemma BaseNext(blocks: seq<seq<KV>>, i: nat)
    requires i < |blocks|
    ensures Base(blocks, i + 1) == Base(blocks, i) + |blocks[i]| <= |Flat(blocks)|
    ensures forall j :: 0 <= j < |blocks[i]| ==> Flat(blocks)[Base(blocks, i) + j] == blocks[i][j]
  {
    hide Flat;
    FlatSplit(blocks, i);
    InPlace(Flat(blocks), Flat(blocks[..i]), blocks[i]);
  }

  lemma InPlace(whole: seq<KV>, a: seq<KV>, b: seq<KV>)
    requires a + b <= whole
    ensures forall j :: 0 <= j < |b| ==> whole[|a| + j] == b[j]
  {
    var ab := a + b;
    forall j | 0 <= j < |b|
      ensures whole[|a| + j] == b[j]
    {
      assert whole[|a| + j] == ab[|a| + j];
    }
  }

  lemma BaseEnds(blocks: seq<seq<KV>>)
    ensures Base(blocks, 0) == 0 && Base(blocks, |blocks|) == |Flat(blocks)|
  {
    assert blocks[..0] == [] && blocks[..|blocks|] == blocks;
  }

  function Prior(n: nat): Option<nat> {
    if n == 0 then None else Some(n - 1)
  }

  /** Up to the end of block i all entries are at or before its index key, all
      later ones after it.  Blocks may be empty. */
  ghost predicate Bracketed(blocks: seq<seq<KV>>, seps: seq<Bytes>) {
    && |seps| == |blocks| && (forall i :: 0 <= i < |seps| ==> |seps[i]| >= 8)
    && forall i, n {:trigger seps[i], Flat(blocks)[n]} :: 0 <= i < |blocks| && 0 <= n < |Flat(blocks)| ==>
         (n < Base(blocks, i + 1) <==> !InternalLess(seps[i], Flat(blocks)[n].key))
  }

  class TwoLevelIterator {
    const blocks: seq<seq<KV>>
    const seps: seq<Bytes>
    /** The index iterator: a block number, or none. */
    var index: Option<nat>
    /** The data iterator: none for a null pointer, else its position. */
    var data: Option<Option<nat>>
    ghost var at: Option<nat>

    ghost predicate Valid()
      reads this
    {
      && |seps| == |blocks|
      && match at
         case None => data == None
         case Some(n) =>
           && index.Some? && index.value < |blocks| && data.Some? && data.value.Some?
           && data.value.value < |blocks[index.value]| && n == Base(blocks, index.value) + data.value.value
    }

    constructor (blocks: seq<seq<KV>>, seps: seq<Bytes>)
      requires |seps| == |blocks|
      ensures Valid() && this.blocks == blocks && this.seps == seps && at == None
    {
      this.blocks, this.seps := blocks, seps;
      index, data, at := None, None, None;
    }

    method Current() returns (kv: KV)
      requires Valid() && at.Some?
      ensures at.value < |Flat(blocks)| && kv == Flat(blocks)[at.value]
    {
      BaseNext(blocks, index.value);
      kv := blocks[index.value][data.value.value];
    }

    /** InitDataBlock with the data iterator then placed at the given end. */
    method Enter(last: bool)
      requires index.Some? ==> index.value < |blocks|
      modifies this`data
      ensures index.None? ==> data == None
      ensures index.Some? ==> data == Some(if last then Prior(|blocks[index.value]|) else Place(0, |blocks[index.value]|))
    {
      if index.None? {
        data := None;
      } else if last {
        data := Some(Prior(|blocks[index.value]|));
      } else {
        data := Some(Place(0, |blocks[index.value]|));
      }
    }

    /** Moves on over exhausted and empty blocks to entry n of the whole. */
    method SkipEmptyDataBlocksForward(ghost n: nat)
      requires |seps| == |blocks| && (index.Some? ==> index.value < |blocks| && data.Some?) && (index.None? ==> data == None)
      requires match data
               case None => n == |Flat(blocks)|
               case Some(None) => n == Base(blocks, index.value + 1)
               case Some(Some(j)) => j < |blocks[index.value]| && n == Base(blocks, index.value) + j
      modifies this
      ensures Valid() && at == Place(n, |Flat(blocks)|)
    {
      hide Base;
      while data.None? || data.value.None?
        invariant (index.Some? ==> index.value < |blocks| && data.Some?) && (index.None? ==> data == None)
        invariant match data
                  case None => n == |Flat(blocks)|
                  case Some(None) => n == Base(blocks, index.value + 1)
                  case Some(Some(j)) => j < |blocks[index.value]| && n == Base(blocks, index.value) + j
        decreases if index.Some? then |blocks| - index.value + 1 else 0
      {
        if index.None? {
          data, at := None, None;
          return;
        }
        if index.value + 1 < |blocks| {
          BaseNext(blocks, index.value + 1);
        }
        BaseEnds(blocks);
        index := Place(index.value + 1, |blocks|);
        Enter(false);
      }
      BaseNext(blocks, index.value);
      at := Some(n);
    }

    /** Moves back over exhausted and empty blocks to the entry before n. */
    method SkipEmptyDataBlocksBackward(ghost n: nat)
      requires |seps| == |blocks| && (index.Some? ==> index.value < |blocks| && data.Some?) && (index.None? ==> data == None)
      requires match data
               case None => n == 0
               case Some(None) => n == Base(blocks, index.value)
               case Some(Some(j)) => j < |blocks[index.value]| && n == Base(blocks, index.value) + j + 1
      modifies this
      ensures Valid() && at == Prior(n)
    {
      hide Base;
      while data.None? || data.value.None?
        invariant (index.Some? ==> index.value < |blocks| && data.Some?) && (index.None? ==> data == None)
        invariant match data
                  case None => n == 0
                  case Some(None) => n == Base(blocks, index.value)
                  case Some(Some(j)) => j < |blocks[index.value]| && n == Base(blocks, index.value) + j + 1
        decreases if index.Some? then index.value + 1 else 0
      {
        if index.None? {
          data, at := None, None;
          return;
        }
        BaseEnds(blocks);
        if index.value > 0 {
          BaseNext(blocks, index.value - 1);
        }
        index := Prior(index.value);
        Enter(true);
      }
      at := Some(n - 1);
    }

    method SeekToFirst()
      requires Valid()
      modifies this
      ensures Valid() && at == Place(0, |Flat(blocks)|)
    {
      index := Place(0, |blocks|);
      Enter(false);
      BaseEnds(blocks);
      if index.Some? {
        BaseNext(blocks, 0);
      }
      hide Base;
      SkipEmptyDataBlocksForward(0);
    }

    method SeekToLast()
      requires Valid()
      modifies this
      ensures Valid() && at == Prior(|Flat(blocks)|)
    {
      index := Prior(|blocks|);
      Enter(true);
      BaseEnds(blocks);
      if index.Some? {
        BaseNext(blocks, index.value);
      }
      hide Base;
      SkipEmptyDataBlocksBackward(|Flat(blocks)|);
    }

    method Next()
      requires Valid() && at.Some?
      modifies this
      ensures Valid() && at == Place(old(at).value + 1, |Flat(blocks)|)
    {
      BaseNext(blocks, index.value);
      hide Base;
      data := Some(Place(data.value.value + 1, |blocks[index.value]|));
      SkipEmptyDataBlocksForward(at.value + 1);
    }

    method Prev()
      requires Valid() && at.Some?
      modifies this
      ensures Valid() && at == Prior(old(at).value)
    {
      BaseNext(blocks, index.value);
      hide Base;
      data := Some(Prior(data.value.value));
      SkipEmptyDataBlocksBackward(at.value);
    }

    /** The index names the only block that can hold the first entry at or
        after the target; if that block ends before it, a later one starts
        with it. */
    method Seek(target: Bytes)
      requires Valid() && KeysOk(Flat(blocks)) && Bracketed(blocks, seps)
      modifies this
      ensures Valid() && at == Place(FirstFrom(InternalLess, Flat(blocks), target), |Flat(blocks)|)
    {
      hide InternalLess; hide Base; hide KeysOk; hide Bracketed; hide Choose; hide FirstFrom; hide Flat;
      var i := Choose(seps, target);
      ChooseIs(seps, target);
      Before(blocks, seps, target, i);
      index := Place(i, |blocks|);
      if index.Some? {
        var j := FirstFrom(InternalLess, blocks[i], target);
        FirstBound(blocks[i], target);
        data := Some(Place(j, |blocks[i]|));
        SeekBlock(blocks, seps, target, i);
      } else {
        data := None;
        SeekNothing(blocks, target);
      }
      SkipEmptyDataBlocksForward(FirstFrom(InternalLess, Flat(blocks), target));
    }
  }

  lemma SeekNothing(blocks: seq<seq<KV>>, target: Bytes)
    requires forall n :: 0 <= n < Base(blocks, |blocks|) <= |Flat(blocks)| ==> InternalLess(Flat(blocks)[n].key, target)
    ensures FirstFrom(InternalLess, Flat(blocks), target) == |Flat(blocks)|
  {
    BaseEnds(blocks);
    FirstIs(InternalLess, Flat(blocks), target, |Flat(blocks)|);
  }

  /** Everything before the chosen block is before the target. */
  lemma Before(blocks: seq<seq<KV>>, seps: seq<Bytes>, target: Bytes, i: nat)
    requires KeysOk(Flat(blocks)) && Bracketed(blocks, seps) && i <= |blocks| && (i > 0 ==> InternalLess(seps[i - 1], target))
    ensures Base(blocks, i) <= |Flat(blocks)|
    ensures forall n :: 0 <= n < Base(blocks, i) ==> InternalLess(Flat(blocks)[n].key, target)
  {
    BaseEnds(blocks);
    if i > 0 {
      BaseNext(blocks, i - 1);
      hide InternalLess; hide Base; hide Flat;
      forall n | 0 <= n < Base(blocks, i)
        ensures InternalLess(Flat(blocks)[n].key, target)
      {
        NotAfter(Flat(blocks)[n].key, seps[i - 1], target);
      }
    }
  }

  lemma SeekBlock(blocks: seq<seq<KV>>, seps: seq<Bytes>, target: Bytes, i: nat)
    requires Bracketed(blocks, seps) && i < |blocks| && !InternalLess(seps[i], target)
    requires Base(blocks, i) <= |Flat(blocks)| && forall n :: 0 <= n < Base(blocks, i) ==> InternalLess(Flat(blocks)[n].key, target)
    ensures var j, n := FirstFrom(InternalLess, blocks[i], target), FirstFrom(InternalLess, Flat(blocks), target);
            n == if j < |blocks[i]| then Base(blocks, i) + j else Base(blocks, i + 1)
  {
    hide InternalLess; hide FirstFrom; hide Flat; hide Base; hide Bracketed;
    var flat, j, base := Flat(blocks), FirstFrom(InternalLess, blocks[i], target), Base(blocks, i);
    BaseNext(blocks, i);
    FirstFacts(blocks[i], target);
    forall n | base <= n < base + j
      ensures InternalLess(flat[n].key, target)
    {
      assert flat[n] == blocks[i][n - base];
    }
    if j == |blocks[i]| && base + j < |flat| {
      NotPast(blocks, seps, target, i);
    }
    FirstIs(InternalLess, flat, target, base + j);
  }

  lemma NotPast(blocks: seq<seq<KV>>, seps: seq<Bytes>, target: Bytes, i: nat)
    requires Bracketed(blocks, seps) && i < |blocks| && !InternalLess(seps[i], target) && Base(blocks, i + 1) < |Flat(blocks)|
    ensures !InternalLess(Flat(blocks)[Base(blocks, i + 1)].key, target)
  {
    hide InternalLess; hide Flat;
    var key := Flat(blocks)[Base(blocks, i + 1)].key;
    assert InternalLess(seps[i], key);
    if InternalLess(key, target) {
      InternalTransitive(seps[i], key, target);
    }
  }

  /** The index a table builder writes is such an index. */
  lemma IndexBrackets(blocks: seq<seq<KV>>, seps: seq<Bytes>)
    requires InKeyOrder(Flat(blocks)) && Indexed(blocks, seps, []) && |seps| == |blocks|
    ensures Bracketed(blocks, seps)
  {
    hide InternalLess; hide Flat; hide InKeyOrder; hide Indexed; hide Separates;
    forall i | 0 <= i < |seps|
      ensures |seps[i]| >= 8
    {
      BlockAt(blocks, seps, i);
      SepAfter(seps[i], blocks[i], NextOf(blocks, [], i));
    }
    forall i, n | 0 <= i < |blocks| && 0 <= n < |Flat(blocks)|
      ensures n < Base(blocks, i + 1) <==> !InternalLess(seps[i], Flat(blocks)[n].key)
    {
      BlockAt(blocks, seps, i);
      if n < Base(blocks, i + 1) {
        UpToSep(blocks, seps, i, n);
      } else {
        PastSep(blocks, seps, i, n);
      }
    }
  }

  lemma UpToSep(blocks: seq<seq<KV>>, seps: seq<Bytes>, i: nat, n: nat)
    requires InKeyOrder(Flat(blocks)) && |seps| == |blocks| && i < |blocks| && blocks[i] != []
    requires Separates(seps[i], blocks[i], NextOf(blocks, [], i)) && n < Base(blocks, i + 1) && n < |Flat(blocks)|
    ensures !InternalLess(seps[i], Flat(blocks)[n].key)
  {
    hide InternalLess; hide Flat;
    LastAt(blocks, i);
    SepAfter(seps[i], blocks[i], NextOf(blocks, [], i));
    hide Separates;
    var flat, last := Flat(blocks), Base(blocks, i + 1) - 1;
    if n < last && InternalLess(seps[i], flat[n].key) {
      InternalTransitive(seps[i], flat[n].key, flat[last].key);
    }
  }

  lemma PastSep(blocks: seq<seq<KV>>, seps: seq<Bytes>, i: nat, n: nat)
    requires InKeyOrder(Flat(blocks)) && Indexed(blocks, seps, []) && |seps| == |blocks| && i < |blocks| && blocks[i] != []
    requires Separates(seps[i], blocks[i], NextOf(blocks, [], i)) && Base(blocks, i + 1) <= n < |Flat(blocks)|
    ensures InternalLess(seps[i], Flat(blocks)[n].key)
  {
    hide InternalLess; hide Flat;
    var flat, first := Flat(blocks), Base(blocks, i + 1);
    if i + 1 < |blocks| {
      BlockAt(blocks, seps, i + 1);
      NextFirst(blocks, i);
      KeysOf(flat);
      assert InternalLess(seps[i], flat[first].key);
      hide Separates; hide Indexed;
      if first < n {
        InternalTransitive(seps[i], flat[first].key, flat[n].key);
      }
    } else {
      BaseEnds(blocks);
    }
  }
}
