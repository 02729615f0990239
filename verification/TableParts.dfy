/** What a table file under construction holds, and how each step of the
    builder extends it. */
module TableParts {
  import opened Keys
  import opened Coding
  import opened Block
  import opened BlockReading
  import opened Bytewise
  import opened InternalKeys
  import opened TableSearch
  import opened TableFormat

  /** Data blocks in the file, where they are, their index keys so far, and the
      entries of the block still being filled. */
  datatype Parts = Parts(file: Bytes, blocks: seq<seq<KV>>, handles: seq<Handle>, seps: seq<Bytes>, tail: seq<KV>)

  ghost predicate StoredAt(file: Bytes, block: seq<KV>, h: Handle, interval: nat)
    requires interval > 0
  {
    HandleOk(h) && Small(block, interval) && ReadBlock(file, h) == Some(BlockBytes(block, interval))
  }

  ghost predicate Stored(file: Bytes, blocks: seq<seq<KV>>, handles: seq<Handle>, interval: nat)
    requires interval > 0
  {
    |handles| == |blocks| && forall i :: 0 <= i < |blocks| ==> StoredAt(file, blocks[i], handles[i], interval)
  }

  function Entries(p: Parts): seq<KV> {
    Flat(p.blocks) + p.tail
  }

  ghost predicate Good(p: Parts, interval: nat) {
    && interval > 0 && Stored(p.file, p.blocks, p.handles, interval)
    && Indexed(p.blocks, p.seps, p.tail) && InKeyOrder(Entries(p))
  }

  function IndexEntries(seps: seq<Bytes>, handles: seq<Handle>): (r: seq<KV>)
    requires |seps| <= |handles|
    ensures |r| == |seps|
  {
    seq(|seps|, i requires 0 <= i < |seps| => KV(seps[i], EncodeHandle(handles[i])))
  }

  /** The separator of the last block, once the first key after it is known. */
  lemma AddSeparator(p: Parts, interval: nat, sep: Bytes, kv: KV)
    requires Good(p, interval) && |p.seps| + 1 == |p.blocks| && p.tail == []
    requires p.blocks[|p.seps|] != [] && Separates(sep, p.blocks[|p.seps|], [kv]) && InKeyOrder(Entries(p) + [kv])
    ensures Good(p.(seps := p.seps + [sep], tail := [kv]), interval)
  {
    hide Stored; hide Separates; hide InKeyOrder;
    var q := p.(seps := p.seps + [sep], tail := [kv]);
    assert Entries(q) == Entries(p) + [kv];
    forall i | 0 <= i < |q.seps|
      ensures Separates(q.seps[i], q.blocks[i], NextOf(q.blocks, q.tail, i))
    {
      if i < |p.seps| {
        assert Separates(p.seps[i], p.blocks[i], NextOf(p.blocks, p.tail, i));
      }
    }
  }

  lemma AddLastSeparator(p: Parts, interval: nat, sep: Bytes)
    requires Good(p, interval) && |p.seps| + 1 == |p.blocks| && p.tail == []
    requires p.blocks[|p.seps|] != [] && Separates(sep, p.blocks[|p.seps|], [])
    ensures Good(p.(seps := p.seps + [sep]), interval)
  {
    hide Stored; hide Separates; hide InKeyOrder;
    var q := p.(seps := p.seps + [sep]);
    forall i | 0 <= i < |q.seps|
      ensures Separates(q.seps[i], q.blocks[i], NextOf(q.blocks, q.tail, i))
    {
      if i < |p.seps| {
        assert Separates(p.seps[i], p.blocks[i], NextOf(p.blocks, p.tail, i));
      }
    }
  }

  /** Another entry for the block being filled. */
  lemma ExtendTail(p: Parts, interval: nat, kv: KV)
    requires Good(p, interval) && (p.tail != [] || p.blocks == []) && InKeyOrder(Entries(p) + [kv])
    ensures Good(p.(tail := p.tail + [kv]), interval)
  {
    hide Stored; hide InKeyOrder;
    var q := p.(tail := p.tail + [kv]);
    assert Entries(q) == Entries(p) + [kv];
    forall i | 0 <= i < |q.seps|
      ensures Separates(q.seps[i], q.blocks[i], NextOf(q.blocks, q.tail, i))
    {
      assert Separates(p.seps[i], p.blocks[i], NextOf(p.blocks, p.tail, i));
      assert p.tail != [] ==> q.tail[0] == p.tail[0];
    }
  }

  /** The block being filled is written to the end of the file. */
  lemma FlushTail(p: Parts, interval: nat)
    requires Good(p, interval) && |p.seps| == |p.blocks| && p.tail != [] && Small(p.tail, interval)
    requires HandleOk(Handle(|p.file|, |BlockBytes(p.tail, interval)|))
    ensures var bytes := BlockBytes(p.tail, interval);
            Good(Parts(p.file + RawBlock(bytes), p.blocks + [p.tail], p.handles + [Handle(|p.file|, |bytes|)], p.seps, []), interval)
  {
    hide Stored; hide Indexed; hide InKeyOrder; hide Flat; hide BlockBytes; hide RawBlock; hide Small;
    FlushStored(p.file, p.blocks, p.handles, interval, p.tail);
    FlushIndexed(p.blocks, p.seps, p.tail);
    FlushFlat(p.blocks, p.tail);
  }

  lemma FlushFlat(blocks: seq<seq<KV>>, tail: seq<KV>)
    ensures Flat(blocks + [tail]) + [] == Flat(blocks) + tail
  {
    assert (blocks + [tail])[..|blocks|] == blocks;
  }

  lemma FlushIndexed(blocks: seq<seq<KV>>, seps: seq<Bytes>, tail: seq<KV>)
    requires Indexed(blocks, seps, tail) && |seps| == |blocks| && tail != []
    ensures Indexed(blocks + [tail], seps, [])
  {
    hide Separates;
    var more := blocks + [tail];
    forall i | 0 <= i < |seps|
      ensures Separates(seps[i], more[i], NextOf(more, [], i))
    {
      assert Separates(seps[i], blocks[i], NextOf(blocks, tail, i));
      assert NextOf(blocks, tail, i) == NextOf(more, [], i);
    }
  }

  lemma FlushStored(file: Bytes, blocks: seq<seq<KV>>, handles: seq<Handle>, interval: nat, tail: seq<KV>)
    requires interval > 0 && Stored(file, blocks, handles, interval) && Small(tail, interval)
    requires HandleOk(Handle(|file|, |BlockBytes(tail, interval)|))
    ensures var bytes := BlockBytes(tail, interval);
            Stored(file + RawBlock(bytes), blocks + [tail], handles + [Handle(|file|, |bytes|)], interval)
  {
    var bytes := BlockBytes(tail, interval);
    hide ReadBlock; hide BlockBytes; hide RawBlock; hide Small;
    StoredRoundTrip(file, bytes, []);
    assert file + RawBlock(bytes) + [] == file + RawBlock(bytes);
    MoreFile(file, blocks, handles, interval, RawBlock(bytes));
    assert StoredAt(file + RawBlock(bytes), tail, Handle(|file|, |bytes|), interval);
    hide StoredAt;
    var blocks', handles' := blocks + [tail], handles + [Handle(|file|, |bytes|)];
    forall i | 0 <= i < |blocks'|
      ensures StoredAt(file + RawBlock(bytes), blocks'[i], handles'[i], interval)
    {
      if i < |blocks| {
        assert StoredAt(file + RawBlock(bytes), blocks[i], handles[i], interval);
      }
    }
  }

  lemma MoreFile(file: Bytes, blocks: seq<seq<KV>>, handles: seq<Handle>, interval: nat, more: Bytes)
    requires interval > 0 && Stored(file, blocks, handles, interval)
    ensures Stored(file + more, blocks, handles, interval)
  {
    hide ReadBlock; hide BlockBytes; hide Small;
    forall i | 0 <= i < |blocks|
      ensures StoredAt(file + more, blocks[i], handles[i], interval)
    {
      assert StoredAt(file, blocks[i], handles[i], interval);
      StoredStays(file, handles[i], more);
    }
  }

  // ----- the index

  /** Index keys increase strictly. */
  lemma IndexSorted(p: Parts, interval: nat)
    requires Good(p, interval) && |p.seps| == |p.blocks| && p.tail == []
    ensures InOrder(InternalLess, IndexEntries(p.seps, p.handles))
  {
    assert Entries(p) == Flat(p.blocks);
    hide Stored; hide InternalLess; hide Flat; hide InKeyOrder;
    var kvs := IndexEntries(p.seps, p.handles);
    forall i, j | 0 <= i < j < |kvs|
      ensures InternalLess(kvs[i].key, kvs[j].key)
    {
      SepsSorted(p.blocks, p.seps, i, j);
    }
  }

  lemma {:induction false} SepsSorted(blocks: seq<seq<KV>>, seps: seq<Bytes>, i: nat, j: nat)
    requires InKeyOrder(Flat(blocks)) && Indexed(blocks, seps, []) && |seps| == |blocks| && i < j < |seps|
    ensures InternalLess(seps[i], seps[j])
    decreases j
  {
    hide Flat; hide InKeyOrder; hide InternalLess; hide Separates; hide Indexed;
    BlockAt(blocks, seps, j - 1);
    BlockAt(blocks, seps, j);
    StepSorted(blocks, seps, j - 1);
    if i < j - 1 {
      SepsSorted(blocks, seps, i, j - 1);
      InternalTransitive(seps[i], seps[j - 1], seps[j]);
    }
  }

  lemma StepSorted(blocks: seq<seq<KV>>, seps: seq<Bytes>, i: nat)
    requires InKeyOrder(Flat(blocks)) && Indexed(blocks, seps, []) && |seps| == |blocks| && i + 1 < |seps|
    ensures InternalLess(seps[i], seps[i + 1])
  {
    hide Flat; hide InternalLess; hide Indexed; hide InKeyOrder;
    BlockAt(blocks, seps, i);
    BlockAt(blocks, seps, i + 1);
    KeysOf(Flat(blocks));
    NextFirst(blocks, i);
    LastOk(blocks, i + 1);
    FirstLast(blocks, i + 1);
    var first, last := blocks[i + 1][0].key, LastKey(blocks[i + 1]);
    assert InternalLess(seps[i], first) && |first| >= 8;
    SepAfter(seps[i + 1], blocks[i + 1], NextOf(blocks, [], i + 1));
    NotBefore(first, last, seps[i + 1], seps[i]);
  }

  /** A block's first key is not after its last. */
  lemma FirstLast(blocks: seq<seq<KV>>, i: nat)
    requires InKeyOrder(Flat(blocks)) && i < |blocks| && blocks[i] != []
    ensures !InternalLess(LastKey(blocks[i]), blocks[i][0].key)
  {
    hide InternalLess;
    FlatSplit(blocks, i);
    var flat, a, b := Flat(blocks), Flat(blocks[..i]), Flat(blocks[..i + 1]);
    hide Flat;
    var x, y := |a|, |b| - 1;
    assert flat[x] == b[x] == (a + blocks[i])[x] == blocks[i][0];
    assert flat[y] == b[y] == (a + blocks[i])[y] == blocks[i][|blocks[i]| - 1];
    InternalAsymmetric(flat[x].key, flat[y].key);
    assert x < y ==> InternalLess(flat[x].key, flat[y].key);
  }

  lemma NotBefore(first: Bytes, last: Bytes, sep: Bytes, a: Bytes)
    requires |first| >= 8 && |last| >= 8 && |sep| >= 8 && |a| >= 8
    requires InternalLess(a, first) && !InternalLess(last, first) && !InternalLess(sep, last)
    ensures InternalLess(a, sep)
  {
    hide BytesLess; hide GetFixed64;
    WeakOrder(a, first, last);
    WeakOrder(a, last, sep);
  }

  /** From a < b and b not after c: a < c. */
  lemma WeakOrder(a: Bytes, b: Bytes, c: Bytes)
    requires |b| >= 8 && |c| >= 8 && InternalLess(a, b) && !InternalLess(c, b)
    ensures InternalLess(a, c)
  {
    hide BytesLess; hide GetFixed64;
    BytesTotal(UserOf(b), UserOf(c));
    if BytesLess(UserOf(a), UserOf(b)) && BytesLess(UserOf(b), UserOf(c)) {
      BytesTransitive(UserOf(a), UserOf(b), UserOf(c));
    }
  }
}
