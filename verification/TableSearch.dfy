/** Searching a table through its index (table/table.cc InternalGet): shortened
    index keys never change an answer. */
module TableSearch {
  import opened Keys
  import opened Coding
  import opened Block
  import opened BlockReading
  import opened Bytewise
  import opened InternalKeys

  function Flat(blocks: seq<seq<KV>>): seq<KV> {
    if blocks == [] then [] else Flat(blocks[..|blocks| - 1]) + blocks[|blocks| - 1]
  }

  ghost predicate KeysOk(kvs: seq<KV>) {
    forall i :: 0 <= i < |kvs| ==> |kvs[i].key| >= 8
  }

  ghost predicate InKeyOrder(kvs: seq<KV>) {
    KeysOk(kvs) && InOrder(InternalLess, kvs)
  }

  function LastKey(block: seq<KV>): Bytes
    requires block != []
  {
    block[|block| - 1].key
  }

  /** The index key of a block: at or after its last key, before the next
      block, and when it is not the last key itself then even of a user key
      before the next block's first. */
  ghost predicate Separates(sep: Bytes, block: seq<KV>, next: seq<KV>)
    requires block != []
  {
    && |sep| >= 8 && !InternalLess(sep, LastKey(block))
    && (next != [] && |next[0].key| >= 8 ==>
          && InternalLess(sep, next[0].key)
          && (sep == LastKey(block) || BytesLess(UserOf(sep), UserOf(next[0].key))))
  }

  function NextOf(blocks: seq<seq<KV>>, tail: seq<KV>, i: nat): seq<KV> {
    if i + 1 < |blocks| then blocks[i + 1] else tail
  }

  /** Blocks and their index keys; `tail` is what follows the last block. */
  ghost predicate Indexed(blocks: seq<seq<KV>>, seps: seq<Bytes>, tail: seq<KV>) {
    && |seps| <= |blocks| && (forall i :: 0 <= i < |blocks| ==> blocks[i] != [])
    && (forall i :: 0 <= i < |seps| ==> Separates(seps[i], blocks[i], NextOf(blocks, tail, i)))
  }

  /** The handle found in the index: the first one whose key is not before k. */
  function Choose(seps: seq<Bytes>, k: Bytes): (i: nat)
    ensures i <= |seps|
    ensures forall j :: 0 <= j < i ==> InternalLess(seps[j], k)
    ensures i < |seps| ==> !InternalLess(seps[i], k)
  {
    if seps == [] || !InternalLess(seps[0], k) then 0
    else
      var i := Choose(seps[1..], k);
      assert forall j :: 1 <= j <= i ==> seps[j] == seps[1..][j - 1];
      1 + i
  }

  /** The entry a lookup stands on, if it belongs to the wanted user key. */
  function SameUser(kvs: seq<KV>, n: nat, k: Bytes): Option<KV>
    requires |k| >= 8
  {
    if n < |kvs| && |kvs[n].key| >= 8 && UserOf(kvs[n].key) == UserOf(k) then Some(kvs[n]) else None
  }

  function LinearGet(kvs: seq<KV>, k: Bytes): Option<KV>
    requires |k| >= 8
  {
    SameUser(kvs, FirstFrom(InternalLess, kvs, k), k)
  }

  function IndexedGet(blocks: seq<seq<KV>>, seps: seq<Bytes>, k: Bytes): Option<KV>
    requires |k| >= 8 && |seps| == |blocks|
  {
    var i := Choose(seps, k);
    if i == |seps| then None else LinearGet(blocks[i], k)
  }

  // ----- positions in the flat list

  lemma {:induction false} FlatSplit(blocks: seq<seq<KV>>, i: nat)
    requires i < |blocks|
    ensures Flat(blocks[..i + 1]) == Flat(blocks[..i]) + blocks[i]
    ensures Flat(blocks) == Flat(blocks[..i + 1]) + Flat(blocks[i + 1..])
    decreases |blocks|
  {
    assert blocks[..i + 1][..i] == blocks[..i];
    var n := |blocks| - 1;
    if i == n {
      assert blocks[..i + 1] == blocks;
    } else {
      var front := blocks[..n];
      FlatSplit(front, i);
      assert front[..i + 1] == blocks[..i + 1];
      assert blocks[i + 1..][..n - i - 1] == front[i + 1..];
    }
  }

  lemma AllBeforeKey(kvs: seq<KV>, n: nat, k: Bytes)
    requires InKeyOrder(kvs) && n < |kvs| && InternalLess(kvs[n].key, k)
    ensures forall j :: 0 <= j <= n ==> InternalLess(kvs[j].key, k)
  {
    hide InternalLess;
    forall j | 0 <= j < n
      ensures InternalLess(kvs[j].key, k)
    {
      InternalTransitive(kvs[j].key, kvs[n].key, k);
    }
  }

  /** A key at or before something less than k is less than k. */
  lemma NotAfter(a: Bytes, sep: Bytes, k: Bytes)
    requires |a| >= 8 && |sep| >= 8 && !InternalLess(sep, a) && InternalLess(sep, k)
    ensures InternalLess(a, k)
  {
    hide BytesLess; hide GetFixed64;
    BytesTotal(UserOf(a), UserOf(sep));
    if BytesLess(UserOf(a), UserOf(sep)) && BytesLess(UserOf(sep), UserOf(k)) {
      BytesTransitive(UserOf(a), UserOf(sep), UserOf(k));
    }
  }

  lemma SepAfter(sep: Bytes, block: seq<KV>, next: seq<KV>)
    requires block != [] && Separates(sep, block, next)
    ensures |sep| >= 8 && !InternalLess(sep, LastKey(block))
  {
  }

  /** Everything before the chosen block is before k. */
  lemma BlocksBefore(blocks: seq<seq<KV>>, seps: seq<Bytes>, tail: seq<KV>, k: Bytes, i: nat)
    requires InKeyOrder(Flat(blocks)) && Indexed(blocks, seps, tail) && i <= |seps| && (i > 0 ==> InternalLess(seps[i - 1], k))
    ensures forall j :: 0 <= j < |Flat(blocks[..i])| ==> InternalLess(Flat(blocks[..i])[j].key, k)
    ensures Flat(blocks[..i]) <= Flat(blocks)
  {
    if i > 0 {
      hide Flat; hide InternalLess; hide Separates; hide InKeyOrder;
      BlockIn(blocks, seps, tail, i - 1);
      KeysOf(Flat(blocks));
      LastAt(blocks, i - 1);
      SepAfter(seps[i - 1], blocks[i - 1], NextOf(blocks, tail, i - 1));
      var n := |Flat(blocks[..i])| - 1;
      LastPrefix(blocks, i - 1);
      NotAfter(LastKey(blocks[i - 1]), seps[i - 1], k);
      AllBeforeKey(Flat(blocks), n, k);
      PrefixBefore(Flat(blocks), Flat(blocks[..i]), k);
    }
  }

  lemma LastPrefix(blocks: seq<seq<KV>>, i: nat)
    requires i < |blocks|
    ensures Flat(blocks[..i + 1]) <= Flat(blocks)
  {
    FlatSplit(blocks, i);
  }

  lemma PrefixBefore(kvs: seq<KV>, part: seq<KV>, k: Bytes)
    requires part <= kvs && forall j :: 0 <= j < |part| ==> InternalLess(kvs[j].key, k)
    ensures forall j :: 0 <= j < |part| ==> InternalLess(part[j].key, k)
  {
  }

  lemma FirstInBlock(kvs: seq<KV>, before: seq<KV>, block: seq<KV>, k: Bytes)
    requires before + block <= kvs && forall j :: 0 <= j < |before| ==> InternalLess(before[j].key, k)
    ensures FirstFrom(InternalLess, block, k) < |block| ==>
              FirstFrom(InternalLess, kvs, k) == |before| + FirstFrom(InternalLess, block, k)
              && kvs[|before| + FirstFrom(InternalLess, block, k)] == block[FirstFrom(InternalLess, block, k)]
    ensures FirstFrom(InternalLess, block, k) == |block| ==> FirstFrom(InternalLess, kvs, k) >= |before| + |block|
  {
    hide InternalLess; hide FirstFrom;
    var n := FirstFrom(InternalLess, block, k);
    FirstFacts(block, k);
    FirstFacts(kvs, k);
    Positions(kvs, before, block);
    if n < |block| {
      FirstIs(InternalLess, kvs, k, |before| + n);
    }
  }

  lemma FirstFacts(kvs: seq<KV>, k: Bytes)
    ensures var n := FirstFrom(InternalLess, kvs, k);
            && n <= |kvs| && (n < |kvs| ==> !InternalLess(kvs[n].key, k))
            && forall j :: 0 <= j < n ==> InternalLess(kvs[j].key, k)
  {
  }

  lemma Positions(kvs: seq<KV>, a: seq<KV>, b: seq<KV>)
    requires a + b <= kvs
    ensures forall j :: 0 <= j < |a| ==> kvs[j] == a[j]
    ensures forall j :: |a| <= j < |a| + |b| ==> kvs[j] == b[j - |a|]
  {
    var ab := a + b;
    forall j | 0 <= j < |ab|
      ensures kvs[j] == ab[j]
    {
    }
  }

  /** When the chosen block ends before k, the next entry is of another user key. */
  lemma OtherUser(sep: Bytes, block: seq<KV>, next: seq<KV>, k: Bytes)
    requires block != [] && |LastKey(block)| >= 8 && next != [] && |next[0].key| >= 8 && |k| >= 8
    requires Separates(sep, block, next) && !InternalLess(sep, k) && InternalLess(LastKey(block), k)
    ensures BytesLess(UserOf(k), UserOf(next[0].key))
  {
    hide BytesLess; hide GetFixed64;
    BytesTotal(UserOf(sep), UserOf(k));
    if BytesLess(UserOf(k), UserOf(sep)) {
      BytesTransitive(UserOf(k), UserOf(sep), UserOf(next[0].key));
    }
  }

  lemma ChooseIs(seps: seq<Bytes>, k: Bytes)
    ensures var i := Choose(seps, k);
            i <= |seps| && (i > 0 ==> InternalLess(seps[i - 1], k)) && (i < |seps| ==> !InternalLess(seps[i], k))
  {
    hide InternalLess;
  }

  lemma NothingFrom(kvs: seq<KV>, k: Bytes)
    requires |k| >= 8 && forall j :: 0 <= j < |kvs| ==> InternalLess(kvs[j].key, k)
    ensures LinearGet(kvs, k) == None
  {
    hide InternalLess;
    FirstIs(InternalLess, kvs, k, |kvs|);
  }

  /** Through the index and one block, the same answer as over the whole list. */
  lemma IndexedGetIsLinear(blocks: seq<seq<KV>>, seps: seq<Bytes>, k: Bytes)
    requires |k| >= 8 && |seps| == |blocks| && InKeyOrder(Flat(blocks)) && Indexed(blocks, seps, [])
    ensures IndexedGet(blocks, seps, k) == LinearGet(Flat(blocks), k)
  {
    hide InKeyOrder; hide Indexed; hide InternalLess; hide Flat; hide Choose; hide LinearGet;
    ChooseIs(seps, k);
    var i := Choose(seps, k);
    BlocksBefore(blocks, seps, [], k, i);
    if i == |blocks| {
      assert blocks[..i] == blocks;
      NothingFrom(Flat(blocks), k);
    } else {
      InOneBlock(blocks, seps, k, i);
    }
  }

  lemma FirstBound(kvs: seq<KV>, k: Bytes)
    ensures FirstFrom(InternalLess, kvs, k) <= |kvs|
  {
  }

  lemma InOneBlock(blocks: seq<seq<KV>>, seps: seq<Bytes>, k: Bytes, i: nat)
    requires |k| >= 8 && |seps| == |blocks| && InKeyOrder(Flat(blocks)) && Indexed(blocks, seps, []) && i < |blocks|
    requires !InternalLess(seps[i], k)
    requires forall j :: 0 <= j < |Flat(blocks[..i])| ==> InternalLess(Flat(blocks[..i])[j].key, k)
    ensures LinearGet(blocks[i], k) == LinearGet(Flat(blocks), k)
  {
    hide InKeyOrder; hide Indexed; hide InternalLess; hide Flat; hide FirstFrom;
    var flat, before := Flat(blocks), Flat(blocks[..i]);
    FlatSplit(blocks, i);
    FirstInBlock(flat, before, blocks[i], k);
    FirstBound(blocks[i], k);
    if FirstFrom(InternalLess, blocks[i], k) == |blocks[i]| {
      BlockEnds(blocks, seps, k, i);
    } else {
      assert before + blocks[i] <= flat;
    }
  }

  lemma BlockEnds(blocks: seq<seq<KV>>, seps: seq<Bytes>, k: Bytes, i: nat)
    requires |k| >= 8 && |seps| == |blocks| && InKeyOrder(Flat(blocks)) && Indexed(blocks, seps, []) && i < |blocks|
    requires !InternalLess(seps[i], k) && FirstFrom(InternalLess, blocks[i], k) == |blocks[i]|
    requires FirstFrom(InternalLess, Flat(blocks), k) >= |Flat(blocks[..i])| + |blocks[i]|
    ensures SameUser(Flat(blocks), FirstFrom(InternalLess, Flat(blocks), k), k) == None
  {
    var flat, n := Flat(blocks), |Flat(blocks[..i + 1])|;
    hide Flat; hide InternalLess; hide Separates; hide FirstFrom; hide InKeyOrder; hide Indexed; hide SameUser; hide UserOf;
    FlatSplit(blocks, i);
    if i + 1 < |blocks| {
      NextIsLater(blocks, seps, k, i);
      KeysOf(flat);
      LaterUser(flat, n, k);
    } else {
      assert blocks[..i + 1] == blocks;
      FirstBound(flat, k);
      NoneSame(flat, k);
    }
  }

  lemma NextIsLater(blocks: seq<seq<KV>>, seps: seq<Bytes>, k: Bytes, i: nat)
    requires |k| >= 8 && |seps| == |blocks| && InKeyOrder(Flat(blocks)) && Indexed(blocks, seps, []) && i + 1 < |blocks|
    requires !InternalLess(seps[i], k) && FirstFrom(InternalLess, blocks[i], k) == |blocks[i]|
    ensures var n := |Flat(blocks[..i + 1])|;
            n < |Flat(blocks)| && |Flat(blocks)[n].key| >= 8 && BytesLess(UserOf(k), UserOf(Flat(blocks)[n].key))
  {
    hide Flat; hide InternalLess; hide Separates; hide FirstFrom; hide InKeyOrder; hide Indexed; hide SameUser; hide UserOf; hide BytesLess;
    BlockAt(blocks, seps, i);
    BlockAt(blocks, seps, i + 1);
    NextFirst(blocks, i);
    LastBefore(blocks[i], k);
    KeysOf(Flat(blocks));
    LastOk(blocks, i);
    OtherUser(seps[i], blocks[i], blocks[i + 1], k);
  }

  lemma BlockIn(blocks: seq<seq<KV>>, seps: seq<Bytes>, tail: seq<KV>, i: nat)
    requires Indexed(blocks, seps, tail) && i < |seps|
    ensures blocks[i] != [] && Separates(seps[i], blocks[i], NextOf(blocks, tail, i))
  {
    hide Separates;
  }

  lemma BlockAt(blocks: seq<seq<KV>>, seps: seq<Bytes>, i: nat)
    requires |seps| == |blocks| && Indexed(blocks, seps, []) && i < |blocks|
    ensures blocks[i] != [] && Separates(seps[i], blocks[i], NextOf(blocks, [], i))
  {
    hide Separates;
  }

  lemma KeysOf(kvs: seq<KV>)
    requires InKeyOrder(kvs)
    ensures KeysOk(kvs)
  {
  }

  lemma LastBefore(block: seq<KV>, k: Bytes)
    requires block != [] && FirstFrom(InternalLess, block, k) == |block|
    ensures InternalLess(LastKey(block), k)
  {
    hide InternalLess;
  }

  lemma NoneSame(kvs: seq<KV>, k: Bytes)
    requires |k| >= 8
    ensures SameUser(kvs, |kvs|, k) == None
  {
  }

  lemma LastOk(blocks: seq<seq<KV>>, i: nat)
    requires i < |blocks| && blocks[i] != [] && KeysOk(Flat(blocks))
    ensures |LastKey(blocks[i])| >= 8
  {
    LastAt(blocks, i);
  }

  lemma LastAt(blocks: seq<seq<KV>>, i: nat)
    requires i < |blocks| && blocks[i] != []
    ensures var n := |Flat(blocks[..i + 1])|; 0 < n <= |Flat(blocks)| && Flat(blocks)[n - 1].key == LastKey(blocks[i])
  {
    FlatSplit(blocks, i);
    var a, b, n := Flat(blocks[..i]), Flat(blocks[..i + 1]), |Flat(blocks[..i + 1])|;
    hide Flat;
    assert Flat(blocks)[n - 1] == b[n - 1] == (a + blocks[i])[n - 1] == blocks[i][|blocks[i]| - 1];
  }

  lemma NextFirst(blocks: seq<seq<KV>>, i: nat)
    requires i + 1 < |blocks| && blocks[i + 1] != []
    ensures var n := |Flat(blocks[..i + 1])|; n < |Flat(blocks)| && Flat(blocks)[n] == blocks[i + 1][0]
  {
    FlatSplit(blocks, i + 1);
    var a, b := Flat(blocks[..i + 1]), Flat(blocks[..i + 2]);
    assert b == a + blocks[i + 1];
    hide Flat;
    assert b[|a|] == blocks[i + 1][0];
  }

  /** The first entry at or after k is not later than one of a later user key. */
  lemma LaterUser(kvs: seq<KV>, n: nat, k: Bytes)
    requires KeysOk(kvs) && |k| >= 8 && n < |kvs| && n <= FirstFrom(InternalLess, kvs, k) && BytesLess(UserOf(k), UserOf(kvs[n].key))
    ensures SameUser(kvs, FirstFrom(InternalLess, kvs, k), k) == None
  {
    var m := FirstFrom(InternalLess, kvs, k);
    hide FirstFrom; hide BytesLess; hide GetFixed64;
    BytesTotal(UserOf(k), UserOf(kvs[n].key));
    assert n < m ==> InternalLess(kvs[n].key, k);
    BytesTotal(UserOf(k), UserOf(k));
  }
}
