/** The reference the storage engine is measured against: the plain list of all
    committed writes.  The write with sequence number q is the q-th one. */
module History {
  import opened Keys

  datatype Op = Op(user: Rank, kind: Kind, value: Value)

  type Hist = seq<Op>

  /** The internal entry that write number q becomes. */
  function EntryAt(h: Hist, q: nat): Entry
    requires 1 <= q <= |h|
  {
    Entry(Key(h[q - 1].user, q, h[q - 1].kind), h[q - 1].value)
  }

  /** Number of the last write to `user` among the first `at`, 0 when there is none. */
  function LastWrite(h: Hist, user: Rank, at: nat): (q: nat)
    requires at <= |h|
    ensures q <= at
    ensures q > 0 ==> h[q - 1].user == user
    ensures forall p :: q <= p < at ==> h[p].user != user
  {
    if at == 0 then 0
    else if h[at - 1].user == user then at
    else LastWrite(h, user, at - 1)
  }

  /** What reading `user` at sequence number `at` must answer. */
  function SpecGet(h: Hist, user: Rank, at: nat): Option<Value>
    requires at <= |h|
  {
    var q := LastWrite(h, user, at);
    if q == 0 || h[q - 1].kind.Deletion? then None else Some(h[q - 1].value)
  }

  lemma LastWritePrefix(h: Hist, more: Hist, user: Rank, at: nat)
    requires at <= |h|
    ensures LastWrite(h + more, user, at) == LastWrite(h, user, at)
  {
    var p, q := LastWrite(h + more, user, at), LastWrite(h, user, at);
    assert p > 0 ==> (h + more)[p - 1] == h[p - 1];
    assert q > 0 ==> (h + more)[q - 1] == h[q - 1];
  }

  /** Later writes never change what an earlier sequence number reads. */
  lemma SpecGetStable(h: Hist, h': Hist, user: Rank, at: nat)
    requires h <= h' && at <= |h|
    ensures SpecGet(h', user, at) == SpecGet(h, user, at)
  {
    assert h' == h + h'[|h|..];
    LastWritePrefix(h, h'[|h|..], user, at);
  }

  /** The memtable holding writes lo + 1 .. hi, inserted in commit order. */
  function TableOf(h: Hist, lo: nat, hi: nat): Table
    requires lo <= hi <= |h|
  {
    if lo == hi then [] else Insert(TableOf(h, lo, hi - 1), EntryAt(h, hi))
  }

  lemma LastIsWrite(h: Hist, lo: nat, hi: nat, x: Entry)
    requires lo < hi <= |h|
    ensures IsWrite(h, lo, hi, x) <==> IsWrite(h, lo, hi - 1, x) || x == EntryAt(h, hi)
  {
  }

  lemma NewestKey(h: Hist, lo: nat, hi: nat, t: Table)
    requires lo <= hi < |h| && forall x :: x in t ==> IsWrite(h, lo, hi, x)
    ensures forall x :: x in t ==> x.key != EntryAt(h, hi + 1).key
  {
  }

  lemma {:induction false} TableOfEntries(h: Hist, lo: nat, hi: nat)
    requires lo <= hi <= |h|
    ensures Sorted(TableOf(h, lo, hi))
    ensures forall e :: e in TableOf(h, lo, hi) <==> IsWrite(h, lo, hi, e)
  {
    if lo < hi {
      var t, e := TableOf(h, lo, hi - 1), EntryAt(h, hi);
      assert TableOf(h, lo, hi) == Insert(t, e);
      hide TableOf;
      hide Insert;
      hide Sorted;
      TableOfEntries(h, lo, hi - 1);
      forall x
        ensures IsWrite(h, lo, hi, x) <==> IsWrite(h, lo, hi - 1, x) || x == e
      {
        LastIsWrite(h, lo, hi, x);
      }
      NewestKey(h, lo, hi - 1, t);
      hide IsWrite;
      InsertSorted(t, e);
    }
  }

  /** e is one of the writes numbered lo + 1 .. hi. */
  predicate IsWrite(h: Hist, lo: nat, hi: nat, e: Entry)
    requires hi <= |h|
  {
    lo < e.key.seqno <= hi && e == EntryAt(h, e.key.seqno)
  }

  lemma {:induction false} TableOfLength(h: Hist, lo: nat, hi: nat)
    requires lo <= hi <= |h|
    ensures |TableOf(h, lo, hi)| == hi - lo
  {
    if lo < hi {
      TableOfLength(h, lo, hi - 1);
    }
  }

  lemma {:induction false} TableOfPrefix(h: Hist, more: Hist, lo: nat, hi: nat)
    requires lo <= hi <= |h|
    ensures TableOf(h + more, lo, hi) == TableOf(h, lo, hi)
  {
    if lo < hi {
      TableOfPrefix(h, more, lo, hi - 1);
      assert (h + more)[hi - 1] == h[hi - 1];
    }
  }
}
