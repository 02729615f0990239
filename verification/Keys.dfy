/** Internal keys, entries and sorted tables (db/dbformat.h, db/memtable.cc).

    The user comparator of the program is pluggable: any total order on byte
    strings.  A user key is named here by its rank in that order, a real
    number, so that every comparison the engine makes is a comparison of
    ranks.  Module Bytewise shows that the default comparator has such ranks. */
module Keys {

  type Rank = real

  type Value = seq<int>

  datatype Option<+T> = None | Some(value: T)

  /** kMaxSequenceNumber, (1 << 56) - 1. */
  const MAX_SEQUENCE: nat := 0xFF_FFFF_FFFF_FFFF

  datatype Kind = Deletion | Put

  datatype Key = Key(user: Rank, seqno: nat, kind: Kind)

  datatype Entry = Entry(key: Key, value: Value)

  /** PackSequenceAndType: the sequence number above one byte of value type. */
  function Tag(k: Key): nat {
    k.seqno * 256 + if k.kind.Put? then 1 else 0
  }

  /** InternalKeyComparator::Compare(a, b) < 0: increasing user key, then
      decreasing tag. */
  predicate Less(a: Key, b: Key) {
    a.user < b.user || (a.user == b.user && Tag(a) > Tag(b))
  }

  /** The key LookupKey builds for reading `user` at sequence number `at`. */
  function SeekKey(user: Rank, at: nat): Key {
    Key(user, at, Put)
  }

  type Table = seq<Entry>

  ghost predicate Sorted(t: Table) {
    forall i, j :: 0 <= i < j < |t| ==> Less(t[i].key, t[j].key)
  }

  /** Position of the first entry at or after `key`: what every Seek promises. */
  function LowerBound(t: Table, key: Key): (i: nat)
    ensures i <= |t|
    ensures forall j :: 0 <= j < i ==> Less(t[j].key, key)
    ensures i < |t| ==> !Less(t[i].key, key)
  {
    if t == [] || !Less(t[0].key, key) then 0 else
    var i := LowerBound(t[1..], key);
    assert forall j :: 1 <= j <= i ==> t[j] == t[1..][j - 1];
    1 + i
  }

  /** MemTable::Get and the SaveValue callback of Version::Get: seek, then keep
      the entry only when it belongs to the requested user key. */
  function Find(t: Table, user: Rank, at: nat): Option<Entry> {
    var i := LowerBound(t, SeekKey(user, at));
    if i < |t| && t[i].key.user == user then Some(t[i]) else None
  }

  predicate Visible(t: Table, e: Entry, user: Rank, at: nat) {
    e in t && e.key.user == user && e.key.seqno <= at
  }

  /** One seek finds the newest visible entry, if there is one. */
  lemma FindNewest(t: Table, user: Rank, at: nat)
    requires Sorted(t)
    ensures Find(t, user, at).Some? ==>
              && Visible(t, Find(t, user, at).value, user, at)
              && forall e :: Visible(t, e, user, at) ==> e.key.seqno <= Find(t, user, at).value.key.seqno
    ensures Find(t, user, at).None? ==> forall e :: !Visible(t, e, user, at)
  {
    var i := LowerBound(t, SeekKey(user, at));
    forall e | Visible(t, e, user, at)
      ensures i < |t| && t[i].key.user == user && e.key.seqno <= t[i].key.seqno
    {
      var j :| 0 <= j < |t| && t[j] == e;
      assert i <= j;
      assert i == j || Less(t[i].key, t[j].key);
    }
  }

  /** MemTable::Add into the ordered skip list. */
  function Insert(t: Table, e: Entry): (r: Table)
    ensures |r| == |t| + 1
    ensures forall x :: x in r <==> x in t || x == e
  {
    var i := LowerBound(t, e.key);
    assert t == t[..i] + t[i..];
    t[..i] + [e] + t[i..]
  }

  lemma BehindInsert(t: Table, e: Entry, b: nat)
    requires Sorted(t) && LowerBound(t, e.key) <= b < |t| && forall x :: x in t ==> x.key != e.key
    ensures Less(e.key, t[b].key)
  {
    var i := LowerBound(t, e.key);
    assert b == i || Less(t[i].key, t[b].key);
    assert t[i] in t;
  }

  lemma InsertSorted(t: Table, e: Entry)
    requires Sorted(t)
    requires forall x :: x in t ==> x.key != e.key
    ensures Sorted(Insert(t, e))
  {
    var i := LowerBound(t, e.key);
    var r := Insert(t, e);
    assert forall a :: 0 <= a < |r| ==> r[a] == if a < i then t[a] else if a == i then e else t[a - 1];
    hide Insert; hide LowerBound; hide Less;
    forall b | i <= b < |t|
      ensures Less(e.key, t[b].key)
    {
      BehindInsert(t, e, b);
    }
    forall a, b | 0 <= a < b < |r|
      ensures Less(r[a].key, r[b].key)
    {
      if a < i && b != i {
        assert r[a] == t[a] && Less(t[a].key, t[if b < i then b else b - 1].key);
      }
    }
  }
}
