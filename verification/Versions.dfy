/** Versions of the file set (db/version_set.cc) and what a version holds. */
module Versions {
  import opened Keys
  import opened History

  const NUM_LEVELS: nat := 7

  datatype File = File(number: nat, smallest: Key, largest: Key)

  type Level = set<File>

  /** One set of files per level; the order inside a level is by smallest key. */
  type Version = seq<Level>

  /** Table files on disk, by file number. */
  type Tables = map<nat, Table>

  predicate InFile(tb: Tables, f: File, e: Entry) {
    f.number in tb && e in tb[f.number]
  }

  ghost predicate InLevel(tb: Tables, lv: Level, e: Entry) {
    exists f :: f in lv && InFile(tb, f, e)
  }

  ghost predicate InVersion(tb: Tables, v: Version, e: Entry) {
    exists l :: 0 <= l < |v| && InLevel(tb, v[l], e)
  }

  /** Metadata agrees with the table on disk. */
  ghost predicate FileOk(tb: Tables, f: File) {
    f.number in tb && TableOk(tb[f.number], f)
  }

  ghost predicate TableOk(t: Table, f: File) {
    t != [] && Sorted(t) && t[0].key == f.smallest && t[|t| - 1].key == f.largest
  }

  lemma InFileRange(tb: Tables, f: File, e: Entry)
    requires FileOk(tb, f) && InFile(tb, f, e)
    ensures !Less(e.key, f.smallest) && !Less(f.largest, e.key)
  {
  }

  lemma FileBounds(tb: Tables, f: File)
    requires FileOk(tb, f)
    ensures !Less(f.largest, f.smallest)
  {
    assert InFile(tb, f, tb[f.number][0]);
    InFileRange(tb, f, tb[f.number][0]);
  }

  ghost predicate LevelOk(tb: Tables, lv: Level) {
    && (forall f :: f in lv ==> FileOk(tb, f))
    && (forall f, g :: f in lv && g in lv && f.number == g.number ==> f == g)
  }

  /** Levels above 0: key ranges of different files do not meet. */
  ghost predicate Disjoint(lv: Level) {
    forall f, g :: f in lv && g in lv && f != g ==> Less(f.largest, g.smallest) || Less(g.largest, f.smallest)
  }

  /** Level 0: a file with a larger number was written later. */
  ghost predicate AgeOrdered(tb: Tables, lv: Level) {
    forall f, g, x, y :: f in lv && g in lv && f.number < g.number && InFile(tb, f, x) && InFile(tb, g, y) ==>
      x.key.seqno < y.key.seqno
  }

  /** Newer entries of a user key live in shallower levels. */
  ghost predicate Layered(tb: Tables, v: Version) {
    forall a, b, x, y :: 0 <= a < b < |v| && InLevel(tb, v[a], x) && InLevel(tb, v[b], y) && x.key.user == y.key.user ==>
      x.key.seqno > y.key.seqno
  }

  ghost predicate Truthful(tb: Tables, v: Version, h: Hist, flushed: nat)
    requires flushed <= |h|
  {
    forall e :: InVersion(tb, v, e) ==> IsWrite(h, 0, flushed, e)
  }

  ghost predicate Sound(tb: Tables, v: Version) {
    && |v| == NUM_LEVELS
    && (forall l :: 0 <= l < |v| ==> LevelOk(tb, v[l]))
    && (forall l :: 1 <= l < |v| ==> Disjoint(v[l]))
    && AgeOrdered(tb, v[0])
    && Layered(tb, v)
  }

  // ----- instances of the invariant for one file or one pair

  lemma SoundFile(tb: Tables, v: Version, l: nat, f: File)
    requires Sound(tb, v) && l < |v| && f in v[l]
    ensures FileOk(tb, f)
  {
    hide Layered;
    hide FileOk;
    assert LevelOk(tb, v[l]);
  }

  lemma SoundPair(tb: Tables, v: Version, l: nat, f: File, g: File)
    requires Sound(tb, v) && 1 <= l < |v| && f in v[l] && g in v[l] && f != g
    ensures Less(f.largest, g.smallest) || Less(g.largest, f.smallest)
  {
    hide Layered;
    hide LevelOk;
    assert Disjoint(v[l]);
  }

  lemma SoundOrder(tb: Tables, v: Version, a: nat, x: Entry, b: nat, y: Entry)
    requires Sound(tb, v) && a < |v| && b < |v| && a != b
    requires InLevel(tb, v[a], x) && InLevel(tb, v[b], y) && x.key.user == y.key.user
    ensures a < b <==> x.key.seqno > y.key.seqno
    ensures x.key.seqno != y.key.seqno
  {
    hide InLevel;
    hide LevelOk;
    hide Disjoint;
    hide AgeOrdered;
  }

  lemma InFileInLevel(tb: Tables, v: Version, l: nat, f: File, e: Entry)
    requires l < |v| && f in v[l] && InFile(tb, f, e)
    ensures InLevel(tb, v[l], e) && InVersion(tb, v, e)
  {
  }

  lemma TrueEntry(tb: Tables, v: Version, h: Hist, flushed: nat, l: nat, f: File, e: Entry)
    requires flushed <= |h| && Truthful(tb, v, h, flushed)
    requires l < |v| && f in v[l] && InFile(tb, f, e)
    ensures IsWrite(h, 0, flushed, e)
  {
    InFileInLevel(tb, v, l, f, e);
  }

  // ----- reading a version as a set of entries

  ghost predicate Sees(tb: Tables, v: Version, user: Rank, at: nat, e: Entry) {
    InVersion(tb, v, e) && e.key.user == user && e.key.seqno <= at
  }

  ghost predicate IsNewest(tb: Tables, v: Version, user: Rank, at: nat, e: Entry) {
    Sees(tb, v, user, at, e) && forall x :: Sees(tb, v, user, at, x) ==> x.key.seqno <= e.key.seqno
  }

  function ValueOf(e: Entry): Option<Value> {
    if e.key.kind.Deletion? then None else Some(e.value)
  }

  /** r is what reading `user` at sequence number `at` answers. */
  ghost predicate Reads(tb: Tables, v: Version, user: Rank, at: nat, r: Option<Value>) {
    || (exists e :: IsNewest(tb, v, user, at, e) && r == ValueOf(e))
    || (r == None && forall e :: !Sees(tb, v, user, at, e))
  }

  lemma {:induction false} NewestExists(tb: Tables, v: Version, user: Rank, at: nat, e: Entry)
    requires Sees(tb, v, user, at, e)
    ensures exists n :: IsNewest(tb, v, user, at, n)
    decreases at - e.key.seqno
  {
    if x :| Sees(tb, v, user, at, x) && x.key.seqno > e.key.seqno {
      NewestExists(tb, v, user, at, x);
    } else {
      assert IsNewest(tb, v, user, at, e);
    }
  }

  lemma ReadsTotal(tb: Tables, v: Version, user: Rank, at: nat) returns (r: Option<Value>)
    ensures Reads(tb, v, user, at, r)
  {
    if e :| Sees(tb, v, user, at, e) {
      NewestExists(tb, v, user, at, e);
      var n :| IsNewest(tb, v, user, at, n);
      r := ValueOf(n);
    } else {
      r := None;
    }
  }

  lemma ReadsUnique(tb: Tables, v: Version, h: Hist, flushed: nat, user: Rank, at: nat, r: Option<Value>, r': Option<Value>)
    requires flushed <= |h| && Truthful(tb, v, h, flushed)
    requires Reads(tb, v, user, at, r) && Reads(tb, v, user, at, r')
    ensures r == r'
  {
    if x :| IsNewest(tb, v, user, at, x) && r == ValueOf(x) {
      assert Sees(tb, v, user, at, x);
      var y :| IsNewest(tb, v, user, at, y) && r' == ValueOf(y);
      assert Sees(tb, v, user, at, y);
      assert x.key.seqno == y.key.seqno;
      assert IsWrite(h, 0, flushed, x) && IsWrite(h, 0, flushed, y);
    }
  }

  /** Every key whose last write is in table files reads, from the files alone
      and at every sequence number from `low` on, what the history says. */
  ghost predicate Covered(tb: Tables, v: Version, h: Hist, flushed: nat, low: nat)
    requires flushed <= |h|
  {
    forall user, at :: low <= at <= |h| && LastWrite(h, user, at) <= flushed ==>
      Reads(tb, v, user, at, SpecGet(h, user, at))
  }
}
