/** Which entries of a compaction's sorted input are written out
    (DBImpl::DoCompactionWork, db/db_impl.cc). */
module Survivors {
  import opened Keys
  import opened Versions

  /** Compaction::IsBaseLevelForKey: no file two or more levels below the
      inputs has `user` in its key range. */
  ghost predicate BaseLevel(v: Version, level: nat, user: Rank) {
    forall j, f :: level + 2 <= j < |v| && f in v[j] ==> !(f.smallest.user <= user <= f.largest.user)
  }

  ghost predicate ObsoleteDeletion(v: Version, level: nat, snapshot: nat, k: Key) {
    k.kind.Deletion? && k.seqno <= snapshot && BaseLevel(v, level, k.user)
  }

  /** The loop's decision for the entry at position i. */
  ghost predicate Dropped(v: Version, level: nat, snapshot: nat, input: Table, i: nat)
    requires i < |input|
  {
    || (i > 0 && input[i - 1].key.user == input[i].key.user && input[i - 1].key.seqno <= snapshot)
    || ObsoleteDeletion(v, level, snapshot, input[i].key)
  }

  /** What the first n entries of the input leave in the output. */
  ghost function Kept(v: Version, level: nat, snapshot: nat, input: Table, n: nat): Table
    requires n <= |input|
  {
    if n == 0 then [] else
    var out := Kept(v, level, snapshot, input, n - 1);
    if Dropped(v, level, snapshot, input, n - 1) then out else out + [input[n - 1]]
  }

  /** The same decision without positions: a newer entry of the user key is
      already visible to the oldest snapshot, or e is an obsolete deletion. */
  ghost predicate Gone(v: Version, level: nat, snapshot: nat, input: Table, e: Entry) {
    || (exists x :: Hides(input, snapshot, x, e))
    || ObsoleteDeletion(v, level, snapshot, e.key)
  }

  predicate Hides(input: Table, snapshot: nat, x: Entry, e: Entry) {
    x in input && x.key.user == e.key.user && e.key.seqno < x.key.seqno <= snapshot
  }

  /** Different entries of one user key have different sequence numbers. */
  ghost predicate SeqUnique(input: Table) {
    forall i, j :: 0 <= i < j < |input| ==> input[i].key.user != input[j].key.user || input[i].key.seqno != input[j].key.seqno
  }

  lemma DroppedIsGone(v: Version, level: nat, snapshot: nat, input: Table, i: nat)
    requires i < |input| && Sorted(input) && SeqUnique(input)
    ensures Dropped(v, level, snapshot, input, i) <==> Gone(v, level, snapshot, input, input[i])
  {
    var e := input[i];
    if i > 0 && input[i - 1].key.user == e.key.user && input[i - 1].key.seqno <= snapshot {
      assert Less(input[i - 1].key, input[i].key);
      assert Hides(input, snapshot, input[i - 1], e);
    }
    if x :| Hides(input, snapshot, x, e) {
      var j :| 0 <= j < |input| && input[j] == x;
      assert j < i;
      assert Less(input[j].key, input[i].key);
      assert j == i - 1 || (Less(input[j].key, input[i - 1].key) && Less(input[i - 1].key, input[i].key));
    }
  }

  lemma {:induction false} KeptMembers(v: Version, level: nat, snapshot: nat, input: Table, n: nat)
    requires n <= |input| && Sorted(input) && SeqUnique(input)
    ensures forall e :: e in Kept(v, level, snapshot, input, n) <==>
                          e in input[..n] && !Gone(v, level, snapshot, input, e)
  {
    if n > 0 {
      var out := Kept(v, level, snapshot, input, n - 1);
      var x := input[n - 1];
      KeptMembers(v, level, snapshot, input, n - 1);
      DroppedIsGone(v, level, snapshot, input, n - 1);
      assert Kept(v, level, snapshot, input, n) ==
        if Gone(v, level, snapshot, input, x) then out else out + [x];
      hide *;
      assert input[..n] == input[..n - 1] + [x];
    }
  }

  lemma {:induction false} KeptSorted(v: Version, level: nat, snapshot: nat, input: Table, n: nat)
    requires n <= |input| && Sorted(input)
    ensures var out := Kept(v, level, snapshot, input, n);
            Sorted(out) && forall i, j :: 0 <= i < |out| && n <= j < |input| ==> Less(out[i].key, input[j].key)
  {
    if n > 0 {
      KeptSorted(v, level, snapshot, input, n - 1);
      var out := Kept(v, level, snapshot, input, n - 1);
      var next := Kept(v, level, snapshot, input, n);
      assert next == out || next == out + [input[n - 1]];
      hide Kept;
    }
  }
}
