/** Where a flushed memtable may go and what a trivial move does
    (Version::PickLevelForMemTableOutput, DBImpl::BackgroundCompaction). */
module Placement {
  import opened Keys
  import opened History
  import opened Versions
  import opened Compaction
  import opened Install

  /** No file down to and including `level` has a user key of the table's
      range; level 0 needs nothing. */
  ghost predicate Fits(v: Version, level: nat, t: Table)
    requires t != []
  {
    level < |v| && (level > 0 ==> forall j, f :: 0 <= j <= level && f in v[j] ==>
      !Meets(f, t[0].key.user, t[|t| - 1].key.user))
  }

  function Placed(v: Version, level: nat, n0: nat, t: Table): Version
    requires level < |v| && t != []
  {
    v[level := v[level] + NewFiles([t], n0)]
  }

  /** The writes after `flushed`, in a table of their own. */
  ghost predicate NewWrites(h: Hist, flushed: nat, upto: nat, t: Table) {
    && flushed <= upto <= |h| && t != [] && Sorted(t)
    && forall e :: e in t ==> IsWrite(h, flushed, upto, e)
  }

  lemma PlacedMembers(tb: Tables, v: Version, level: nat, n0: nat, t: Table, j: nat, e: Entry)
    requires level < |v| && t != [] && AllOlder(v, n0) && j < |v|
    ensures InLevel(NewTables(tb, [t], n0), Placed(v, level, n0, t)[j], e) <==>
              InLevel(tb, v[j], e) || (j == level && e in t)
  {
    assert Chunks([t]) && Numbered(v[j], n0);
    assert Placed(v, level, n0, t)[j] == if j == level then v[j] + NewFiles([t], n0) else v[j];
    assert Flatten([t]) == t by {
      assert [t][1..] == [];
      assert Flatten([t]) == t + [];
    }
    hide *;
    if j == level {
      NewLevelMembers(tb, v[j], [t], n0, e);
    } else {
      OldLevelMembers(tb, v[j], [t], n0, e);
    }
  }

  lemma PlacedVersion(tb: Tables, v: Version, level: nat, n0: nat, t: Table, e: Entry)
    requires level < |v| && t != [] && AllOlder(v, n0)
    ensures InVersion(NewTables(tb, [t], n0), Placed(v, level, n0, t), e) <==> InVersion(tb, v, e) || e in t
  {
    var tb', v' := NewTables(tb, [t], n0), Placed(v, level, n0, t);
    hide InLevel; hide AllOlder; hide NewTables;
    assert |v'| == |v|;
    hide Placed;
    forall j: nat | j < |v|
      ensures InLevel(tb', v'[j], e) <==> InLevel(tb, v[j], e) || (j == level && e in t)
    {
      PlacedMembers(tb, v, level, n0, t, j, e);
    }
  }

  lemma SortedRange(t: Table, e: Entry)
    requires t != [] && Sorted(t) && e in t
    ensures t[0].key.user <= e.key.user <= t[|t| - 1].key.user
  {
    var i :| 0 <= i < |t| && t[i] == e;
    assert i > 0 ==> Less(t[0].key, t[i].key);
    assert i < |t| - 1 ==> Less(t[i].key, t[|t| - 1].key);
  }

  /** An entry above the chosen level does not share a user key with the table. */
  lemma FitsAbove(tb: Tables, v: Version, level: nat, t: Table, j: nat, x: Entry, e: Entry)
    requires Sound(tb, v) && t != [] && Sorted(t) && Fits(v, level, t) && level > 0
    requires j <= level && InLevel(tb, v[j], x) && e in t
    ensures x.key.user != e.key.user
  {
    hide Sound;
    var f :| f in v[j] && InFile(tb, f, x);
    assert !Meets(f, t[0].key.user, t[|t| - 1].key.user);
    hide Fits;
    SoundFile(tb, v, j, f);
    InFileRange(tb, f, x);
    hide FileOk;
    SortedRange(t, e);
  }

  lemma LevelTrue(tb: Tables, v: Version, h: Hist, flushed: nat, j: nat, x: Entry)
    requires flushed <= |h| && Truthful(tb, v, h, flushed) && j < |v| && InLevel(tb, v[j], x)
    ensures IsWrite(h, 0, flushed, x)
  {
    assert InVersion(tb, v, x);
  }

  lemma PlacedLayered(tb: Tables, v: Version, h: Hist, flushed: nat, upto: nat, level: nat, n0: nat, t: Table)
    requires Sound(tb, v) && AllOlder(v, n0) && NewWrites(h, flushed, upto, t)
    requires Truthful(tb, v, h, flushed) && Fits(v, level, t)
    ensures Layered(NewTables(tb, [t], n0), Placed(v, level, n0, t))
  {
    var tb', v' := NewTables(tb, [t], n0), Placed(v, level, n0, t);
    hide Sound; hide AllOlder; hide Truthful; hide InLevel; hide NewTables;
    assert |v'| == |v|;
    hide Placed; hide Fits;
    forall a: nat, b: nat, x, y |
      a < b < |v'| && InLevel(tb', v'[a], x) && InLevel(tb', v'[b], y) && x.key.user == y.key.user
      ensures x.key.seqno > y.key.seqno
    {
      PlacedMembers(tb, v, level, n0, t, a, x);
      PlacedMembers(tb, v, level, n0, t, b, y);
      PlacedOrder(tb, v, h, flushed, upto, level, t, a, x, b, y);
    }
  }

  lemma PlacedOrder(tb: Tables, v: Version, h: Hist, flushed: nat, upto: nat, level: nat, t: Table,
                    a: nat, x: Entry, b: nat, y: Entry)
    requires Sound(tb, v) && NewWrites(h, flushed, upto, t)
    requires Truthful(tb, v, h, flushed) && Fits(v, level, t)
    requires a < b < |v| && x.key.user == y.key.user
    requires InLevel(tb, v[a], x) || (a == level && x in t)
    requires InLevel(tb, v[b], y) || (b == level && y in t)
    ensures x.key.seqno > y.key.seqno
  {
    hide Sound; hide Truthful; hide InLevel; hide Fits; hide Sorted;
    if InLevel(tb, v[a], x) && InLevel(tb, v[b], y) {
      SoundOrder(tb, v, a, x, b, y);
    } else if InLevel(tb, v[b], y) {
      LevelTrue(tb, v, h, flushed, b, y);
      assert IsWrite(h, flushed, upto, x);
    } else {
      FitsAbove(tb, v, level, t, a, x, y);
    }
  }

  lemma PlacedDisjoint(tb: Tables, v: Version, level: nat, n0: nat, t: Table)
    requires Sound(tb, v) && t != [] && Sorted(t) && Fits(v, level, t) && level > 0
    ensures Disjoint(v[level] + NewFiles([t], n0))
  {
    SoundLevel(tb, v, level);
    hide Sound;
    var n := FileOf(n0, t);
    OneNewFile(t, n0);
    forall f | f in v[level]
      ensures Less(f.largest, n.smallest) || Less(n.largest, f.smallest)
    {
      assert !Meets(f, t[0].key.user, t[|t| - 1].key.user);
    }
    hide NewFiles; hide Fits; hide Sorted; hide Less;
  }

  lemma OneNewFile(t: Table, n0: nat)
    requires t != []
    ensures Chunks([t]) && NewFiles([t], n0) == {FileOf(n0, t)}
  {
    assert FileOf(n0 + 0, [t][0]) in NewFiles([t], n0);
  }

  lemma PlacedAge(tb: Tables, v: Version, h: Hist, flushed: nat, upto: nat, n0: nat, t: Table)
    requires Sound(tb, v) && AllOlder(v, n0) && NewWrites(h, flushed, upto, t) && Truthful(tb, v, h, flushed)
    ensures AgeOrdered(NewTables(tb, [t], n0), v[0] + NewFiles([t], n0))
  {
    hide Sound; hide Truthful; hide NewTables; hide InFile; hide Sorted; hide NewFiles;
    var tb', n := NewTables(tb, [t], n0), FileOf(n0, t);
    OneNewFile(t, n0);
    SoundLength(tb, v);
    assert Numbered(v[0], n0);
    hide AllOlder;
    SoundLevel(tb, v, 0);
    OldLevelOk(tb, v[0], [t], n0);
    hide LevelOk;
    NewFile(tb, [t], n0, 0);
    assert forall e :: InFile(tb', n, e) <==> e in t;
    forall f, x | f in v[0] && InFile(tb', f, x)
      ensures x.key.seqno <= flushed
    {
      OldFiles(tb, [t], n0, f);
      TrueEntry(tb, v, h, flushed, 0, f, x);
    }
    forall x | x in t
      ensures x.key.seqno > flushed
    {
    }
    AgeExtends(tb', v[0], n, flushed);
  }

  lemma AgeExtends(tb: Tables, lv: Level, n: File, flushed: nat)
    requires AgeOrdered(tb, lv) && Numbered(lv, n.number)
    requires forall f, x :: f in lv && InFile(tb, f, x) ==> x.key.seqno <= flushed
    requires forall x :: InFile(tb, n, x) ==> x.key.seqno > flushed
    ensures AgeOrdered(tb, lv + {n})
  {
    hide InFile;
  }

  /** A flushed memtable, placed where it fits, leaves a sound version. */
  lemma PlacedSound(tb: Tables, v: Version, h: Hist, flushed: nat, upto: nat, level: nat, n0: nat, t: Table)
    requires Sound(tb, v) && AllOlder(v, n0) && NewWrites(h, flushed, upto, t)
    requires Truthful(tb, v, h, flushed) && Fits(v, level, t)
    ensures Sound(NewTables(tb, [t], n0), Placed(v, level, n0, t))
    ensures Truthful(NewTables(tb, [t], n0), Placed(v, level, n0, t), h, upto)
  {
    var tb', v' := NewTables(tb, [t], n0), Placed(v, level, n0, t);
    PlacedLayered(tb, v, h, flushed, upto, level, n0, t);
    hide Sound; hide AllOlder; hide Truthful; hide NewTables; hide Sorted; hide Layered;
    forall l: nat | l < |v|
      ensures LevelOk(tb', v'[l]) && (l > 0 ==> Disjoint(v'[l])) && (l == 0 ==> AgeOrdered(tb', v'[l]))
    {
      PlacedLevel(tb, v, h, flushed, upto, level, n0, t, l);
    }
    SoundLength(tb, v);
    assert Sound(tb', v') by {
      hide LevelOk; hide Disjoint; hide AgeOrdered;
      SoundIntro(tb', v');
    }
    PlacedTruthful(tb, v, h, flushed, upto, level, n0, t);
  }

  lemma PlacedTruthful(tb: Tables, v: Version, h: Hist, flushed: nat, upto: nat, level: nat, n0: nat, t: Table)
    requires AllOlder(v, n0) && NewWrites(h, flushed, upto, t) && level < |v| && Truthful(tb, v, h, flushed)
    ensures Truthful(NewTables(tb, [t], n0), Placed(v, level, n0, t), h, upto)
  {
    hide AllOlder; hide NewTables; hide Placed; hide InVersion; hide Sorted;
    forall e | InVersion(NewTables(tb, [t], n0), Placed(v, level, n0, t), e)
      ensures IsWrite(h, 0, upto, e)
    {
      PlacedVersion(tb, v, level, n0, t, e);
    }
  }

  lemma PlacedLevel(tb: Tables, v: Version, h: Hist, flushed: nat, upto: nat, level: nat, n0: nat, t: Table, l: nat)
    requires Sound(tb, v) && AllOlder(v, n0) && NewWrites(h, flushed, upto, t)
    requires Truthful(tb, v, h, flushed) && Fits(v, level, t) && l < |v|
    ensures var tb', v' := NewTables(tb, [t], n0), Placed(v, level, n0, t);
            LevelOk(tb', v'[l]) && (l > 0 ==> Disjoint(v'[l])) && (l == 0 ==> AgeOrdered(tb', v'[l]))
  {
    hide Sound; hide Truthful; hide NewTables;
    assert level < |v|;
    assert Chunks([t]) && Numbered(v[l], n0);
    assert Placed(v, level, n0, t)[l] == if l == level then v[l] + NewFiles([t], n0) else v[l];
    assert Flatten([t]) == t by {
      assert [t][1..] == [];
      assert Flatten([t]) == t + [];
    }
    assert t != [] && Sorted(t);
    hide *;
    SoundLevel(tb, v, l);
    if l == level {
      NewLevelOk(tb, v[l], [t], n0);
      if l > 0 {
        PlacedDisjoint(tb, v, level, n0, t);
      } else {
        PlacedAge(tb, v, h, flushed, upto, n0, t);
      }
    } else {
      OldLevelOk(tb, v[l], [t], n0);
    }
  }
}
