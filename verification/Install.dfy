/** Installing the outcome of a compaction, a flush or a trivial move keeps a
    version sound (VersionSet::LogAndApply and Builder::SaveTo). */
module Install {
  import opened Keys
  import opened History
  import opened Versions
  import opened Compaction

  function FileOf(number: nat, t: Table): File
    requires t != []
  {
    File(number, t[0].key, t[|t| - 1].key)
  }

  function Flatten(outs: seq<Table>): Table {
    if outs == [] then [] else outs[0] + Flatten(outs[1..])
  }

  lemma {:induction false} FlattenMembers(outs: seq<Table>)
    ensures forall e :: e in Flatten(outs) <==> exists i :: 0 <= i < |outs| && e in outs[i]
  {
    if outs != [] {
      FlattenMembers(outs[1..]);
      forall e
        ensures e in Flatten(outs) <==> exists i :: 0 <= i < |outs| && e in outs[i]
      {
        if i :| 0 <= i < |outs| && e in outs[i] {
          if i > 0 {
            assert outs[1..][i - 1] == outs[i];
          }
        }
        if i :| 0 <= i < |outs[1..]| && e in outs[1..][i] {
          assert outs[1..][i] == outs[i + 1];
        }
      }
    }
  }

  /** Tables cut from one sorted table, none empty, are sorted and in order. */
  lemma {:induction false} FlattenSorted(outs: seq<Table>)
    requires Sorted(Flatten(outs))
    ensures forall i :: 0 <= i < |outs| ==> Sorted(outs[i])
    ensures forall i, j, x, y :: 0 <= i < j < |outs| && x in outs[i] && y in outs[j] ==> Less(x.key, y.key)
  {
    if outs != [] {
      var rest := Flatten(outs[1..]);
      SortedParts(outs[0], rest);
      FlattenSorted(outs[1..]);
      FlattenMembers(outs[1..]);
      forall i | 0 <= i < |outs|
        ensures Sorted(outs[i])
      {
        assert i > 0 ==> outs[i] == outs[1..][i - 1];
      }
      forall i, j, x, y | 0 <= i < j < |outs| && x in outs[i] && y in outs[j]
        ensures Less(x.key, y.key)
      {
        hide Sorted; hide Less;
        assert outs[j] == outs[1..][j - 1];
        if i > 0 {
          assert outs[i] == outs[1..][i - 1];
        } else {
          assert y in rest;
        }
      }
    }
  }

  lemma SortedParts(a: Table, b: Table)
    requires Sorted(a + b)
    ensures Sorted(a) && Sorted(b)
    ensures forall x, y :: x in a && y in b ==> Less(x.key, y.key)
  {
    var t := a + b;
    assert forall i :: 0 <= i < |a| ==> a[i] == t[i];
    assert forall i :: 0 <= i < |b| ==> b[i] == t[|a| + i];
    forall x, y | x in a && y in b
      ensures Less(x.key, y.key)
    {
      var i :| 0 <= i < |a| && a[i] == x;
      var j :| 0 <= j < |b| && b[j] == y;
      assert Less(t[i].key, t[|a| + j].key);
    }
  }

  // ----- new tables under fresh numbers

  ghost predicate Chunks(outs: seq<Table>) {
    forall i :: 0 <= i < |outs| ==> outs[i] != []
  }

  function NewFiles(outs: seq<Table>, n0: nat): Level
    requires Chunks(outs)
  {
    set i | 0 <= i < |outs| :: FileOf(n0 + i, outs[i])
  }

  function NewTables(tb: Tables, outs: seq<Table>, n0: nat): Tables {
    tb + map n | n0 <= n < n0 + |outs| :: TableAt(outs, n0, n)
  }

  function TableAt(outs: seq<Table>, n0: nat, n: nat): Table
    requires n0 <= n < n0 + |outs|
  {
    outs[n - n0]
  }

  ghost predicate Numbered(lv: Level, n0: nat) {
    forall f :: f in lv ==> f.number < n0
  }

  lemma OldFiles(tb: Tables, outs: seq<Table>, n0: nat, f: File)
    requires f.number < n0
    ensures FileOk(tb, f) ==> FileOk(NewTables(tb, outs, n0), f)
    ensures forall e :: InFile(NewTables(tb, outs, n0), f, e) <==> InFile(tb, f, e)
  {
  }

  lemma NewFile(tb: Tables, outs: seq<Table>, n0: nat, i: nat)
    requires i < |outs| && outs[i] != []
    ensures forall e :: InFile(NewTables(tb, outs, n0), FileOf(n0 + i, outs[i]), e) <==> e in outs[i]
    ensures Sorted(outs[i]) ==> FileOk(NewTables(tb, outs, n0), FileOf(n0 + i, outs[i]))
  {
    assert n0 + i in NewTables(tb, outs, n0);
  }

  lemma NewLevelMembers(tb: Tables, lv: Level, outs: seq<Table>, n0: nat, e: Entry)
    requires Numbered(lv, n0) && Chunks(outs)
    ensures InLevel(NewTables(tb, outs, n0), lv + NewFiles(outs, n0), e) <==> InLevel(tb, lv, e) || e in Flatten(outs)
  {
    var tb' := NewTables(tb, outs, n0);
    FlattenMembers(outs);
    if f :| f in lv + NewFiles(outs, n0) && InFile(tb', f, e) {
      if f in lv {
        OldFiles(tb, outs, n0, f);
      } else {
        var i :| 0 <= i < |outs| && f == FileOf(n0 + i, outs[i]);
        NewFile(tb, outs, n0, i);
      }
    }
    if f :| f in lv && InFile(tb, f, e) {
      OldFiles(tb, outs, n0, f);
      assert f in lv + NewFiles(outs, n0);
    }
    if i :| 0 <= i < |outs| && e in outs[i] {
      NewFile(tb, outs, n0, i);
      assert FileOf(n0 + i, outs[i]) in lv + NewFiles(outs, n0);
    }
  }

  lemma OldLevelMembers(tb: Tables, lv: Level, outs: seq<Table>, n0: nat, e: Entry)
    requires Numbered(lv, n0)
    ensures InLevel(NewTables(tb, outs, n0), lv, e) <==> InLevel(tb, lv, e)
  {
    var tb' := NewTables(tb, outs, n0);
    if f :| f in lv && InFile(tb', f, e) {
      OldFiles(tb, outs, n0, f);
    }
    if f :| f in lv && InFile(tb, f, e) {
      OldFiles(tb, outs, n0, f);
    }
  }

  // ----- the version after a compaction

  function Merged(v: Version, c: Job, outs: seq<Table>, n0: nat): Version
    requires c.level + 1 < |v| && Chunks(outs)
  {
    v[c.level := v[c.level] - c.in0][c.level + 1 := v[c.level + 1] - c.in1 + NewFiles(outs, n0)]
  }

  ghost predicate AllOlder(v: Version, n0: nat) {
    forall l :: 0 <= l < |v| ==> Numbered(v[l], n0)
  }

  lemma MergedEffect(tb: Tables, v: Version, c: Job, outs: seq<Table>, n0: nat)
    requires c.level + 1 < |v| && Chunks(outs) && AllOlder(v, n0)
    ensures Effect(tb, v, c, Flatten(outs), NewTables(tb, outs, n0), Merged(v, c, outs, n0))
  {
    var tb', v' := NewTables(tb, outs, n0), Merged(v, c, outs, n0);
    forall j, e | 0 <= j < |v|
      ensures InLevel(tb', v'[j], e) <==> InLevel(tb, Rest(v, c, j), e) || (j == c.level + 1 && e in Flatten(outs))
    {
      assert Numbered(v[j], n0);
      assert Numbered(Rest(v, c, j), n0);
      assert v'[j] == if j == c.level + 1 then Rest(v, c, j) + NewFiles(outs, n0) else Rest(v, c, j);
      hide *;
      if j == c.level + 1 {
        NewLevelMembers(tb, Rest(v, c, j), outs, n0, e);
      } else {
        OldLevelMembers(tb, Rest(v, c, j), outs, n0, e);
      }
    }
  }

  /** Newer stays above older, whatever part of the input is written out. */
  lemma EffectLayered(tb: Tables, v: Version, c: Job, h: Hist, flushed: nat, input: Table, out: Table,
                      tb': Tables, v': Version)
    requires Sound(tb, v) && JobOk(v, c) && flushed <= |h| && Truthful(tb, v, h, flushed)
    requires IsInput(tb, c, input) && (forall e :: e in out ==> e in input) && Effect(tb, v, c, out, tb', v')
    ensures Layered(tb', v')
  {
    forall a: nat, b: nat, x, y |
      a < b < |v'| && InLevel(tb', v'[a], x) && InLevel(tb', v'[b], y) && x.key.user == y.key.user
      ensures x.key.seqno > y.key.seqno
    {
      hide Sound; hide JobOk; hide Truthful; hide IsInput; hide Rest;
      JobLevel(v, c);
      assert InLevel(tb, Rest(v, c, a), x) || (a == c.level + 1 && x in out);
      assert InLevel(tb, Rest(v, c, b), y) || (b == c.level + 1 && y in out);
      assert x in out ==> x in input;
      assert y in out ==> y in input;
      hide *;
      EffectOrder(tb, v, c, h, flushed, input, a, x, b, y);
    }
  }

  lemma JobLevel(v: Version, c: Job)
    requires JobOk(v, c)
    ensures c.level + 1 < |v|
  {
  }

  lemma EffectOrder(tb: Tables, v: Version, c: Job, h: Hist, flushed: nat, input: Table, a: nat, x: Entry, b: nat, y: Entry)
    requires Sound(tb, v) && JobOk(v, c) && flushed <= |h| && Truthful(tb, v, h, flushed) && IsInput(tb, c, input)
    requires a < b < |v| && x.key.user == y.key.user
    requires InLevel(tb, Rest(v, c, a), x) || (a == c.level + 1 && x in input)
    requires InLevel(tb, Rest(v, c, b), y) || (b == c.level + 1 && y in input)
    ensures x.key.seqno > y.key.seqno
  {
    if InLevel(tb, Rest(v, c, a), x) && InLevel(tb, Rest(v, c, b), y) {
      hide *;
      RestInVersion(tb, v, c, a, x);
      RestInVersion(tb, v, c, b, y);
      SoundOrder(tb, v, a, x, b, y);
    } else if InLevel(tb, Rest(v, c, a), x) {
      hide Sound; hide JobOk; hide Truthful; hide Rest;
      assert InLevel(tb, c.in0, y) || InLevel(tb, c.in1, y);
      hide *;
      RestAge(tb, v, c, h, flushed, a, x, y);
    } else {
      hide Sound; hide JobOk; hide Truthful; hide Rest;
      assert InLevel(tb, c.in0, x) || InLevel(tb, c.in1, x);
      assert InLevel(tb, Rest(v, c, b), y);
      hide *;
      RestAge(tb, v, c, h, flushed, b, y, x);
    }
  }

  // ----- key ranges at level + 1

  /** A file of level + 1 that is not an input lies on one side of all inputs. */
  lemma OneSide(tb: Tables, v: Version, c: Job, g: File, lo: Rank, hi: Rank, f: File, e: Entry)
    requires Sound(tb, v) && JobOk(v, c) && Hull(v, c, lo, hi) && g in Rest(v, c, c.level + 1)
    requires f in c.in0 || f in c.in1
    requires InFile(tb, f, e)
    ensures if g.largest.user < lo then Less(g.largest, e.key) else Less(e.key, g.smallest)
  {
    hide Sound;
    assert !Meets(g, lo, hi);
    assert g in v[c.level + 1];
    SoundFile(tb, v, c.level + 1, g);
    FileBounds(tb, g);
    if f in c.in0 {
      assert f in v[c.level] && lo <= f.smallest.user && f.largest.user <= hi;
      SoundFile(tb, v, c.level, f);
      InFileRange(tb, f, e);
    } else {
      assert f in v[c.level + 1] && Meets(f, lo, hi) && f != g;
      hide Hull; hide JobOk;
      SoundFile(tb, v, c.level + 1, f);
      InFileRange(tb, f, e);
      SoundPair(tb, v, c.level + 1, f, g);
      hide FileOk;
    }
  }

  lemma OneSideOut(tb: Tables, v: Version, c: Job, g: File, lo: Rank, hi: Rank, input: Table, e: Entry)
    requires Sound(tb, v) && JobOk(v, c) && Hull(v, c, lo, hi) && g in Rest(v, c, c.level + 1)
    requires IsInput(tb, c, input) && e in input
    ensures if g.largest.user < lo then Less(g.largest, e.key) else Less(e.key, g.smallest)
  {
    hide Sound; hide JobOk; hide Hull; hide Rest;
    if f :| f in c.in0 && InFile(tb, f, e) {
      OneSide(tb, v, c, g, lo, hi, f, e);
    } else {
      var f :| f in c.in1 && InFile(tb, f, e);
      OneSide(tb, v, c, g, lo, hi, f, e);
    }
  }

  /** Files on one side each, and pieces of one sorted table, are disjoint. */
  lemma MergedDisjoint(tb: Tables, v: Version, c: Job, input: Table, outs: seq<Table>, n0: nat)
    requires Sound(tb, v) && JobOk(v, c) && IsInput(tb, c, input) && Chunks(outs)
    requires Sorted(Flatten(outs)) && forall e :: e in Flatten(outs) ==> e in input
    ensures Disjoint(Rest(v, c, c.level + 1) + NewFiles(outs, n0))
  {
    var lo, hi :| Hull(v, c, lo, hi);
    hide Sound; hide JobOk; hide Hull; hide IsInput; hide Sorted; hide Flatten; hide Rest; hide NewFiles; hide Less;
    JobLevel(v, c);
    var files := Rest(v, c, c.level + 1) + NewFiles(outs, n0);
    forall f, g | f in files && g in files && f != g
      ensures Less(f.largest, g.smallest) || Less(g.largest, f.smallest)
    {
      MergedPair(tb, v, c, input, outs, n0, lo, hi, f, g);
    }
  }

  lemma MergedPair(tb: Tables, v: Version, c: Job, input: Table, outs: seq<Table>, n0: nat,
                   lo: Rank, hi: Rank, f: File, g: File)
    requires Sound(tb, v) && JobOk(v, c) && IsInput(tb, c, input) && Hull(v, c, lo, hi) && Chunks(outs)
    requires Sorted(Flatten(outs)) && forall e :: e in Flatten(outs) ==> e in input
    requires f in Rest(v, c, c.level + 1) + NewFiles(outs, n0)
    requires g in Rest(v, c, c.level + 1) + NewFiles(outs, n0)
    requires f != g
    ensures Less(f.largest, g.smallest) || Less(g.largest, f.smallest)
  {
    hide Sound; hide JobOk; hide Hull; hide IsInput; hide Sorted; hide Flatten;
    JobLevel(v, c);
    var rest := Rest(v, c, c.level + 1);
    if f in rest && g in rest {
      assert f in v[c.level + 1] && g in v[c.level + 1];
      SoundPair(tb, v, c.level + 1, f, g);
    } else if f in rest {
      var i :| 0 <= i < |outs| && g == FileOf(n0 + i, outs[i]);
      RestOrNew(tb, v, c, input, outs, n0, lo, hi, f, i);
    } else if g in rest {
      var i :| 0 <= i < |outs| && f == FileOf(n0 + i, outs[i]);
      RestOrNew(tb, v, c, input, outs, n0, lo, hi, g, i);
    } else {
      var i :| 0 <= i < |outs| && f == FileOf(n0 + i, outs[i]);
      var j :| 0 <= j < |outs| && g == FileOf(n0 + j, outs[j]);
      NewPair(outs, n0, i, j);
    }
  }

  lemma NewPair(outs: seq<Table>, n0: nat, i: nat, j: nat)
    requires Chunks(outs) && Sorted(Flatten(outs)) && i < |outs| && j < |outs| && i != j
    ensures var f, g := FileOf(n0 + i, outs[i]), FileOf(n0 + j, outs[j]);
            Less(f.largest, g.smallest) || Less(g.largest, f.smallest)
  {
    FlattenSorted(outs);
    hide Sorted; hide Flatten; hide Less;
    var a, b := if i < j then i else j, if i < j then j else i;
    assert outs[a][|outs[a]| - 1] in outs[a] && outs[b][0] in outs[b];
  }

  lemma RestOrNew(tb: Tables, v: Version, c: Job, input: Table, outs: seq<Table>, n0: nat,
                  lo: Rank, hi: Rank, g: File, i: nat)
    requires Sound(tb, v) && JobOk(v, c) && IsInput(tb, c, input) && Hull(v, c, lo, hi) && Chunks(outs)
    requires forall e :: e in Flatten(outs) ==> e in input
    requires g in Rest(v, c, c.level + 1) && i < |outs|
    ensures var f := FileOf(n0 + i, outs[i]);
            Less(f.largest, g.smallest) || Less(g.largest, f.smallest)
  {
    FlattenMembers(outs);
    var x, y := outs[i][0], outs[i][|outs[i]| - 1];
    assert x in outs[i] && y in outs[i];
    assert x in input && y in input;
    hide *;
    OneSideOut(tb, v, c, g, lo, hi, input, x);
    OneSideOut(tb, v, c, g, lo, hi, input, y);
    assert FileOf(n0 + i, outs[i]).largest == y.key && FileOf(n0 + i, outs[i]).smallest == x.key by {
      FileOfKeys(n0 + i, outs[i]);
    }
  }

  lemma FileOfKeys(n: nat, t: Table)
    requires t != []
    ensures FileOf(n, t).smallest == t[0].key && FileOf(n, t).largest == t[|t| - 1].key && FileOf(n, t).number == n
  {
  }

  lemma NewLevelOk(tb: Tables, lv: Level, outs: seq<Table>, n0: nat)
    requires LevelOk(tb, lv) && Numbered(lv, n0) && Chunks(outs) && Sorted(Flatten(outs))
    ensures LevelOk(NewTables(tb, outs, n0), lv + NewFiles(outs, n0))
  {
    var tb' := NewTables(tb, outs, n0);
    FlattenSorted(outs);
    forall f | f in lv + NewFiles(outs, n0)
      ensures FileOk(tb', f)
    {
      hide FileOk; hide Flatten; hide Sorted;
      if f in lv {
        OldFiles(tb, outs, n0, f);
      } else {
        var i :| 0 <= i < |outs| && f == FileOf(n0 + i, outs[i]);
        NewFile(tb, outs, n0, i);
      }
    }
    hide FileOk; hide Flatten; hide Sorted; hide NewTables;
  }

  lemma OldLevelOk(tb: Tables, lv: Level, outs: seq<Table>, n0: nat)
    requires LevelOk(tb, lv) && Numbered(lv, n0)
    ensures LevelOk(NewTables(tb, outs, n0), lv)
    ensures AgeOrdered(tb, lv) ==> AgeOrdered(NewTables(tb, outs, n0), lv)
  {
    hide FileOk; hide NewTables; hide InFile;
    forall f | f in lv
      ensures FileOk(NewTables(tb, outs, n0), f)
      ensures forall e :: InFile(NewTables(tb, outs, n0), f, e) <==> InFile(tb, f, e)
    {
      OldFiles(tb, outs, n0, f);
    }
  }

  lemma SubsetOk(tb: Tables, lv: Level, part: Level)
    requires part <= lv
    ensures LevelOk(tb, lv) ==> LevelOk(tb, part)
    ensures Disjoint(lv) ==> Disjoint(part)
    ensures AgeOrdered(tb, lv) ==> AgeOrdered(tb, part)
  {
    hide FileOk; hide InFile; hide Less;
  }

  /** A compaction's result is a sound version. */
  lemma MergedSound(tb: Tables, v: Version, c: Job, h: Hist, flushed: nat, input: Table, outs: seq<Table>, n0: nat)
    requires Sound(tb, v) && JobOk(v, c) && flushed <= |h| && Truthful(tb, v, h, flushed)
    requires IsInput(tb, c, input) && Chunks(outs) && AllOlder(v, n0)
    requires Sorted(Flatten(outs)) && forall e :: e in Flatten(outs) ==> e in input
    ensures Sound(NewTables(tb, outs, n0), Merged(v, c, outs, n0))
    ensures Effect(tb, v, c, Flatten(outs), NewTables(tb, outs, n0), Merged(v, c, outs, n0))
  {
    var tb', v' := NewTables(tb, outs, n0), Merged(v, c, outs, n0);
    hide Sound; hide JobOk; hide Truthful; hide IsInput; hide Sorted; hide Flatten; hide NewTables; hide AllOlder;
    JobLevel(v, c);
    MergedEffect(tb, v, c, outs, n0);
    hide Effect;
    EffectLayered(tb, v, c, h, flushed, input, Flatten(outs), tb', v');
    hide Layered;
    forall l: nat | l < |v'|
      ensures LevelOk(tb', v'[l]) && (l > 0 ==> Disjoint(v'[l]))
    {
      MergedLevel(tb, v, c, input, outs, n0, l);
    }
    MergedTop(tb, v, c, outs, n0);
    assert |v'| == NUM_LEVELS by { SoundLength(tb, v); }
    hide LevelOk; hide Disjoint; hide AgeOrdered;
    SoundIntro(tb', v');
  }

  lemma SoundLength(tb: Tables, v: Version)
    requires Sound(tb, v)
    ensures |v| == NUM_LEVELS
  {
  }

  lemma SoundIntro(tb: Tables, v: Version)
    requires |v| == NUM_LEVELS
    requires forall l :: 0 <= l < |v| ==> LevelOk(tb, v[l]) && (l > 0 ==> Disjoint(v[l]))
    requires AgeOrdered(tb, v[0]) && Layered(tb, v)
    ensures Sound(tb, v)
  {
    hide LevelOk; hide Disjoint; hide AgeOrdered; hide Layered;
  }

  lemma SoundLevel(tb: Tables, v: Version, l: nat)
    requires Sound(tb, v) && l < |v|
    ensures LevelOk(tb, v[l]) && (l > 0 ==> Disjoint(v[l])) && (l == 0 ==> AgeOrdered(tb, v[l]))
  {
    hide LevelOk; hide Disjoint; hide AgeOrdered; hide Layered;
  }

  lemma MergedLevel(tb: Tables, v: Version, c: Job, input: Table, outs: seq<Table>, n0: nat, l: nat)
    requires Sound(tb, v) && JobOk(v, c) && IsInput(tb, c, input) && Chunks(outs) && AllOlder(v, n0)
    requires Sorted(Flatten(outs)) && forall e :: e in Flatten(outs) ==> e in input
    requires c.level + 1 < |v| && l < |v|
    ensures var tb', v' := NewTables(tb, outs, n0), Merged(v, c, outs, n0);
            LevelOk(tb', v'[l]) && (l > 0 ==> Disjoint(v'[l]))
  {
    hide Sound; hide JobOk; hide IsInput; hide Sorted; hide Flatten; hide NewTables;
    var part := Rest(v, c, l);
    assert part <= v[l] && Numbered(part, n0);
    assert Merged(v, c, outs, n0)[l] == if l == c.level + 1 then part + NewFiles(outs, n0) else part;
    hide *;
    SoundLevel(tb, v, l);
    SubsetOk(tb, v[l], part);
    if l == c.level + 1 {
      NewLevelOk(tb, part, outs, n0);
      MergedDisjoint(tb, v, c, input, outs, n0);
    } else {
      OldLevelOk(tb, part, outs, n0);
    }
  }

  lemma MergedTop(tb: Tables, v: Version, c: Job, outs: seq<Table>, n0: nat)
    requires Sound(tb, v) && Chunks(outs) && AllOlder(v, n0) && c.level + 1 < |v|
    ensures AgeOrdered(NewTables(tb, outs, n0), Merged(v, c, outs, n0)[0])
  {
    hide Sound; hide NewTables;
    var part := Rest(v, c, 0);
    assert part <= v[0] && Numbered(part, n0) && Merged(v, c, outs, n0)[0] == part;
    hide *;
    SoundLevel(tb, v, 0);
    SubsetOk(tb, v[0], part);
    OldLevelOk(tb, part, outs, n0);
  }
}
