/** The invariant of a version with respect to the history of writes, kept by
    every change of the version. */
module Upkeep {
  import opened Keys
  import opened History
  import opened Versions
  import opened Survivors
  import opened Compaction
  import opened Meaning
  import opened Install
  import opened Placement

  /** The files hold true writes up to `flushed`, newest shallowest, and read
      correctly from sequence number `low` on. */
  ghost predicate VersionInv(tb: Tables, v: Version, h: Hist, flushed: nat, low: nat, next: nat) {
    && Sound(tb, v) && AllOlder(v, next)
    && flushed <= |h| && Truthful(tb, v, h, flushed)
    && Covered(tb, v, h, flushed, low)
  }

  lemma SameSeesSameReads(tb: Tables, v: Version, tb': Tables, v': Version, user: Rank, at: nat, at': nat, r: Option<Value>)
    requires forall e :: Sees(tb, v, user, at, e) <==> Sees(tb', v', user, at', e)
    ensures Reads(tb, v, user, at, r) <==> Reads(tb', v', user, at', r)
  {
    hide Sees;
    forall e
      ensures IsNewest(tb, v, user, at, e) <==> IsNewest(tb', v', user, at', e)
    {
    }
  }

  // ----- more writes are committed

  lemma Extend(tb: Tables, v: Version, h: Hist, more: Hist, flushed: nat, low: nat, next: nat)
    requires VersionInv(tb, v, h, flushed, low, next) && low <= |h|
    ensures VersionInv(tb, v, h + more, flushed, low, next)
  {
    assert Truthful(tb, v, h + more, flushed) by {
      hide Sound; hide Covered; hide InVersion;
      assert forall e :: IsWrite(h, 0, flushed, e) ==> IsWrite(h + more, 0, flushed, e);
    }
    hide Sound; hide AllOlder;
    forall user, at: nat | low <= at <= |h + more| && LastWrite(h + more, user, at) <= flushed
      ensures Reads(tb, v, user, at, SpecGet(h + more, user, at))
    {
      hide Reads;
      ExtendRead(tb, v, h, more, flushed, low, next, user, at);
    }
  }

  lemma ExtendRead(tb: Tables, v: Version, h: Hist, more: Hist, flushed: nat, low: nat, next: nat, user: Rank, at: nat)
    requires VersionInv(tb, v, h, flushed, low, next) && low <= |h|
    requires low <= at <= |h + more| && LastWrite(h + more, user, at) <= flushed
    ensures Reads(tb, v, user, at, SpecGet(h + more, user, at))
  {
    var at' := if at <= |h| then at else |h|;
    SameLastWrite(h, more, user, at);
    assert Reads(tb, v, user, at', SpecGet(h, user, at'));
    hide Covered; hide Sound; hide Reads; hide InVersion;
    assert forall e :: Sees(tb, v, user, at', e) <==> Sees(tb, v, user, at, e);
    SameSeesSameReads(tb, v, tb, v, user, at', at, SpecGet(h, user, at'));
  }

  lemma SameLastWrite(h: Hist, more: Hist, user: Rank, at: nat)
    requires at <= |h + more| && LastWrite(h + more, user, at) <= |h|
    ensures var at' := if at <= |h| then at else |h|;
            LastWrite(h + more, user, at) == LastWrite(h, user, at') && SpecGet(h + more, user, at) == SpecGet(h, user, at')
  {
    var at' := if at <= |h| then at else |h|;
    var q, q' := LastWrite(h + more, user, at), LastWrite(h, user, at');
    assert q > 0 ==> (h + more)[q - 1] == h[q - 1];
    assert q' > 0 ==> (h + more)[q' - 1] == h[q' - 1];
  }

  // ----- a memtable is flushed

  /** t holds exactly the writes after `flushed` up to `upto`. */
  ghost predicate WholeBatch(h: Hist, flushed: nat, upto: nat, t: Table) {
    NewWrites(h, flushed, upto, t) && forall e :: IsWrite(h, flushed, upto, e) ==> e in t
  }

  lemma Flush(tb: Tables, v: Version, h: Hist, flushed: nat, upto: nat, low: nat, level: nat, n0: nat, t: Table)
    requires VersionInv(tb, v, h, flushed, low, n0) && WholeBatch(h, flushed, upto, t) && Fits(v, level, t)
    ensures VersionInv(NewTables(tb, [t], n0), Placed(v, level, n0, t), h, upto, low, n0 + 1)
  {
    var tb', v' := NewTables(tb, [t], n0), Placed(v, level, n0, t);
    hide Sound; hide AllOlder; hide Truthful; hide Covered; hide NewTables; hide Fits; hide Sorted;
    PlacedSound(tb, v, h, flushed, upto, level, n0, t);
    PlacedOlder(v, level, n0, t);
    FlushCovered(tb, v, h, flushed, upto, low, level, n0, t);
  }

  lemma PlacedOlder(v: Version, level: nat, n0: nat, t: Table)
    requires level < |v| && t != [] && AllOlder(v, n0)
    ensures AllOlder(Placed(v, level, n0, t), n0 + 1)
  {
    OneNewFile(t, n0);
  }

  lemma FlushCovered(tb: Tables, v: Version, h: Hist, flushed: nat, upto: nat, low: nat, level: nat, n0: nat, t: Table)
    requires VersionInv(tb, v, h, flushed, low, n0) && WholeBatch(h, flushed, upto, t) && Fits(v, level, t)
    ensures Covered(NewTables(tb, [t], n0), Placed(v, level, n0, t), h, upto, low)
  {
    hide VersionInv; hide NewTables; hide Placed; hide Reads; hide Fits; hide Sorted;
    FitsLevel(v, level, t);
    forall user, at: nat | low <= at <= |h| && LastWrite(h, user, at) <= upto
      ensures Reads(NewTables(tb, [t], n0), Placed(v, level, n0, t), user, at, SpecGet(h, user, at))
    {
      FlushRead(tb, v, h, flushed, upto, low, level, n0, t, user, at);
    }
  }

  lemma FlushRead(tb: Tables, v: Version, h: Hist, flushed: nat, upto: nat, low: nat, level: nat, n0: nat, t: Table,
                  user: Rank, at: nat)
    requires VersionInv(tb, v, h, flushed, low, n0) && WholeBatch(h, flushed, upto, t) && Fits(v, level, t)
    requires low <= at <= |h| && LastWrite(h, user, at) <= upto
    ensures Reads(NewTables(tb, [t], n0), Placed(v, level, n0, t), user, at, SpecGet(h, user, at))
  {
    var tb', v' := NewTables(tb, [t], n0), Placed(v, level, n0, t);
    var q := LastWrite(h, user, at);
    assert q <= flushed ==> Reads(tb, v, user, at, SpecGet(h, user, at));
    hide Sound; hide Covered; hide NewTables; hide Placed; hide Reads; hide InVersion; hide Sorted; hide Fits;
    forall e
      ensures InVersion(tb', v', e) <==> InVersion(tb, v, e) || e in t
    {
      hide VersionInv;
      assert AllOlder(v, n0) by { InvOlder(tb, v, h, flushed, low, n0); }
      FitsLevel(v, level, t);
      PlacedVersion(tb, v, level, n0, t, e);
    }
    hide AllOlder;
    if q <= flushed {
      forall e
        ensures Sees(tb, v, user, at, e) <==> Sees(tb', v', user, at, e)
      {
        assert e in t ==> IsWrite(h, flushed, upto, e);
      }
      SameSeesSameReads(tb, v, tb', v', user, at, at, SpecGet(h, user, at));
    } else {
      FlushedIsNewest(tb, v, h, flushed, upto, t, tb', v', user, at);
    }
  }

  lemma InvOlder(tb: Tables, v: Version, h: Hist, flushed: nat, low: nat, next: nat)
    requires VersionInv(tb, v, h, flushed, low, next)
    ensures AllOlder(v, next) && |v| == NUM_LEVELS
  {
    hide AllOlder; hide Covered; hide Truthful;
  }

  lemma FitsLevel(v: Version, level: nat, t: Table)
    requires t != [] && Fits(v, level, t)
    ensures level < |v|
  {
  }

  lemma FlushedIsNewest(tb: Tables, v: Version, h: Hist, flushed: nat, upto: nat, t: Table, tb': Tables, v': Version,
                        user: Rank, at: nat)
    requires flushed <= upto <= |h| && Truthful(tb, v, h, flushed) && WholeBatch(h, flushed, upto, t)
    requires at <= |h| && flushed < LastWrite(h, user, at) <= upto
    requires forall e :: InVersion(tb', v', e) <==> InVersion(tb, v, e) || e in t
    ensures Reads(tb', v', user, at, SpecGet(h, user, at))
  {
    hide InVersion; hide Sorted;
    var q := LastWrite(h, user, at);
    var n := EntryAt(h, q);
    assert IsWrite(h, flushed, upto, n);
    assert Sees(tb', v', user, at, n);
    forall e | Sees(tb', v', user, at, e)
      ensures e.key.seqno <= q
    {
      assert IsWrite(h, 0, upto, e);
    }
    assert IsNewest(tb', v', user, at, n);
  }

  // ----- a compaction is installed

  /** What the program's compactions are like: outs is the surviving input, cut
      into tables. */
  ghost predicate CompactionForm(tb: Tables, v: Version, c: Job, snapshot: nat, input: Table, outs: seq<Table>) {
    && c.level + 1 < |v| && JobOk(v, c) && IsInput(tb, c, input)
    && Chunks(outs) && Flatten(outs) == Kept(v, c.level, snapshot, input, |input|)
  }

  ghost predicate CompactionOk(tb: Tables, v: Version, c: Job, snapshot: nat, input: Table, outs: seq<Table>) {
    CompactionForm(tb, v, c, snapshot, input, outs) && !Exposed(tb, v, c, input, snapshot)
  }

  lemma Compact(tb: Tables, v: Version, h: Hist, flushed: nat, low: nat, n0: nat, c: Job, snapshot: nat, input: Table, outs: seq<Table>, low': nat)
    requires VersionInv(tb, v, h, flushed, low, n0) && CompactionOk(tb, v, c, snapshot, input, outs)
    requires low' >= low && low' >= snapshot
    ensures VersionInv(NewTables(tb, outs, n0), Merged(v, c, outs, n0), h, flushed, low', n0 + |outs|)
  {
    var out, tb', v' := Flatten(outs), NewTables(tb, outs, n0), Merged(v, c, outs, n0);
    hide Sound; hide AllOlder; hide Truthful; hide Covered; hide NewTables; hide Merged; hide Flatten; hide Kept;
    hide JobOk; hide IsInput; hide Exposed;
    InputSeqUnique(tb, v, c, h, flushed, input);
    SurvivorsOut(v, c, snapshot, input);
    hide OutputOk;
    MergedSound(tb, v, c, h, flushed, input, outs, n0);
    hide Effect;
    MergedOlder(v, c, outs, n0);
    var m := Merge(tb, v, c, snapshot, input, out, tb', v');
    StillTruthful(m, h, flushed);
    PreservesReadsIff(m, h, flushed);
    hide SameReads;
    SameReadsCovered(tb, v, tb', v', h, flushed, low, snapshot, low');
  }

  lemma SameReadsCovered(tb: Tables, v: Version, tb': Tables, v': Version, h: Hist, flushed: nat, low: nat, from: nat, low': nat)
    requires flushed <= |h| && Covered(tb, v, h, flushed, low) && SameReads(tb, v, tb', v', from)
    requires low' >= low && low' >= from
    ensures Covered(tb', v', h, flushed, low')
  {
    hide Reads;
  }

  lemma MergedOlder(v: Version, c: Job, outs: seq<Table>, n0: nat)
    requires c.level + 1 < |v| && Chunks(outs) && AllOlder(v, n0)
    ensures AllOlder(Merged(v, c, outs, n0), n0 + |outs|)
  {
    forall f | f in NewFiles(outs, n0)
      ensures f.number < n0 + |outs|
    {
    }
  }

  lemma SurvivorsOut(v: Version, c: Job, snapshot: nat, input: Table)
    requires Sorted(input) && SeqUnique(input)
    ensures OutputOk(v, c, snapshot, input, Kept(v, c.level, snapshot, input, |input|))
    ensures Sorted(Kept(v, c.level, snapshot, input, |input|))
    ensures forall e :: e in Kept(v, c.level, snapshot, input, |input|) ==> e in input
  {
    KeptMembers(v, c.level, snapshot, input, |input|);
    KeptSorted(v, c.level, snapshot, input, |input|);
    hide Gone; hide Sorted; hide Kept;
    assert input[..|input|] == input;
  }

  lemma InputSeqUnique(tb: Tables, v: Version, c: Job, h: Hist, flushed: nat, input: Table)
    requires flushed <= |h| && Truthful(tb, v, h, flushed) && JobOk(v, c) && IsInput(tb, c, input)
    ensures Sorted(input) && SeqUnique(input)
  {
    forall i, j | 0 <= i < j < |input|
      ensures input[i].key.user != input[j].key.user || input[i].key.seqno != input[j].key.seqno
    {
      assert Less(input[i].key, input[j].key);
      hide JobOk; hide IsInput; hide Truthful;
      InputInVersion(tb, v, c, input, input[i]);
      InputInVersion(tb, v, c, input, input[j]);
      SeqIdentifies(tb, v, h, flushed, input[i], input[j]);
    }
  }

  // ----- a trivial move

  function Moved(v: Version, level: nat, f: File): Version
    requires level + 1 < |v|
  {
    v[level := v[level] - {f}][level + 1 := v[level + 1] + {f}]
  }

  /** A single upper input, nothing below meets it. */
  ghost predicate MoveOk(v: Version, level: nat, f: File) {
    level + 1 < |v| && JobOk(v, Job(level, {f}, {}))
  }

  lemma MoveEffect(tb: Tables, v: Version, level: nat, f: File)
    requires MoveOk(v, level, f) && FileOk(tb, f)
    ensures IsInput(tb, Job(level, {f}, {}), tb[f.number])
    ensures Effect(tb, v, Job(level, {f}, {}), tb[f.number], tb, Moved(v, level, f))
  {
    var c, t := Job(level, {f}, {}), tb[f.number];
    assert f in c.in0;
    forall e
      ensures InLevel(tb, {f}, e) <==> e in t
    {
      if e in t {
        assert InFile(tb, f, e);
      }
    }
    hide FileOk; hide Sorted;
    forall j: nat, e | j < |v|
      ensures InLevel(tb, Moved(v, level, f)[j], e) <==> InLevel(tb, Rest(v, c, j), e) || (j == level + 1 && e in t)
    {
      assert Moved(v, level, f)[j] == if j == level + 1 then Rest(v, c, j) + {f} else Rest(v, c, j);
      hide JobOk; hide Moved; hide Rest; hide InFile;
      LevelUnion(tb, Rest(v, c, j), {f}, e);
    }
  }

  lemma LevelUnion(tb: Tables, a: Level, b: Level, e: Entry)
    ensures InLevel(tb, a + b, e) <==> InLevel(tb, a, e) || InLevel(tb, b, e)
  {
    hide InFile;
  }

  lemma MovedDisjoint(tb: Tables, v: Version, level: nat, f: File)
    requires Sound(tb, v) && MoveOk(v, level, f)
    ensures Disjoint(v[level + 1] + {f})
  {
    hide Sound; hide JobOk; hide Less;
    SoundLevel(tb, v, level + 1);
    hide LevelOk;
    forall g | g in v[level + 1]
      ensures Less(f.largest, g.smallest) || Less(g.largest, f.smallest)
    {
      MovedPair(tb, v, level, f, g);
    }
  }

  lemma MovedPair(tb: Tables, v: Version, level: nat, f: File, g: File)
    requires Sound(tb, v) && MoveOk(v, level, f) && g in v[level + 1]
    ensures Less(f.largest, g.smallest) || Less(g.largest, f.smallest)
  {
    hide Sound;
    var c := Job(level, {f}, {});
    assert f in c.in0;
    assert f in v[level] && g in Rest(v, c, level + 1);
    var lo, hi :| Hull(v, c, lo, hi);
    hide JobOk; hide Hull; hide Rest;
    SoundFile(tb, v, level, f);
    var t := tb[f.number];
    assert InFile(tb, f, t[0]) && InFile(tb, f, t[|t| - 1]);
    assert t[0].key == f.smallest && t[|t| - 1].key == f.largest;
    hide FileOk; hide InFile; hide Less;
    OneSide(tb, v, c, g, lo, hi, f, t[0]);
    OneSide(tb, v, c, g, lo, hi, f, t[|t| - 1]);
  }

  lemma MovedLevel(tb: Tables, v: Version, level: nat, f: File, n0: nat, l: nat)
    requires Sound(tb, v) && AllOlder(v, n0) && MoveOk(v, level, f) && l < |v|
    requires forall g :: g in v[level + 1] ==> g.number != f.number
    ensures var v' := Moved(v, level, f);
            LevelOk(tb, v'[l]) && (l > 0 ==> Disjoint(v'[l])) && (l == 0 ==> AgeOrdered(tb, v'[l])) && Numbered(v'[l], n0)
  {
    hide Sound;
    var v' := Moved(v, level, f);
    assert f in Job(level, {f}, {}).in0;
    assert f in v[level];
    hide JobOk;
    SoundLevel(tb, v, l);
    assert Numbered(v[l], n0) && Numbered(v[level], n0);
    if l == level + 1 {
      MovedDisjoint(tb, v, level, f);
      SoundFile(tb, v, level, f);
      hide FileOk; hide Disjoint; hide AgeOrdered;
    } else {
      assert v'[l] <= v[l];
      SubsetOk(tb, v[l], v'[l]);
      hide LevelOk; hide Disjoint; hide AgeOrdered;
    }
  }

  lemma Move(tb: Tables, v: Version, h: Hist, flushed: nat, low: nat, n0: nat, level: nat, f: File)
    requires VersionInv(tb, v, h, flushed, low, n0) && MoveOk(v, level, f)
    requires forall g :: g in v[level + 1] ==> g.number != f.number
    ensures VersionInv(tb, Moved(v, level, f), h, flushed, low, n0)
  {
    var v', c := Moved(v, level, f), Job(level, {f}, {});
    assert f in v[level] by {
      hide VersionInv;
      assert f in c.in0;
    }
    hide Sound; hide Truthful; hide Covered; hide JobOk;
    SoundFile(tb, v, level, f);
    MoveEffect(tb, v, level, f);
    hide FileOk; hide IsInput; hide Effect;
    EffectLayered(tb, v, c, h, flushed, tb[f.number], tb[f.number], tb, v');
    forall l: nat | l < |v|
      ensures LevelOk(tb, v'[l]) && (l > 0 ==> Disjoint(v'[l])) && (l == 0 ==> AgeOrdered(tb, v'[l])) && Numbered(v'[l], n0)
    {
      hide Moved; hide AllOlder;
      MovedLevel(tb, v, level, f, n0, l);
    }
    SoundLength(tb, v);
    assert Sound(tb, v') by {
      hide LevelOk; hide Disjoint; hide AgeOrdered; hide Layered; hide Numbered;
      SoundIntro(tb, v');
    }
    MoveReads(tb, v, h, flushed, low, level, f);
  }

  lemma MoveReads(tb: Tables, v: Version, h: Hist, flushed: nat, low: nat, level: nat, f: File)
    requires MoveOk(v, level, f) && FileOk(tb, f)
    requires flushed <= |h| && Truthful(tb, v, h, flushed) && Covered(tb, v, h, flushed, low)
    ensures Truthful(tb, Moved(v, level, f), h, flushed) && Covered(tb, Moved(v, level, f), h, flushed, low)
  {
    var v', c := Moved(v, level, f), Job(level, {f}, {});
    hide FileOk; hide JobOk; hide InVersion; hide Moved; hide InFile; hide Reads; hide IsInput; hide Effect;
    MoveEffect(tb, v, level, f);
    forall e
      ensures InVersion(tb, v', e) <==> InVersion(tb, v, e)
    {
      SplitVersion(tb, v, c, tb[f.number], e);
      AfterVersion(tb, v, c, tb[f.number], tb, v', e);
    }
    forall user, at: nat, r
      ensures Reads(tb, v, user, at, r) <==> Reads(tb, v', user, at, r)
    {
      SameSeesSameReads(tb, v, tb, v', user, at, at, r);
    }
  }
}
