/** The lower inputs of a compaction are not closed under shared boundary user
    keys (VersionSet::SetupOtherInputs closes the upper ones only).  Here: such
    a closure would be enough, and a compaction where its lack shows. */
module Boundary {
  import opened Keys
  import opened History
  import opened Versions
  import opened Survivors
  import opened Compaction
  import opened Meaning

  /** No file of level + 1 after an input starts with the user key the input ends with. */
  ghost predicate LowerClosed(v: Version, c: Job)
    requires c.level + 1 < |v|
  {
    forall f, g :: f in c.in1 && g in v[c.level + 1] && g !in c.in1 && Less(f.largest, g.smallest) ==>
      f.largest.user < g.smallest.user
  }

  lemma LowerClosedExposesNothing(tb: Tables, v: Version, c: Job, h: Hist, flushed: nat, input: Table, snapshot: nat)
    requires Sound(tb, v) && JobOk(v, c) && flushed <= |h| && Truthful(tb, v, h, flushed) && IsInput(tb, c, input)
    requires LowerClosed(v, c)
    ensures !Exposed(tb, v, c, input, snapshot)
  {
    assert c.level + 1 < |v|;
    hide *;
    if Exposed(tb, v, c, input, snapshot) {
      var e, o, g := ExposedPair(tb, v, c, input, snapshot);
      SplitInput(tb, c, input, e);
      if f :| f in c.in0 && InFile(tb, f, e) {
        UpperMeets(tb, v, c, f, e, g, o);
      } else {
        var f :| f in c.in1 && InFile(tb, f, e);
        LowerApart(tb, v, c, h, flushed, f, e, g, o);
      }
    }
  }

  lemma ExposedPair(tb: Tables, v: Version, c: Job, input: Table, snapshot: nat) returns (e: Entry, o: Entry, g: File)
    requires c.level + 1 < |v| && Exposed(tb, v, c, input, snapshot)
    ensures e in input && o.key.user == e.key.user && o.key.seqno < e.key.seqno
    ensures g in v[c.level + 1] && g !in c.in1 && InFile(tb, g, o)
  {
    hide IsNewest; hide ObsoleteDeletion;
    e, o :| ExposedBy(tb, v, c, input, snapshot, e, o);
    g :| g in Rest(v, c, c.level + 1) && InFile(tb, g, o);
  }

  lemma SplitInput(tb: Tables, c: Job, input: Table, e: Entry)
    requires IsInput(tb, c, input) && e in input
    ensures (exists f :: f in c.in0 && InFile(tb, f, e)) || (exists f :: f in c.in1 && InFile(tb, f, e))
  {
    InputLevel(tb, c, input, e);
  }

  lemma UpperMeets(tb: Tables, v: Version, c: Job, f: File, e: Entry, g: File, o: Entry)
    requires Sound(tb, v) && JobOk(v, c) && f in c.in0 && g in v[c.level + 1] && g !in c.in1
    requires InFile(tb, f, e) && InFile(tb, g, o)
    ensures o.key.user != e.key.user
  {
    hide Sound;
    var lo, hi :| Hull(v, c, lo, hi);
    assert lo <= f.smallest.user && f.largest.user <= hi && !Meets(g, lo, hi) && f in v[c.level];
    hide JobOk; hide Hull;
    SoundFile(tb, v, c.level, f);
    SoundFile(tb, v, c.level + 1, g);
    InFileRange(tb, f, e);
    InFileRange(tb, g, o);
    hide FileOk; hide InFile;
  }

  lemma LowerApart(tb: Tables, v: Version, c: Job, h: Hist, flushed: nat, f: File, e: Entry, g: File, o: Entry)
    requires Sound(tb, v) && JobOk(v, c) && LowerClosed(v, c) && flushed <= |h| && Truthful(tb, v, h, flushed)
    requires f in c.in1 && g in v[c.level + 1] && g !in c.in1 && InFile(tb, f, e) && InFile(tb, g, o)
    requires o.key.user == e.key.user
    ensures o.key.seqno > e.key.seqno
  {
    hide Sound; hide Truthful;
    assert f in v[c.level + 1];
    assert Less(f.largest, g.smallest) ==> f.largest.user < g.smallest.user;
    hide *;
    SoundFile(tb, v, c.level + 1, f);
    SoundFile(tb, v, c.level + 1, g);
    TrueEntry(tb, v, h, flushed, c.level + 1, f, e);
    TrueEntry(tb, v, h, flushed, c.level + 1, g, o);
    SoundPair(tb, v, c.level + 1, f, g);
    if Less(f.largest, g.smallest) {
      SameLevelAge(tb, h, flushed, f, e, g, o);
    } else {
      SameLevelAge(tb, h, flushed, g, o, f, e);
    }
  }

  // ----- a deleted key comes back

  const SAMPLE: Hist := [Op(1.0, Put, [2]), Op(0.5, Put, [1]), Op(1.0, Deletion, []), Op(0.5, Put, [4])]

  const B1 := Entry(Key(1.0, 1, Put), [2])
  const A2 := Entry(Key(0.5, 2, Put), [1])
  const B3 := Entry(Key(1.0, 3, Deletion), [])
  const A4 := Entry(Key(0.5, 4, Put), [4])

  const LOWER := File(6, A2.key, B3.key)
  const NEXT := File(7, B1.key, B1.key)
  const UPPER := File(9, A4.key, A4.key)
  const OUTPUT := File(10, A4.key, A4.key)

  /** The files' tables, before and after the compaction. */
  ghost predicate SampleTables(tb: Tables) {
    6 in tb && 7 in tb && 9 in tb && tb[6] == [A2, B3] && tb[7] == [B1] && tb[9] == [A4]
  }

  ghost predicate OutputTables(tb: Tables) {
    7 in tb && 10 in tb && tb[7] == [B1] && tb[10] == [A4]
  }

  const V0: Version := [{}, {}, {UPPER}, {LOWER, NEXT}, {}, {}, {}]
  const V1: Version := [{}, {}, {}, {OUTPUT, NEXT}, {}, {}, {}]
  const JOB := Job(2, {UPPER}, {LOWER})
  const INPUT: Table := [A4, A2, B3]

  function SampleMerge(tb: Tables, tb': Tables): Merge {
    Merge(tb, V0, JOB, 4, INPUT, [A4], tb', V1)
  }

  lemma SampleLevels(tb: Tables, l: nat, e: Entry)
    requires SampleTables(tb) && l < NUM_LEVELS
    ensures InLevel(tb, V0[l], e) <==> (l == 2 && e == A4) || (l == 3 && e in {A2, B3, B1})
    ensures InLevel(tb, Rest(V0, JOB, l), e) <==> (l == 3 && e == B1)
  {
    SampleFiles(tb, e);
    SampleVersions(l);
  }

  lemma OutputLevels(tb: Tables, l: nat, e: Entry)
    requires OutputTables(tb) && l < NUM_LEVELS
    ensures InLevel(tb, V1[l], e) <==> (l == 3 && e in {A4, B1})
  {
    assert InFile(tb, OUTPUT, e) <==> e == A4;
    assert InFile(tb, NEXT, e) <==> e == B1;
    SampleVersions(l);
  }

  lemma SampleVersions(l: nat)
    requires l < NUM_LEVELS
    ensures V0[l] == if l == 2 then {UPPER} else if l == 3 then {LOWER, NEXT} else {}
    ensures V1[l] == if l == 3 then {OUTPUT, NEXT} else {}
    ensures Rest(V0, JOB, l) == if l == 3 then {NEXT} else {}
  {
    assert {UPPER} - {UPPER} == {};
    assert {LOWER, NEXT} - {LOWER} == {NEXT};
  }

  lemma SampleFiles(tb: Tables, e: Entry)
    requires SampleTables(tb)
    ensures InFile(tb, UPPER, e) <==> e == A4
    ensures InFile(tb, LOWER, e) <==> e in {A2, B3}
    ensures InFile(tb, NEXT, e) <==> e == B1
  {
  }

  lemma SampleJob(tb: Tables)
    requires SampleTables(tb)
    ensures JobOk(V0, JOB) && IsInput(tb, JOB, INPUT)
  {
    assert Hull(V0, JOB, 0.5, 0.5);
    assert Sorted(INPUT);
    forall e
      ensures e in INPUT <==> InLevel(tb, JOB.in0, e) || InLevel(tb, JOB.in1, e)
    {
      SampleFiles(tb, e);
    }
  }

  lemma SampleBase(user: Rank)
    ensures BaseLevel(V0, 2, user)
  {
  }

  lemma SampleOutput()
    ensures OutputOk(V0, JOB, 4, INPUT, [A4])
  {
    SampleBase(1.0);
    hide BaseLevel;
    assert Hides(INPUT, 4, A4, A2);
    assert ObsoleteDeletion(V0, 2, 4, B3.key);
    assert forall x :: !Hides(INPUT, 4, x, A4);
  }

  lemma SampleEffect(tb: Tables, v: Version, c: Job, tb': Tables, v': Version)
    requires SampleTables(tb) && OutputTables(tb') && v == V0 && c == JOB && v' == V1
    ensures Effect(tb, v, c, [A4], tb', v')
  {
    assert |v| == |v'| == NUM_LEVELS;
    forall j, e | 0 <= j < |v|
      ensures InLevel(tb', v'[j], e) <==> InLevel(tb, Rest(v, c, j), e) || (j == c.level + 1 && e in [A4])
    {
      hide *;
      SampleLevels(tb, j, e);
      OutputLevels(tb', j, e);
    }
  }

  lemma SampleExposed(tb: Tables)
    requires SampleTables(tb)
    ensures ExposedBy(tb, V0, JOB, INPUT, 4, B3, B1)
  {
    hide InLevel; hide Rest;
    SampleLevels(tb, 3, B1);
    SampleLevels(tb, 3, B3);
    assert InVersion(tb, V0, B3);
    SampleBase(1.0);
    forall x | Sees(tb, V0, 1.0, 4, x)
      ensures x.key.seqno <= 3
    {
      var l: nat :| l < |V0| && InLevel(tb, V0[l], x);
      SampleLevels(tb, l, x);
    }
    forall x | Below(tb, V0, JOB, B3, x)
      ensures x.key.seqno <= 1
    {
      SampleLevels(tb, 3, x);
    }
  }

  /** After this compaction the latest sequence number reads a value for a key
      whose last write deleted it. */
  lemma DeletedKeyRead(tb: Tables, tb': Tables)
    requires SampleTables(tb) && OutputTables(tb') && Sound(tb, V0) && Truthful(tb, V0, SAMPLE, 4)
    ensures Compacted(SampleMerge(tb, tb'), SAMPLE, 4) && SpecGet(SAMPLE, 1.0, 4) == None
    ensures Reads(tb, V0, 1.0, 4, None) && Reads(tb', V1, 1.0, 4, Some([2]))
  {
    hide Sound; hide Truthful; hide JobOk; hide IsInput; hide OutputOk; hide Effect; hide ExposedBy; hide Reads;
    SampleJob(tb);
    SampleOutput();
    SampleEffect(tb, V0, JOB, tb', V1);
    SampleExposed(tb);
    ExposedBreaks(SampleMerge(tb, tb'), SAMPLE, 4, B3, B1);
  }
}
