/** What one merge compaction does to a version, and when reads survive it
    (db/db_impl.cc DoCompactionWork, db/version_set.cc SetupOtherInputs). */
module Compaction {
  import opened Keys
  import opened History
  import opened Versions

  /** Inputs at `level` and at `level` + 1. */
  datatype Job = Job(level: nat, in0: Level, in1: Level)

  predicate Meets(f: File, lo: Rank, hi: Rank) {
    f.smallest.user <= hi && lo <= f.largest.user
  }

  /** The upper inputs: at level 0 no other file meets them; at deeper levels
      no file after an input starts with the user key the input ends with. */
  ghost predicate UpperClosed(lv: Level, level: nat, in0: Level) {
    forall f, g :: f in in0 && g in lv && g !in in0 ==>
      if level == 0 then !Meets(g, f.smallest.user, f.largest.user)
      else Less(f.largest, g.smallest) ==> f.largest.user < g.smallest.user
  }

  /** [lo, hi] covers the upper inputs and the lower inputs are the files meeting it. */
  ghost predicate Hull(v: Version, c: Job, lo: Rank, hi: Rank)
    requires c.level + 1 < |v|
  {
    && (forall f :: f in c.in0 ==> lo <= f.smallest.user && f.largest.user <= hi)
    && (forall g :: g in v[c.level + 1] ==> (g in c.in1 <==> Meets(g, lo, hi)))
  }

  ghost predicate JobOk(v: Version, c: Job) {
    && c.level + 1 < |v|
    && c.in0 <= v[c.level]
    && c.in1 <= v[c.level + 1]
    && UpperClosed(v[c.level], c.level, c.in0)
    && exists lo, hi :: Hull(v, c, lo, hi)
  }

  /** The files of level j that are not inputs. */
  function Rest(v: Version, c: Job, j: nat): Level
    requires j < |v|
  {
    if j == c.level then v[j] - c.in0 else if j == c.level + 1 then v[j] - c.in1 else v[j]
  }

  ghost predicate IsInput(tb: Tables, c: Job, input: Table) {
    Sorted(input) && forall e :: e in input <==> InLevel(tb, c.in0, e) || InLevel(tb, c.in1, e)
  }

  /** The entries of the new version: level + 1 gains `out`, the inputs go. */
  ghost predicate Effect(tb: Tables, v: Version, c: Job, out: Table, tb': Tables, v': Version) {
    && |v'| == |v|
    && forall j, e {:trigger InLevel(tb', v'[j], e)} :: 0 <= j < |v| ==>
        (InLevel(tb', v'[j], e) <==> InLevel(tb, Rest(v, c, j), e) || (j == c.level + 1 && e in out))
  }

  ghost predicate InRest(tb: Tables, v: Version, c: Job, e: Entry) {
    exists j :: 0 <= j < |v| && InLevel(tb, Rest(v, c, j), e)
  }

  lemma RestInVersion(tb: Tables, v: Version, c: Job, j: nat, e: Entry)
    requires j < |v| && InLevel(tb, Rest(v, c, j), e)
    ensures InLevel(tb, v[j], e) && InVersion(tb, v, e)
  {
    var f :| f in Rest(v, c, j) && InFile(tb, f, e);
    assert f in v[j];
  }

  lemma InputInVersion(tb: Tables, v: Version, c: Job, input: Table, e: Entry)
    requires JobOk(v, c) && IsInput(tb, c, input) && e in input
    ensures InLevel(tb, c.in0, e) ==> InLevel(tb, v[c.level], e)
    ensures InLevel(tb, c.in1, e) ==> InLevel(tb, v[c.level + 1], e)
    ensures InVersion(tb, v, e)
  {
    if InLevel(tb, c.in0, e) {
      var f :| f in c.in0 && InFile(tb, f, e);
      assert f in v[c.level];
    }
    if InLevel(tb, c.in1, e) {
      var f :| f in c.in1 && InFile(tb, f, e);
      assert f in v[c.level + 1];
    }
  }

  /** A version's entries are the input's and the rest's. */
  lemma SplitVersion(tb: Tables, v: Version, c: Job, input: Table, e: Entry)
    requires JobOk(v, c) && IsInput(tb, c, input)
    ensures InVersion(tb, v, e) <==> e in input || InRest(tb, v, c, e)
  {
    if e in input {
      InputInVersion(tb, v, c, input, e);
    }
    if j :| 0 <= j < |v| && InLevel(tb, Rest(v, c, j), e) {
      RestInVersion(tb, v, c, j, e);
    }
    if j :| 0 <= j < |v| && InLevel(tb, v[j], e) {
      var f :| f in v[j] && InFile(tb, f, e);
      if f in Rest(v, c, j) {
        assert InLevel(tb, Rest(v, c, j), e);
      } else {
        assert InLevel(tb, c.in0, e) || InLevel(tb, c.in1, e);
      }
    }
  }

  lemma AfterVersion(tb: Tables, v: Version, c: Job, out: Table, tb': Tables, v': Version, e: Entry)
    requires c.level + 1 < |v| && Effect(tb, v, c, out, tb', v')
    ensures InVersion(tb', v', e) <==> e in out || InRest(tb, v, c, e)
  {
    if j :| 0 <= j < |v'| && InLevel(tb', v'[j], e) {
      assert InLevel(tb, Rest(v, c, j), e) || e in out;
    }
    if e in out {
      assert InLevel(tb', v'[c.level + 1], e);
    }
    if j :| 0 <= j < |v| && InLevel(tb, Rest(v, c, j), e) {
      assert InLevel(tb', v'[j], e);
    }
  }

  /** Entries of the rest that share a user key with an input entry are newer
      when they are not below the upper inputs and older when they are below
      the lower inputs.  At level + 1 itself either can happen. */
  lemma RestAge(tb: Tables, v: Version, c: Job, h: Hist, flushed: nat, j: nat, x: Entry, e: Entry)
    requires Sound(tb, v) && JobOk(v, c) && flushed <= |h| && Truthful(tb, v, h, flushed)
    requires j < |v| && InLevel(tb, Rest(v, c, j), x) && x.key.user == e.key.user
    requires InLevel(tb, c.in0, e) || InLevel(tb, c.in1, e)
    ensures j <= c.level ==> x.key.seqno > e.key.seqno
    ensures j > c.level + 1 ==> x.key.seqno < e.key.seqno
    ensures x.key.seqno != e.key.seqno
  {
    hide Sound;
    hide Truthful;
    var g :| g in Rest(v, c, j) && InFile(tb, g, x);
    if f :| f in c.in0 && InFile(tb, f, e) {
      RestAgeUpper(tb, v, c, h, flushed, j, g, x, f, e);
    } else {
      var f :| f in c.in1 && InFile(tb, f, e);
      RestAgeLower(tb, v, c, h, flushed, j, g, x, f, e);
    }
  }

  lemma RestAgeUpper(tb: Tables, v: Version, c: Job, h: Hist, flushed: nat, j: nat, g: File, x: Entry, f: File, e: Entry)
    requires Sound(tb, v) && JobOk(v, c) && flushed <= |h| && Truthful(tb, v, h, flushed)
    requires j < |v| && g in Rest(v, c, j) && InFile(tb, g, x) && x.key.user == e.key.user
    requires f in c.in0 && InFile(tb, f, e)
    ensures j <= c.level <==> x.key.seqno > e.key.seqno
    ensures x.key.seqno != e.key.seqno
  {
    hide Sound;
    hide Truthful;
    assert f in v[c.level] && g in v[j];
    hide *;
    if j == c.level {
      RestSameLevel(tb, v, c, h, flushed, g, x, f, e);
    } else {
      InFileInLevel(tb, v, j, g, x);
      InFileInLevel(tb, v, c.level, f, e);
      SoundOrder(tb, v, j, x, c.level, e);
    }
  }

  lemma RestAgeLower(tb: Tables, v: Version, c: Job, h: Hist, flushed: nat, j: nat, g: File, x: Entry, f: File, e: Entry)
    requires Sound(tb, v) && JobOk(v, c) && flushed <= |h| && Truthful(tb, v, h, flushed)
    requires j < |v| && g in Rest(v, c, j) && InFile(tb, g, x) && x.key.user == e.key.user
    requires f in c.in1 && InFile(tb, f, e)
    ensures j <= c.level ==> x.key.seqno > e.key.seqno
    ensures j > c.level + 1 ==> x.key.seqno < e.key.seqno
    ensures x.key.seqno != e.key.seqno
  {
    hide Sound;
    hide Truthful;
    assert f in v[c.level + 1] && g in v[j];
    hide *;
    if j == c.level + 1 {
      RestLowerLevel(tb, v, c, h, flushed, g, x, f, e);
    } else {
      InFileInLevel(tb, v, j, g, x);
      InFileInLevel(tb, v, c.level + 1, f, e);
      SoundOrder(tb, v, j, x, c.level + 1, e);
    }
  }

  /** Two different entries of one user key in disjoint files of one level. */
  lemma SameLevelAge(tb: Tables, h: Hist, flushed: nat, f: File, x: Entry, g: File, y: Entry)
    requires FileOk(tb, f) && FileOk(tb, g) && InFile(tb, f, x) && InFile(tb, g, y)
    requires x.key.user == y.key.user && Less(f.largest, g.smallest)
    requires flushed <= |h| && IsWrite(h, 0, flushed, x) && IsWrite(h, 0, flushed, y)
    ensures x.key.seqno > y.key.seqno
    ensures f.largest.user == g.smallest.user
  {
    InFileRange(tb, f, x);
    InFileRange(tb, g, y);
    hide FileOk;
    hide InFile;
  }

  lemma RestSameLevel(tb: Tables, v: Version, c: Job, h: Hist, flushed: nat, g: File, x: Entry, f: File, e: Entry)
    requires Sound(tb, v) && JobOk(v, c) && flushed <= |h| && Truthful(tb, v, h, flushed)
    requires g in Rest(v, c, c.level) && InFile(tb, g, x) && x.key.user == e.key.user
    requires f in c.in0 && InFile(tb, f, e)
    ensures x.key.seqno > e.key.seqno
  {
    hide Sound;
    hide Truthful;
    assert f in v[c.level] && g in v[c.level] && f != g;
    assert if c.level == 0 then !Meets(g, f.smallest.user, f.largest.user)
           else Less(f.largest, g.smallest) ==> f.largest.user < g.smallest.user;
    hide *;
    SoundFile(tb, v, c.level, f);
    SoundFile(tb, v, c.level, g);
    TrueEntry(tb, v, h, flushed, c.level, f, e);
    TrueEntry(tb, v, h, flushed, c.level, g, x);
    if c.level == 0 {
      RangesMeet(tb, g, x, f, e);
    } else {
      SoundPair(tb, v, c.level, f, g);
      if Less(f.largest, g.smallest) {
        SameLevelAge(tb, h, flushed, f, e, g, x);
      } else {
        SameLevelAge(tb, h, flushed, g, x, f, e);
      }
    }
  }

  /** Files sharing a user key have meeting ranges. */
  lemma RangesMeet(tb: Tables, g: File, x: Entry, f: File, e: Entry)
    requires FileOk(tb, f) && FileOk(tb, g) && InFile(tb, f, e) && InFile(tb, g, x)
    requires x.key.user == e.key.user
    ensures Meets(g, f.smallest.user, f.largest.user)
  {
    InFileRange(tb, g, x);
    InFileRange(tb, f, e);
  }

  lemma RestLowerLevel(tb: Tables, v: Version, c: Job, h: Hist, flushed: nat, g: File, x: Entry, f: File, e: Entry)
    requires Sound(tb, v) && JobOk(v, c) && flushed <= |h| && Truthful(tb, v, h, flushed)
    requires g in Rest(v, c, c.level + 1) && InFile(tb, g, x) && x.key.user == e.key.user
    requires f in c.in1 && InFile(tb, f, e)
    ensures x.key.seqno != e.key.seqno
  {
    hide Sound;
    hide Truthful;
    assert f in v[c.level + 1] && g in v[c.level + 1] && f != g;
    hide *;
    SoundFile(tb, v, c.level + 1, f);
    SoundFile(tb, v, c.level + 1, g);
    TrueEntry(tb, v, h, flushed, c.level + 1, f, e);
    TrueEntry(tb, v, h, flushed, c.level + 1, g, x);
    SoundPair(tb, v, c.level + 1, f, g);
    if Less(f.largest, g.smallest) {
      SameLevelAge(tb, h, flushed, f, e, g, x);
    } else {
      SameLevelAge(tb, h, flushed, g, x, f, e);
    }
  }
}
