/** When one compaction preserves the meaning of a version. */
module Meaning {
  import opened Keys
  import opened History
  import opened Versions
  import opened Survivors
  import opened Compaction

  /** One finished compaction: the version before, the job, the oldest
      snapshot, the merged input, what was written, the version after. */
  datatype Merge = Merge(tb: Tables, v: Version, job: Job, snapshot: nat,
                         input: Table, out: Table, tb': Tables, v': Version)

  ghost predicate Compacted(m: Merge, h: Hist, flushed: nat) {
    && Sound(m.tb, m.v) && flushed <= |h| && Truthful(m.tb, m.v, h, flushed)
    && m.job.level + 1 < |m.v| && JobOk(m.v, m.job)
    && IsInput(m.tb, m.job, m.input)
    && OutputOk(m.v, m.job, m.snapshot, m.input, m.out)
    && Effect(m.tb, m.v, m.job, m.out, m.tb', m.v')
  }

  ghost predicate OutputOk(v: Version, c: Job, snapshot: nat, input: Table, out: Table) {
    forall e :: e in out <==> e in input && !Gone(v, c.level, snapshot, input, e)
  }

  /** Reads of every key agree at every sequence number from `from` on. */
  ghost predicate SameReads(tb: Tables, v: Version, tb': Tables, v': Version, from: nat) {
    forall user, at, r :: at >= from ==> (Reads(tb, v, user, at, r) <==> Reads(tb', v', user, at, r))
  }

  /** x is an older entry of e's user key in the part of level + 1 left alone. */
  ghost predicate Below(tb: Tables, v: Version, c: Job, e: Entry, x: Entry)
    requires c.level + 1 < |v|
  {
    InLevel(tb, Rest(v, c, c.level + 1), x) && x.key.user == e.key.user && x.key.seqno < e.key.seqno
  }

  /** e is a deletion the compaction drops although it is what the oldest
      snapshot reads, and o is the older value that then reappears. */
  ghost predicate ExposedBy(tb: Tables, v: Version, c: Job, input: Table, snapshot: nat, e: Entry, o: Entry)
    requires c.level + 1 < |v|
  {
    && e in input
    && ObsoleteDeletion(v, c.level, snapshot, e.key)
    && IsNewest(tb, v, e.key.user, snapshot, e)
    && Below(tb, v, c, e, o)
    && o.key.kind.Put?
    && forall x :: Below(tb, v, c, e, x) ==> x.key.seqno <= o.key.seqno
  }

  ghost predicate Exposed(tb: Tables, v: Version, c: Job, input: Table, snapshot: nat)
    requires c.level + 1 < |v|
  {
    exists e, o :: ExposedBy(tb, v, c, input, snapshot, e, o)
  }

  // ----- what is left after a compaction

  lemma Shrinks(m: Merge, h: Hist, flushed: nat, e: Entry)
    requires Compacted(m, h, flushed)
    ensures InVersion(m.tb', m.v', e) ==> InVersion(m.tb, m.v, e)
    ensures InVersion(m.tb, m.v, e) && !InVersion(m.tb', m.v', e) ==>
              e in m.input && Gone(m.v, m.job.level, m.snapshot, m.input, e)
  {
    hide Sound; hide JobOk; hide Effect; hide IsInput; hide Truthful;
    assert e in m.out <==> e in m.input && !Gone(m.v, m.job.level, m.snapshot, m.input, e);
    hide OutputOk;
    SplitVersion(m.tb, m.v, m.job, m.input, e);
    AfterVersion(m.tb, m.v, m.job, m.out, m.tb', m.v', e);
  }

  lemma StillTruthful(m: Merge, h: Hist, flushed: nat)
    requires Compacted(m, h, flushed)
    ensures Truthful(m.tb', m.v', h, flushed)
  {
    forall e | InVersion(m.tb', m.v', e)
      ensures IsWrite(h, 0, flushed, e)
    {
      assert Truthful(m.tb, m.v, h, flushed);
      hide Compacted;
      Shrinks(m, h, flushed, e);
    }
  }

  /** A newest entry that disappears was an obsolete deletion. */
  lemma NewestGone(m: Merge, h: Hist, flushed: nat, at: nat, e: Entry)
    requires Compacted(m, h, flushed) && at >= m.snapshot
    requires IsNewest(m.tb, m.v, e.key.user, at, e) && !InVersion(m.tb', m.v', e)
    ensures e in m.input && ObsoleteDeletion(m.v, m.job.level, m.snapshot, e.key)
    ensures IsNewest(m.tb, m.v, e.key.user, m.snapshot, e)
  {
    hide Compacted;
    hide InVersion;
    Shrinks(m, h, flushed, e);
    if x :| Hides(m.input, m.snapshot, x, e) {
      InputSeen(m, h, flushed, x);
    }
    assert forall x :: Sees(m.tb, m.v, e.key.user, m.snapshot, x) ==> Sees(m.tb, m.v, e.key.user, at, x);
  }

  lemma InputSeen(m: Merge, h: Hist, flushed: nat, x: Entry)
    requires Compacted(m, h, flushed) && x in m.input
    ensures InVersion(m.tb, m.v, x)
  {
    hide Sound; hide JobOk; hide Effect; hide IsInput; hide Truthful; hide OutputOk;
    InputInVersion(m.tb, m.v, m.job, m.input, x);
  }

  /** What can still be read of e's user key below a dropped deletion e is in
      the part of level + 1 left alone. */
  lemma OnlyBelow(m: Merge, h: Hist, flushed: nat, e: Entry, n: Entry)
    requires Compacted(m, h, flushed)
    requires e in m.input && ObsoleteDeletion(m.v, m.job.level, m.snapshot, e.key)
    requires InVersion(m.tb', m.v', n) && n.key.user == e.key.user && n.key.seqno < e.key.seqno
    ensures Below(m.tb, m.v, m.job, e, n)
  {
    hide Sound; hide JobOk; hide IsInput; hide Truthful;
    AfterVersion(m.tb, m.v, m.job, m.out, m.tb', m.v', n);
    hide Effect;
    assert Hides(m.input, m.snapshot, e, n);
    assert n !in m.out;
    hide OutputOk;
    var j: nat :| j < |m.v| && InLevel(m.tb, Rest(m.v, m.job, j), n);
    assert InLevel(m.tb, m.job.in0, e) || InLevel(m.tb, m.job.in1, e) by {
      hide *;
      InputLevel(m.tb, m.job, m.input, e);
    }
    RestAge(m.tb, m.v, m.job, h, flushed, j, n, e);
    if j > m.job.level + 1 {
      NotBase(m.tb, m.v, m.job, j, n);
    }
  }

  lemma InputLevel(tb: Tables, c: Job, input: Table, e: Entry)
    requires IsInput(tb, c, input) && e in input
    ensures InLevel(tb, c.in0, e) || InLevel(tb, c.in1, e)
  {
  }

  lemma NotBase(tb: Tables, v: Version, c: Job, j: nat, n: Entry)
    requires Sound(tb, v)
    requires c.level + 2 <= j < |v| && InLevel(tb, Rest(v, c, j), n)
    ensures !BaseLevel(v, c.level, n.key.user)
  {
    hide Sound;
    var f :| f in v[j] && InFile(tb, f, n);
    SoundFile(tb, v, j, f);
    InFileRange(tb, f, n);
  }

  // ----- the two directions

  lemma ReadSurvives(m: Merge, h: Hist, flushed: nat, user: Rank, at: nat, r: Option<Value>)
    requires Compacted(m, h, flushed) && at >= m.snapshot
    requires m.job.level + 1 < |m.v| && !Exposed(m.tb, m.v, m.job, m.input, m.snapshot)
    requires Reads(m.tb, m.v, user, at, r)
    ensures Reads(m.tb', m.v', user, at, r)
  {
    hide Compacted; hide Exposed; hide InVersion;
    forall x
      ensures Sees(m.tb', m.v', user, at, x) ==> Sees(m.tb, m.v, user, at, x)
    {
      Shrinks(m, h, flushed, x);
    }
    if e :| IsNewest(m.tb, m.v, user, at, e) && r == ValueOf(e) {
      if InVersion(m.tb', m.v', e) {
        assert IsNewest(m.tb', m.v', user, at, e);
      } else {
        NewestGone(m, h, flushed, at, e);
        if x :| Sees(m.tb', m.v', user, at, x) {
          NewestExists(m.tb', m.v', user, at, x);
          var n :| IsNewest(m.tb', m.v', user, at, n);
          NewestIsDeletion(m, h, flushed, at, e, n);
        }
      }
    }
  }

  lemma NewestIsDeletion(m: Merge, h: Hist, flushed: nat, at: nat, e: Entry, n: Entry)
    requires Compacted(m, h, flushed) && at >= m.snapshot
    requires m.job.level + 1 < |m.v| && !Exposed(m.tb, m.v, m.job, m.input, m.snapshot)
    requires IsNewest(m.tb, m.v, e.key.user, at, e) && !InVersion(m.tb', m.v', e)
    requires IsNewest(m.tb', m.v', e.key.user, at, n)
    ensures n.key.kind.Deletion?
  {
    hide Compacted; hide Below; hide Exposed; hide InVersion; hide ObsoleteDeletion;
    NewestGone(m, h, flushed, at, e);
    NewestIsOlder(m, h, flushed, at, e, n);
    OnlyBelow(m, h, flushed, e, n);
    forall x | Below(m.tb, m.v, m.job, e, x)
      ensures x.key.seqno <= n.key.seqno
    {
      BelowStays(m, h, flushed, e, x);
      BelowSees(m, at, e, n, x);
    }
    hide IsNewest;
    NotExposed(m, e, n);
  }

  lemma BelowSees(m: Merge, at: nat, e: Entry, n: Entry, x: Entry)
    requires m.job.level + 1 < |m.v| && Below(m.tb, m.v, m.job, e, x) && InVersion(m.tb', m.v', x) && e.key.seqno <= at
    requires IsNewest(m.tb', m.v', e.key.user, at, n)
    ensures x.key.seqno <= n.key.seqno
  {
    hide InVersion; hide InLevel;
    assert Sees(m.tb', m.v', e.key.user, at, x);
  }

  lemma NotExposed(m: Merge, e: Entry, n: Entry)
    requires m.job.level + 1 < |m.v| && !Exposed(m.tb, m.v, m.job, m.input, m.snapshot)
    requires e in m.input && ObsoleteDeletion(m.v, m.job.level, m.snapshot, e.key)
    requires IsNewest(m.tb, m.v, e.key.user, m.snapshot, e) && Below(m.tb, m.v, m.job, e, n)
    requires forall x :: Below(m.tb, m.v, m.job, e, x) ==> x.key.seqno <= n.key.seqno
    ensures n.key.kind.Deletion?
  {
    hide IsNewest; hide Below; hide ObsoleteDeletion;
    assert !ExposedBy(m.tb, m.v, m.job, m.input, m.snapshot, e, n);
  }

  lemma BeforeTruthful(m: Merge, h: Hist, flushed: nat)
    requires Compacted(m, h, flushed)
    ensures flushed <= |h| && Truthful(m.tb, m.v, h, flushed)
  {
    hide Sound; hide JobOk; hide Effect; hide IsInput; hide OutputOk; hide Truthful;
  }

  lemma NewestIsOlder(m: Merge, h: Hist, flushed: nat, at: nat, e: Entry, n: Entry)
    requires Compacted(m, h, flushed)
    requires IsNewest(m.tb, m.v, e.key.user, at, e) && !InVersion(m.tb', m.v', e)
    requires IsNewest(m.tb', m.v', e.key.user, at, n)
    ensures n.key.seqno < e.key.seqno
  {
    hide Compacted; hide InVersion;
    Shrinks(m, h, flushed, n);
    assert Sees(m.tb, m.v, e.key.user, at, n);
    BeforeTruthful(m, h, flushed);
    SeqIdentifies(m.tb, m.v, h, flushed, n, e);
  }

  lemma BelowStays(m: Merge, h: Hist, flushed: nat, e: Entry, x: Entry)
    requires Compacted(m, h, flushed) && Below(m.tb, m.v, m.job, e, x)
    ensures InVersion(m.tb', m.v', x)
  {
    hide Sound; hide JobOk; hide IsInput; hide Truthful; hide OutputOk;
    AfterVersion(m.tb, m.v, m.job, m.out, m.tb', m.v', x);
  }

  /** An exposed deletion changes what the oldest snapshot itself reads. */
  lemma ExposedBreaks(m: Merge, h: Hist, flushed: nat, e: Entry, o: Entry)
    requires Compacted(m, h, flushed) && ExposedBy(m.tb, m.v, m.job, m.input, m.snapshot, e, o)
    ensures Reads(m.tb, m.v, e.key.user, m.snapshot, None)
    ensures Reads(m.tb', m.v', e.key.user, m.snapshot, Some(o.value))
  {
    hide Compacted; hide InVersion; hide InLevel; hide BaseLevel;
    BelowStays(m, h, flushed, e, o);
    forall x | Sees(m.tb', m.v', e.key.user, m.snapshot, x)
      ensures x.key.seqno <= o.key.seqno
    {
      BelowOnly(m, h, flushed, e, o, x);
    }
    assert IsNewest(m.tb', m.v', e.key.user, m.snapshot, o);
  }

  lemma BelowOnly(m: Merge, h: Hist, flushed: nat, e: Entry, o: Entry, x: Entry)
    requires Compacted(m, h, flushed) && ExposedBy(m.tb, m.v, m.job, m.input, m.snapshot, e, o)
    requires Sees(m.tb', m.v', e.key.user, m.snapshot, x)
    ensures x.key.seqno <= o.key.seqno
  {
    hide Compacted; hide InVersion; hide Below; hide ObsoleteDeletion;
    Shrinks(m, h, flushed, x);
    assert Sees(m.tb, m.v, e.key.user, m.snapshot, x);
    DeletionGoes(m, h, flushed, e, x);
    OnlyBelow(m, h, flushed, e, x);
  }

  /** The dropped deletion is in no file any more, nor is anything as new. */
  lemma DeletionGoes(m: Merge, h: Hist, flushed: nat, e: Entry, x: Entry)
    requires Compacted(m, h, flushed)
    requires e in m.input && ObsoleteDeletion(m.v, m.job.level, m.snapshot, e.key)
    requires InVersion(m.tb', m.v', x) && x.key.user == e.key.user && x.key.seqno <= e.key.seqno
    ensures x.key.seqno < e.key.seqno
  {
    hide Sound; hide JobOk; hide IsInput; hide Truthful;
    AfterVersion(m.tb, m.v, m.job, m.out, m.tb', m.v', x);
    hide Effect;
    InputLevel(m.tb, m.job, m.input, e);
    if x in m.out {
      assert x in m.input && !Gone(m.v, m.job.level, m.snapshot, m.input, x);
      InputSeen(m, h, flushed, x);
      InputSeen(m, h, flushed, e);
      SeqIdentifies(m.tb, m.v, h, flushed, x, e);
    } else {
      var j: nat :| j < |m.v| && InLevel(m.tb, Rest(m.v, m.job, j), x);
      hide OutputOk;
      RestAge(m.tb, m.v, m.job, h, flushed, j, x, e);
    }
  }

  lemma SeqIdentifies(tb: Tables, v: Version, h: Hist, flushed: nat, x: Entry, e: Entry)
    requires flushed <= |h| && Truthful(tb, v, h, flushed) && InVersion(tb, v, x) && InVersion(tb, v, e)
    ensures x.key.seqno == e.key.seqno ==> x == e
  {
    hide InVersion;
    assert IsWrite(h, 0, flushed, x) && IsWrite(h, 0, flushed, e);
  }

  /** A compaction preserves every read at or above the oldest snapshot if and
      only if it exposes nothing. */
  lemma PreservesReadsIff(m: Merge, h: Hist, flushed: nat)
    requires Compacted(m, h, flushed)
    ensures SameReads(m.tb, m.v, m.tb', m.v', m.snapshot) <==> !Exposed(m.tb, m.v, m.job, m.input, m.snapshot)
  {
    StillTruthful(m, h, flushed);
    if e, o :| ExposedBy(m.tb, m.v, m.job, m.input, m.snapshot, e, o) {
      ExposedBreaks(m, h, flushed, e, o);
      assert Truthful(m.tb, m.v, h, flushed);
      hide Compacted; hide Reads; hide ExposedBy;
      if Reads(m.tb, m.v, e.key.user, m.snapshot, Some(o.value)) {
        ReadsUnique(m.tb, m.v, h, flushed, e.key.user, m.snapshot, None, Some(o.value));
      }
    } else {
      forall user, at: nat, r | at >= m.snapshot
        ensures Reads(m.tb, m.v, user, at, r) <==> Reads(m.tb', m.v', user, at, r)
      {
        hide Compacted; hide Reads; hide ExposedBy;
        var r0 := ReadsTotal(m.tb, m.v, user, at);
        ReadSurvives(m, h, flushed, user, at, r0);
        if Reads(m.tb', m.v', user, at, r) {
          ReadsUnique(m.tb', m.v', h, flushed, user, at, r, r0);
        }
        if Reads(m.tb, m.v, user, at, r) {
          ReadSurvives(m, h, flushed, user, at, r);
        }
      }
    }
  }
}
