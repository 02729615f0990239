/** What holds over whole runs of the engine. */
module Runs {
  import opened Keys
  import opened History
  import opened Versions
  import opened Install
  import opened Upkeep
  import opened Manifest
  import opened Engine
  import opened EngineInv
  import opened EngineSteps
  import opened EngineFiles
  import opened Recovery

  lemma StepKeeps(s: State, step: Step)
    requires Inv(s) && Shaped(s) && Enabled(s, step)
    ensures Inv(Next(s, step))
  {
    hide Inv;
    match step
    case Arrive(w) =>
      assert Next(s, step) == State(s.db.(queue := s.db.queue + [w]), s.spec.(arrivals := s.spec.arrivals + [w]));
      ArriveKeeps(s, w);
    case StartGroup => hide *; StartGroupKeeps(s);
    case InsertOne => hide *; InsertOneKeeps(s);
    case Publish => hide *; PublishKeeps(s);
    case Forced => hide *; ForcedKeeps(s);
    case Switch => hide *; SwitchKeeps(s);
    case FlushImm(level) => hide *; FlushKeeps(s, level);
    case MoveFile(level, f) => hide *; MoveKeeps(s, level, f);
    case CompactFiles(c, input, outs) => hide *; CompactKeeps(s, c, input, outs);
    case TakeSnapshot => hide *; TakeKeeps(s);
    case ReleaseSnapshot(i) => hide *; ReleaseKeeps(s, i);
    case Collect(keep) => hide *; CollectKeeps(s, keep);
    case Orphan(n, t) => hide *; OrphanKeeps(s, n, t);
    case Crash(plan) => hide *; CrashKeeps(s, plan);
  }

  /** A run from a new database, one step between consecutive states. */
  ghost predicate Run(run: seq<State>, steps: seq<Step>) {
    && |run| == |steps| + 1 && run[0] == Init()
    && forall i :: 0 <= i < |steps| ==> Can(run[i], steps[i]) && run[i + 1] == Next(run[i], steps[i])
  }

  ghost predicate Can(s: State, step: Step) {
    Shaped(s) && Enabled(s, step)
  }

  lemma {:induction false} RunInv(run: seq<State>, steps: seq<Step>, i: nat)
    requires Run(run, steps) && i < |run|
    ensures Inv(run[i])
  {
    if i == 0 {
      InitInv();
    } else {
      RunInv(run, steps, i - 1);
      assert Can(run[i - 1], steps[i - 1]);
      hide Inv; hide Enabled; hide Next; hide Init;
      StepKeeps(run[i - 1], steps[i - 1]);
    }
  }

  // ----- reading (DBImpl::Get)

  /** The memtable answers first, then the immutable one, then the files. */
  ghost predicate Answers(db: Db, user: Rank, at: nat, r: Option<Value>) {
    var m := Find(db.mem, user, at);
    var i := if db.imm.Some? then Find(db.imm.value, user, at) else None;
    if m.Some? then r == ValueOf(m.value)
    else if i.Some? then r == ValueOf(i.value)
    else Reads(db.disk.tables, db.version, user, at, r)
  }

  /** A memtable holding the writes lo + 1 .. hi answers for its part. */
  lemma FindInTable(h: Hist, lo: nat, hi: nat, user: Rank, at: nat)
    requires lo <= hi <= |h| && at <= |h|
    requires LastWrite(h, user, at) <= hi
    ensures var r := Find(TableOf(h, lo, hi), user, at);
            if LastWrite(h, user, at) > lo then r == Some(EntryAt(h, LastWrite(h, user, at))) else r == None
  {
    hide TableOf; hide Find; hide Sorted; hide LastWrite;
    var t, q := TableOf(h, lo, hi), LastWrite(h, user, at);
    TableOfEntries(h, lo, hi);
    FindNewest(t, user, at);
    if q > lo {
      assert IsWrite(h, lo, hi, EntryAt(h, q));
      assert Visible(t, EntryAt(h, q), user, at);
    }
    var r := Find(t, user, at);
    if r.Some? {
      assert IsWrite(h, lo, hi, r.value);
      assert r.value.key.seqno <= q;
    }
  }

  lemma SameForHist(s: State, user: Rank, at: nat)
    requires at <= |s.spec.hist|
    ensures LastWrite(Logged(s), user, at) == LastWrite(s.spec.hist, user, at)
    ensures SpecGet(Logged(s), user, at) == SpecGet(s.spec.hist, user, at)
  {
    LastWritePrefix(s.spec.hist, InFlight(s.db.group), user, at);
  }

  lemma FilesAnswer(s: State, user: Rank, at: nat, r: Option<Value>)
    requires Inv(s) && s.spec.low <= at <= |s.spec.hist| && LastWrite(Logged(s), user, at) <= s.spec.flushed
    ensures Reads(s.db.disk.tables, s.db.version, user, at, r) <==> r == SpecGet(s.spec.hist, user, at)
  {
    hide MemInv; hide LogInv; hide ManifestInv; hide SnapInv; hide QueueInv; hide Sound; hide Reads;
    var tb, v, h := s.db.disk.tables, s.db.version, Logged(s);
    SameForHist(s, user, at);
    assert Reads(tb, v, user, at, SpecGet(h, user, at));
    if Reads(tb, v, user, at, r) {
      ReadsUnique(tb, v, h, s.spec.flushed, user, at, r, SpecGet(h, user, at));
    }
  }

  lemma GetIsSpec(s: State, user: Rank, at: nat, r: Option<Value>)
    requires Inv(s) && s.spec.low <= at <= s.db.lastSeq
    ensures Answers(s.db, user, at, r) <==> r == SpecGet(s.spec.hist, user, at)
  {
    hide VersionInv; hide LogInv; hide ManifestInv; hide SnapInv; hide QueueInv; hide Reads;
    hide TableOf; hide Find; hide LastWrite;
    var h, q := Logged(s), LastWrite(Logged(s), user, at);
    SameForHist(s, user, at);
    FindInTable(h, s.spec.switched, |s.spec.hist| + Inserted(s.db.group), user, at);
    if q <= s.spec.switched {
      FindInTable(h, s.spec.flushed, s.spec.switched, user, at);
    }
    if q <= s.spec.flushed {
      FilesAnswer(s, user, at, r);
    }
  }

  // ----- the main results

  /** at is a sequence number a reader may use: a live snapshot or the latest. */
  predicate Readable(db: Db, at: nat) {
    at == db.lastSeq || at in db.snapshots
  }

  /** Over every run, every read at a live snapshot or at the latest sequence
      number answers what the list of committed writes says. */
  lemma EveryReadIsSpec(run: seq<State>, steps: seq<Step>, i: nat, user: Rank, at: nat, r: Option<Value>)
    requires Run(run, steps) && i < |run| && Readable(run[i].db, at)
    ensures at <= |run[i].spec.hist|
    ensures Answers(run[i].db, user, at, r) <==> r == SpecGet(run[i].spec.hist, user, at)
  {
    RunInv(run, steps, i);
    hide Run;
    ReadableInRange(run[i], at);
    hide Inv; hide Answers;
    GetIsSpec(run[i], user, at, r);
  }

  lemma ReadableInRange(s: State, at: nat)
    requires Inv(s) && Readable(s.db, at)
    ensures s.spec.low <= at <= s.db.lastSeq == |s.spec.hist|
  {
    hide VersionInv; hide LogInv; hide ManifestInv; hide QueueInv; hide TableOf;
  }

  lemma StepGrows(s: State, step: Step)
    requires Can(s, step)
    ensures s.spec.hist <= Next(s, step).spec.hist && s.spec.fates <= Next(s, step).spec.fates
  {
    hide Recover; hide LostFates; hide Fates;
  }

  /** The history only ever grows, across crashes too, and what became of a
      writer is never revised. */
  lemma {:induction false} HistoryGrows(run: seq<State>, steps: seq<Step>, i: nat, j: nat)
    requires Run(run, steps) && i <= j < |run|
    ensures run[i].spec.hist <= run[j].spec.hist && run[i].spec.fates <= run[j].spec.fates
    decreases j
  {
    hide *;
    if i < j {
      RunLength(run, steps);
      RunStep(run, steps, j - 1);
      HistoryGrows(run, steps, i, j - 1);
      StepGrows(run[j - 1], steps[j - 1]);
      Longer(run[i].spec.hist, run[j - 1].spec.hist, run[j].spec.hist);
      Longer(run[i].spec.fates, run[j - 1].spec.fates, run[j].spec.fates);
    }
  }

  lemma Longer<T>(a: seq<T>, b: seq<T>, c: seq<T>)
    requires a <= b <= c
    ensures a <= c
  {
  }

  // ----- snapshots

  lemma HistoryLength(s: State)
    requires Inv(s)
    ensures s.db.lastSeq == |s.spec.hist|
  {
    hide VersionInv; hide LogInv; hide ManifestInv; hide SnapInv; hide QueueInv; hide TableOf;
  }

  lemma StepSnapshots(s: State, step: Step)
    requires Can(s, step)
    ensures var a, b := s.db.snapshots, Next(s, step).db.snapshots;
            match step
            case TakeSnapshot => b == a + [s.db.lastSeq]
            case ReleaseSnapshot(i) => i < |a| && b == a[..i] + a[i + 1..]
            case Crash(_) => b == []
            case _ => b == a
  {
    hide Recover; hide LostFates;
    if step.Crash? {
      RecoveredSnapshots(s.db.disk, step.plan);
    }
  }

  lemma RecoveredSnapshots(d: Disk, plan: seq<LogPlan>)
    requires d.manifest != []
    ensures Recover(d, plan).snapshots == []
  {
    hide FlushLogs; hide Rebuild;
  }

  /** The list of snapshots changes only as clients say: the number of writes
      committed so far joins it, exactly the snapshot released leaves it, and
      nothing else but the end of the process touches it. */
  lemma SnapshotsFollow(run: seq<State>, steps: seq<Step>, k: nat)
    requires Run(run, steps) && k < |steps|
    ensures k + 1 < |run|
    ensures var a, b := run[k].db.snapshots, run[k + 1].db.snapshots;
            match steps[k]
            case TakeSnapshot => multiset(b) == multiset(a) + multiset{|run[k].spec.hist|}
            case ReleaseSnapshot(i) => i < |a| && multiset(b) == multiset(a) - multiset{a[i]}
            case Crash(_) => b == []
            case _ => b == a
  {
    hide *;
    RunStep(run, steps, k);
    RunInv(run, steps, k);
    HistoryLength(run[k]);
    StepSnapshots(run[k], steps[k]);
    if steps[k].ReleaseSnapshot? {
      OneLess(run[k].db.snapshots, steps[k].i);
    }
  }

  lemma OneLess(s: seq<nat>, i: nat)
    requires i < |s|
    ensures multiset(s[..i] + s[i + 1..]) == multiset(s) - multiset{s[i]}
  {
    assert s == s[..i] + [s[i]] + s[i + 1..];
  }

  /** Where in the list the snapshot taken by step i is after j steps, by the
      steps alone; None once it was released or the process died. */
  ghost function Place(run: seq<State>, steps: seq<Step>, i: nat, j: nat): Option<nat>
    requires Run(run, steps) && i < j < |run| && steps[i].TakeSnapshot?
    decreases j
  {
    if j == i + 1 then Some(|run[i].db.snapshots|)
    else
      var p := Place(run, steps, i, j - 1);
      if p.None? || steps[j - 1].Crash? then None
      else if steps[j - 1].ReleaseSnapshot? then
        var gone := steps[j - 1].i;
        if gone == p.value then None else if gone < p.value then Some(p.value - 1) else p
      else p
  }

  lemma KeptPlace(s: State, step: Step, p: nat)
    requires Can(s, step) && !step.Crash? && p < |s.db.snapshots|
    ensures step.ReleaseSnapshot? && step.i < p ==> p <= |Next(s, step).db.snapshots| && Next(s, step).db.snapshots[p - 1] == s.db.snapshots[p]
    ensures !(step.ReleaseSnapshot? && step.i <= p) ==> p < |Next(s, step).db.snapshots| && Next(s, step).db.snapshots[p] == s.db.snapshots[p]
  {
  }

  lemma TakenLast(s: State)
    requires Can(s, TakeSnapshot)
    ensures Next(s, TakeSnapshot).db.snapshots == s.db.snapshots + [s.db.lastSeq]
  {
  }

  lemma RunLength(run: seq<State>, steps: seq<Step>)
    requires Run(run, steps)
    ensures |run| == |steps| + 1
  {
    hide Can; hide Next;
  }

  lemma RunStep(run: seq<State>, steps: seq<Step>, k: nat)
    requires Run(run, steps) && k < |steps|
    ensures |run| == |steps| + 1 && Can(run[k], steps[k]) && run[k + 1] == Next(run[k], steps[k])
  {
    hide Can; hide Next;
  }

  lemma PlaceNext(run: seq<State>, steps: seq<Step>, i: nat, j: nat)
    requires Run(run, steps) && i + 1 < j < |run| && steps[i].TakeSnapshot? && Place(run, steps, i, j).Some?
    ensures Place(run, steps, i, j - 1).Some? && !steps[j - 1].Crash?
    ensures var p, q := Place(run, steps, i, j).value, Place(run, steps, i, j - 1).value;
            if steps[j - 1].ReleaseSnapshot? && steps[j - 1].i <= q then steps[j - 1].i < q && p == q - 1 else p == q
  {
    hide Run;
  }

  lemma {:induction false} SnapshotKept(run: seq<State>, steps: seq<Step>, i: nat, j: nat)
    requires Run(run, steps) && i < j < |run| && steps[i].TakeSnapshot? && Place(run, steps, i, j).Some?
    ensures var p := Place(run, steps, i, j).value;
            p < |run[j].db.snapshots| && run[j].db.snapshots[p] == |run[i].spec.hist|
    decreases j
  {
    hide *;
    RunLength(run, steps);
    RunStep(run, steps, j - 1);
    if j == i + 1 {
      RunInv(run, steps, i);
      HistoryLength(run[i]);
      TakenLast(run[i]);
      FirstPlace(run, steps, i);
    } else {
      PlaceNext(run, steps, i, j);
      SnapshotKept(run, steps, i, j - 1);
      KeptPlace(run[j - 1], steps[j - 1], Place(run, steps, i, j - 1).value);
    }
  }

  lemma FirstPlace(run: seq<State>, steps: seq<Step>, i: nat)
    requires Run(run, steps) && i < |steps| && steps[i].TakeSnapshot?
    ensures |run| == |steps| + 1 && Place(run, steps, i, i + 1) == Some(|run[i].db.snapshots|)
  {
  }

  /** From when it is taken until it is released itself, or the process dies, a
      snapshot answers what the database answered when it was taken. */
  lemma SnapshotStable(run: seq<State>, steps: seq<Step>, i: nat, j: nat, user: Rank, r: Option<Value>)
    requires Run(run, steps) && i < j < |run| && steps[i].TakeSnapshot? && Place(run, steps, i, j).Some?
    ensures var at := |run[i].spec.hist|;
            && Readable(run[j].db, at)
            && (Answers(run[j].db, user, at, r) <==> Answers(run[i].db, user, run[i].db.lastSeq, r))
            && (Answers(run[j].db, user, at, r) <==> r == SpecGet(run[i].spec.hist, user, at))
  {
    var at := |run[i].spec.hist|;
    RunInv(run, steps, i);
    HistoryLength(run[i]);
    SnapshotKept(run, steps, i, j);
    hide Inv; hide Answers; hide Place;
    EveryReadIsSpec(run, steps, i, user, at, r);
    EveryReadIsSpec(run, steps, j, user, at, r);
    HistoryGrows(run, steps, i, j);
    hide Run;
    SpecGetStable(run[i].spec.hist, run[j].spec.hist, user, at);
  }

  lemma CrashHistory(s: State, plan: seq<LogPlan>)
    requires Can(s, Crash(plan))
    ensures Next(s, Crash(plan)).spec.hist == s.spec.hist + InFlight(s.db.group)
  {
    hide Recover; hide LostFates;
  }

  /** A crash anywhere loses no committed write: what is rebuilt from the disk
      is the committed writes followed by the group that was in the log already. */
  lemma CrashKeepsHistory(run: seq<State>, steps: seq<Step>, i: nat, user: Rank, r: Option<Value>)
    requires Run(run, steps) && i < |steps| && steps[i].Crash?
    ensures run[i + 1].spec.hist == run[i].spec.hist + InFlight(run[i].db.group)
    ensures Answers(run[i + 1].db, user, run[i + 1].db.lastSeq, r) <==>
              r == SpecGet(run[i].spec.hist + InFlight(run[i].db.group), user, |run[i].spec.hist| + |InFlight(run[i].db.group)|)
  {
    hide Inv; hide Answers; hide Recover; hide Init; hide LostFates;
    assert Can(run[i], steps[i]);
    CrashHistory(run[i], steps[i].plan);
    hide Can; hide Next;
    RunInv(run, steps, i + 1);
    ReadableInRange(run[i + 1], run[i + 1].db.lastSeq);
    EveryReadIsSpec(run, steps, i + 1, user, run[i + 1].db.lastSeq, r);
  }

  // ----- writers

  /** The writers that arrived, by the steps alone. */
  function Arrived(steps: seq<Step>): seq<Writer> {
    if steps == [] then []
    else
      var last := steps[|steps| - 1];
      Arrived(steps[..|steps| - 1]) + if last.Arrive? then [last.w] else []
  }

  lemma StepArrives(s: State, step: Step)
    requires Can(s, step)
    ensures Next(s, step).spec.arrivals == s.spec.arrivals + if step.Arrive? then [step.w] else []
    ensures !step.Crash? && (forall f :: f in s.spec.fates ==> f.acked) ==> forall f :: f in Next(s, step).spec.fates ==> f.acked
  {
    hide Recover; hide LostFates;
  }

  lemma {:induction false} WritersFollow(run: seq<State>, steps: seq<Step>, i: nat)
    requires Run(run, steps) && i < |run|
    ensures run[i].spec.arrivals == Arrived(steps[..i])
    ensures (forall k :: 0 <= k < i ==> !steps[k].Crash?) ==> forall f :: f in run[i].spec.fates ==> f.acked
  {
    if i == 0 {
      assert run[0] == Init();
      hide Recover; hide Run;
    } else {
      assert Can(run[i - 1], steps[i - 1]) && run[i] == Next(run[i - 1], steps[i - 1]);
      assert steps[..i][..i - 1] == steps[..i - 1] && steps[..i][i - 1] == steps[i - 1];
      hide Next; hide Can; hide Run; hide Init;
      WritersFollow(run, steps, i - 1);
      StepArrives(run[i - 1], steps[i - 1]);
    }
  }

  /** Group commit: the writers that arrived are, in order, those served and
      those still queued; the history is the landed batches, each once and
      whole; only a crash leaves a served writer untold; whoever was told did
      land, and a writer that asked for a sync was served by a leader that
      synced. */
  lemma GroupCommit(run: seq<State>, steps: seq<Step>, i: nat)
    requires Run(run, steps) && i < |run|
    ensures var sp := run[i].spec;
            && sp.hist == Landed(sp.fates)
            && Arrived(steps[..i]) == Served(sp.fates) + run[i].db.queue
            && (forall f :: f in sp.fates && f.acked ==> f.landed && (f.w.sync ==> f.synced))
            && ((forall k :: 0 <= k < i ==> !steps[k].Crash?) ==> forall f :: f in sp.fates ==> f.acked)
  {
    RunInv(run, steps, i);
    WritersFollow(run, steps, i);
    hide Arrived; hide Run; hide MemInv; hide VersionInv; hide LogInv; hide ManifestInv; hide SnapInv;
  }

  /** Every version of every run is sound: files of the deeper levels are
      disjoint, and newer entries of a key are in shallower levels or, in level
      0, in files with larger numbers.  The manifest always replays to it. */
  lemma VersionsStaySound(run: seq<State>, steps: seq<Step>, i: nat)
    requires Run(run, steps) && i < |run|
    ensures Sound(run[i].db.disk.tables, run[i].db.version)
    ensures Rebuild(run[i].db.disk.manifest) == run[i].db.version
  {
    RunInv(run, steps, i);
    hide Run; hide MemInv; hide LogInv; hide SnapInv; hide QueueInv; hide Sound; hide AllOlder; hide Truthful; hide Covered;
    hide AddedOnce; hide AddedSmall; hide AddedAbove; hide NumbersUnique; hide LastEdit; hide Fold; hide Rebuild;
    RebuildIsFold(run[i].db.disk.manifest);
  }
}
