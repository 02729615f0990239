/** Moves, compactions, snapshots and garbage collection keep the invariant. */
module EngineFiles {
  import opened Keys
  import opened History
  import opened Versions
  import opened Compaction
  import opened Install
  import opened Placement
  import opened Upkeep
  import opened Manifest
  import opened Engine
  import opened Edits
  import opened EngineInv
  import opened ManifestSteps

  /** A step that changes the version, the tables and the manifest only. */
  function Installed(s: State, tables: Tables, e: Edit, low: nat): State
    requires |s.db.version| == NUM_LEVELS
  {
    var db := s.db;
    State(db.(version := EditVersion(db.version, e), nextFile := e.nextFile,
              disk := Disk(tables, db.disk.logs, db.disk.manifest + [e])),
          s.spec.(low := low))
  }

  lemma InstalledMem(s: State, tables: Tables, e: Edit, low: nat)
    requires MemInv(s) && |s.db.version| == NUM_LEVELS
    ensures MemInv(Installed(s, tables, e, low)) && Logged(Installed(s, tables, e, low)) == Logged(s)
    ensures s.spec.flushed <= s.db.lastSeq == |s.spec.hist|
  {
    hide TableOf; hide EditVersion;
  }

  lemma InstalledLogs(logs: Logs, logNumber: nat, logFile: nat, next: nat, hasImm: bool,
                      h: Hist, flushed: nat, switched: nat, next': nat)
    requires LogInv(logs, logNumber, logFile, next, hasImm, h, flushed, switched) && next <= next'
    ensures LogInv(logs, logNumber, logFile, next', hasImm, h, flushed, switched)
  {
    hide Matches;
  }

  lemma InstalledKeeps(s: State, tables: Tables, e: Edit, low: nat)
    requires Inv(s) && |s.db.version| == NUM_LEVELS && e.nextFile >= s.db.nextFile
    requires SnapInv(s.db.snapshots, low, s.db.lastSeq)
    requires VersionInv(tables, EditVersion(s.db.version, e), Logged(s), s.spec.flushed, low, e.nextFile)
    requires ManifestInv(s.db.disk.manifest + [e], EditVersion(s.db.version, e), s.db.logNumber, e.nextFile, s.spec.flushed, |s.spec.hist|)
    ensures Inv(Installed(s, tables, e, low))
  {
    hide MemInv; hide VersionInv; hide LogInv; hide ManifestInv; hide SnapInv; hide QueueInv; hide EditVersion;
    InstalledMem(s, tables, e, low);
    InstalledLogs(s.db.disk.logs, s.db.logNumber, s.db.logFile, s.db.nextFile, s.db.imm.Some?, Logged(s),
                  s.spec.flushed, s.spec.switched, e.nextFile);
  }

  // ----- trivial move

  function MoveRecord(db: Db, level: nat, f: File): Edit
    requires level + 1 < NUM_LEVELS
  {
    Record(db.logNumber, db.nextFile, db.lastSeq, NO_DELETIONS[level := {f.number}], EMPTY_VERSION[level + 1 := {f}])
  }

  lemma UniqueInLevel(tb: Tables, v: Version, level: nat, f: File)
    requires Sound(tb, v) && NumbersUnique(v) && MoveOk(v, level, f)
    ensures f in v[level]
    ensures forall g :: g in v[level] && g.number == f.number ==> g == f
    ensures forall g :: g in v[level + 1] ==> g.number != f.number
  {
    assert f in Job(level, {f}, {}).in0;
    hide Sound;
    SoundLevel(tb, v, level);
    hide FileOk;
  }

  lemma MoveParts(db: Db, h: Hist, flushed: nat, low: nat, committed: nat, level: nat, f: File)
    requires VersionInv(db.disk.tables, db.version, h, flushed, low, db.nextFile)
    requires ManifestInv(db.disk.manifest, db.version, db.logNumber, db.nextFile, flushed, committed)
    requires MoveOk(db.version, level, f) && level + 1 < NUM_LEVELS && flushed <= db.lastSeq <= committed
    ensures var e := MoveRecord(db, level, f);
            && |db.version| == NUM_LEVELS
            && VersionInv(db.disk.tables, EditVersion(db.version, e), h, flushed, low, db.nextFile)
            && ManifestInv(db.disk.manifest + [e], EditVersion(db.version, e), db.logNumber, db.nextFile, flushed, committed)
  {
    var e := MoveRecord(db, level, f);
    assert Sound(db.disk.tables, db.version) && AllOlder(db.version, db.nextFile) && NumbersUnique(db.version) && |db.version| == NUM_LEVELS by {
      hide Sound; hide AllOlder; hide Truthful; hide Covered; hide Fold; hide AddedOnce; hide AddedSmall; hide AddedAbove; hide NumbersUnique;
    }
    hide Sound; hide AllOlder; hide Truthful; hide Covered; hide VersionInv; hide ManifestInv; hide NumbersUnique; hide EditVersion; hide Moved; hide JobOk;
    UniqueInLevel(db.disk.tables, db.version, level, f);
    MoveEdit(db.disk.tables, db.version, level, f, e);
    Move(db.disk.tables, db.version, h, flushed, low, db.nextFile, level, f);
    MoveStep(db.disk.manifest, db.version, db.logNumber, db.nextFile, flushed, committed, level, f, e);
  }

  lemma MoveKeeps(s: State, level: nat, f: File)
    requires Inv(s) && Shaped(s) && Enabled(s, MoveFile(level, f))
    ensures Inv(Next(s, MoveFile(level, f)))
  {
    hide Inv; hide JobOk;
    var db, sp := s.db, s.spec;
    var e := MoveRecord(db, level, f);
    assert Next(s, MoveFile(level, f)) == Installed(s, db.disk.tables, e, sp.low);
    assert MoveOk(db.version, level, f);
    hide Next; hide Enabled; hide MoveOk; hide MoveRecord;
    MovedKeeps(s, level, f);
  }

  lemma MovedKeeps(s: State, level: nat, f: File)
    requires Inv(s) && |s.db.version| == NUM_LEVELS && level + 1 < NUM_LEVELS && MoveOk(s.db.version, level, f)
    ensures Inv(Installed(s, s.db.disk.tables, MoveRecord(s.db, level, f), s.spec.low))
  {
    var db, sp := s.db, s.spec;
    hide MemInv; hide VersionInv; hide LogInv; hide ManifestInv; hide SnapInv; hide QueueInv; hide EditVersion; hide MoveOk;
    InstalledMem(s, db.disk.tables, MoveRecord(db, level, f), sp.low);
    MoveParts(db, Logged(s), sp.flushed, sp.low, |sp.hist|, level, f);
    InstalledKeeps(s, db.disk.tables, MoveRecord(db, level, f), sp.low);
  }

  // ----- compaction

  function MergeRecord(db: Db, c: Job, outs: seq<Table>): Edit
    requires c.level + 1 < NUM_LEVELS && Chunks(outs)
  {
    Record(db.logNumber, db.nextFile + |outs|, db.lastSeq,
           NO_DELETIONS[c.level := Numbers(c.in0)][c.level + 1 := Numbers(c.in1)],
           EMPTY_VERSION[c.level + 1 := NewFiles(outs, db.nextFile)])
  }

  lemma MergeFresh(db: Db, c: Job, outs: seq<Table>)
    requires c.level + 1 < NUM_LEVELS && Chunks(outs)
    ensures FreshEdit(MergeRecord(db, c, outs), c.level + 1, db.nextFile, db.nextFile + |outs|)
  {
    assert forall f :: f in NewFiles(outs, db.nextFile) ==> db.nextFile <= f.number < db.nextFile + |outs|;
    hide NewFiles; hide Numbers;
  }

  lemma MergeParts(db: Db, h: Hist, flushed: nat, low: nat, committed: nat, c: Job, snapshot: nat, input: Table, outs: seq<Table>, low': nat)
    requires VersionInv(db.disk.tables, db.version, h, flushed, low, db.nextFile)
    requires ManifestInv(db.disk.manifest, db.version, db.logNumber, db.nextFile, flushed, committed)
    requires CompactionOk(db.disk.tables, db.version, c, snapshot, input, outs)
    requires c.level + 1 < NUM_LEVELS && Chunks(outs)
    requires flushed <= db.lastSeq <= committed && low' >= low && low' >= snapshot
    ensures var e := MergeRecord(db, c, outs);
            && |db.version| == NUM_LEVELS
            && VersionInv(NewTables(db.disk.tables, outs, db.nextFile), EditVersion(db.version, e), h, flushed, low', e.nextFile)
            && ManifestInv(db.disk.manifest + [e], EditVersion(db.version, e), db.logNumber, e.nextFile, flushed, committed)
  {
    hide Sound; hide AllOlder; hide VersionInv; hide ManifestInv; hide EditVersion; hide Merged; hide JobOk; hide FreshEdit; hide CompactionOk; hide NewTables;
    var e := MergeRecord(db, c, outs);
    InvSound(db.disk.tables, db.version, h, flushed, low, db.nextFile);
    SoundLength(db.disk.tables, db.version);
    JobOfCompaction(db.disk.tables, db.version, c, snapshot, input, outs);
    MergeFresh(db, c, outs);
    hide NewFiles;
    MergeEdit(db.disk.tables, db.version, c, outs, db.nextFile, e);
    Compact(db.disk.tables, db.version, h, flushed, low, db.nextFile, c, snapshot, input, outs, low');
    FreshStep(db.disk.manifest, db.version, db.logNumber, db.nextFile, flushed, committed, e, c.level + 1, flushed);
  }

  lemma InvSound(tb: Tables, v: Version, h: Hist, flushed: nat, low: nat, next: nat)
    requires VersionInv(tb, v, h, flushed, low, next)
    ensures Sound(tb, v) && AllOlder(v, next)
  {
    hide Sound; hide AllOlder; hide Truthful; hide Covered;
  }

  lemma JobOfCompaction(tb: Tables, v: Version, c: Job, snapshot: nat, input: Table, outs: seq<Table>)
    requires CompactionOk(tb, v, c, snapshot, input, outs)
    ensures JobOk(v, c) && Chunks(outs) && c.level + 1 < |v|
  {
    hide JobOk;
  }

  lemma SnapLow(snapshots: seq<nat>, low: nat, lastSeq: nat)
    requires SnapInv(snapshots, low, lastSeq)
    ensures var o := if snapshots == [] then lastSeq else snapshots[0];
            low <= o && SnapInv(snapshots, MaxOf(low, o), lastSeq)
  {
  }

  lemma MergedKeeps(s: State, c: Job, input: Table, outs: seq<Table>)
    requires Inv(s) && |s.db.version| == NUM_LEVELS && c.level + 1 < NUM_LEVELS && Chunks(outs)
    requires CompactionOk(s.db.disk.tables, s.db.version, c, OldestSnapshot(s.db), input, outs)
    ensures Inv(Installed(s, NewTables(s.db.disk.tables, outs, s.db.nextFile), MergeRecord(s.db, c, outs), MaxOf(s.spec.low, OldestSnapshot(s.db))))
  {
    var db, sp := s.db, s.spec;
    hide MemInv; hide VersionInv; hide LogInv; hide ManifestInv; hide SnapInv; hide QueueInv; hide EditVersion; hide CompactionOk;
    var low := MaxOf(sp.low, OldestSnapshot(db));
    SnapLow(db.snapshots, sp.low, db.lastSeq);
    InstalledMem(s, NewTables(db.disk.tables, outs, db.nextFile), MergeRecord(db, c, outs), low);
    MergeParts(db, Logged(s), sp.flushed, sp.low, |sp.hist|, c, OldestSnapshot(db), input, outs, low);
    hide NewTables;
    InstalledKeeps(s, NewTables(db.disk.tables, outs, db.nextFile), MergeRecord(db, c, outs), low);
  }

  lemma CompactKeeps(s: State, c: Job, input: Table, outs: seq<Table>)
    requires Inv(s) && Shaped(s) && Enabled(s, CompactFiles(c, input, outs))
    ensures Inv(Next(s, CompactFiles(c, input, outs)))
  {
    hide Inv; hide NewTables; hide CompactionOk; hide NewFiles;
    var db := s.db;
    JobOfCompaction(db.disk.tables, db.version, c, OldestSnapshot(db), input, outs);
    hide JobOk;
    assert Next(s, CompactFiles(c, input, outs)) ==
      Installed(s, NewTables(db.disk.tables, outs, db.nextFile), MergeRecord(db, c, outs), MaxOf(s.spec.low, OldestSnapshot(db)));
    hide MergeRecord;
    MergedKeeps(s, c, input, outs);
  }

  /** The step a flush takes, in terms of the manifest record it writes. */
  lemma FlushNext(s: State, level: nat, edit: Edit)
    requires Shaped(s) && Enabled(s, FlushImm(level)) && level < NUM_LEVELS
    requires edit == Record(s.db.logFile, s.db.nextFile + 1, s.db.lastSeq, NO_DELETIONS,
                            EMPTY_VERSION[level := if s.db.imm.value == [] then {} else NewFiles([s.db.imm.value], s.db.nextFile)])
    ensures var db := s.db;
            var tables := if db.imm.value == [] then db.disk.tables else NewTables(db.disk.tables, [db.imm.value], db.nextFile);
            Next(s, FlushImm(level)) ==
              State(db.(version := EditVersion(db.version, edit), logNumber := db.logFile, nextFile := db.nextFile + 1, imm := None,
                        disk := db.disk.(tables := tables, manifest := db.disk.manifest + [edit])),
                    s.spec.(flushed := s.spec.switched))
  {
    hide NewTables; hide NewFiles; hide EditVersion; hide Fits;
    if s.db.imm.value == [] {
      assert EMPTY_VERSION[level := {}] == EMPTY_VERSION;
    }
  }

  // ----- snapshots

  lemma SnapshotKeeps(s: State, snapshots: seq<nat>)
    requires Inv(s) && SnapInv(snapshots, s.spec.low, s.db.lastSeq)
    ensures Inv(s.(db := s.db.(snapshots := snapshots)))
  {
    hide VersionInv; hide LogInv; hide ManifestInv; hide SnapInv; hide QueueInv; hide TableOf;
    assert Logged(s.(db := s.db.(snapshots := snapshots))) == Logged(s);
  }

  lemma InvSnap(s: State)
    requires Inv(s)
    ensures SnapInv(s.db.snapshots, s.spec.low, s.db.lastSeq)
  {
    hide MemInv; hide VersionInv; hide LogInv; hide ManifestInv; hide QueueInv; hide SnapInv;
  }

  lemma SnapAppend(snapshots: seq<nat>, low: nat, lastSeq: nat)
    requires SnapInv(snapshots, low, lastSeq)
    ensures SnapInv(snapshots + [lastSeq], low, lastSeq)
  {
  }

  lemma TakeKeeps(s: State)
    requires Inv(s) && Shaped(s)
    ensures Inv(Next(s, TakeSnapshot))
  {
    hide Inv; hide SnapInv;
    InvSnap(s);
    SnapAppend(s.db.snapshots, s.spec.low, s.db.lastSeq);
    assert Next(s, TakeSnapshot) == s.(db := s.db.(snapshots := s.db.snapshots + [s.db.lastSeq]));
    SnapshotKeeps(s, s.db.snapshots + [s.db.lastSeq]);
  }

  lemma ReleaseKeeps(s: State, i: nat)
    requires Inv(s) && Shaped(s) && Enabled(s, ReleaseSnapshot(i))
    ensures Inv(Next(s, ReleaseSnapshot(i)))
  {
    var left := s.db.snapshots[..i] + s.db.snapshots[i + 1..];
    InvSnap(s);
    hide Inv;
    assert SnapInv(left, s.spec.low, s.db.lastSeq);
    hide SnapInv;
    assert Next(s, ReleaseSnapshot(i)) == s.(db := s.db.(snapshots := left));
    SnapshotKeeps(s, left);
  }

  // ----- files nobody needs, and files nobody knows

  /** Changing tables no live file refers to changes nothing that is read. */
  ghost predicate SameLive(tb: Tables, tb': Tables, v: Version) {
    forall l, f :: 0 <= l < |v| && f in v[l] ==> f.number in tb && f.number in tb' && tb'[f.number] == tb[f.number]
  }

  lemma SameLiveFiles(tb: Tables, tb': Tables, v: Version, l: nat)
    requires SameLive(tb, tb', v) && l < |v|
    ensures forall e :: InLevel(tb, v[l], e) <==> InLevel(tb', v[l], e)
    ensures LevelOk(tb, v[l]) ==> LevelOk(tb', v[l])
    ensures AgeOrdered(tb, v[l]) ==> AgeOrdered(tb', v[l])
  {
    hide TableOk;
    assert forall f, e :: f in v[l] ==> (InFile(tb, f, e) <==> InFile(tb', f, e));
  }

  lemma SameLiveInv(tb: Tables, tb': Tables, v: Version, h: Hist, flushed: nat, low: nat, next: nat)
    requires VersionInv(tb, v, h, flushed, low, next) && SameLive(tb, tb', v)
    ensures VersionInv(tb', v, h, flushed, low, next)
  {
    InvSound(tb, v, h, flushed, low, next);
    SoundLength(tb, v);
    forall l: nat | l < |v|
      ensures forall e :: InLevel(tb, v[l], e) <==> InLevel(tb', v[l], e)
      ensures LevelOk(tb', v[l]) && (l > 0 ==> Disjoint(v[l])) && (l == 0 ==> AgeOrdered(tb', v[l]))
    {
      hide VersionInv; hide Sound; hide SameLive; hide AllOlder;
      SoundLevel(tb, v, l);
      SameLiveFiles(tb, tb', v, l);
    }
    hide SameLive; hide AllOlder; hide LevelOk; hide Disjoint; hide AgeOrdered; hide InLevel;
    assert Layered(tb', v) by { hide Covered; hide Truthful; }
    hide Layered;
    assert Sound(tb', v) by { hide VersionInv; SoundIntro(tb', v); }
    hide Sound;
    assert forall e :: InVersion(tb, v, e) <==> InVersion(tb', v, e);
    hide InVersion;
    SameMembers(tb, tb', v, h, flushed, low);
  }

  lemma SameMembers(tb: Tables, tb': Tables, v: Version, h: Hist, flushed: nat, low: nat)
    requires flushed <= |h| && Truthful(tb, v, h, flushed) && Covered(tb, v, h, flushed, low)
    requires forall e :: InVersion(tb, v, e) <==> InVersion(tb', v, e)
    ensures Truthful(tb', v, h, flushed) && Covered(tb', v, h, flushed, low)
  {
    hide InVersion; hide Reads;
    forall user, at: nat, r
      ensures Reads(tb, v, user, at, r) <==> Reads(tb', v, user, at, r)
    {
      SameSeesSameReads(tb, v, tb', v, user, at, at, r);
    }
  }

  function WithDisk(s: State, tables: Tables, logs: Logs): State {
    State(s.db.(disk := Disk(tables, logs, s.db.disk.manifest)), s.spec)
  }

  lemma WithDiskKeeps(s: State, tables: Tables, logs: Logs)
    requires Inv(s) && SameLive(s.db.disk.tables, tables, s.db.version)
    requires forall n :: n >= s.db.logNumber && n in s.db.disk.logs ==> n in logs && logs[n] == s.db.disk.logs[n]
    requires forall n :: n in logs ==> n in s.db.disk.logs
    ensures Inv(WithDisk(s, tables, logs))
  {
    hide VersionInv; hide ManifestInv; hide SnapInv; hide QueueInv; hide TableOf; hide Matches; hide SameLive;
    assert Logged(WithDisk(s, tables, logs)) == Logged(s);
    SameLiveInv(s.db.disk.tables, tables, s.db.version, Logged(s), s.spec.flushed, s.spec.low, s.db.nextFile);
  }

  lemma LiveTables(s: State, l: nat, f: File)
    requires Inv(s) && l < |s.db.version| && f in s.db.version[l]
    ensures f.number in s.db.disk.tables && Live(s.db.version, f.number)
  {
    hide MemInv; hide LogInv; hide ManifestInv; hide SnapInv; hide QueueInv; hide VersionInv;
    InvSound(s.db.disk.tables, s.db.version, Logged(s), s.spec.flushed, s.spec.low, s.db.nextFile);
    hide Sound;
    SoundFile(s.db.disk.tables, s.db.version, l, f);
  }

  lemma LiveOlder(s: State, l: nat, f: File)
    requires Inv(s) && l < |s.db.version| && f in s.db.version[l]
    ensures f.number < s.db.nextFile
  {
    hide MemInv; hide LogInv; hide ManifestInv; hide SnapInv; hide QueueInv; hide VersionInv;
    InvSound(s.db.disk.tables, s.db.version, Logged(s), s.spec.flushed, s.spec.low, s.db.nextFile);
    hide Sound;
  }

  lemma CollectKeeps(s: State, keep: set<nat>)
    requires Inv(s) && Shaped(s)
    ensures Inv(Next(s, Collect(keep)))
  {
    hide Inv;
    var s', db := Next(s, Collect(keep)), s.db;
    assert s' == WithDisk(s, s'.db.disk.tables, s'.db.disk.logs);
    forall l: nat, f | l < |db.version| && f in db.version[l]
      ensures f.number in db.disk.tables && f.number in s'.db.disk.tables
      ensures s'.db.disk.tables[f.number] == db.disk.tables[f.number]
    {
      LiveTables(s, l, f);
    }
    assert SameLive(db.disk.tables, s'.db.disk.tables, db.version);
    hide Live;
    WithDiskKeeps(s, s'.db.disk.tables, s'.db.disk.logs);
  }

  lemma OrphanKeeps(s: State, n: nat, t: Table)
    requires Inv(s) && Shaped(s) && Enabled(s, Orphan(n, t))
    ensures Inv(Next(s, Orphan(n, t)))
  {
    hide Inv;
    var s', db := Next(s, Orphan(n, t)), s.db;
    assert s' == WithDisk(s, s'.db.disk.tables, s'.db.disk.logs);
    forall l: nat, f | l < |db.version| && f in db.version[l]
      ensures f.number in db.disk.tables && f.number != n
    {
      LiveTables(s, l, f);
    }
    assert SameLive(db.disk.tables, s'.db.disk.tables, db.version);
    hide Live;
    WithDiskKeeps(s, s'.db.disk.tables, s'.db.disk.logs);
  }
}
