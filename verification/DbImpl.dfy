/** The database object (db/db_impl.cc).  Every method is one atomic section of
    the program and takes exactly the engine step it is named after. */
module DbImpl {
  import opened Keys
  import opened History
  import opened Versions
  import opened Compaction
  import opened Survivors
  import opened Meaning
  import opened Install
  import opened Placement
  import opened Upkeep
  import opened Manifest
  import opened Engine
  import opened EngineInv
  import opened EngineSteps
  import opened EngineFiles
  import opened Recovery
  import opened Runs
  import opened Picking
  import opened Builder
  import FS = FileSearch
  import Reading
  import CW = CompactionWork
  import opened Merger
  import opened Sources
  import opened Iterators
  import opened Scan
  import opened Reopen
  import DbIter

  // ----- ordered file lists stand for the version

  lemma OrderedIsSorted(tb: Tables, files: seq<File>, h: Hist, flushed: nat)
    requires Ordered(files) && LevelOk(tb, SetOf(files))
    requires flushed <= |h| < MAX_SEQUENCE && forall f, e :: f in files && InFile(tb, f, e) ==> IsWrite(h, 0, flushed, e)
    ensures FS.AllWf(files)
    ensures Disjoint(SetOf(files)) ==> FS.SortedFiles(files)
  {
    forall i | 0 <= i < |files|
      ensures FS.FileWf(files[i])
    {
      var f := files[i];
      assert f in SetOf(files);
      hide Ordered;
      FileBounds(tb, f);
      assert InFile(tb, f, tb[f.number][0]) && InFile(tb, f, tb[f.number][|tb[f.number]| - 1]);
    }
    hide LevelOk; hide InFile;
    if Disjoint(SetOf(files)) {
      forall i, j | 0 <= i < j < |files|
        ensures Less(files[i].largest, files[j].smallest)
      {
        assert FS.FileWf(files[i]) && FS.FileWf(files[j]);
        assert files[i] in SetOf(files) && files[j] in SetOf(files) && BySmallest(files[i], files[j]);
      }
    }
  }

  lemma FilesOkOf(tb: Tables, files: seq<seq<File>>, h: Hist, flushed: nat, low: nat, next: nat)
    requires AllOrdered(files) && VersionInv(tb, SetsOf(files), h, flushed, low, next) && |h| < MAX_SEQUENCE
    ensures Reading.FilesOk(tb, files)
  {
    var v := SetsOf(files);
    InvSound(tb, v, h, flushed, low, next);
    forall l: nat | l < NUM_LEVELS
      ensures FS.AllWf(files[l]) && (l > 0 ==> FS.SortedFiles(files[l]))
    {
      assert Ordered(files[l]) && v[l] == SetOf(files[l]);
      SoundLevel(tb, v, l);
      assert flushed <= |h| && Truthful(tb, v, h, flushed);
      hide VersionInv; hide AllOrdered; hide SetsOf; hide Sound; hide Truthful;
      forall f, e | f in files[l] && InFile(tb, f, e)
        ensures IsWrite(h, 0, flushed, e)
      {
        assert f in v[l];
        TrueEntry(tb, v, h, flushed, l, f, e);
      }
      hide LevelOk; hide Ordered; hide InFile;
      OrderedIsSorted(tb, files[l], h, flushed);
    }
    hide Sound; hide FS.SortedFiles; hide FS.AllWf; hide VersionInv;
  }

  // ----- group formation

  /** The bytes of the writers that have a batch. */
  function BytesOf(ws: seq<Writer>): nat {
    if ws == [] then 0
    else
      var w := ws[|ws| - 1];
      BytesOf(ws[..|ws| - 1]) + if w.batch.Some? then w.bytes else 0
  }

  /** A leader with a small batch does not wait for much more. */
  function GroupLimit(first: nat): nat {
    if first <= 128 * 1024 then first + 128 * 1024 else 1024 * 1024
  }

  /** DBImpl::BuildBatchGroup: the group is as long as it can be without a
      writer that wants a sync its leader does not, and within the limit. */
  method BuildBatchGroup(queue: seq<Writer>) returns (n: nat, ops: Hist)
    requires queue != [] && queue[0].batch.Some?
    ensures n == GroupSize(queue) && ops == GroupOps(queue[..n])
    ensures Admitted(queue, n, GroupLimit(queue[0].bytes)) && Stops(queue, n, GroupLimit(queue[0].bytes))
  {
    var size: nat := queue[0].bytes;
    var maxSize: nat := MAX_GROUP;
    if size <= SMALL_WRITE {
      maxSize := size + SMALL_WRITE;
    }
    n, ops := 1, queue[0].batch.value;
    GroupOpsAppend([], queue[0]);
    assert queue[..1] == [] + [queue[0]];
    GroupRule(queue);
    while n < |queue|
      invariant 1 <= n <= |queue| && ops == GroupOps(queue[..n])
      invariant GroupEnd(queue, n, size, maxSize) == GroupSize(queue)
    {
      var w := queue[n];
      GroupOpsAppend(queue[..n], w);
      assert queue[..n + 1] == queue[..n] + [w];
      if w.sync && !queue[0].sync {
        break;
      }
      if w.batch.Some? {
        if size + w.bytes > maxSize {
          break;
        }
        size := size + w.bytes;
        ops := ops + w.batch.value;
      }
      n := n + 1;
    }
  }

  ghost predicate Admitted(queue: seq<Writer>, n: nat, limit: nat)
    requires 1 <= n <= |queue|
  {
    && (forall i :: 0 <= i < n && queue[i].sync ==> queue[0].sync)
    && (n > 1 && queue[n - 1].batch.Some? ==> BytesOf(queue[..n]) <= limit)
  }

  ghost predicate Stops(queue: seq<Writer>, n: nat, limit: nat)
    requires 1 <= n <= |queue|
  {
    n < |queue| ==>
      || (queue[n].sync && !queue[0].sync)
      || (queue[n].batch.Some? && BytesOf(queue[..n + 1]) > limit)
  }

  lemma GroupRule(queue: seq<Writer>)
    requires queue != [] && queue[0].batch.Some?
    ensures Admitted(queue, GroupSize(queue), GroupLimit(queue[0].bytes)) && Stops(queue, GroupSize(queue), GroupLimit(queue[0].bytes))
  {
    BytesAppend([], queue[0]);
    assert [] + [queue[0]] == queue[..1];
    GroupEndRule(queue, 1, queue[0].bytes, GroupLimit(queue[0].bytes));
  }

  lemma {:induction false} GroupEndRule(queue: seq<Writer>, i: nat, size: nat, limit: nat)
    requires 1 <= i <= |queue| && size == BytesOf(queue[..i]) && Admitted(queue, i, limit)
    ensures var n := GroupEnd(queue, i, size, limit); Admitted(queue, n, limit) && Stops(queue, n, limit)
    decreases |queue| - i
  {
    if i < |queue| {
      assert queue[..i + 1] == queue[..i] + [queue[i]];
      BytesAppend(queue[..i], queue[i]);
      hide BytesOf;
      if (queue[i].sync ==> queue[0].sync) && (queue[i].batch.Some? ==> size + queue[i].bytes <= limit) {
        GroupEndRule(queue, i + 1, BytesOf(queue[..i + 1]), limit);
      }
    }
  }

  lemma BytesAppend(ws: seq<Writer>, w: Writer)
    ensures BytesOf(ws + [w]) == BytesOf(ws) + if w.batch.Some? then w.bytes else 0
  {
    assert (ws + [w])[..|ws|] == ws;
  }

  lemma {:induction false} GroupOpsAppend(ws: seq<Writer>, w: Writer)
    ensures GroupOps(ws + [w]) == GroupOps(ws) + if w.batch.Some? then w.batch.value else []
  {
    if ws == [] {
      assert ws + [w] == [w] && [w][1..] == [];
    } else {
      assert (ws + [w])[1..] == ws[1..] + [w];
      GroupOpsFirst(ws);
      GroupOpsFirst(ws + [w]);
      hide GroupOps;
      GroupOpsAppend(ws[1..], w);
    }
  }

  class DBImpl {
    var mem: Table
    var imm: Option<Table>
    var files: seq<seq<File>>
    var nextFile: nat
    var lastSeq: nat
    var logNumber: nat
    var logFile: nat
    var snapshots: seq<nat>
    var queue: seq<Writer>
    var group: Option<Group>
    var disk: Disk
    ghost var spec: Spec

    ghost function Model(): State
      reads this
    {
      State(Db(mem, imm, SetsOf(files), nextFile, lastSeq, logNumber, logFile, snapshots, queue, group, disk), spec)
    }

    ghost predicate Valid()
      reads this
    {
      Inv(Model()) && AllOrdered(files)
    }

    /** DB::Open on a directory just created. */
    constructor (full: Table -> bool)
      ensures Valid() && Model() == Init()
    {
      hide Inv; hide AllOrdered; hide PlanOk; hide Recoverable;
      NewDiskRecoverable();
      ghost var plan;
      var r;
      r, plan := RecoverDisk(NEW_DISK, full);
      NoLogs(plan);
      InitInv();
      mem, imm, files, nextFile, lastSeq, logNumber, logFile := [], None, r.files, r.log + 1, r.lastSeq, r.log, r.log;
      snapshots, queue, group := [], [], None;
      disk := Disk(r.tables, NEW_DISK.logs[r.log := []], r.manifest);
      spec := Spec([], [], [], 0, 0, 0);
    }

    /** The process dies and the database is opened again: everything is
        rebuilt from the disk. */
    method Restart(full: Table -> bool) returns (ghost plan: seq<LogPlan>)
      requires Valid()
      modifies this
      ensures Valid() && Can(old(Model()), Crash(plan)) && Model() == Next(old(Model()), Crash(plan))
    {
      hide Inv; hide AllOrdered; hide PlanOk; hide Recoverable; hide Recover; hide AfterCrash;
      ghost var s := Model();
      InvShaped(s);
      StateRecoverable(s);
      var r;
      r, plan := RecoverDisk(disk, full);
      RecoverableSome(disk.manifest);
      CrashNext(s, plan);
      hide Next; hide Enabled;
      StepKeeps(s, Crash(plan));
      spec := AfterCrash(s);
      mem, imm, files, nextFile, lastSeq, logNumber, logFile := [], None, r.files, r.log + 1, r.lastSeq, r.log, r.log;
      snapshots, queue, group := [], [], None;
      disk := Disk(r.tables, disk.logs[r.log := []], r.manifest);
    }

    // ----- the phases of Write

    method Enqueue(w: Writer)
      requires Valid()
      modifies this
      ensures Valid() && Can(old(Model()), Arrive(w)) && Model() == Next(old(Model()), Arrive(w))
    {
      hide Inv;
      InvShaped(Model());
      StepKeeps(Model(), Arrive(w));
      queue := queue + [w];
      spec := spec.(arrivals := spec.arrivals + [w]);
    }

    /** The leader forms its group and appends it to the log. */
    method StartGroup()
      requires Valid() && Enabled(Model(), Step.StartGroup)
      modifies this
      ensures Valid() && Can(old(Model()), Step.StartGroup) && Model() == Next(old(Model()), Step.StartGroup)
    {
      hide Inv;
      InvShaped(Model());
      StepKeeps(Model(), Step.StartGroup);
      var n, ops := BuildBatchGroup(queue);
      disk := disk.(logs := disk.logs[logFile := disk.logs[logFile] + [Batch(lastSeq + 1, ops)]]);
      group := Some(Group(n, ops, 0));
    }

    /** MemTableInserter::Put or Delete: one write of the group. */
    method InsertOne()
      requires Valid() && Enabled(Model(), Step.InsertOne)
      modifies this
      ensures Valid() && Can(old(Model()), Step.InsertOne) && Model() == Next(old(Model()), Step.InsertOne)
    {
      hide Inv; hide Insert;
      InvShaped(Model());
      StepKeeps(Model(), Step.InsertOne);
      var g := group.value;
      var op := g.ops[g.inserted];
      mem := Insert(mem, Entry(Key(op.user, lastSeq + g.inserted + 1, op.kind), op.value));
      group := Some(g.(inserted := g.inserted + 1));
    }

    /** The last sequence number moves past the group and its writers are woken. */
    method Publish()
      requires Valid() && Enabled(Model(), Step.Publish)
      modifies this
      ensures Valid() && Can(old(Model()), Step.Publish) && Model() == Next(old(Model()), Step.Publish)
    {
      hide Inv;
      InvShaped(Model());
      StepKeeps(Model(), Step.Publish);
      var g := group.value;
      spec := spec.(hist := spec.hist + g.ops, fates := spec.fates + Fates(queue[..g.size], true, true, queue[0].sync));
      lastSeq := lastSeq + |g.ops|;
      group := None;
      queue := queue[g.size..];
    }

    /** A writer without a batch only asked for a switch and is done. */
    method FinishForced()
      requires Valid() && Enabled(Model(), Forced)
      modifies this
      ensures Valid() && Can(old(Model()), Forced) && Model() == Next(old(Model()), Forced)
    {
      hide Inv;
      InvShaped(Model());
      StepKeeps(Model(), Forced);
      spec := spec.(fates := spec.fates + Fates(queue[..1], true, true, queue[0].sync));
      queue := queue[1..];
    }

    /** MakeRoomForWrite, last branch: a new log and a new memtable. */
    method SwitchMemTable()
      requires Valid() && Enabled(Model(), Switch)
      modifies this
      ensures Valid() && Can(old(Model()), Switch) && Model() == Next(old(Model()), Switch)
    {
      hide Inv;
      InvShaped(Model());
      StepKeeps(Model(), Switch);
      disk := disk.(logs := disk.logs[nextFile := []]);
      logFile, nextFile := nextFile, nextFile + 1;
      imm, mem := Some(mem), [];
      spec := spec.(switched := |spec.hist|);
    }

    // ----- snapshots

    method GetSnapshot() returns (at: nat)
      requires Valid()
      modifies this
      ensures at == |spec.hist| && spec == old(spec) && snapshots == old(snapshots) + [at]
      ensures Valid() && Can(old(Model()), TakeSnapshot) && Model() == Next(old(Model()), TakeSnapshot)
    {
      hide Inv;
      InvShaped(Model());
      StepKeeps(Model(), TakeSnapshot);
      HistoryLength(Model());
      at := lastSeq;
      snapshots := snapshots + [lastSeq];
    }

    method ReleaseSnapshot(i: nat)
      requires Valid() && i < |snapshots|
      modifies this
      ensures multiset(snapshots) == multiset(old(snapshots)) - multiset{old(snapshots)[i]}
      ensures Valid() && Can(old(Model()), Step.ReleaseSnapshot(i)) && Model() == Next(old(Model()), Step.ReleaseSnapshot(i))
    {
      hide Inv;
      InvShaped(Model());
      StepKeeps(Model(), Step.ReleaseSnapshot(i));
      OneLess(snapshots, i);
      snapshots := snapshots[..i] + snapshots[i + 1..];
    }

    // ----- reading

    /** Memtable, immutable memtable, then the files; the answer is the history's. */
    method Get(user: Rank, at: nat) returns (value: Option<Value>)
      requires Valid() && Readable(Model().db, at)
      ensures at <= |spec.hist| && value == SpecGet(spec.hist, user, at)
    {
      ReadableInRange(Model(), at);
      var inMem := Find(mem, user, at);
      var inImm := None;
      if imm.Some? {
        inImm := Find(imm.value, user, at);
      }
      if inMem.Some? {
        value := ValueOf(inMem.value);
      } else if inImm.Some? {
        value := ValueOf(inImm.value);
      } else {
        FilesOkOfState(Model(), files);
        value := Reading.Get(disk.tables, files, user, at);
      }
      hide Inv; hide Find;
      GetIsSpec(Model(), user, at, value);
    }

    /** DBImpl::NewIterator: memtables and files behind one cursor, which visits
        exactly the history's content at the sequence number, in key order. */
    method NewIterator(at: nat) returns (it: DbIter.DBIter)
      requires Valid() && Readable(Model().db, at)
      ensures fresh(it) && fresh(it.iter) && it.Valid() && it.Cursor() == None && it.sequence == at <= |spec.hist|
      ensures forall user, value :: DbIter.Pair(user, value) in it.List() <==> SpecGet(spec.hist, user, at) == Some(value)
      ensures forall i, j :: 0 <= i < j < |it.List()| ==> it.List()[i].user < it.List()[j].user
    {
      hide Inv; hide AllOrdered; hide Sources.Apart; hide Reading.FilesOk; hide NewFrom; hide Union;
      ghost var s := Model();
      ReadableInRange(s, at);
      var tables := [mem];
      if imm.Some? {
        tables := tables + [imm.value];
      }
      MemSources(s, tables);
      FilesOkOfState(s, files);
      OrderedNoRepeats(files);
      tables := AddIterators(disk.tables, files, tables);
      ghost var all := UnionExists(tables);
      UnionIsEverything(s, tables, all);
      hide Holds;
      var merged := new MergingIterator(tables, all);
      it := new DbIter.DBIter(merged, at);
      EverythingGathers(s.db, all, at);
      hide Everything; hide Gathers;
      ScanIsSpec(s, all, at);
    }

    // ----- the background work

    /** CompactMemTable: the immutable memtable becomes a table file, and the
        same manifest record that adds it retires its log. */
    method CompactMemTable(heavy: nat -> bool) returns (level: nat)
      requires Valid() && imm.Some?
      modifies this
      ensures Valid() && Can(old(Model()), FlushImm(level)) && Model() == Next(old(Model()), FlushImm(level))
    {
      hide Inv; hide AllOrdered; hide Fits; hide NewTables; hide NewFiles; hide Enabled; hide Next; hide AddsNew;
      ghost var s := Model();
      InvShaped(s);
      var made;
      level, made := PlaceTable(s, files, imm.value, nextFile, heavy);
      var added := NO_FILES[level := made];
      var edit := Record(logFile, nextFile + 1, lastSeq, NO_DELETIONS, SetsOf(added));
      StepKeeps(s, FlushImm(level));
      FlushNext(s, level, edit);
      files := EditFiles(files, NO_DELETIONS, added, edit);
      var tables := if imm.value == [] then disk.tables else NewTables(disk.tables, [imm.value], nextFile);
      disk := disk.(tables := tables, manifest := disk.manifest + [edit]);
      logNumber, nextFile, imm := logFile, nextFile + 1, None;
      spec := spec.(flushed := spec.switched);
    }

    /** BackgroundCompaction, trivial move: a file that meets nothing below is
        only recorded one level deeper. */
    method TrivialMove(level: nat, f: File)
      requires Valid() && MoveOk(Model().db.version, level, f)
      modifies this
      ensures Valid() && Can(old(Model()), MoveFile(level, f)) && Model() == Next(old(Model()), MoveFile(level, f))
    {
      hide Inv; hide AllOrdered; hide AddsNew; hide MoveOk;
      ghost var s := Model();
      InvShaped(s);
      MoveLevels(SetsOf(files), level, f);
      MoveAdds(s, files, level, f);
      StepKeeps(s, MoveFile(level, f));
      var added, deleted := NO_FILES[level + 1 := [f]], NO_DELETIONS[level := {f.number}];
      var edit := Record(logNumber, nextFile, lastSeq, deleted, SetsOf(added));
      files := EditFiles(files, deleted, added, edit);
      disk := disk.(manifest := disk.manifest + [edit]);
    }

    /** BackgroundCompaction, merge: the inputs are merged, filtered and written
        out, and one manifest record swaps them for the outputs.  Whatever the
        job, it is a compaction of the program's form; it is a step of the runs
        when it exposes nothing. */
    method CompactFiles(level: nat, in0: seq<File>, in1: seq<File>, stopBefore: Key -> bool, bigEnough: Table -> bool)
      returns (outs: seq<Table>, ghost input: Table)
      requires Valid() && level + 1 < NUM_LEVELS && JobOk(Model().db.version, Job(level, SetOf(in0), SetOf(in1)))
      requires Listed(level, in0, in1)
      modifies this
      ensures AllOrdered(files) && Formed(old(Model()).db, Job(level, SetOf(in0), SetOf(in1)), input, outs)
      ensures Model() == AfterMerge(old(Model()), Job(level, SetOf(in0), SetOf(in1)), outs)
      ensures var step := Step.CompactFiles(Job(level, SetOf(in0), SetOf(in1)), input, outs);
              !Exposes(old(Model()), step) ==> Valid() && Can(old(Model()), step) && Model() == Next(old(Model()), step)
    {
      hide Inv; hide AllOrdered; hide AddsNew; hide JobOk; hide Listed; hide CompactionForm; hide NewFiles; hide NewTables;
      hide Chunks; hide Exposed;
      ghost var s := Model();
      ghost var job := Job(level, SetOf(in0), SetOf(in1));
      InvShaped(s);
      var oldest := if snapshots == [] then lastSeq else snapshots[0];
      outs, input := MergeInputs(s, files, disk.tables, level, in0, in1, oldest, stopBefore, bigEnough);
      FormedChunks(s.db, job, input, outs);
      SafeMerge(s, job, input, outs);
      var made := ListFiles(outs, nextFile);
      NewNumbers(s, files, level + 1, made);
      OrderedLength(files);
      AddsAt(files, level + 1, made);
      var added := NO_FILES[level + 1 := made];
      var deleted := NO_DELETIONS[level := Numbers(SetOf(in0))][level + 1 := Numbers(SetOf(in1))];
      var edit := Record(logNumber, nextFile + |outs|, lastSeq, deleted, SetsOf(added));
      files := EditFiles(files, deleted, added, edit);
      disk := disk.(tables := NewTables(disk.tables, outs, nextFile), manifest := disk.manifest + [edit]);
      nextFile := nextFile + |outs|;
      spec := spec.(low := MaxOf(spec.low, oldest));
    }

    /** BackgroundCompaction: the memtable first; else the picked files become
        a job, which is a mere move when one file meets nothing below.  A merge
        that exposes a deleted key's older value is the one exception. */
    method BackgroundCompaction(level: nat, picked: seq<File>, mayExpand: bool, mayMove: bool, heavy: nat -> bool,
                                stopBefore: Key -> bool, bigEnough: Table -> bool) returns (ghost step: Step)
      requires Valid() && level + 1 < NUM_LEVELS && Picked(files[level], level, picked) && (level > 0 ==> FS.SortedFiles(picked))
      modifies this
      ensures if old(imm).Some? then step.FlushImm? else step.MoveFile? || step.CompactFiles?
      ensures !Exposes(old(Model()), step) ==> Valid() && Can(old(Model()), step) && Model() == Next(old(Model()), step)
      ensures step.MoveFile? ==> mayMove && step.level == level && forall f :: f in picked ==> f == step.file
      ensures step.CompactFiles? ==>
                && step.job.level == level && SetOf(picked) <= step.job.in0 && AllOrdered(files)
                && Formed(old(Model()).db, step.job, step.input, step.outs)
                && Model() == AfterMerge(old(Model()), step.job, step.outs)
    {
      hide Inv; hide JobOk; hide Picked; hide Exposed; hide CompactionForm; hide AfterMerge; hide Exposes; hide Formed; hide AllOrdered; hide MoveOk; hide Can; hide Next; hide FS.SortedFiles; hide SetOf; hide SetsOf; hide Listed; hide Reading.FilesOk; hide MeetRange;
      if imm.Some? {
        var at := CompactMemTable(heavy);
        step := FlushImm(at);
        return;
      }
      ghost var s := Model();
      InvShaped(s);
      FilesOkOfState(s, files);
      FilesWf(disk.tables, files);
      hide LevelsWf;
      var in0, in1 := SetupOtherInputs(files, level, picked, mayExpand);
      Around(picked, in0);
      if |in0| == 1 && in1 == [] && mayMove {
        MoveJob(s.db.version, level, in0, in1);
        TrivialMove(level, in0[0]);
        step := MoveFile(level, in0[0]);
      } else {
        ListedInputs(files, level, in0, in1);
        ghost var input;
        var outs;
        outs, input := CompactFiles(level, in0, in1, stopBefore, bigEnough);
        step := Step.CompactFiles(Job(level, SetOf(in0), SetOf(in1)), input, outs);
      }
    }

    /** DeleteObsoleteFiles: tables no version lists and logs before the
        manifest's log number go; `keep` are the outputs still being written
        and the files of versions that iterators refer to. */
    method DeleteObsoleteFiles(keep: set<nat>)
      requires Valid()
      modifies this
      ensures forall n :: n in disk.tables <==> n in old(disk).tables && (Live(SetsOf(files), n) || n in keep)
      ensures forall n :: n in disk.logs <==> n in old(disk).logs && n >= logNumber
      ensures Valid() && Can(old(Model()), Collect(keep)) && Model() == Next(old(Model()), Collect(keep))
    {
      hide Inv; hide AllOrdered;
      ghost var s := Model();
      InvShaped(s);
      StepKeeps(s, Collect(keep));
      var live := AddLiveFiles(files);
      CollectNext(s, keep, live);
      hide Live; hide Next;
      var logs := map n | n in disk.logs && n >= logNumber :: disk.logs[n];
      var tables := map n | n in disk.tables && (n in live || n in keep) :: disk.tables[n];
      disk := disk.(logs := logs, tables := tables);
    }
  }

  /** DBImpl::WriteLevel0Table: where the memtable's table goes, and its file. */
  method PlaceTable(ghost s: State, files: seq<seq<File>>, t: Table, n: nat, heavy: nat -> bool) returns (level: nat, made: seq<File>)
    requires Inv(s) && AllOrdered(files) && s.db.version == SetsOf(files) && s.db.imm == Some(t) && s.db.nextFile == n
    ensures Enabled(s, FlushImm(level)) && level < NUM_LEVELS && AddsNew(files, NO_FILES[level := made])
    ensures SetsOf(NO_FILES[level := made]) == EMPTY_VERSION[level := if t == [] then {} else NewFiles([t], s.db.nextFile)]
  {
    hide Inv; hide Reading.FilesOk; hide Fits; hide NewFiles; hide AddsNew; hide SetsOf;
    level, made := 0, [];
    if t != [] {
      FilesOkOfState(s, files);
      level := PickLevel(files, t, heavy, s.db.disk.tables);
      made := ListFiles([t], n);
    }
    OrderedLength(files);
    NewNumbers(s, files, level, made);
    hide AllOrdered;
    AddsAt(files, level, made);
    assert SetOf([]) == {};
  }

  lemma FilesOkOfState(s: State, files: seq<seq<File>>)
    requires Inv(s) && s.db.version == SetsOf(files) && AllOrdered(files)
    ensures Reading.FilesOk(s.db.disk.tables, files)
  {
    hide VersionInv; hide LogInv; hide ManifestInv; hide SnapInv; hide QueueInv; hide TableOf; hide AllOrdered; hide Reading.FilesOk;
    FilesOkOf(s.db.disk.tables, files, Logged(s), s.spec.flushed, s.spec.low, s.db.nextFile);
  }

  /** The level the flushed table goes to holds nothing it could meet, nor does
      any level above. */
  method PickLevel(files: seq<seq<File>>, t: Table, heavy: nat -> bool, ghost tb: Tables) returns (level: nat)
    requires Reading.FilesOk(tb, files) && t != []
    ensures level < NUM_LEVELS && Fits(SetsOf(files), level, t)
  {
    level := PickLevelForMemTableOutput(files, t[0].key.user, t[|t| - 1].key.user, heavy);
  }

  lemma OrderedLength(files: seq<seq<File>>)
    requires AllOrdered(files)
    ensures |files| == NUM_LEVELS
  {
  }

  lemma OrderedNoRepeats(files: seq<seq<File>>)
    requires AllOrdered(files)
    ensures |files| == NUM_LEVELS && NoRepeats(files[0])
  {
    forall i, j | 0 <= i < j < |files[0]|
      ensures files[0][i] != files[0][j]
    {
      assert BySmallest(files[0][i], files[0][j]);
    }
  }

  lemma NewNumbers(s: State, files: seq<seq<File>>, level: nat, made: seq<File>)
    requires Inv(s) && s.db.version == SetsOf(files) && level < |files| == NUM_LEVELS
    requires forall i :: 0 <= i < |made| ==> made[i].number == s.db.nextFile + i
    ensures Builder.Apart(files[level], made) && NumbersApart(made)
  {
    hide MemInv; hide LogInv; hide ManifestInv; hide SnapInv; hide QueueInv; hide Sound; hide Truthful; hide Covered;
    assert AllOlder(s.db.version, s.db.nextFile);
    forall f | f in files[level]
      ensures f.number < s.db.nextFile
    {
      assert f in s.db.version[level];
    }
    ListedApart(files[level], made, s.db.nextFile);
  }

  lemma MemSources(s: State, tables: seq<Table>)
    requires Inv(s) && tables == if s.db.imm.Some? then [s.db.mem, s.db.imm.value] else [s.db.mem]
    ensures Sources.Apart(tables) && NewFrom(s.db.disk.tables, s.db.version, tables)
    ensures forall e :: Holds(tables, e) <==> e in s.db.mem || (s.db.imm.Some? && e in s.db.imm.value)
  {
    hide Inv;
    MemSorted(s);
    MemHolds(s, tables);
    MemApart(s, tables);
    hide Sorted; hide InVersion; hide Holds; hide Sources.Apart;
    forall x, e | Holds(tables, x) && InVersion(s.db.disk.tables, s.db.version, e)
      ensures x.key != e.key
    {
      EntryWrites(s, x);
      EntryWrites(s, e);
    }
  }

  lemma MemHolds(s: State, tables: seq<Table>)
    requires tables == if s.db.imm.Some? then [s.db.mem, s.db.imm.value] else [s.db.mem]
    ensures forall e :: Holds(tables, e) <==> e in s.db.mem || (s.db.imm.Some? && e in s.db.imm.value)
  {
    assert tables[0] == s.db.mem;
    assert s.db.imm.Some? ==> tables[1] == s.db.imm.value;
  }

  lemma MemApart(s: State, tables: seq<Table>)
    requires Inv(s) && tables == if s.db.imm.Some? then [s.db.mem, s.db.imm.value] else [s.db.mem]
    requires Sorted(s.db.mem) && (s.db.imm.Some? ==> Sorted(s.db.imm.value))
    ensures Sources.Apart(tables)
  {
    hide Inv; hide Sorted; hide InVersion;
    forall i: nat, j: nat, x: Entry, y: Entry | i < j < |tables| && x in tables[i] && y in tables[j]
      ensures x.key != y.key
    {
      EntryWrites(s, x);
      EntryWrites(s, y);
    }
  }

  lemma MemSorted(s: State)
    requires Inv(s)
    ensures Sorted(s.db.mem) && (s.db.imm.Some? ==> Sorted(s.db.imm.value))
  {
    hide VersionInv; hide LogInv; hide ManifestInv; hide SnapInv; hide QueueInv;
    var h, n := Logged(s), |s.spec.hist| + Inserted(s.db.group);
    TableOfEntries(h, s.spec.switched, n);
    TableOfEntries(h, s.spec.flushed, s.spec.switched);
    hide TableOf; hide Sorted;
  }

  lemma UnionIsEverything(s: State, tables: seq<Table>, all: Table)
    requires Union(all, tables)
    requires forall e :: Holds(tables, e) <==>
               e in s.db.mem || (s.db.imm.Some? && e in s.db.imm.value) || InVersion(s.db.disk.tables, s.db.version, e)
    ensures Everything(s.db, all)
  {
    hide InVersion; hide Sorted;
    forall e
      ensures e in all <==> Holds(tables, e)
    {
      if i :| 0 <= i < |tables| && e in tables[i] {
        assert Part(all, tables[i]);
      }
    }
  }

  // ----- trivial moves

  lemma MoveLevels(v: Version, level: nat, f: File)
    requires MoveOk(v, level, f)
    ensures level + 1 < |v| && f in v[level]
  {
    assert f in Job(level, {f}, {}).in0;
  }

  lemma MoveAdds(s: State, files: seq<seq<File>>, level: nat, f: File)
    requires Inv(s) && s.db.version == SetsOf(files) && AllOrdered(files) && level + 1 < NUM_LEVELS && f in s.db.version[level]
    ensures AddsNew(files, NO_FILES[level + 1 := [f]])
    ensures SetsOf(NO_FILES[level + 1 := [f]]) == EMPTY_VERSION[level + 1 := {f}]
  {
    hide MemInv; hide LogInv; hide VersionInv; hide SnapInv; hide QueueInv; hide Fold; hide AddedOnce; hide AddedSmall; hide AddedAbove; hide LastEdit;
    forall g | g in files[level + 1]
      ensures g.number != f.number
    {
      assert g in s.db.version[level + 1];
    }
    hide ManifestInv;
    assert Builder.Apart(files[level + 1], [f]);
    assert SetOf([f]) == {f};
    AddsAt(files, level + 1, [f]);
  }

  // ----- merges

  /** The order the program lists a compaction's inputs in. */
  ghost predicate Listed(level: nat, in0: seq<File>, in1: seq<File>) {
    (if level == 0 then NoRepeats(in0) else FS.SortedFiles(in0)) && FS.SortedFiles(in1)
  }

  lemma FormedChunks(db: Db, job: Job, input: Table, outs: seq<Table>)
    requires CompactionForm(db.disk.tables, db.version, job, OldestSnapshot(db), input, outs)
    ensures Chunks(outs)
  {
    hide JobOk; hide IsInput; hide Kept;
  }

  lemma SafeMerge(s: State, job: Job, input: Table, outs: seq<Table>)
    requires Inv(s) && Shaped(s) && CompactionForm(s.db.disk.tables, s.db.version, job, OldestSnapshot(s.db), input, outs)
    requires job.level + 1 < NUM_LEVELS && Chunks(outs)
    ensures var step := Step.CompactFiles(job, input, outs);
            !Exposes(s, step) ==> Can(s, step) && Next(s, step) == AfterMerge(s, job, outs) && Inv(AfterMerge(s, job, outs))
  {
    hide Inv; hide CompactionForm; hide Exposed; hide AfterMerge; hide Chunks;
    var step := Step.CompactFiles(job, input, outs);
    if !Exposes(s, step) {
      StepKeeps(s, step);
    }
  }

  /** The inputs merged in key order, filtered and cut into tables. */
  method MergeInputs(ghost s: State, files: seq<seq<File>>, tb: Tables, level: nat, in0: seq<File>, in1: seq<File>, oldest: nat,
               stopBefore: Key -> bool, bigEnough: Table -> bool) returns (outs: seq<Table>, ghost input: Table)
    requires Inv(s) && AllOrdered(files) && s.db.version == SetsOf(files) && s.db.disk.tables == tb && oldest == OldestSnapshot(s.db)
    requires level + 1 < NUM_LEVELS && JobOk(s.db.version, Job(level, SetOf(in0), SetOf(in1))) && Listed(level, in0, in1)
    requires level + 1 < |s.db.version|
    ensures CompactionForm(tb, s.db.version, Job(level, SetOf(in0), SetOf(in1)), oldest, input, outs)
  {
    hide Inv; hide AllOrdered; hide JobOk; hide Listed; hide SetsOf; hide Reading.FilesOk; hide IsInput; hide Sorted;
    ghost var job := Job(level, SetOf(in0), SetOf(in1));
    FilesOkOfState(s, files);
    SnapshotRange(s);
    var tables := InputSources(s, tb, level, in0, in1);
    ghost var all := UnionExists(tables);
    MergedInput(tb, job, tables, all);
    var merged := ReadAll(tables, all);
    input := merged;
    FilesWf(tb, files);
    hide Sources.Apart; hide Holds; hide Union; hide LevelsWf; hide Chunks; hide Flatten; hide Kept;
    var c := new CW.Compaction(files, level);
    outs := c.DoCompactionWork(merged, oldest, stopBefore, bigEnough);
  }

  lemma FilesWf(tb: Tables, files: seq<seq<File>>)
    requires Reading.FilesOk(tb, files)
    ensures LevelsWf(files)
  {
  }

  lemma SnapshotRange(s: State)
    requires Inv(s)
    ensures OldestSnapshot(s.db) < MAX_SEQUENCE
  {
    hide VersionInv; hide LogInv; hide ManifestInv; hide QueueInv; hide TableOf;
  }

  /** A whole pass of the merging iterator. */
  method ReadAll(tables: seq<Table>, ghost all: Table) returns (t: Table)
    requires Union(all, tables)
    ensures t == all
  {
    hide MergingIterator.Valid; hide Union;
    var it := new MergingIterator(tables, all);
    it.SeekToFirst();
    it.HerePos();
    t := [];
    while it.Here()
      invariant it.Valid() && it.all == all && |t| <= |all| && t == all[..|t|] && it.Pos() == From(all, |t|)
      invariant it.Here() <==> it.Pos().Some?
      invariant fresh(it)
      decreases |all| - |t|
    {
      var e := it.Current();
      t := t + [e];
      it.Next();
      it.HerePos();
    }
  }

  /** VersionSet::MakeInputIterator. */
  method InputSources(ghost s: State, tb: Tables, level: nat, in0: seq<File>, in1: seq<File>) returns (tables: seq<Table>)
    requires Inv(s) && s.db.disk.tables == tb
    requires JobOk(s.db.version, Job(level, SetOf(in0), SetOf(in1))) && Listed(level, in0, in1)
    ensures Sources.Apart(tables)
    ensures forall e :: Holds(tables, e) <==> InLevel(tb, SetOf(in0), e) || InLevel(tb, SetOf(in1), e)
  {
    hide Inv; hide JobOk;
    InputsApart(s, level, in0, in1);
    hide Holds; hide FS.SortedFiles; hide InFile;
    NoSources();
    if level == 0 {
      tables := AddFiles(tb, in0, []);
    } else {
      tables := AddLevel(tb, in0, []);
    }
    InputHolds(tb, in0);
    InputHolds(tb, in1);
    tables := AddLevel(tb, in1, tables);
  }

  lemma NoSources()
    ensures Sources.Apart([]) && forall e :: !Holds([], e)
  {
  }

  lemma InputHolds(tb: Tables, files: seq<File>)
    ensures forall e :: InLevel(tb, SetOf(files), e) <==> exists i :: 0 <= i < |files| && InFile(tb, files[i], e)
  {
    forall e
      ensures InLevel(tb, SetOf(files), e) <==> exists i :: 0 <= i < |files| && InFile(tb, files[i], e)
    {
      if i :| 0 <= i < |files| && InFile(tb, files[i], e) {
        assert files[i] in SetOf(files);
      }
      if f :| f in SetOf(files) && InFile(tb, f, e) {
        var i :| 0 <= i < |files| && files[i] == f;
      }
    }
  }

  lemma InputsApart(s: State, level: nat, in0: seq<File>, in1: seq<File>)
    requires Inv(s) && JobOk(s.db.version, Job(level, SetOf(in0), SetOf(in1))) && Listed(level, in0, in1)
    ensures AllOk(s.db.disk.tables, in0) && AllOk(s.db.disk.tables, in1)
    ensures level == 0 ==> FilesApart(s.db.disk.tables, in0)
    ensures forall i, j, x, y :: 0 <= i < |in0| && 0 <= j < |in1| && InFile(s.db.disk.tables, in0[i], x) && InFile(s.db.disk.tables, in1[j], y) ==>
              x.key != y.key
  {
    var tb, v := s.db.disk.tables, s.db.version;
    hide Inv; hide FS.SortedFiles; hide Sound; hide JobOk; hide AllOk; hide FilesApart;
    StateSound(s);
    JobFiles(v, level, in0, in1);
    OkFiles(tb, v, level, in0);
    OkFiles(tb, v, level + 1, in1);
    forall i, j, x, y | 0 <= i < |in0| && 0 <= j < |in1| && InFile(tb, in0[i], x) && InFile(tb, in1[j], y)
      ensures x.key != y.key
    {
      hide InFile;
      InFileInLevel(tb, v, level, in0[i], x);
      InFileInLevel(tb, v, level + 1, in1[j], y);
      if x.key.user == y.key.user {
        SoundOrder(tb, v, level, x, level + 1, y);
      }
    }
  }

  lemma StateSound(s: State)
    requires Inv(s)
    ensures Sound(s.db.disk.tables, s.db.version)
  {
    hide MemInv; hide LogInv; hide ManifestInv; hide SnapInv; hide QueueInv; hide Sound; hide AllOlder; hide Covered; hide Truthful;
  }

  lemma JobFiles(v: Version, level: nat, in0: seq<File>, in1: seq<File>)
    requires JobOk(v, Job(level, SetOf(in0), SetOf(in1)))
    ensures level + 1 < |v| && (forall f :: f in in0 ==> f in v[level]) && (forall f :: f in in1 ==> f in v[level + 1])
  {
    assert forall f :: f in in0 ==> f in SetOf(in0);
    assert forall f :: f in in1 ==> f in SetOf(in1);
  }

  lemma OkFiles(tb: Tables, v: Version, l: nat, files: seq<File>)
    requires Sound(tb, v) && l < |v| && forall f :: f in files ==> f in v[l]
    ensures AllOk(tb, files)
    ensures l == 0 && NoRepeats(files) ==> FilesApart(tb, files)
  {
    hide Sound;
    forall i | 0 <= i < |files|
      ensures FileOk(tb, files[i])
    {
      SoundFile(tb, v, l, files[i]);
    }
    hide FileOk;
    if l == 0 && NoRepeats(files) {
      SoundLevel(tb, v, 0);
      LevelSome(tb, v, files);
      ZeroApart(tb, files);
    }
  }

  lemma LevelSome(tb: Tables, v: Version, files: seq<File>)
    requires Sound(tb, v) && |v| > 0 && forall f :: f in files ==> f in v[0]
    ensures AgeOrdered(tb, SetOf(files)) && (forall f :: f in files ==> FileOk(tb, f))
    ensures forall f, g :: f in files && g in files && f.number == g.number ==> f == g
  {
    hide Layered; hide Disjoint; hide InFile;
    assert LevelOk(tb, v[0]);
    hide FileOk;
  }

  lemma MergedInput(tb: Tables, job: Job, tables: seq<Table>, all: Table)
    requires Union(all, tables)
    requires forall e :: Holds(tables, e) <==> InLevel(tb, job.in0, e) || InLevel(tb, job.in1, e)
    ensures IsInput(tb, job, all) && Sorted(all)
  {
    hide Sorted; hide InLevel;
    forall e
      ensures e in all <==> Holds(tables, e)
    {
      if i :| 0 <= i < |tables| && e in tables[i] {
        assert Part(all, tables[i]);
      }
    }
  }

  lemma Around(picked: seq<File>, in0: seq<File>)
    requires forall f :: f in picked ==> f in in0
    ensures SetOf(picked) <= SetOf(in0) && (|in0| == 1 ==> forall f :: f in picked ==> f == in0[0])
  {
  }

  lemma MoveJob(v: Version, level: nat, in0: seq<File>, in1: seq<File>)
    requires JobOk(v, Job(level, SetOf(in0), SetOf(in1))) && |in0| == 1 && in1 == []
    ensures MoveOk(v, level, in0[0])
  {
    assert SetOf(in0) == {in0[0]} && SetOf(in1) == {};
    hide JobOk;
    JobLevel(v, Job(level, SetOf(in0), SetOf(in1)));
  }

  lemma ListedInputs(files: seq<seq<File>>, level: nat, in0: seq<File>, in1: seq<File>)
    requires AllOrdered(files) && FS.SortedFiles(in1) && (level > 0 ==> FS.SortedFiles(in0))
    requires level == 0 ==> exists lo, hi :: in0 == FS.TouchingFiles(files[0], lo, hi)
    ensures Listed(level, in0, in1)
  {
    if level == 0 {
      OrderedNoRepeats(files);
      ghost var lo, hi :| in0 == FS.TouchingFiles(files[0], lo, hi);
      TouchingNoRepeats(files[0], lo, hi);
    }
  }

  lemma {:induction false} TouchingNoRepeats(files: seq<File>, lo: Option<Rank>, hi: Option<Rank>)
    requires NoRepeats(files)
    ensures NoRepeats(FS.TouchingFiles(files, lo, hi))
  {
    if files != [] {
      var n := |files| - 1;
      assert NoRepeats(files[..n]) && files[n] !in files[..n];
      TouchingNoRepeats(files[..n], lo, hi);
    }
  }

  // ----- live files

  /** VersionSet::AddLiveFiles. */
  method AddLiveFiles(files: seq<seq<File>>) returns (live: set<nat>)
    ensures forall n :: n in live <==> Live(SetsOf(files), n)
  {
    live := {};
    for l := 0 to |files|
      invariant forall n :: n in live <==> exists j, f :: 0 <= j < l && f in files[j] && f.number == n
    {
      live := live + set f | f in files[l] :: f.number;
    }
    forall n: nat
      ensures n in live <==> Live(SetsOf(files), n)
    {
      if Live(SetsOf(files), n) {
        var l, f :| 0 <= l < |files| && f in SetsOf(files)[l] && f.number == n;
        assert f in files[l];
      }
      if l, f :| 0 <= l < |files| && f in files[l] && f.number == n {
        assert f in SetsOf(files)[l];
      }
    }
  }

  lemma CollectNext(s: State, keep: set<nat>, live: set<nat>)
    requires Shaped(s) && forall n :: n in live <==> Live(s.db.version, n)
    ensures var logs := map n | n in s.db.disk.logs && n >= s.db.logNumber :: s.db.disk.logs[n];
            var tables := map n | n in s.db.disk.tables && (n in live || n in keep) :: s.db.disk.tables[n];
            Next(s, Collect(keep)) == State(s.db.(disk := s.db.disk.(logs := logs, tables := tables)), s.spec)
  {
    hide Live;
    var tables := map n | n in s.db.disk.tables && (n in live || n in keep) :: s.db.disk.tables[n];
    assert tables == map n | n in s.db.disk.tables && (Live(s.db.version, n) || n in keep) :: s.db.disk.tables[n];
  }

  // ----- recovery

  ghost function AfterCrash(s: State): Spec
    requires Shaped(s)
  {
    var h := Logged(s);
    Spec(h, s.spec.fates + LostFates(s.db), s.spec.arrivals, s.spec.low, |h|, |h|)
  }

  lemma CrashNext(s: State, plan: seq<LogPlan>)
    requires Shaped(s) && s.db.disk.manifest != []
    requires PlanOk(s.db.disk.logs, s.db.disk.manifest[|s.db.disk.manifest| - 1].logNumber, plan)
    ensures Enabled(s, Crash(plan)) && Next(s, Crash(plan)) == State(Recover(s.db.disk, plan), AfterCrash(s))
  {
    hide PlanOk; hide Recover; hide LostFates;
  }

  lemma NewDiskRecoverable()
    ensures Recoverable(NEW_DISK.manifest)
  {
    var es := NEW_DISK.manifest;
    forall l: nat | l < NUM_LEVELS
      ensures Rebuild(es)[l] == {}
    {
      assert ApplyAll(es[..0], l) == EMPTY_STATE;
    }
  }

  lemma NoLogs(plan: seq<LogPlan>)
    requires PlanOk(NEW_DISK.logs, 0, plan)
    ensures plan == []
  {
    if plan != [] {
      PlannedLog(NEW_DISK.logs, 0, plan);
    }
  }

  lemma PlannedLog(logs: Logs, from: nat, plan: seq<LogPlan>)
    requires plan != [] && PlanOk(logs, from, plan)
    ensures plan[0].number in logs
  {
    assert plan[0] in plan;
  }

  lemma RecoverableSome(es: seq<Edit>)
    requires Recoverable(es)
    ensures es != []
  {
    hide NumbersDistinct; hide Rebuild;
  }

  lemma StateRecoverable(s: State)
    requires Inv(s)
    ensures Recoverable(s.db.disk.manifest)
  {
    var es, v := s.db.disk.manifest, s.db.version;
    StateSound(s);
    assert es != [] && Rebuild(es) == v && AllOlder(v, es[|es| - 1].nextFile) by {
      hide MemInv; hide VersionInv; hide LogInv; hide SnapInv; hide QueueInv; hide Fold; hide AddedOnce; hide AddedSmall; hide AddedAbove; hide NumbersUnique; hide AllOlder;
      RebuildIsFold(es);
    }
    hide Inv; hide Rebuild; hide Sound;
    SoundLength(s.db.disk.tables, v);
    forall l: nat | l < NUM_LEVELS
      ensures NumbersDistinct(v[l])
    {
      SoundLevel(s.db.disk.tables, v, l);
    }
  }
}
