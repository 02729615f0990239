/** A run of the engine that ends where a compaction, picked and carried out as
    the program does, brings a deleted key back. */
module Resurfacing {
  import opened Keys
  import opened History
  import opened Versions
  import opened Survivors
  import opened Compaction
  import opened Meaning
  import opened Install
  import opened Placement
  import opened Upkeep
  import opened Manifest
  import opened Engine
  import opened Edits
  import opened EngineInv
  import opened EngineSteps
  import opened EngineFiles
  import opened Runs
  import opened Boundary
  import opened Picking
  import FS = FileSearch

  ghost predicate Reachable(s: State) {
    exists run, steps :: Run(run, steps) && run[|steps|] == s
  }

  lemma ReachInit(s: State)
    requires s == Init()
    ensures Reachable(s)
  {
    hide Init;
    assert Run([s], []) && [s][0] == s;
  }

  lemma ReachInv(s: State)
    requires Reachable(s)
    ensures Inv(s) && Shaped(s)
  {
    hide Inv; hide Shaped; hide Enabled; hide Next; hide Init;
    var run, steps :| Run(run, steps) && run[|steps|] == s;
    RunInv(run, steps, |steps|);
    hide Run;
    InvShaped(s);
  }

  lemma ReachNext(s: State, step: Step)
    requires Reachable(s) && Can(s, step)
    ensures Reachable(Next(s, step))
  {
    hide Shaped; hide Enabled; hide Next; hide Init;
    var run, steps :| Run(run, steps) && run[|steps|] == s;
    var run', steps' := run + [Next(s, step)], steps + [step];
    forall i | 0 <= i < |steps'|
      ensures Can(run'[i], steps'[i]) && run'[i + 1] == Next(run'[i], steps'[i])
    {
      if i < |steps| {
        assert Can(run[i], steps[i]) && run[i + 1] == Next(run[i], steps[i]);
      }
    }
    assert Run(run', steps') && run'[|steps'|] == Next(s, step);
  }

  // ----- stretches of a run

  /** Nobody writes and no memtable waits to be flushed. */
  ghost predicate Idle(s: State) {
    Reachable(s) && s.db.queue == [] && s.db.group.None? && s.db.imm.None?
  }

  ghost predicate SameFiles(s: State, t: State) {
    && t.db.version == s.db.version && t.db.disk.tables == s.db.disk.tables
    && t.db.nextFile == s.db.nextFile && t.db.snapshots == s.db.snapshots
  }

  lemma Arrived(s: State, w: Writer) returns (t: State)
    requires Reachable(s)
    ensures Reachable(t) && t == State(s.db.(queue := s.db.queue + [w]), s.spec.(arrivals := s.spec.arrivals + [w]))
  {
    hide Reachable; hide Inv;
    ReachInv(s);
    ReachNext(s, Arrive(w));
    t := Next(s, Arrive(w));
  }

  /** A batch is written. */
  lemma Written(s: State, ops: Hist) returns (t: State)
    requires Idle(s) && s.db.lastSeq + |ops| < MAX_SEQUENCE
    ensures Idle(t) && SameFiles(s, t) && t.db.lastSeq == s.db.lastSeq + |ops| && t.spec.hist == s.spec.hist + ops
    ensures t.db.mem == InsertOps(s.db.mem, s.db.lastSeq + 1, ops)
  {
    hide Reachable; hide InsertOps; hide Shaped; hide Enabled; hide Next; hide GroupOps;
    var a := Arrived(s, Writer(Some(ops), 0, false));
    var b := Started(a, ops);
    var c := InsertedAll(b, ops, 0);
    assert ops[0..] == ops;
    t := Published(c, ops);
  }

  lemma Started(s: State, ops: Hist) returns (t: State)
    requires Reachable(s) && s.db.group.None? && s.db.queue == [Writer(Some(ops), 0, false)] && s.db.lastSeq + |ops| < MAX_SEQUENCE
    ensures Reachable(t) && s.db.logFile in s.db.disk.logs
    ensures t == s.(db := s.db.(group := Some(Group(1, ops, 0)), disk := s.db.disk.(logs := t.db.disk.logs)))
  {
    hide Reachable; hide Inv;
    ReachInv(s);
    var w := Writer(Some(ops), 0, false);
    assert GroupSize([w]) == 1;
    assert [w][..1] == [w] && GroupOps([w]) == ops by {
      assert [w][1..] == [] && GroupOps([]) == [] && ops + [] == ops;
    }
    hide GroupOps; hide GroupSize;
    ReachNext(s, StartGroup);
    t := Next(s, StartGroup);
  }

  lemma {:induction false} InsertedAll(s: State, ops: Hist, i: nat) returns (t: State)
    requires Reachable(s) && i <= |ops| && s.db.group == Some(Group(1, ops, i))
    ensures Reachable(t)
    ensures t == s.(db := s.db.(mem := InsertOps(s.db.mem, s.db.lastSeq + 1 + i, ops[i..]), group := Some(Group(1, ops, |ops|))))
    decreases |ops| - i
  {
    hide Reachable; hide Insert; hide Next; hide Shaped; hide Enabled;
    if i == |ops| {
      assert ops[i..] == [];
      t := s;
    } else {
      var a := OneInserted(s, ops, i);
      assert ops[i..][1..] == ops[i + 1..] && ops[i..][0] == ops[i];
      t := InsertedAll(a, ops, i + 1);
    }
  }

  lemma OneInserted(s: State, ops: Hist, i: nat) returns (t: State)
    requires Reachable(s) && i < |ops| && s.db.group == Some(Group(1, ops, i))
    ensures Reachable(t)
    ensures t == s.(db := s.db.(mem := Insert(s.db.mem, Entry(Key(ops[i].user, s.db.lastSeq + 1 + i, ops[i].kind), ops[i].value)),
                                group := Some(Group(1, ops, i + 1))))
  {
    hide Reachable; hide Inv; hide Insert;
    ReachInv(s);
    ReachNext(s, InsertOne);
    t := Next(s, InsertOne);
  }

  lemma Published(s: State, ops: Hist) returns (t: State)
    requires Reachable(s) && s.db.group == Some(Group(1, ops, |ops|)) && |s.db.queue| == 1
    ensures Reachable(t) && t.spec.hist == s.spec.hist + ops
    ensures t.db == s.db.(lastSeq := s.db.lastSeq + |ops|, group := None, queue := [])
  {
    hide Reachable; hide Inv; hide Fates;
    ReachInv(s);
    ReachNext(s, Publish);
    t := Next(s, Publish);
    assert s.db.queue[1..] == [];
  }

  /** The memtable is switched and flushed to a level where it fits. */
  lemma Flushed(s: State, level: nat) returns (t: State)
    requires Idle(s) && s.db.mem != [] && level < NUM_LEVELS && Fits(s.db.version, level, s.db.mem)
    ensures Idle(t) && t.db.mem == [] && t.db.snapshots == s.db.snapshots && t.db.lastSeq == s.db.lastSeq && t.spec.hist == s.spec.hist
    ensures level < |s.db.version| && t.db.version == Placed(s.db.version, level, s.db.nextFile + 1, s.db.mem)
    ensures t.db.disk.tables == NewTables(s.db.disk.tables, [s.db.mem], s.db.nextFile + 1) && t.db.nextFile == s.db.nextFile + 2
  {
    assert level < |s.db.version|;
    hide Reachable; hide Fits; hide NewTables; hide Placed; hide Shaped; hide Enabled; hide Next;
    var a := Arrived(s, Writer(None, 0, false));
    var b := Switched(a);
    var c := ForcedOn(b);
    t := FlushedTo(c, level);
  }

  lemma Switched(s: State) returns (t: State)
    requires Reachable(s) && s.db.group.None? && s.db.imm.None? && s.db.queue != []
    ensures Reachable(t) && t.spec.hist == s.spec.hist && t.db.disk.tables == s.db.disk.tables
    ensures t.db == s.db.(imm := Some(s.db.mem), mem := [], nextFile := s.db.nextFile + 1, logFile := t.db.logFile, disk := t.db.disk)
  {
    hide Reachable; hide Inv;
    ReachInv(s);
    ReachNext(s, Switch);
    t := Next(s, Switch);
  }

  lemma ForcedOn(s: State) returns (t: State)
    requires Reachable(s) && s.db.group.None? && s.db.queue == [Writer(None, 0, false)]
    ensures Reachable(t) && t.spec.hist == s.spec.hist && t.db == s.db.(queue := [])
  {
    hide Reachable; hide Inv; hide Fates;
    ReachInv(s);
    ReachNext(s, Forced);
    t := Next(s, Forced);
    assert s.db.queue[1..] == [];
  }

  lemma FlushedTo(s: State, level: nat) returns (t: State)
    requires Reachable(s) && level < NUM_LEVELS && s.db.imm.Some? && s.db.imm.value != [] && Fits(s.db.version, level, s.db.imm.value)
    ensures Reachable(t) && t.spec.hist == s.spec.hist && level < |s.db.version|
    ensures t.db == s.db.(imm := None, logNumber := t.db.logNumber, nextFile := s.db.nextFile + 1, disk := t.db.disk,
                          version := Placed(s.db.version, level, s.db.nextFile, s.db.imm.value))
    ensures t.db.disk.tables == NewTables(s.db.disk.tables, [s.db.imm.value], s.db.nextFile)
  {
    assert level < |s.db.version|;
    hide Reachable; hide Inv; hide Fits; hide NewTables; hide Placed; hide NewFiles; hide EditVersion; hide Next;
    ReachInv(s);
    CanFlush(s, level);
    hide Shaped; hide Enabled;
    ReachNext(s, FlushImm(level));
    t := Next(s, FlushImm(level));
    var e := Record(s.db.logFile, s.db.nextFile + 1, s.db.lastSeq, NO_DELETIONS, EMPTY_VERSION[level := NewFiles([s.db.imm.value], s.db.nextFile)]);
    FlushEdit(s.db.version, level, s.db.nextFile, s.db.imm.value, e);
    FlushNext(s, level, e);
  }

  lemma CanFlush(s: State, level: nat)
    requires Shaped(s) && s.db.imm.Some? && s.db.imm.value != [] && Fits(s.db.version, level, s.db.imm.value)
    ensures Can(s, FlushImm(level)) && |s.db.version| == NUM_LEVELS
  {
    hide Fits;
  }

  /** A compaction that exposes nothing. */
  lemma Merged(s: State, c: Job, input: Table, outs: seq<Table>) returns (t: State)
    requires Idle(s) && CompactionOk(s.db.disk.tables, s.db.version, c, OldestSnapshot(s.db), input, outs) && Chunks(outs)
    requires c.level + 1 < |s.db.version|
    ensures Idle(t) && t.db.mem == s.db.mem && t.db.snapshots == s.db.snapshots && t.db.lastSeq == s.db.lastSeq && t.spec.hist == s.spec.hist
    ensures t.db.version == Install.Merged(s.db.version, c, outs, s.db.nextFile)
    ensures t.db.disk.tables == NewTables(s.db.disk.tables, outs, s.db.nextFile) && t.db.nextFile == s.db.nextFile + |outs|
  {
    hide Reachable; hide CompactionOk; hide NewTables; hide NewFiles; hide Install.Merged; hide Inv; hide EditVersion;
    ReachInv(s);
    ReachNext(s, CompactFiles(c, input, outs));
    t := Next(s, CompactFiles(c, input, outs));
    OkForm(s.db, c, input, outs);
    MergedVersion(s, c, input, outs);
  }

  lemma OkForm(db: Db, c: Job, input: Table, outs: seq<Table>)
    requires CompactionOk(db.disk.tables, db.version, c, OldestSnapshot(db), input, outs)
    ensures CompactionForm(db.disk.tables, db.version, c, OldestSnapshot(db), input, outs)
  {
    hide CompactionForm; hide Exposed;
  }

  lemma MergedVersion(s: State, c: Job, input: Table, outs: seq<Table>)
    requires Inv(s) && CompactionForm(s.db.disk.tables, s.db.version, c, OldestSnapshot(s.db), input, outs) && Chunks(outs)
    requires |s.db.version| == NUM_LEVELS && c.level + 1 < NUM_LEVELS
    ensures AfterMerge(s, c, outs).db.version == Install.Merged(s.db.version, c, outs, s.db.nextFile)
  {
    var db := s.db;
    StateOlder(s);
    assert JobOk(db.version, c) by {
      hide JobOk; hide IsInput; hide Kept;
    }
    hide Inv; hide CompactionForm; hide NewFiles; hide Install.Merged; hide EditVersion; hide Sound; hide AllOlder; hide JobOk;
    var e := Record(db.logNumber, db.nextFile + |outs|, db.lastSeq,
                    NO_DELETIONS[c.level := Numbers(c.in0)][c.level + 1 := Numbers(c.in1)],
                    EMPTY_VERSION[c.level + 1 := NewFiles(outs, db.nextFile)]);
    MergeEdit(db.disk.tables, db.version, c, outs, db.nextFile, e);
  }

  lemma StateOlder(s: State)
    requires Inv(s)
    ensures Sound(s.db.disk.tables, s.db.version) && AllOlder(s.db.version, s.db.nextFile)
  {
    hide MemInv; hide LogInv; hide ManifestInv; hide SnapInv; hide QueueInv; hide VersionInv;
    InvSound(s.db.disk.tables, s.db.version, Logged(s), s.spec.flushed, s.spec.low, s.db.nextFile);
  }

  lemma Taken(s: State) returns (t: State)
    requires Idle(s)
    ensures Idle(t) && t == s.(db := s.db.(snapshots := s.db.snapshots + [s.db.lastSeq]))
  {
    hide Reachable; hide Inv;
    ReachInv(s);
    ReachNext(s, TakeSnapshot);
    t := Next(s, TakeSnapshot);
  }

  lemma Released(s: State) returns (t: State)
    requires Idle(s) && |s.db.snapshots| == 1
    ensures Idle(t) && t == s.(db := s.db.(snapshots := []))
  {
    hide Reachable; hide Inv;
    ReachInv(s);
    ReachNext(s, ReleaseSnapshot(0));
    t := Next(s, ReleaseSnapshot(0));
    assert s.db.snapshots[..0] + s.db.snapshots[1..] == [];
  }

  // ----- the sample

  lemma NewVersionEmpty(es: seq<Edit>)
    requires es == NEW_DISK.manifest
    ensures Rebuild(es) == EMPTY_VERSION
  {
    forall l: nat | l < NUM_LEVELS
      ensures Rebuild(es)[l] == EMPTY_VERSION[l]
    {
      assert es[..0] == [] && ApplyAll(es[..0], l) == EMPTY_STATE;
    }
  }

  lemma Opened() returns (s: State)
    ensures Idle(s) && s.db.mem == [] && s.db.version == EMPTY_VERSION && s.db.nextFile == 4 && s.db.lastSeq == 0
    ensures s.db.snapshots == [] && s.spec.hist == []
  {
    s := Init();
    ReachInit(s);
    hide Reachable; hide Rebuild;
    NewVersionEmpty(NEW_DISK.manifest);
  }

  lemma OneOp(t: Table, first: nat, op: Op)
    ensures InsertOps(t, first, [op]) == Insert(t, Entry(Key(op.user, first, op.kind), op.value))
  {
    hide Insert;
    assert [op][1..] == [];
  }

  lemma TwoOps(t: Table, first: nat, a: Op, b: Op)
    ensures InsertOps(t, first, [a, b]) ==
              Insert(Insert(t, Entry(Key(a.user, first, a.kind), a.value)), Entry(Key(b.user, first + 1, b.kind), b.value))
  {
    hide Insert;
    assert [a, b][1..] == [b];
    OneOp(Insert(t, Entry(Key(a.user, first, a.kind), a.value)), first + 1, b);
  }

  lemma FirstTables(t: Table)
    requires t == []
    ensures InsertOps(t, 1, SAMPLE[..1]) == [B1]
    ensures InsertOps([B1], 2, SAMPLE[1..3]) == [A2, B3, B1]
    ensures InsertOps(t, 4, SAMPLE[3..]) == [A4]
  {
    hide InsertOps; hide Insert;
    OneOp(t, 1, SAMPLE[0]);
    TwoOps([B1], 2, SAMPLE[1], SAMPLE[2]);
    OneOp(t, 4, SAMPLE[3]);
    assert SAMPLE[..1] == [SAMPLE[0]] && SAMPLE[1..3] == [SAMPLE[1], SAMPLE[2]] && SAMPLE[3..] == [SAMPLE[3]];
    InsertAt(t, B1, 0);
    InsertAt(t, A4, 0);
    InsertAt([B1], A2, 0);
    assert [B1][..0] + [A2] + [B1][0..] == [A2, B1];
    InsertAt([A2, B1], B3, 1);
    assert [A2, B1][..1] + [B3] + [A2, B1][1..] == [A2, B3, B1];
  }

  lemma InsertAt(t: Table, e: Entry, i: nat)
    requires i <= |t| && (forall j :: 0 <= j < i ==> Less(t[j].key, e.key)) && (i < |t| ==> !Less(t[i].key, e.key))
    ensures Insert(t, e) == t[..i] + [e] + t[i..]
  {
    hide Less;
    assert LowerBound(t, e.key) == i;
  }

  const WHOLE := File(5, A2.key, B1.key)
  const FIRST := Job(2, {WHOLE}, {})
  const VF: Version := [{}, {}, {WHOLE}, {}, {}, {}, {}]
  const VG: Version := [{}, {}, {}, {LOWER, NEXT}, {}, {}, {}]

  /** With a snapshot between the value and its deletion both survive, and the
      output may be cut between them. */
  lemma FirstForm(tb: Tables, v: Version, c: Job, input: Table, outs: seq<Table>)
    requires 5 in tb && tb[5] == input && v == VF && c == FIRST && input == [A2, B3, B1] && outs == [[A2, B3], [B1]]
    ensures CompactionOk(tb, v, c, 1, input, outs) && Chunks(outs)
  {
    assert Hull(v, c, 0.5, 1.0);
    assert JobOk(v, c);
    assert forall e :: InFile(tb, WHOLE, e) <==> e in input;
    assert IsInput(tb, c, input);
    hide JobOk; hide IsInput;
    FirstKept(v, input);
    assert Flatten(outs) == input by {
      assert outs[1..] == [[B1]] && outs[1..][1..] == [];
      assert Flatten([[B1]]) == [B1];
    }
    hide Kept; hide Flatten;
    forall e, x
      ensures !Below(tb, v, c, e, x)
    {
      assert Rest(v, c, 3) == {};
    }
    hide Below; hide IsNewest;
  }

  lemma FirstKept(v: Version, input: Table)
    requires v == VF && input == [A2, B3, B1]
    ensures Kept(v, 2, 1, input, |input|) == input
  {
    assert Kept(v, 2, 1, input, 0) == [];
    assert Kept(v, 2, 1, input, 1) == [A2];
    assert Kept(v, 2, 1, input, 2) == [A2, B3];
  }

  lemma FlushedVersions(w: Table)
    requires w == [A2, B3, B1]
    ensures Placed(EMPTY_VERSION, 2, 5, w) == VF && Fits(EMPTY_VERSION, 2, w)
    ensures Placed(VG, 2, 9, [A4]) == V0 && Fits(VG, 2, [A4])
  {
    OneNewFile(w, 5);
    OneNewFile([A4], 9);
    assert {} + {WHOLE} == {WHOLE} && {} + {UPPER} == {UPPER};
  }

  lemma NewTwo(outs: seq<Table>, n: nat)
    requires |outs| == 2 && Chunks(outs)
    ensures NewFiles(outs, n) == {FileOf(n, outs[0]), FileOf(n + 1, outs[1])}
  {
  }

  lemma MergedVersions(outs: seq<Table>)
    requires outs == [[A2, B3], [B1]]
    ensures Chunks(outs) && Install.Merged(VF, FIRST, outs, 6) == VG
  {
    NewTwo(outs, 6);
    assert {WHOLE} - {WHOLE} == {} && {} - {} + {LOWER, NEXT} == {LOWER, NEXT};
  }

  lemma SampleHist()
    ensures [] + SAMPLE[..1] + SAMPLE[1..3] + SAMPLE[3..] == SAMPLE
  {
  }

  lemma SampleTablesMade(tb: Tables, w: Table, outs: seq<Table>, a: seq<Table>)
    requires w == [A2, B3, B1] && outs == [[A2, B3], [B1]] && a == [[A4]]
    ensures var tb1 := NewTables(tb, [w], 5);
            var tb2 := NewTables(tb1, outs, 6);
            var tb3 := NewTables(tb2, a, 9);
            5 in tb1 && tb1[5] == w && SampleTables(tb3) && OutputTables(NewTables(tb3, a, 10))
  {
  }

  /** Put b, take a snapshot, put a, delete b, flush; compact by hand (a lone
      file is only moved otherwise), cutting between deletion and value; release
      the snapshot, put a again, flush. */
  lemma SampleRun() returns (s: State)
    ensures Idle(s) && s.db.mem == [] && s.db.snapshots == [] && s.spec.hist == SAMPLE && s.db.lastSeq == 4 && s.db.nextFile == 10
    ensures s.db.version == V0 && SampleTables(s.db.disk.tables) && OutputTables(NewTables(s.db.disk.tables, [[A4]], 10))
  {
    hide Idle; hide InsertOps; hide Fits; hide Placed; hide NewTables; hide Install.Merged; hide CompactionOk; hide SampleTables; hide OutputTables;
    hide SameFiles; hide OldestSnapshot;
    var w, outs := [A2, B3, B1], [[A2, B3], [B1]];
    FirstTables([]);
    FlushedVersions(w);
    MergedVersions(outs);
    var s0 := Opened();
    var s1 := Written(s0, SAMPLE[..1]);
    SameIs(s0, s1);
    var s2 := Taken(s1);
    var s3 := Written(s2, SAMPLE[1..3]);
    SameIs(s2, s3);
    var s4 := Flushed(s3, 2);
    SampleTablesMade(s3.db.disk.tables, w, outs, [[A4]]);
    FirstForm(s4.db.disk.tables, s4.db.version, FIRST, w, outs);
    OldestIs(s4.db);
    var s5 := Merged(s4, FIRST, w, outs);
    var s6 := Released(s5);
    var s7 := Written(s6, SAMPLE[3..]);
    SameIs(s6, s7);
    s := Flushed(s7, 2);
    SampleHist();
  }

  lemma SameIs(s: State, t: State)
    requires SameFiles(s, t)
    ensures t.db.version == s.db.version && t.db.disk.tables == s.db.disk.tables
    ensures t.db.nextFile == s.db.nextFile && t.db.snapshots == s.db.snapshots
  {
  }

  lemma OldestIs(db: Db)
    ensures OldestSnapshot(db) == if db.snapshots == [] then db.lastSeq else db.snapshots[0]
  {
  }

  // ----- the compaction that goes wrong

  lemma SampleForm(tb: Tables, v: Version, c: Job, input: Table, outs: seq<Table>)
    requires SampleTables(tb) && v == V0 && c == JOB && input == INPUT && outs == [[A4]]
    ensures CompactionForm(tb, v, c, 4, input, outs) && Chunks(outs)
  {
    hide JobOk; hide IsInput;
    SampleJob(tb);
    SampleBase(1.0);
    SampleBase(0.5);
    hide BaseLevel;
    assert Kept(v, 2, 4, input, 0) == [];
    assert Kept(v, 2, 4, input, 1) == [A4];
    assert Kept(v, 2, 4, input, 2) == [A4];
    assert outs[1..] == [] && Flatten([]) == [] && [A4] + [] == [A4];
  }

  /** A state of a run in which the key is deleted and reads so; a compaction
      of the program's form; and the value the same read answers after it. */
  lemma DeletedKeyComesBack() returns (s: State)
    ensures Reachable(s) && s.db.version == V0 && s.db.snapshots == []
    ensures s.spec.hist == SAMPLE && s.db.lastSeq == 4 && SpecGet(SAMPLE, 1.0, 4) == None && Answers(s.db, 1.0, 4, None)
    ensures Formed(s.db, JOB, INPUT, [[A4]]) && Answers(AfterMerge(s, JOB, [[A4]]).db, 1.0, 4, Some([2]))
  {
    s := SampleRun();
    var tb, outs := s.db.disk.tables, [[A4]];
    hide *;
    IdleIs(s);
    ReachInv(s);
    SampleForm(tb, s.db.version, JOB, INPUT, outs);
    OldestIs(s.db);
    StateOlder(s);
    StateTrue(s);
    DeletedKeyRead(tb, NewTables(tb, outs, 10));
    LastMerge(s, outs);
    NoMemory(s.db, 1.0, 4, None);
    NoMemory(AfterMerge(s, JOB, outs).db, 1.0, 4, Some([2]));
  }

  lemma IdleIs(s: State)
    requires Idle(s)
    ensures Reachable(s) && s.db.imm.None? && s.db.group.None?
  {
  }

  lemma StateTrue(s: State)
    requires Inv(s) && s.db.mem == [] && s.db.imm.None? && s.db.group.None?
    ensures s.spec.flushed <= |s.spec.hist| && Truthful(s.db.disk.tables, s.db.version, s.spec.hist, |s.spec.hist|)
  {
  }

  lemma NoMemory(db: Db, user: Rank, at: nat, r: Option<Value>)
    requires db.mem == [] && db.imm.None? && Reads(db.disk.tables, db.version, user, at, r)
    ensures Answers(db, user, at, r)
  {
    hide Reads;
  }

  lemma LastMerge(s: State, outs: seq<Table>)
    requires Inv(s) && Shaped(s) && s.db.version == V0 && outs == [[A4]] && s.db.nextFile == 10
    requires CompactionForm(s.db.disk.tables, s.db.version, JOB, OldestSnapshot(s.db), INPUT, outs) && Chunks(outs)
    ensures Formed(s.db, JOB, INPUT, outs)
    ensures var t := AfterMerge(s, JOB, outs);
            && t.db.version == V1 && t.db.disk.tables == NewTables(s.db.disk.tables, outs, 10)
            && t.db.mem == s.db.mem && t.db.imm == s.db.imm
  {
    hide Inv; hide CompactionForm; hide NewTables; hide NewFiles;
    MergedVersion(s, JOB, INPUT, outs);
    hide EditVersion;
    OneNewFile([A4], 10);
    assert Install.Merged(V0, JOB, outs, 10) == V1 by {
      assert {UPPER} - {UPPER} == {} && {LOWER, NEXT} - {LOWER} + {OUTPUT} == {OUTPUT, NEXT};
    }
  }

  /** The job is the one the program makes of picking that file. */
  method PickSample(files: seq<seq<File>>, mayExpand: bool) returns (in0: seq<File>, in1: seq<File>)
    requires files == [[], [], [UPPER], [LOWER, NEXT], [], [], []]
    ensures Job(2, SetOf(in0), SetOf(in1)) == JOB
  {
    SampleListed(files);
    hide JobOk; hide LevelsWf; hide Picked; hide FS.SortedFiles; hide MeetRange;
    in0, in1 := SetupOtherInputs(files, 2, [UPPER], mayExpand);
    SampleUpper(files, in0, in1);
    SampleLower(files[3], in0, in1);
  }

  /** Both flushes go where the program puts them, unless the files two levels
      down are too large. */
  method PlaceSample(files: seq<seq<File>>, t: Table, heavy: nat -> bool) returns (level: nat)
    requires (t == [A2, B3, B1] && files == [[], [], [], [], [], [], []]) || (t == [A4] && files == [[], [], [], [LOWER, NEXT], [], [], []])
    requires !heavy(0) && !heavy(1)
    ensures level == 2
  {
    PlacedFiles(files);
    hide LevelsWf;
    level := PickLevelForMemTableOutput(files, t[0].key.user, t[|t| - 1].key.user, heavy);
    assert files[0] == [] && files[1] == [] && files[2] == [];
  }

  lemma PlacedFiles(files: seq<seq<File>>)
    requires files == [[], [], [], [], [], [], []] || files == [[], [], [], [LOWER, NEXT], [], [], []]
    ensures LevelsWf(files)
  {
  }

  lemma SampleListed(files: seq<seq<File>>)
    requires files == [[], [], [UPPER], [LOWER, NEXT], [], [], []]
    ensures LevelsWf(files) && Picked(files[2], 2, [UPPER])
  {
  }

  lemma SampleUpper(files: seq<seq<File>>, in0: seq<File>, in1: seq<File>)
    requires files == [[], [], [UPPER], [LOWER, NEXT], [], [], []] && in0 != []
    requires JobOk(SetsOf(files), Job(2, SetOf(in0), SetOf(in1)))
    ensures SetOf(in0) == {UPPER}
  {
    hide UpperClosed; hide Hull;
    assert SetsOf(files)[2] == {UPPER};
    assert in0[0] in SetOf(in0);
  }

  lemma SampleLower(files: seq<File>, in0: seq<File>, in1: seq<File>)
    requires files == [LOWER, NEXT] && SetOf(in0) == {UPPER} && MeetRange(files, in0, in1)
    ensures SetOf(in1) == {LOWER}
  {
    hide FS.TouchingFiles; hide Less;
    var smallest, largest :| IsRange(in0, smallest, largest) && in1 == FS.TouchingFiles(files, Some(smallest.user), Some(largest.user));
    assert forall f :: f in in0 ==> f in SetOf(in0);
    assert smallest == largest == A4.key;
    MeetingFiles(files, in1);
  }

  lemma MeetingFiles(files: seq<File>, in1: seq<File>)
    requires files == [LOWER, NEXT] && in1 == FS.TouchingFiles(files, Some(0.5), Some(0.5))
    ensures SetOf(in1) == {LOWER}
  {
    forall f
      ensures f in in1 <==> f == LOWER
    {
    }
  }
}
