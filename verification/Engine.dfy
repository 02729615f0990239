/** The storage engine as a state machine (db/db_impl.cc): group commit, memtable
    switch, flush, trivial move, compaction, snapshots, garbage collection, and
    recovery after a crash.  Beside the program's state runs the reference: the
    list of committed writes. */
module Engine {
  import opened Keys
  import opened History
  import opened Versions
  import opened Compaction
  import opened Meaning
  import opened Install
  import opened Placement
  import opened Upkeep
  import opened Manifest

  // ----- the program's state

  /** A queued writer; a writer without a batch only asks for a memtable switch. */
  datatype Writer = Writer(batch: Option<Hist>, bytes: nat, sync: bool)

  /** A log record: the first sequence number and the writes of one group. */
  datatype Batch = Batch(first: nat, ops: Hist)

  type Logs = map<nat, seq<Batch>>

  datatype Disk = Disk(tables: Tables, logs: Logs, manifest: seq<Edit>)

  /** The group being committed: the first `size` queued writers, of whose
      writes `inserted` are in the memtable already. */
  datatype Group = Group(size: nat, ops: Hist, inserted: nat)

  datatype Db = Db(
    mem: Table, imm: Option<Table>, version: Version,
    nextFile: nat, lastSeq: nat, logNumber: nat, logFile: nat,
    snapshots: seq<nat>, queue: seq<Writer>, group: Option<Group>, disk: Disk)

  // ----- group formation (DBImpl::BuildBatchGroup)

  const SMALL_WRITE := 0x2_0000
  const MAX_GROUP := 0x10_0000

  function GroupEnd(queue: seq<Writer>, i: nat, size: nat, limit: nat): (n: nat)
    requires 1 <= i <= |queue|
    ensures i <= n <= |queue|
    decreases |queue| - i
  {
    if i == |queue| || (queue[i].sync && !queue[0].sync) then i
    else if queue[i].batch.None? then GroupEnd(queue, i + 1, size, limit)
    else if size + queue[i].bytes > limit then i
    else GroupEnd(queue, i + 1, size + queue[i].bytes, limit)
  }

  /** How many writers the leader at the front serves. */
  function GroupSize(queue: seq<Writer>): (n: nat)
    requires queue != []
    ensures 1 <= n <= |queue|
  {
    var b := queue[0].bytes;
    GroupEnd(queue, 1, b, if b <= SMALL_WRITE then b + SMALL_WRITE else MAX_GROUP)
  }

  function GroupOps(ws: seq<Writer>): Hist {
    if ws == [] then []
    else (if ws[0].batch.Some? then ws[0].batch.value else []) + GroupOps(ws[1..])
  }

  // ----- the reference beside the program

  /** What became of a writer: its writes are in the history, its caller was
      told so, and whether the leader that served it synced. */
  datatype Fate = Fate(w: Writer, landed: bool, acked: bool, synced: bool)

  /** The committed writes, and how far they are from the memtable: writes up
      to `flushed` are in table files, up to `switched` at least in the
      immutable memtable.  Reads are promised from sequence number `low` on. */
  datatype Spec = Spec(hist: Hist, fates: seq<Fate>, arrivals: seq<Writer>, low: nat, flushed: nat, switched: nat)

  datatype State = State(db: Db, spec: Spec)

  /** The committed writes followed by those of the group on its way. */
  function Logged(s: State): Hist {
    s.spec.hist + InFlight(s.db.group)
  }

  function InFlight(g: Option<Group>): Hist {
    if g.Some? then g.value.ops else []
  }

  function Inserted(g: Option<Group>): nat {
    if g.Some? then g.value.inserted else 0
  }

  // ----- replay of log records (WriteBatchInternal::InsertInto)

  function InsertOps(t: Table, first: nat, ops: Hist): Table
    decreases |ops|
  {
    if ops == [] then t
    else
      var e := Entry(Key(ops[0].user, first, ops[0].kind), ops[0].value);
      InsertOps(Insert(t, e), first + 1, ops[1..])
  }

  function Replay(t: Table, bs: seq<Batch>): Table
    decreases |bs|
  {
    if bs == [] then t else Replay(InsertOps(t, bs[0].first, bs[0].ops), bs[1..])
  }

  function Join(parts: seq<seq<Batch>>): seq<Batch> {
    if parts == [] then [] else parts[0] + Join(parts[1..])
  }

  /** Largest last sequence number of the records, at least m. */
  function MaxSeq(bs: seq<Batch>, m: int): (r: int)
    ensures r >= m
    decreases |bs|
  {
    if bs == [] then m
    else
      var last := bs[0].first + |bs[0].ops| - 1;
      MaxSeq(bs[1..], if last > m then last else m)
  }

  // ----- recovery (DBImpl::Recover, RecoverLogFile, DB::Open)

  /** Each part of a log's records becomes a level-0 table, unless it is empty. */
  function FlushParts(tb: Tables, v: Version, parts: seq<seq<Batch>>, n: nat): (r: (Tables, Version, nat))
    requires |v| == NUM_LEVELS
    ensures |r.1| == NUM_LEVELS
    decreases |parts|
  {
    if parts == [] then (tb, v, n)
    else
      var t := Replay([], parts[0]);
      if t == [] then FlushParts(tb, v, parts[1..], n + 1)
      else FlushParts(NewTables(tb, [t], n), Placed(v, 0, n, t), parts[1..], n + 1)
  }

  /** How one log is replayed: its number and where its memtables are cut. */
  datatype LogPlan = LogPlan(number: nat, parts: seq<seq<Batch>>)

  /** The logs to replay are those numbered at or above `from`, in order. */
  ghost predicate PlanOk(logs: Logs, from: nat, plan: seq<LogPlan>) {
    && (forall i, j :: 0 <= i < j < |plan| ==> plan[i].number < plan[j].number)
    && (forall p :: p in plan ==> p.number in logs && p.number >= from && Join(p.parts) == logs[p.number])
    && (forall n :: n in logs && n >= from ==> exists p :: p in plan && p.number == n)
  }

  function FlushLogs(tb: Tables, v: Version, plan: seq<LogPlan>, n: nat): (r: (Tables, Version, nat))
    requires |v| == NUM_LEVELS
    ensures |r.1| == NUM_LEVELS
    decreases |plan|
  {
    if plan == [] then (tb, v, n)
    else
      var (tb', v', n') := FlushParts(tb, v, plan[0].parts, n);
      FlushLogs(tb', v', plan[1..], if n' <= plan[0].number then plan[0].number + 1 else n')
  }

  function Replayed(plan: seq<LogPlan>): seq<Batch> {
    if plan == [] then [] else Join(plan[0].parts) + Replayed(plan[1..])
  }

  const NO_DELETIONS: seq<set<nat>> := [{}, {}, {}, {}, {}, {}, {}]

  function NewIn(v': Version, v: Version): seq<Level>
    requires |v| == |v'| == NUM_LEVELS
  {
    seq(NUM_LEVELS, l requires 0 <= l < NUM_LEVELS => v'[l] - v[l])
  }

  /** Everything is rebuilt from the disk: the manifest first, then the logs;
      a fresh log and a fresh manifest are started. */
  function Recover(d: Disk, plan: seq<LogPlan>): Db
    requires d.manifest != []
  {
    var last := d.manifest[|d.manifest| - 1];
    var v := Rebuild(d.manifest);
    var (tb', v', log) := FlushLogs(d.tables, v, plan, last.nextFile + 1);
    var lastSeq := MaxSeq(Replayed(plan), last.lastSeq);
    var snapshot := Record(0, 0, 0, NO_DELETIONS, v);
    var edit := Record(log, log + 1, lastSeq, NO_DELETIONS, NewIn(v', v));
    Db([], None, v', log + 1, lastSeq, log, log, [], [], None,
       Disk(tb', d.logs[log := []], [snapshot, edit]))
  }

  /** DBImpl::NewDB. */
  const NEW_DISK := Disk(map[], map[], [Record(0, 2, 0, NO_DELETIONS, EMPTY_VERSION)])

  // ----- steps

  datatype Step =
    | Arrive(w: Writer)
    | StartGroup
    | InsertOne
    | Publish
    | Forced
    | Switch
    | FlushImm(level: nat)
    | MoveFile(level: nat, file: File)
    | CompactFiles(job: Job, input: Table, outs: seq<Table>)
    | TakeSnapshot
    | ReleaseSnapshot(i: nat)
    | Collect(keep: set<nat>)
    | Orphan(number: nat, table: Table)
    | Crash(plan: seq<LogPlan>)

  /** The oldest sequence number a reader may still ask for. */
  function OldestSnapshot(db: Db): nat {
    if db.snapshots == [] then db.lastSeq else db.snapshots[0]
  }

  ghost predicate Live(v: Version, n: nat) {
    exists l, f :: 0 <= l < |v| && f in v[l] && f.number == n
  }

  ghost predicate Enabled(s: State, step: Step) {
    var db := s.db;
    match step
    case Arrive(w) => true
    case StartGroup =>
      && db.group.None? && db.queue != [] && db.queue[0].batch.Some?
      && db.lastSeq + |GroupOps(db.queue[..GroupSize(db.queue)])| < MAX_SEQUENCE
    case InsertOne => db.group.Some? && db.group.value.inserted < |db.group.value.ops|
    case Publish => db.group.Some? && db.group.value.inserted == |db.group.value.ops|
    case Forced => db.group.None? && db.queue != [] && db.queue[0].batch.None?
    case Switch => db.group.None? && db.queue != [] && db.imm.None?
    case FlushImm(level) => db.imm.Some? && (db.imm.value != [] ==> Fits(db.version, level, db.imm.value))
    case MoveFile(level, f) => MoveOk(db.version, level, f)
    case CompactFiles(job, input, outs) =>
      CompactionOk(db.disk.tables, db.version, job, OldestSnapshot(db), input, outs)
    case TakeSnapshot => true
    case ReleaseSnapshot(i) => i < |db.snapshots|
    case Collect(keep) => true
    case Orphan(n, t) => !Live(db.version, n)
    case Crash(plan) => db.disk.manifest != [] && PlanOk(db.disk.logs, db.disk.manifest[|db.disk.manifest| - 1].logNumber, plan)
  }

  /** A compaction of the program's form in this state. */
  ghost predicate Formed(db: Db, job: Job, input: Table, outs: seq<Table>) {
    && |db.version| == NUM_LEVELS && job.level + 1 < NUM_LEVELS && Chunks(outs)
    && CompactionForm(db.disk.tables, db.version, job, OldestSnapshot(db), input, outs)
  }

  /** The step is a compaction after which the oldest snapshot would read an
      older value of a key it read as deleted. */
  ghost predicate Exposes(s: State, step: Step) {
    && step.CompactFiles? && step.job.level + 1 < |s.db.version|
    && Exposed(s.db.disk.tables, s.db.version, step.job, step.input, OldestSnapshot(s.db))
  }

  /** VersionSet::LogAndApply: one manifest record, one new version. */
  function LogAndApply(db: Db, logNumber: nat, nextFile: nat, deleted: seq<set<nat>>, added: seq<Level>): Db
    requires |db.version| == |deleted| == |added| == NUM_LEVELS
  {
    var edit := Record(logNumber, nextFile, db.lastSeq, deleted, added);
    db.(version := EditVersion(db.version, edit), logNumber := logNumber, nextFile := nextFile,
        disk := db.disk.(manifest := db.disk.manifest + [edit]))
  }

  function Fates(ws: seq<Writer>, landed: bool, acked: bool, synced: bool): seq<Fate> {
    seq(|ws|, i requires 0 <= i < |ws| => Fate(ws[i], landed, acked, synced))
  }

  /** What a crash does to the writers still waiting. */
  function LostFates(db: Db): seq<Fate>
    requires db.group.Some? ==> 1 <= db.group.value.size <= |db.queue|
  {
    var n := if db.group.Some? then db.group.value.size else 0;
    Fates(db.queue[..n], true, false, n > 0 && db.queue[0].sync) + Fates(db.queue[n..], false, false, false)
  }

  ghost predicate Shaped(s: State) {
    && |s.db.version| == NUM_LEVELS
    && s.db.logFile in s.db.disk.logs
    && (s.db.group.Some? ==> 1 <= s.db.group.value.size <= |s.db.queue|)
  }

  /** The outputs of a compaction replace its inputs. */
  function AfterMerge(s: State, job: Job, outs: seq<Table>): State
    requires |s.db.version| == NUM_LEVELS && job.level + 1 < NUM_LEVELS && Chunks(outs)
  {
    var db, sp, n := s.db, s.spec, s.db.nextFile;
    State(LogAndApply(db.(disk := db.disk.(tables := NewTables(db.disk.tables, outs, n))),
                      db.logNumber, n + |outs|,
                      NO_DELETIONS[job.level := Numbers(job.in0)][job.level + 1 := Numbers(job.in1)],
                      EMPTY_VERSION[job.level + 1 := NewFiles(outs, n)]),
          sp.(low := MaxOf(sp.low, OldestSnapshot(db))))
  }

  ghost function Next(s: State, step: Step): State
    requires Shaped(s) && Enabled(s, step)
  {
    var db, sp := s.db, s.spec;
    match step
    case Arrive(w) => State(db.(queue := db.queue + [w]), sp.(arrivals := sp.arrivals + [w]))
    case StartGroup =>
      var n := GroupSize(db.queue);
      var ops := GroupOps(db.queue[..n]);
      var logs := db.disk.logs[db.logFile := db.disk.logs[db.logFile] + [Batch(db.lastSeq + 1, ops)]];
      State(db.(group := Some(Group(n, ops, 0)), disk := db.disk.(logs := logs)), sp)
    case InsertOne =>
      var g := db.group.value;
      var op := g.ops[g.inserted];
      var e := Entry(Key(op.user, db.lastSeq + g.inserted + 1, op.kind), op.value);
      State(db.(mem := Insert(db.mem, e), group := Some(g.(inserted := g.inserted + 1))), sp)
    case Publish =>
      var g := db.group.value;
      State(db.(lastSeq := db.lastSeq + |g.ops|, group := None, queue := db.queue[g.size..]),
            sp.(hist := sp.hist + g.ops,
                fates := sp.fates + Fates(db.queue[..g.size], true, true, db.queue[0].sync)))
    case Forced =>
      State(db.(queue := db.queue[1..]),
            sp.(fates := sp.fates + Fates(db.queue[..1], true, true, db.queue[0].sync)))
    case Switch =>
      State(db.(imm := Some(db.mem), mem := [], logFile := db.nextFile, nextFile := db.nextFile + 1,
                disk := db.disk.(logs := db.disk.logs[db.nextFile := []])),
            sp.(switched := |sp.hist|))
    case FlushImm(level) =>
      var n, t := db.nextFile, db.imm.value;
      var db' := if t == [] then LogAndApply(db, db.logFile, n + 1, NO_DELETIONS, EMPTY_VERSION)
                 else LogAndApply(db.(disk := db.disk.(tables := NewTables(db.disk.tables, [t], n))),
                                  db.logFile, n + 1, NO_DELETIONS, EMPTY_VERSION[level := NewFiles([t], n)]);
      State(db'.(imm := None), sp.(flushed := sp.switched))
    case MoveFile(level, f) =>
      State(LogAndApply(db, db.logNumber, db.nextFile, NO_DELETIONS[level := {f.number}], EMPTY_VERSION[level + 1 := {f}]), sp)
    case CompactFiles(job, input, outs) => AfterMerge(s, job, outs)
    case TakeSnapshot => State(db.(snapshots := db.snapshots + [db.lastSeq]), sp)
    case ReleaseSnapshot(i) => State(db.(snapshots := db.snapshots[..i] + db.snapshots[i + 1..]), sp)
    case Collect(keep) =>
      var logs := map n | n in db.disk.logs && n >= db.logNumber :: db.disk.logs[n];
      var tables := map n | n in db.disk.tables && (Live(db.version, n) || n in keep) :: db.disk.tables[n];
      State(db.(disk := db.disk.(logs := logs, tables := tables)), sp)
    case Orphan(n, t) => State(db.(disk := db.disk.(tables := db.disk.tables[n := t])), sp)
    case Crash(plan) =>
      var h := Logged(s);
      State(Recover(db.disk, plan), Spec(h, sp.fates + LostFates(db), sp.arrivals, sp.low, |h|, |h|))
  }

  function MaxOf(a: nat, b: nat): nat {
    if a > b then a else b
  }

  /** The engine opened on a directory just created. */
  function Init(): State {
    State(Recover(NEW_DISK, []), Spec([], [], [], 0, 0, 0))
  }
}
