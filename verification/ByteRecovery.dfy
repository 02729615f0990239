/** Recovery from the bytes of manifest and log files, one of which may be torn
    anywhere inside the record that was being appended (DBImpl::Recover,
    RecoverLogFile, VersionSet::Recover, with paranoid checks: whatever is
    damaged makes recovery fail). */
module ByteRecovery {
  import opened Keys
  import opened Coding
  import opened Bytewise
  import opened History
  import opened Engine
  import opened EngineInv
  import opened EngineSteps
  import opened Versions
  import opened Install
  import opened Upkeep
  import opened Manifest
  import opened EngineFiles
  import opened Runs
  import opened RecordFiles
  import opened ManifestBytes
  import WB = WriteBatches
  import L = Log
  import LC = LogCrash

  // ----- batches as bytes and as the engine's records

  /** The engine names a user key by its rank. */
  function OpOf(w: WB.Write): Op {
    if w.Put? then Op(RankOf(w.key), Kind.Put, w.value) else Op(RankOf(w.key), Deletion, [])
  }

  function OpsOf(ws: seq<WB.Write>): Hist {
    seq(|ws|, i requires 0 <= i < |ws| => OpOf(ws[i]))
  }

  /** Different writes are different for the engine, too. */
  lemma OpOfInjective(a: WB.Write, b: WB.Write)
    ensures OpOf(a) == OpOf(b) <==> a == b
  {
    RankIsOrder(a.key, b.key);
    hide RankOf;
  }

  function RecordOf(b: WB.Batch): Batch {
    Batch(b.first, OpsOf(b.writes))
  }

  function RecordsOf(bs: seq<WB.Batch>): seq<Batch> {
    seq(|bs|, i requires 0 <= i < |bs| => RecordOf(bs[i]))
  }

  /** The engine's record of a log record, if it is a batch. */
  function ParseBatch(record: Bytes): Option<Batch> {
    if |record| < WB.BATCH_HEADER then None
    else
      match WB.Iterate(record)
      case None => None
      case Some(ws) => Some(Batch(GetFixed64(record), OpsOf(ws)))
  }

  lemma BatchesMeant(bs: seq<WB.Batch>)
    requires WB.BatchesOk(bs)
    ensures Means(ParseBatch, WB.Reps(bs), RecordsOf(bs))
  {
    hide RecordOf; hide WB.RepOf; hide WB.WritesOk; hide ParseBatch;
    forall i | 0 <= i < |bs|
      ensures ParseBatch(WB.Reps(bs)[i]) == Some(RecordsOf(bs)[i])
    {
      OneBatch(bs[i]);
    }
  }

  lemma OneBatch(b: WB.Batch)
    requires b.first < TWO64 && WB.WritesOk(b.writes)
    ensures ParseBatch(WB.RepOf(b)) == Some(RecordOf(b))
  {
    hide WB.Iterate; hide GetFixed64; hide OpsOf; hide WB.Rep; hide WB.WriteOk;
    WB.BatchRoundTrip(b.first, b.writes);
    WB.HeaderParts(b.first, b.writes);
  }

  /** A log file cut at any byte gives exactly the records wholly in it. */
  lemma CutLogFile(bs: seq<WB.Batch>, n: nat)
    requires WB.BatchesOk(bs) && n <= |L.File(WB.Reps(bs))|
    ensures ReadFile(ParseBatch, L.File(WB.Reps(bs))[..n]) == Some(RecordsOf(bs)[..LC.Whole(WB.Reps(bs), n)])
  {
    hide ReadFile; hide LC.Whole; hide L.File; hide ParseBatch; hide WB.Reps; hide RecordsOf; hide WB.BatchesOk;
    BatchesMeant(bs);
    CutFile(ParseBatch, WB.Reps(bs), RecordsOf(bs), n);
  }

  // ----- the files of a database

  ghost predicate HoldsAs(file: Bytes, records: seq<Batch>, bs: seq<WB.Batch>) {
    WB.BatchesOk(bs) && RecordsOf(bs) == records && file == L.File(WB.Reps(bs))
  }

  /** The bytes hold these records. */
  ghost predicate Holds(file: Bytes, records: seq<Batch>) {
    exists bs :: HoldsAs(file, records, bs)
  }

  ghost predicate LogFiles(files: map<nat, Bytes>, logs: Logs) {
    files.Keys == logs.Keys && forall n :: n in logs ==> Holds(files[n], logs[n])
  }

  predicate AllRead(files: map<nat, Bytes>) {
    forall n :: n in files ==> ReadFile(ParseBatch, files[n]).Some?
  }

  function LogsOf(files: map<nat, Bytes>): Logs
    requires AllRead(files)
  {
    map n | n in files :: ReadFile(ParseBatch, files[n]).value
  }

  function ReadLogs(files: map<nat, Bytes>): Option<Logs> {
    if AllRead(files) then Some(LogsOf(files)) else None
  }

  /** Manifest and log files; the tables are taken as they are. */
  datatype DiskFiles = DiskFiles(manifest: Bytes, logs: map<nat, Bytes>)

  ghost predicate DiskHolds(comparator: Bytes, files: DiskFiles, d: Disk) {
    (exists ws :: HoldsEdits(comparator, files.manifest, d.manifest, ws)) && LogFiles(files.logs, d.logs)
  }

  function ReadDisk(comparator: Bytes, tables: Tables, files: DiskFiles): Option<Disk> {
    var manifest, logs := ReadManifest(comparator, files.manifest), ReadLogs(files.logs);
    if manifest.Some? && logs.Some? then Some(Disk(tables, logs.value, manifest.value)) else None
  }

  lemma WholeLog(file: Bytes, records: seq<Batch>)
    requires Holds(file, records)
    ensures ReadFile(ParseBatch, file) == Some(records)
  {
    hide ReadFile; hide L.File; hide RecordsOf; hide WB.Reps; hide WB.BatchesOk; hide ParseBatch; hide Means;
    var bs :| HoldsAs(file, records, bs);
    BatchesMeant(bs);
    WholeFile(ParseBatch, WB.Reps(bs), RecordsOf(bs));
  }

  /** Log files read back as the engine's logs. */
  lemma WholeLogs(files: map<nat, Bytes>, logs: Logs)
    requires LogFiles(files, logs)
    ensures ReadLogs(files) == Some(logs)
  {
    hide Holds; hide ReadFile; hide ParseBatch;
    assert forall n :: n in files <==> n in files.Keys;
    assert forall n :: n in logs <==> n in logs.Keys;
    forall n | n in logs
      ensures ReadFile(ParseBatch, files[n]) == Some(logs[n])
    {
      WholeLog(files[n], logs[n]);
    }
    assert AllRead(files);
    assert LogsOf(files) == logs;
  }

  /** A crash while nothing is being appended: the bytes are the engine's disk. */
  lemma WholeDisk(comparator: Bytes, files: DiskFiles, d: Disk)
    requires DiskHolds(comparator, files, d)
    ensures ReadDisk(comparator, d.tables, files) == Some(d)
  {
    hide HoldsEdits; hide LogFiles; hide ReadManifest; hide ReadLogs;
    var ws :| HoldsEdits(comparator, files.manifest, d.manifest, ws);
    WholeManifest(comparator, files.manifest, d.manifest, ws);
    WholeLogs(files.logs, d.logs);
  }

  // ----- recovery

  /** Whatever plan recovery makes for the disk it read, the database is the one
      of the engine's crash in state u. */
  ghost predicate RecoversAs(d: Disk, u: State) {
    && Inv(u) && Shaped(u) && u.db.disk == d
    && forall plan :: Enabled(u, Crash(plan)) ==> Recover(d, plan) == Next(u, Crash(plan)).db && Inv(Next(u, Crash(plan)))
  }

  lemma CrashOf(u: State)
    requires Inv(u) && Shaped(u)
    ensures RecoversAs(u.db.disk, u)
  {
    hide Inv; hide PlanOk; hide Shaped;
    forall plan | Enabled(u, Crash(plan))
      ensures Recover(u.db.disk, plan) == Next(u, Crash(plan)).db && Inv(Next(u, Crash(plan)))
    {
      OnePlan(u, plan);
    }
    hide Enabled; hide Next;
  }

  lemma OnePlan(u: State, plan: seq<LogPlan>)
    requires Inv(u) && Shaped(u) && Enabled(u, Crash(plan))
    ensures Recover(u.db.disk, plan) == Next(u, Crash(plan)).db && Inv(Next(u, Crash(plan)))
  {
    hide Inv; hide Recover; hide PlanOk; hide LostFates;
    StepKeeps(u, Crash(plan));
  }

  /** A crash at any time but during an append: recovery from the bytes is the
      engine's crash step. */
  lemma RecoverFromBytes(s: State, comparator: Bytes, files: DiskFiles)
    requires Inv(s) && DiskHolds(comparator, files, s.db.disk)
    ensures ReadDisk(comparator, s.db.disk.tables, files) == Some(s.db.disk) && RecoversAs(s.db.disk, s)
  {
    hide Inv; hide DiskHolds; hide ReadDisk; hide RecoversAs;
    InvShaped(s);
    WholeDisk(comparator, files, s.db.disk);
    CrashOf(s);
  }

  // ----- a torn log record

  /** The leader's record, as bytes. */
  ghost predicate GroupBytes(s: State, b: WB.Batch)
    requires s.db.queue != []
  {
    RecordOf(b) == Batch(s.db.lastSeq + 1, GroupOps(s.db.queue[..GroupSize(s.db.queue)]))
  }

  /** The log file before and after the leader appended its group. */
  ghost predicate Appended(before: Bytes, after: Bytes, records: seq<Batch>, bs: seq<WB.Batch>, b: WB.Batch) {
    HoldsAs(before, records, bs) && b.first < TWO64 && WB.WritesOk(b.writes) && WB.BatchesOk(bs + [b]) && after == L.File(WB.Reps(bs + [b]))
  }

  lemma TornLog(before: Bytes, after: Bytes, torn: Bytes, records: seq<Batch>, bs: seq<WB.Batch>, b: WB.Batch)
    requires Appended(before, after, records, bs, b) && before <= torn <= after
    ensures ReadFile(ParseBatch, torn) == Some(records) || ReadFile(ParseBatch, torn) == Some(records + [RecordOf(b)])
  {
    RepsAppended(bs, b);
    hide ReadFile; hide L.File; hide WB.Reps; hide RecordOf; hide RecordsOf; hide WB.BatchesOk; hide WB.WritesOk; hide ParseBatch; hide Means;
    BatchesMeant(bs);
    OneBatch(b);
    TornFile(ParseBatch, WB.Reps(bs), RecordsOf(bs), WB.RepOf(b), RecordOf(b), torn);
  }

  lemma RepsAppended(bs: seq<WB.Batch>, b: WB.Batch)
    requires WB.BatchesOk(bs) && WB.BatchesOk(bs + [b]) && b.first < TWO64 && WB.WritesOk(b.writes)
    ensures WB.Reps(bs + [b]) == WB.Reps(bs) + [WB.RepOf(b)]
  {
    hide WB.Rep;
    assert forall i :: 0 <= i < |bs| ==> (bs + [b])[i] == bs[i];
  }

  /** A crash while the leader appends its group, at any byte of the record:
      what is recovered is the database of a crash right before the append or
      right after it.  No committed write is lost, and of the group all or
      nothing is there. */
  lemma TornGroup(s: State, comparator: Bytes, files: DiskFiles, bs: seq<WB.Batch>, b: WB.Batch, after: Bytes, torn: Bytes) returns (u: State)
    requires Inv(s) && Can(s, StartGroup) && GroupBytes(s, b) && DiskHolds(comparator, files, s.db.disk) && s.db.logFile in files.logs
    requires Appended(files.logs[s.db.logFile], after, s.db.disk.logs[s.db.logFile], bs, b) && files.logs[s.db.logFile] <= torn <= after
    ensures u == s || u == Next(s, StartGroup)
    ensures ReadDisk(comparator, s.db.disk.tables, files.(logs := files.logs[s.db.logFile := torn])) == Some(u.db.disk) && RecoversAs(u.db.disk, u)
    ensures s.spec.hist <= Logged(u) <= s.spec.hist + RecordOf(b).ops
  {
    hide DiskHolds; hide Inv; hide Appended; hide ReadLogs; hide GroupSize; hide GroupOps; hide RecordOf; hide ReadDisk; hide RecoversAs; hide HoldsEdits;
    var t := Next(s, StartGroup);
    StepKeeps(s, StartGroup);
    InvShaped(t);
    var d := TornLogDisk(s, comparator, files, bs, b, after, torn);
    if d == s.db.disk {
      u := s;
    } else {
      u := t;
      assert d == t.db.disk;
    }
    hide Shaped; hide Next; hide Enabled;
    CrashOf(u);
  }

  lemma TornLogDisk(s: State, comparator: Bytes, files: DiskFiles, bs: seq<WB.Batch>, b: WB.Batch, after: Bytes, torn: Bytes) returns (d: Disk)
    requires s.db.queue != [] && GroupBytes(s, b) && s.db.logFile in s.db.disk.logs
    requires DiskHolds(comparator, files, s.db.disk) && s.db.logFile in files.logs
    requires Appended(files.logs[s.db.logFile], after, s.db.disk.logs[s.db.logFile], bs, b) && files.logs[s.db.logFile] <= torn <= after
    ensures ReadDisk(comparator, s.db.disk.tables, files.(logs := files.logs[s.db.logFile := torn])) == Some(d)
    ensures var logs, n := s.db.disk.logs, s.db.logFile;
            d == s.db.disk ||
            d == s.db.disk.(logs := logs[n := logs[n] + [Batch(s.db.lastSeq + 1, GroupOps(s.db.queue[..GroupSize(s.db.queue)]))]])
  {
    hide HoldsEdits; hide LogFiles; hide Appended; hide ReadFile; hide RecordOf; hide GroupOps; hide GroupSize; hide ReadLogs; hide ReadManifest; hide ParseBatch;
    var logs, n := s.db.disk.logs, s.db.logFile;
    var ws :| HoldsEdits(comparator, files.manifest, s.db.disk.manifest, ws);
    WholeManifest(comparator, files.manifest, s.db.disk.manifest, ws);
    WholeLogs(files.logs, logs);
    TornLog(files.logs[n], after, torn, logs[n], bs, b);
    OneTorn(files.logs, logs, n, torn);
    d := s.db.disk.(logs := logs[n := ReadFile(ParseBatch, torn).value]);
  }

  lemma OneTorn(files: map<nat, Bytes>, logs: Logs, n: nat, torn: Bytes)
    requires ReadLogs(files) == Some(logs) && n in logs && ReadFile(ParseBatch, torn).Some?
    ensures ReadLogs(files[n := torn]) == Some(logs[n := ReadFile(ParseBatch, torn).value]) && logs[n := logs[n]] == logs
  {
    hide ReadFile; hide ParseBatch;
    var files' := files[n := torn];
    assert AllRead(files) && AllRead(files');
    assert LogsOf(files') == logs[n := ReadFile(ParseBatch, torn).value];
  }

  // ----- a torn manifest record

  /** The steps that append one manifest record. */
  predicate Installs(step: Step) {
    step.FlushImm? || step.MoveFile? || step.CompactFiles?
  }

  /** Their record. */
  ghost function StepRecord(s: State, step: Step): Edit
    requires Can(s, step) && Installs(step)
  {
    var m := Next(s, step).db.disk.manifest;
    if m == [] then Record(0, 0, 0, NO_DELETIONS, EMPTY_VERSION) else m[|m| - 1]
  }

  /** A crash while such a step appends its record, at any byte of it: the new
      tables are on disk already, and what is recovered is the database of a
      crash right before the record or right after it. */
  lemma TornInstall(s: State, step: Step, comparator: Bytes, files: DiskFiles, ws: seq<Written>, w: Written, after: Bytes, torn: Bytes) returns (u: State)
    requires Inv(s) && Can(s, step) && Installs(step) && LogFiles(files.logs, s.db.disk.logs)
    requires HoldsEdits(comparator, files.manifest, s.db.disk.manifest, ws) && WrittenOk(comparator, w) && EditOf(w.edit) == StepRecord(s, step)
    requires after == L.File(Reps(ws + [w])) && files.manifest <= torn <= after
    ensures u == WithDisk(s, Next(s, step).db.disk.tables, s.db.disk.logs) || u == Next(s, step)
    ensures ReadDisk(comparator, Next(s, step).db.disk.tables, files.(manifest := torn)) == Some(u.db.disk) && RecoversAs(u.db.disk, u)
    ensures Logged(u) == Logged(s)
  {
    hide Inv; hide LogFiles; hide HoldsEdits; hide WrittenOk; hide EditOf; hide ReadManifest; hide ReadLogs; hide RecoversAs; hide Reps;
    InstallParts(s, step);
    hide Shaped; hide Enabled; hide Next;
    var t := Next(s, step);
    WholeLogs(files.logs, s.db.disk.logs);
    TornManifest(comparator, files.manifest, after, torn, s.db.disk.manifest, ws, w);
    if ReadManifest(comparator, torn) == Some(t.db.disk.manifest) {
      u := t;
    } else {
      u := WithDisk(s, t.db.disk.tables, s.db.disk.logs);
    }
    CrashOf(u);
  }

  lemma InstallParts(s: State, step: Step)
    requires Inv(s) && Can(s, step) && Installs(step)
    ensures var t, u := Next(s, step), WithDisk(s, Next(s, step).db.disk.tables, s.db.disk.logs);
            && t.db.disk.manifest == s.db.disk.manifest + [StepRecord(s, step)] && t.db.disk.logs == s.db.disk.logs
            && Inv(t) && Shaped(t) && Logged(t) == Logged(s) && Inv(u) && Shaped(u) && Logged(u) == Logged(s)
  {
    var t, u := Next(s, step), WithDisk(s, Next(s, step).db.disk.tables, s.db.disk.logs);
    hide Inv;
    StepKeeps(s, step);
    InvShaped(t);
    InstallDisk(s, step);
    hide Shaped; hide Enabled; hide Next;
    NewTablesKeep(s, t.db.disk.tables);
    InvShaped(u);
  }

  /** What such a step does to the disk. */
  lemma InstallDisk(s: State, step: Step)
    requires Can(s, step) && Installs(step)
    ensures var t := Next(s, step);
            && t.db.disk.manifest == s.db.disk.manifest + [StepRecord(s, step)] && t.db.disk.logs == s.db.disk.logs
            && t.spec.hist == s.spec.hist && t.db.group == s.db.group
            && forall n :: n < s.db.nextFile && n in s.db.disk.tables ==> n in t.db.disk.tables && t.db.disk.tables[n] == s.db.disk.tables[n]
  {
  }

  lemma NewTablesKeep(s: State, tables: Tables)
    requires Inv(s) && forall n :: n < s.db.nextFile && n in s.db.disk.tables ==> n in tables && tables[n] == s.db.disk.tables[n]
    ensures Inv(WithDisk(s, tables, s.db.disk.logs))
  {
    hide Inv;
    forall l: nat, f | l < |s.db.version| && f in s.db.version[l]
      ensures f.number in s.db.disk.tables && f.number in tables && tables[f.number] == s.db.disk.tables[f.number]
    {
      LiveTables(s, l, f);
      LiveOlder(s, l, f);
    }
    assert SameLive(s.db.disk.tables, tables, s.db.version);
    WithDiskKeeps(s, tables, s.db.disk.logs);
  }

  // ----- every run can be had with its logs and manifest as bytes

  /** The bytes before a step, and of what the step appends or starts anew, give
      the bytes after it. */
  lemma FilesKept(s: State, step: Step, comparator: Bytes, files: DiskFiles, b: WB.Batch, ws: seq<Written>) returns (files': DiskFiles)
    requires Can(s, step) && DiskHolds(comparator, files, s.db.disk) && AllWritten(comparator, ws)
    requires step.StartGroup? ==> GroupBytes(s, b) && b.first < TWO64 && WB.WritesOk(b.writes)
    requires Installs(step) ==> EditsOf(ws) == [StepRecord(s, step)]
    requires step.Crash? ==> EditsOf(ws) == Next(s, step).db.disk.manifest
    ensures DiskHolds(comparator, files', Next(s, step).db.disk)
  {
    hide LogFiles; hide GroupBytes; hide HoldsEdits; hide AllWritten; hide EditsOf; hide StepRecord; hide WB.WritesOk;
    LogsAfter(s, step);
    ManifestAfter(s, step);
    hide Shaped; hide Next; hide Enabled;
    var logs := LogsKept(s, step, files.logs, b);
    var manifest := ManifestKept(s, step, comparator, files.manifest, ws);
    files' := DiskFiles(manifest, logs);
  }

  lemma LogsKept(s: State, step: Step, files: map<nat, Bytes>, b: WB.Batch) returns (files': map<nat, Bytes>)
    requires Can(s, step) && LogFiles(files, s.db.disk.logs)
    requires step.StartGroup? ==> GroupBytes(s, b) && b.first < TWO64 && WB.WritesOk(b.writes)
    ensures LogFiles(files', Next(s, step).db.disk.logs)
  {
    hide LogFiles; hide GroupBytes; hide WB.WritesOk;
    LogsAfter(s, step);
    hide Shaped; hide Next; hide Enabled;
    match step {
      case StartGroup => files' := AppendedFile(s, files, b);
      case Switch => files' := NewFile(s.db.disk.logs, files, s.db.nextFile);
      case Collect(keep) => files' := FewerFiles(s.db.disk.logs, files, s.db.logNumber);
      case Crash(plan) => files' := NewFile(s.db.disk.logs, files, Recover(s.db.disk, plan).logFile);
      case _ => files' := files;
    }
  }

  lemma ManifestKept(s: State, step: Step, comparator: Bytes, file: Bytes, ws: seq<Written>) returns (file': Bytes)
    requires Can(s, step) && AllWritten(comparator, ws) && exists vs :: HoldsEdits(comparator, file, s.db.disk.manifest, vs)
    requires Installs(step) ==> EditsOf(ws) == [StepRecord(s, step)]
    requires step.Crash? ==> EditsOf(ws) == Next(s, step).db.disk.manifest
    ensures exists vs :: HoldsEdits(comparator, file', Next(s, step).db.disk.manifest, vs)
  {
    hide HoldsEdits; hide WrittenOk; hide EditOf;
    var vs :| HoldsEdits(comparator, file, s.db.disk.manifest, vs);
    ManifestAfter(s, step);
    hide Shaped; hide Next; hide Enabled; hide StepRecord;
    if Installs(step) {
      assert |ws| == |EditsOf(ws)| == 1;
      HoldsMore(comparator, file, s.db.disk.manifest, vs, ws[0]);
      file' := L.File(Reps(vs + ws[..1]));
      assert ws[..1] == [ws[0]] && EditsOf(ws)[0] == EditOf(ws[0].edit);
    } else if step.Crash? {
      file' := L.File(Reps(ws));
      HoldsAll(comparator, ws);
    } else {
      file' := file;
    }
  }

  lemma HoldsAll(comparator: Bytes, ws: seq<Written>)
    requires AllWritten(comparator, ws)
    ensures HoldsEdits(comparator, L.File(Reps(ws)), EditsOf(ws), ws)
  {
    hide WrittenOk; hide EditOf; hide L.File; hide Reps; hide EditsOf;
  }

  /** What each step does to the manifest. */
  lemma ManifestAfter(s: State, step: Step)
    requires Can(s, step)
    ensures Installs(step) ==> Next(s, step).db.disk.manifest == s.db.disk.manifest + [StepRecord(s, step)]
    ensures !Installs(step) && !step.Crash? ==> Next(s, step).db.disk.manifest == s.db.disk.manifest
  {
    if Installs(step) {
      InstallDisk(s, step);
    }
  }

  /** What each step does to the logs. */
  lemma LogsAfter(s: State, step: Step)
    requires Can(s, step)
    ensures var logs, logs' := s.db.disk.logs, Next(s, step).db.disk.logs;
            match step
            case StartGroup =>
              s.db.logFile in logs && s.db.queue != [] &&
              logs' == logs[s.db.logFile := logs[s.db.logFile] + [Batch(s.db.lastSeq + 1, GroupOps(s.db.queue[..GroupSize(s.db.queue)]))]]
            case Switch => logs' == logs[s.db.nextFile := []]
            case Collect(_) => logs' == map n | n in logs && n >= s.db.logNumber :: logs[n]
            case Crash(plan) => s.db.disk.manifest != [] && logs' == logs[Recover(s.db.disk, plan).logFile := []]
            case _ => logs' == logs
  {
  }

  lemma AppendedFile(s: State, files: map<nat, Bytes>, b: WB.Batch) returns (files': map<nat, Bytes>)
    requires s.db.queue != [] && GroupBytes(s, b) && b.first < TWO64 && WB.WritesOk(b.writes)
    requires LogFiles(files, s.db.disk.logs) && s.db.logFile in s.db.disk.logs
    ensures LogFiles(files', s.db.disk.logs[s.db.logFile := s.db.disk.logs[s.db.logFile] + [Batch(s.db.lastSeq + 1, GroupOps(s.db.queue[..GroupSize(s.db.queue)]))]])
  {
    hide GroupOps; hide GroupSize; hide LogFiles; hide HoldsAs; hide RecordOf; hide WB.WritesOk;
    var n, logs := s.db.logFile, s.db.disk.logs;
    FileOf(files, logs, n);
    var bs :| HoldsAs(files[n], logs[n], bs);
    var file := HeldMore(files[n], logs[n], bs, b);
    hide Holds;
    files' := files[n := file];
    OneMore(files, logs, n, file, logs[n] + [RecordOf(b)]);
  }

  lemma FileOf(files: map<nat, Bytes>, logs: Logs, n: nat)
    requires LogFiles(files, logs) && n in logs
    ensures n in files && Holds(files[n], logs[n])
  {
    hide Holds;
    assert n in files.Keys;
  }

  lemma SplitRecords(bs: seq<WB.Batch>, b: WB.Batch)
    ensures RecordsOf(bs + [b]) == RecordsOf(bs) + [RecordOf(b)]
  {
    hide RecordOf;
    assert forall i :: 0 <= i < |bs| ==> (bs + [b])[i] == bs[i];
  }

  lemma HeldMore(file: Bytes, records: seq<Batch>, bs: seq<WB.Batch>, b: WB.Batch) returns (file': Bytes)
    requires HoldsAs(file, records, bs) && b.first < TWO64 && WB.WritesOk(b.writes)
    ensures HoldsAs(file', records + [RecordOf(b)], bs + [b]) && Holds(file', records + [RecordOf(b)])
  {
    hide L.File; hide RecordOf; hide WB.Reps; hide RecordsOf; hide WB.WritesOk;
    SplitRecords(bs, b);
    file' := L.File(WB.Reps(bs + [b]));
    assert HoldsAs(file', records + [RecordOf(b)], bs + [b]);
  }

  lemma OneMore(files: map<nat, Bytes>, logs: Logs, n: nat, file: Bytes, records: seq<Batch>)
    requires LogFiles(files, logs) && Holds(file, records)
    ensures LogFiles(files[n := file], logs[n := records])
  {
    hide Holds;
  }

  lemma NewFile(logs: Logs, files: map<nat, Bytes>, n: nat) returns (files': map<nat, Bytes>)
    requires LogFiles(files, logs)
    ensures LogFiles(files', logs[n := []])
  {
    hide LogFiles;
    assert HoldsAs([], [], []);
    files' := files[n := []];
    OneMore(files, logs, n, [], []);
  }

  lemma FewerFiles(logs: Logs, files: map<nat, Bytes>, from: nat) returns (files': map<nat, Bytes>)
    requires LogFiles(files, logs)
    ensures LogFiles(files', map n | n in logs && n >= from :: logs[n])
  {
    hide Holds;
    files' := map n | n in files && n >= from :: files[n];
    var logs' := map n | n in logs && n >= from :: logs[n];
    assert forall n :: n in files <==> n in files.Keys;
    assert forall n :: n in logs <==> n in logs.Keys;
    assert files'.Keys == logs'.Keys;
  }
}
