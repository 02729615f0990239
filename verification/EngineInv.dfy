/** The invariant of the engine, part by part. */
module EngineInv {
  import opened Keys
  import opened History
  import opened Versions
  import opened Install
  import opened Upkeep
  import opened Manifest
  import opened Engine

  /** The memtables hold exactly the writes not yet in table files. */
  ghost predicate MemInv(s: State) {
    var h, db, sp := Logged(s), s.db, s.spec;
    && db.lastSeq == |sp.hist| && |h| < MAX_SEQUENCE
    && sp.flushed <= sp.switched <= |sp.hist|
    && Inserted(db.group) <= |InFlight(db.group)|
    && db.mem == TableOf(h, sp.switched, |sp.hist| + Inserted(db.group))
    && (db.imm.None? ==> sp.flushed == sp.switched)
    && (db.imm.Some? ==> db.imm.value == TableOf(h, sp.flushed, sp.switched))
  }

  /** The records are the writes lo + 1 .. hi, numbered without gaps. */
  ghost predicate Matches(bs: seq<Batch>, h: Hist, lo: nat, hi: nat)
    decreases |bs|
  {
    if bs == [] then lo == hi
    else
      && bs[0].first == lo + 1 && lo + |bs[0].ops| <= hi <= |h|
      && bs[0].ops == h[lo..lo + |bs[0].ops|]
      && Matches(bs[1..], h, lo + |bs[0].ops|, hi)
  }

  /** The logs from the manifest's log number on hold the same writes as the
      memtables; no other log is that recent. */
  ghost predicate LogInv(logs: Logs, logNumber: nat, logFile: nat, nextFile: nat, hasImm: bool,
                         h: Hist, flushed: nat, switched: nat) {
    && logFile in logs && logNumber in logs && logNumber <= logFile < nextFile
    && Matches(logs[logFile], h, switched, |h|)
    && (if hasImm then logNumber < logFile && Matches(logs[logNumber], h, flushed, switched) else logNumber == logFile)
    && forall n :: n in logs && n >= logNumber ==> n == logNumber || n == logFile
  }

  ghost predicate AddedSmall(es: seq<Edit>, next: nat) {
    forall i, l, f :: 0 <= i < |es| && 0 <= l < NUM_LEVELS && f in es[i].added[l] ==> f.number < next
  }

  /** A live file was only ever added at its level or above. */
  ghost predicate AddedAbove(es: seq<Edit>, v: Version)
    requires |v| == NUM_LEVELS
  {
    forall i, l, f, l', g ::
      0 <= i < |es| && 0 <= l < NUM_LEVELS && f in es[i].added[l] && 0 <= l' < NUM_LEVELS && g in v[l'] && g.number == f.number ==>
        l <= l'
  }

  ghost predicate NumbersUnique(v: Version) {
    forall l, l', f, g :: 0 <= l < |v| && 0 <= l' < |v| && f in v[l] && g in v[l'] && f.number == g.number ==> l == l'
  }

  /** The manifest, replayed, is the current version. */
  ghost predicate ManifestInv(es: seq<Edit>, v: Version, logNumber: nat, nextFile: nat, flushed: nat, committed: nat) {
    && es != [] && |v| == NUM_LEVELS
    && Fold(es) == v && AddedOnce(es) && AddedSmall(es, nextFile) && AddedAbove(es, v) && NumbersUnique(v)
    && LastEdit(es[|es| - 1], v, logNumber, nextFile, flushed, committed)
  }

  ghost predicate LastEdit(e: Edit, v: Version, logNumber: nat, nextFile: nat, flushed: nat, committed: nat) {
    && e.logNumber == logNumber && e.nextFile <= nextFile && AllOlder(v, e.nextFile)
    && flushed <= e.lastSeq <= committed
  }

  ghost predicate SnapInv(snapshots: seq<nat>, low: nat, lastSeq: nat) {
    && low <= lastSeq
    && (forall i :: 0 <= i < |snapshots| ==> low <= snapshots[i] <= lastSeq)
    && (forall i, j :: 0 <= i < j < |snapshots| ==> snapshots[i] <= snapshots[j])
  }

  function Landed(fs: seq<Fate>): Hist {
    if fs == [] then []
    else
      var f := fs[|fs| - 1];
      Landed(fs[..|fs| - 1]) + if f.landed && f.w.batch.Some? then f.w.batch.value else []
  }

  function Served(fs: seq<Fate>): seq<Writer> {
    seq(|fs|, i requires 0 <= i < |fs| => fs[i].w)
  }

  /** Writers are served in the order they arrived; the history is their
      batches, one after the other; nobody is told more than what landed. */
  ghost predicate QueueInv(queue: seq<Writer>, group: Option<Group>, hist: Hist, fates: seq<Fate>, arrivals: seq<Writer>) {
    && (group.Some? ==> 1 <= group.value.size <= |queue|
                        && group.value.ops == GroupOps(queue[..group.value.size])
                        && forall i :: 0 <= i < group.value.size && queue[i].sync ==> queue[0].sync)
    && hist == Landed(fates)
    && arrivals == Served(fates) + queue
    && forall f :: f in fates && f.acked ==> f.landed && (f.w.sync ==> f.synced)
  }

  ghost predicate Inv(s: State) {
    && MemInv(s)
    && VersionInv(s.db.disk.tables, s.db.version, Logged(s), s.spec.flushed, s.spec.low, s.db.nextFile)
    && LogInv(s.db.disk.logs, s.db.logNumber, s.db.logFile, s.db.nextFile, s.db.imm.Some?, Logged(s), s.spec.flushed, s.spec.switched)
    && ManifestInv(s.db.disk.manifest, s.db.version, s.db.logNumber, s.db.nextFile, s.spec.flushed, |s.spec.hist|)
    && SnapInv(s.db.snapshots, s.spec.low, s.db.lastSeq)
    && QueueInv(s.db.queue, s.db.group, s.spec.hist, s.spec.fates, s.spec.arrivals)
  }
}
