/** Every step of the engine keeps the invariant. */
module EngineSteps {
  import opened Keys
  import opened History
  import opened Versions
  import opened Install
  import opened Placement
  import opened Upkeep
  import opened Manifest
  import opened Engine
  import opened Edits
  import opened EngineInv
  import opened ManifestSteps

  lemma InvShaped(s: State)
    requires Inv(s)
    ensures Shaped(s)
  {
    hide MemInv; hide Matches; hide Fold; hide Sound; hide Covered; hide Truthful;
  }

  // ----- log records

  lemma {:induction false} MatchesExtend(bs: seq<Batch>, h: Hist, more: Hist, lo: nat, hi: nat)
    requires Matches(bs, h, lo, hi)
    ensures Matches(bs, h + more, lo, hi)
    decreases |bs|
  {
    if bs != [] {
      MatchesExtend(bs[1..], h, more, lo + |bs[0].ops|, hi);
      assert (h + more)[lo..lo + |bs[0].ops|] == h[lo..lo + |bs[0].ops|];
    }
  }

  lemma {:induction false} MatchesAppend(bs: seq<Batch>, h: Hist, lo: nat, hi: nat, ops: Hist)
    requires Matches(bs, h, lo, hi) && hi + |ops| <= |h| && h[hi..hi + |ops|] == ops
    ensures Matches(bs + [Batch(hi + 1, ops)], h, lo, hi + |ops|)
    decreases |bs|
  {
    var b := Batch(hi + 1, ops);
    if bs == [] {
      assert bs + [b] == [b];
      assert [b][1..] == [];
    } else {
      MatchesAppend(bs[1..], h, lo + |bs[0].ops|, hi, ops);
      assert (bs + [b])[1..] == bs[1..] + [b];
      MatchesBounds(bs, h, lo, hi);
    }
  }

  lemma {:induction false} MatchesBounds(bs: seq<Batch>, h: Hist, lo: nat, hi: nat)
    requires Matches(bs, h, lo, hi)
    ensures lo <= hi
    decreases |bs|
  {
    if bs != [] {
      MatchesBounds(bs[1..], h, lo + |bs[0].ops|, hi);
    }
  }

  // ----- queueing and group commit

  lemma ArriveKeeps(s: State, w: Writer)
    requires Inv(s)
    ensures Inv(State(s.db.(queue := s.db.queue + [w]), s.spec.(arrivals := s.spec.arrivals + [w])))
  {
    hide VersionInv; hide LogInv; hide ManifestInv; hide SnapInv; hide GroupOps; hide Landed; hide TableOf;
    var q, q' := s.db.queue, s.db.queue + [w];
    if s.db.group.Some? {
      assert q'[..s.db.group.value.size] == q[..s.db.group.value.size];
    }
  }

  lemma {:induction false} GroupSync(queue: seq<Writer>, i: nat, size: nat, limit: nat)
    requires 1 <= i <= |queue|
    requires forall j :: 0 <= j < i && queue[j].sync ==> queue[0].sync
    ensures forall j :: 0 <= j < GroupEnd(queue, i, size, limit) && queue[j].sync ==> queue[0].sync
    decreases |queue| - i
  {
    if i == |queue| || (queue[i].sync && !queue[0].sync) {
    } else if queue[i].batch.None? {
      GroupSync(queue, i + 1, size, limit);
    } else if size + queue[i].bytes <= limit {
      GroupSync(queue, i + 1, size + queue[i].bytes, limit);
    }
  }

  lemma LogStart(logs: Logs, logNumber: nat, logFile: nat, nextFile: nat, hasImm: bool,
                 h: Hist, flushed: nat, switched: nat, ops: Hist)
    requires LogInv(logs, logNumber, logFile, nextFile, hasImm, h, flushed, switched)
    ensures LogInv(logs[logFile := logs[logFile] + [Batch(|h| + 1, ops)]], logNumber, logFile, nextFile, hasImm,
                   h + ops, flushed, switched)
  {
    MatchesExtend(logs[logFile], h, ops, switched, |h|);
    MatchesAppend(logs[logFile], h + ops, switched, |h|, ops);
    if hasImm {
      MatchesExtend(logs[logNumber], h, ops, flushed, switched);
    }
    hide Matches;
  }

  function Started(s: State, n: nat, ops: Hist): State
    requires s.db.logFile in s.db.disk.logs
  {
    State(s.db.(group := Some(Group(n, ops, 0)),
                disk := s.db.disk.(logs := s.db.disk.logs[s.db.logFile := s.db.disk.logs[s.db.logFile] + [Batch(s.db.lastSeq + 1, ops)]])),
          s.spec)
  }

  lemma StartedMem(s: State, n: nat, ops: Hist)
    requires MemInv(s) && s.db.group.None? && s.db.logFile in s.db.disk.logs && s.db.lastSeq + |ops| < MAX_SEQUENCE
    ensures MemInv(Started(s, n, ops))
  {
    var sp := s.spec;
    assert Logged(s) == sp.hist;
    assert Logged(Started(s, n, ops)) == sp.hist + ops;
    TableOfPrefix(sp.hist, ops, sp.switched, |sp.hist|);
    TableOfPrefix(sp.hist, ops, sp.flushed, sp.switched);
    hide TableOf;
  }

  lemma StartedKeeps(s: State, n: nat, ops: Hist)
    requires Inv(s) && s.db.group.None? && s.db.logFile in s.db.disk.logs && s.db.lastSeq + |ops| < MAX_SEQUENCE
    requires 1 <= n <= |s.db.queue| && ops == GroupOps(s.db.queue[..n])
    requires forall i :: 0 <= i < n && s.db.queue[i].sync ==> s.db.queue[0].sync
    ensures Inv(Started(s, n, ops))
  {
    var db, sp := s.db, s.spec;
    assert Logged(s) == sp.hist && Logged(Started(s, n, ops)) == sp.hist + ops;
    hide VersionInv; hide ManifestInv; hide LogInv; hide Landed; hide GroupOps;
    StartedMem(s, n, ops);
    LogStart(db.disk.logs, db.logNumber, db.logFile, db.nextFile, db.imm.Some?, sp.hist, sp.flushed, sp.switched, ops);
    Extend(db.disk.tables, db.version, sp.hist, ops, sp.flushed, sp.low, db.nextFile);
    hide TableOf;
  }

  lemma StartGroupKeeps(s: State)
    requires Inv(s) && Shaped(s) && Enabled(s, StartGroup)
    ensures Inv(Next(s, StartGroup))
  {
    hide Inv;
    var q := s.db.queue;
    var n, b := GroupSize(q), q[0].bytes;
    var ops := GroupOps(q[..n]);
    assert Next(s, StartGroup) == Started(s, n, ops);
    GroupSync(q, 1, b, if b <= SMALL_WRITE then b + SMALL_WRITE else MAX_GROUP);
    assert s.db.lastSeq + |ops| < MAX_SEQUENCE && s.db.group.None?;
    hide *;
    StartedKeeps(s, n, ops);
  }

  // ----- memtable insertion and publication

  function WithInserted(s: State, e: Entry): State
    requires s.db.group.Some?
  {
    var g := s.db.group.value;
    State(s.db.(mem := Insert(s.db.mem, e), group := Some(g.(inserted := g.inserted + 1))), s.spec)
  }

  lemma InsertedMem(s: State, e: Entry)
    requires MemInv(s) && s.db.group.Some? && s.db.group.value.inserted < |s.db.group.value.ops|
    requires e == EntryAt(Logged(s), |s.spec.hist| + s.db.group.value.inserted + 1)
    ensures MemInv(WithInserted(s, e))
  {
    hide Insert;
    assert Logged(WithInserted(s, e)) == Logged(s);
  }

  lemma WithInsertedKeeps(s: State, e: Entry)
    requires Inv(s) && s.db.group.Some? && s.db.group.value.inserted < |s.db.group.value.ops|
    requires e == Entry(Key(s.db.group.value.ops[s.db.group.value.inserted].user, s.db.lastSeq + s.db.group.value.inserted + 1,
                            s.db.group.value.ops[s.db.group.value.inserted].kind), s.db.group.value.ops[s.db.group.value.inserted].value)
    ensures Inv(WithInserted(s, e))
  {
    hide VersionInv; hide ManifestInv; hide LogInv; hide SnapInv; hide Landed; hide GroupOps; hide MemInv; hide Insert;
    assert s.db.lastSeq == |s.spec.hist| by { MemFacts(s); }
    assert Logged(s)[|s.spec.hist| + s.db.group.value.inserted] == s.db.group.value.ops[s.db.group.value.inserted];
    InsertedMem(s, e);
    assert Logged(WithInserted(s, e)) == Logged(s);
  }

  lemma MemFacts(s: State)
    requires MemInv(s)
    ensures s.db.lastSeq == |s.spec.hist| && s.spec.flushed <= s.spec.switched <= |s.spec.hist|
  {
    hide TableOf;
  }

  lemma InsertOneKeeps(s: State)
    requires Inv(s) && Shaped(s) && Enabled(s, InsertOne)
    ensures Inv(Next(s, InsertOne))
  {
    hide Inv; hide Insert;
    var g := s.db.group.value;
    var op := g.ops[g.inserted];
    var e := Entry(Key(op.user, s.db.lastSeq + g.inserted + 1, op.kind), op.value);
    assert Next(s, InsertOne) == WithInserted(s, e);
    WithInsertedKeeps(s, e);
  }

  function Published(s: State): State
    requires s.db.group.Some? && 1 <= s.db.group.value.size <= |s.db.queue|
  {
    var g := s.db.group.value;
    State(s.db.(lastSeq := s.db.lastSeq + |g.ops|, group := None, queue := s.db.queue[g.size..]),
          s.spec.(hist := s.spec.hist + g.ops,
                  fates := s.spec.fates + Fates(s.db.queue[..g.size], true, true, s.db.queue[0].sync)))
  }

  lemma LandedLast(fs: seq<Fate>, f: Fate)
    ensures Landed(fs + [f]) == Landed(fs) + if f.landed && f.w.batch.Some? then f.w.batch.value else []
  {
    assert (fs + [f])[..|fs|] == fs;
  }

  lemma GroupOpsFirst(ws: seq<Writer>)
    requires ws != []
    ensures GroupOps(ws) == (if ws[0].batch.Some? then ws[0].batch.value else []) + GroupOps(ws[1..])
  {
  }

  lemma {:induction false} LandedAppend(fs: seq<Fate>, ws: seq<Writer>, acked: bool, synced: bool)
    ensures Landed(fs + Fates(ws, true, acked, synced)) == Landed(fs) + GroupOps(ws)
    decreases |ws|
  {
    var gs := Fates(ws, true, acked, synced);
    if ws == [] {
      assert fs + gs == fs;
    } else {
      var f := Fate(ws[0], true, acked, synced);
      assert fs + gs == fs + [f] + Fates(ws[1..], true, acked, synced);
      GroupOpsFirst(ws);
      hide Fates; hide GroupOps; hide Landed;
      LandedAppend(fs + [f], ws[1..], acked, synced);
      LandedLast(fs, f);
    }
  }

  lemma {:induction false} NotLanded(fs: seq<Fate>, ws: seq<Writer>)
    ensures Landed(fs + Fates(ws, false, false, false)) == Landed(fs)
    decreases |ws|
  {
    var gs := Fates(ws, false, false, false);
    if ws == [] {
      assert fs + gs == fs;
    } else {
      var f := Fate(ws[0], false, false, false);
      assert fs + gs == fs + [f] + Fates(ws[1..], false, false, false);
      hide Fates;
      NotLanded(fs + [f], ws[1..]);
      LandedLast(fs, f);
    }
  }

  lemma ServedAppend(fs: seq<Fate>, ws: seq<Writer>, landed: bool, acked: bool, synced: bool)
    ensures Served(fs + Fates(ws, landed, acked, synced)) == Served(fs) + ws
  {
  }

  lemma PublishedQueue(queue: seq<Writer>, g: Group, hist: Hist, fates: seq<Fate>, arrivals: seq<Writer>)
    requires QueueInv(queue, Some(g), hist, fates, arrivals)
    ensures QueueInv(queue[g.size..], None, hist + g.ops,
                     fates + Fates(queue[..g.size], true, true, queue[0].sync), arrivals)
  {
    var ws := queue[..g.size];
    assert queue == ws + queue[g.size..];
    LandedAppend(fates, ws, true, queue[0].sync);
    ServedAppend(fates, ws, true, true, queue[0].sync);
    hide Landed; hide GroupOps; hide Served;
    assert Served(fates) + queue == Served(fates) + ws + queue[g.size..];
    var gs := Fates(ws, true, true, queue[0].sync);
    forall f | f in fates + gs && f.acked
      ensures f.landed && (f.w.sync ==> f.synced)
    {
      if f !in fates {
        var i :| 0 <= i < |gs| && gs[i] == f;
        assert f.w == queue[i];
      }
    }
  }

  lemma SnapGrow(snapshots: seq<nat>, low: nat, lastSeq: nat, lastSeq': nat)
    requires SnapInv(snapshots, low, lastSeq) && lastSeq <= lastSeq'
    ensures SnapInv(snapshots, low, lastSeq')
  {
  }

  lemma PublishedMem(s: State)
    requires MemInv(s) && s.db.group.Some? && 1 <= s.db.group.value.size <= |s.db.queue|
    requires s.db.group.value.inserted == |s.db.group.value.ops|
    ensures MemInv(Published(s)) && Logged(Published(s)) == Logged(s)
  {
    hide TableOf; hide Fates;
    assert Logged(Published(s)) == Logged(s);
  }

  lemma PublishedKeeps(s: State)
    requires Inv(s) && s.db.group.Some? && 1 <= s.db.group.value.size <= |s.db.queue|
    requires s.db.group.value.inserted == |s.db.group.value.ops|
    ensures Inv(Published(s))
  {
    hide MemInv; hide VersionInv; hide LogInv; hide ManifestInv; hide SnapInv; hide QueueInv; hide Fates;
    var s', g := Published(s), s.db.group.value;
    PublishedMem(s);
    PublishedQueue(s.db.queue, g, s.spec.hist, s.spec.fates, s.spec.arrivals);
    SnapGrow(s.db.snapshots, s.spec.low, s.db.lastSeq, s'.db.lastSeq);
    ManifestGrow(s.db.disk.manifest, s.db.version, s.db.logNumber, s.db.nextFile, s.spec.flushed, |s.spec.hist|, |s'.spec.hist|);
  }

  lemma ManifestGrow(es: seq<Edit>, v: Version, logNumber: nat, nextFile: nat, flushed: nat, committed: nat, committed': nat)
    requires ManifestInv(es, v, logNumber, nextFile, flushed, committed) && committed <= committed'
    ensures ManifestInv(es, v, logNumber, nextFile, flushed, committed')
  {
    hide Fold; hide AddedOnce; hide AddedSmall; hide AddedAbove; hide NumbersUnique; hide AllOlder;
  }

  lemma PublishKeeps(s: State)
    requires Inv(s) && Shaped(s) && Enabled(s, Publish)
    ensures Inv(Next(s, Publish))
  {
    hide Inv;
    assert Next(s, Publish) == Published(s);
    PublishedKeeps(s);
  }

  function WithoutFirst(s: State): State
    requires s.db.queue != []
  {
    State(s.db.(queue := s.db.queue[1..]),
          s.spec.(fates := s.spec.fates + Fates(s.db.queue[..1], true, true, s.db.queue[0].sync)))
  }

  lemma WithoutFirstKeeps(s: State)
    requires Inv(s) && s.db.group.None? && s.db.queue != [] && s.db.queue[0].batch.None?
    ensures Inv(WithoutFirst(s))
  {
    hide VersionInv; hide LogInv; hide ManifestInv; hide SnapInv; hide TableOf; hide Fates; hide Landed; hide Served;
    var q := s.db.queue;
    assert GroupOps(q[..1]) == [] by {
      assert q[..1][1..] == [];
    }
    PublishedQueue(q, Group(1, [], 0), s.spec.hist, s.spec.fates, s.spec.arrivals);
    assert s.spec.hist + [] == s.spec.hist;
    hide QueueInv; hide GroupOps;
    assert Logged(WithoutFirst(s)) == Logged(s);
  }

  lemma ForcedKeeps(s: State)
    requires Inv(s) && Shaped(s) && Enabled(s, Forced)
    ensures Inv(Next(s, Forced))
  {
    hide Inv;
    assert Next(s, Forced) == WithoutFirst(s);
    WithoutFirstKeeps(s);
  }

  // ----- memtable switch

  function Switched(s: State): State {
    State(s.db.(imm := Some(s.db.mem), mem := [], logFile := s.db.nextFile, nextFile := s.db.nextFile + 1,
                disk := s.db.disk.(logs := s.db.disk.logs[s.db.nextFile := []])),
          s.spec.(switched := |s.spec.hist|))
  }

  lemma OlderStill(tb: Tables, v: Version, h: Hist, flushed: nat, low: nat, next: nat, next': nat)
    requires VersionInv(tb, v, h, flushed, low, next) && next <= next'
    ensures VersionInv(tb, v, h, flushed, low, next')
  {
    hide Sound; hide Truthful; hide Covered;
    forall l | 0 <= l < |v|
      ensures Numbered(v[l], next')
    {
      assert Numbered(v[l], next);
    }
  }

  lemma ManifestNext(es: seq<Edit>, v: Version, logNumber: nat, next: nat, flushed: nat, committed: nat, next': nat)
    requires ManifestInv(es, v, logNumber, next, flushed, committed) && next <= next'
    ensures ManifestInv(es, v, logNumber, next', flushed, committed)
  {
    hide Fold; hide AddedOnce; hide AddedAbove; hide NumbersUnique; hide AllOlder;
  }

  lemma SwitchedLogs(logs: Logs, logNumber: nat, logFile: nat, next: nat, h: Hist, flushed: nat)
    requires LogInv(logs, logNumber, logFile, next, false, h, flushed, flushed)
    ensures LogInv(logs[next := []], logNumber, next, next + 1, true, h, flushed, |h|)
  {
    hide Matches;
    assert Matches([], h, |h|, |h|) by { EmptyMatches(h); }
  }

  lemma EmptyMatches(h: Hist)
    ensures Matches([], h, |h|, |h|)
  {
  }

  lemma SwitchedKeeps(s: State)
    requires Inv(s) && s.db.group.None? && s.db.imm.None?
    ensures Inv(Switched(s))
  {
    var db, sp := s.db, s.spec;
    assert Logged(s) == sp.hist && Logged(Switched(s)) == sp.hist;
    hide VersionInv; hide LogInv; hide ManifestInv; hide SnapInv; hide QueueInv;
    assert MemInv(Switched(s));
    OlderStill(db.disk.tables, db.version, sp.hist, sp.flushed, sp.low, db.nextFile, db.nextFile + 1);
    ManifestNext(db.disk.manifest, db.version, db.logNumber, db.nextFile, sp.flushed, |sp.hist|, db.nextFile + 1);
    SwitchedLogs(db.disk.logs, db.logNumber, db.logFile, db.nextFile, sp.hist, sp.flushed);
    hide MemInv;
  }

  lemma SwitchKeeps(s: State)
    requires Inv(s) && Shaped(s) && Enabled(s, Switch)
    ensures Inv(Next(s, Switch))
  {
    hide Inv;
    assert Next(s, Switch) == Switched(s);
    SwitchedKeeps(s);
  }

  // ----- flush

  function FlushRecord(db: Db, level: nat): Edit
    requires db.imm.Some? && (db.imm.value != [] ==> level < NUM_LEVELS)
  {
    var n, t := db.nextFile, db.imm.value;
    Record(db.logFile, n + 1, db.lastSeq, NO_DELETIONS, if t == [] then EMPTY_VERSION else EMPTY_VERSION[level := NewFiles([t], n)])
  }

  function FlushTables(db: Db): Tables
    requires db.imm.Some?
  {
    if db.imm.value == [] then db.disk.tables else NewTables(db.disk.tables, [db.imm.value], db.nextFile)
  }

  function Flushed(s: State, level: nat): State
    requires s.db.imm.Some? && |s.db.version| == NUM_LEVELS && (s.db.imm.value != [] ==> level < NUM_LEVELS)
  {
    var db, e := s.db, FlushRecord(s.db, level);
    State(db.(imm := None, version := EditVersion(db.version, e), logNumber := db.logFile, nextFile := db.nextFile + 1,
              disk := Disk(FlushTables(db), db.disk.logs, db.disk.manifest + [e])),
          s.spec.(flushed := s.spec.switched))
  }

  lemma FlushFresh(db: Db, level: nat)
    requires db.imm.Some? && db.imm.value != [] && level < NUM_LEVELS
    ensures FreshEdit(FlushRecord(db, level), level, db.nextFile, db.nextFile + 1)
  {
    OneNewFile(db.imm.value, db.nextFile);
  }

  lemma FlushedLogs(logs: Logs, logNumber: nat, logFile: nat, next: nat, h: Hist, flushed: nat, switched: nat)
    requires LogInv(logs, logNumber, logFile, next, true, h, flushed, switched)
    ensures LogInv(logs, logFile, logFile, next + 1, false, h, switched, switched)
  {
    hide Matches;
  }

  lemma ImmIsBatch(s: State)
    requires MemInv(s) && s.db.imm.Some? && s.db.imm.value != []
    ensures WholeBatch(Logged(s), s.spec.flushed, s.spec.switched, s.db.imm.value)
  {
    TableOfEntries(Logged(s), s.spec.flushed, s.spec.switched);
    hide TableOf;
  }

  lemma ImmEmpty(s: State)
    requires MemInv(s) && s.db.imm.Some? && s.db.imm.value == []
    ensures s.spec.flushed == s.spec.switched
  {
    TableOfLength(Logged(s), s.spec.flushed, s.spec.switched);
  }

  lemma FlushedVersion(s: State, level: nat)
    requires Inv(s) && s.db.imm.Some? && |s.db.version| == NUM_LEVELS
    requires s.db.imm.value != [] ==> Fits(s.db.version, level, s.db.imm.value)
    ensures var s' := Flushed(s, level);
            VersionInv(s'.db.disk.tables, s'.db.version, Logged(s), s.spec.switched, s.spec.low, s.db.nextFile + 1)
  {
    var db, sp, t := s.db, s.spec, s.db.imm.value;
    var e := FlushRecord(db, level);
    hide VersionInv; hide LogInv; hide ManifestInv; hide SnapInv; hide QueueInv; hide Fits; hide EditVersion; hide NewFiles; hide NewTables;
    if t == [] {
      EmptyEdit(db.version, e);
      ImmEmpty(s);
      OlderStill(db.disk.tables, db.version, Logged(s), sp.flushed, sp.low, db.nextFile, db.nextFile + 1);
    } else {
      FitsLevel(db.version, level, t);
      FlushEdit(db.version, level, db.nextFile, t, e);
      ImmIsBatch(s);
      hide MemInv;
      Flush(db.disk.tables, db.version, Logged(s), sp.flushed, sp.switched, sp.low, level, db.nextFile, t);
    }
  }

  lemma FlushedManifest(db: Db, flushed: nat, switched: nat, committed: nat, level: nat)
    requires ManifestInv(db.disk.manifest, db.version, db.logNumber, db.nextFile, flushed, committed)
    requires AllOlder(db.version, db.nextFile) && db.imm.Some? && (db.imm.value != [] ==> level < NUM_LEVELS)
    requires switched <= db.lastSeq <= committed
    ensures var e := FlushRecord(db, level);
            |db.version| == NUM_LEVELS &&
            ManifestInv(db.disk.manifest + [e], EditVersion(db.version, e), db.logFile, db.nextFile + 1, switched, committed)
  {
    var e := FlushRecord(db, level);
    if db.imm.value != [] {
      FlushFresh(db, level);
    } else {
      assert FreshEdit(e, 0, db.nextFile, db.nextFile + 1);
    }
    assert |db.version| == NUM_LEVELS;
    hide *;
    FreshStep(db.disk.manifest, db.version, db.logNumber, db.nextFile, flushed, committed, e,
              if db.imm.value == [] then 0 else level, switched);
  }

  lemma FlushedMem(s: State, level: nat)
    requires MemInv(s) && s.db.imm.Some? && |s.db.version| == NUM_LEVELS && (s.db.imm.value != [] ==> level < NUM_LEVELS)
    ensures MemInv(Flushed(s, level)) && Logged(Flushed(s, level)) == Logged(s)
    ensures s.spec.switched <= s.db.lastSeq == |s.spec.hist|
  {
    hide TableOf; hide EditVersion; hide FlushRecord; hide FlushTables;
  }

  lemma FlushedKeeps(s: State, level: nat)
    requires Inv(s) && s.db.imm.Some? && |s.db.version| == NUM_LEVELS
    requires s.db.imm.value != [] ==> level < NUM_LEVELS && Fits(s.db.version, level, s.db.imm.value)
    ensures Inv(Flushed(s, level))
  {
    hide MemInv; hide VersionInv; hide LogInv; hide ManifestInv; hide SnapInv; hide QueueInv; hide EditVersion; hide Fits;
    hide FlushRecord; hide FlushTables;
    var s', db, sp := Flushed(s, level), s.db, s.spec;
    FlushedMem(s, level);
    FlushedVersion(s, level);
    InvOlder(db.disk.tables, db.version, Logged(s), sp.flushed, sp.low, db.nextFile);
    FlushedManifest(db, sp.flushed, sp.switched, |sp.hist|, level);
    FlushedLogs(db.disk.logs, db.logNumber, db.logFile, db.nextFile, Logged(s), sp.flushed, sp.switched);
  }

  lemma FlushKeeps(s: State, level: nat)
    requires Inv(s) && Shaped(s) && Enabled(s, FlushImm(level))
    ensures Inv(Next(s, FlushImm(level)))
  {
    hide Inv;
    if s.db.imm.value != [] {
      FitsLevel(s.db.version, level, s.db.imm.value);
    }
    assert Next(s, FlushImm(level)) == Flushed(s, level);
    FlushedKeeps(s, level);
  }
}
