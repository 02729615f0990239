/** Recovery after a crash rebuilds the same database (DBImpl::Recover). */
module Recovery {
  import opened Keys
  import opened History
  import opened Versions
  import opened Install
  import opened Placement
  import opened Upkeep
  import opened Manifest
  import opened Engine
  import opened Edits
  import opened EngineInv
  import opened ManifestSteps
  import opened EngineSteps

  // ----- replaying records gives back the memtable

  lemma {:induction false} InsertOpsIsTable(h: Hist, a: nat, lo: nat, ops: Hist)
    requires a <= lo && lo + |ops| <= |h| && ops == h[lo..lo + |ops|]
    ensures InsertOps(TableOf(h, a, lo), lo + 1, ops) == TableOf(h, a, lo + |ops|)
    decreases |ops|
  {
    hide Insert;
    if ops != [] {
      var rest := ops[1..];
      assert ops[0] == h[lo] && rest == h[lo + 1..lo + 1 + |rest|];
      assert InsertOps(TableOf(h, a, lo), lo + 1, ops) == InsertOps(Insert(TableOf(h, a, lo), EntryAt(h, lo + 1)), lo + 2, rest);
      assert Insert(TableOf(h, a, lo), EntryAt(h, lo + 1)) == TableOf(h, a, lo + 1);
      hide TableOf; hide InsertOps;
      InsertOpsIsTable(h, a, lo + 1, rest);
    }
  }

  lemma {:induction false} ReplayIsTable(h: Hist, a: nat, lo: nat, hi: nat, bs: seq<Batch>)
    requires a <= lo <= hi <= |h| && Matches(bs, h, lo, hi)
    ensures Replay(TableOf(h, a, lo), bs) == TableOf(h, a, hi)
    decreases |bs|
  {
    hide TableOf; hide InsertOps;
    if bs != [] {
      InsertOpsIsTable(h, a, lo, bs[0].ops);
      ReplayIsTable(h, a, lo + |bs[0].ops|, hi, bs[1..]);
    }
  }

  lemma {:induction false} SplitMatches(a: seq<Batch>, b: seq<Batch>, h: Hist, lo: nat, hi: nat) returns (mid: nat)
    requires Matches(a + b, h, lo, hi)
    ensures Matches(a, h, lo, mid) && Matches(b, h, mid, hi) && lo <= mid <= hi
    decreases |a|
  {
    if a == [] {
      assert a + b == b;
      mid := lo;
      MatchesBounds(b, h, lo, hi);
    } else {
      assert (a + b)[0] == a[0] && (a + b)[1..] == a[1..] + b;
      mid := SplitMatches(a[1..], b, h, lo + |a[0].ops|, hi);
    }
  }

  // ----- level-0 tables built from the logs

  ghost predicate Grown(v: Version, v': Version, n: nat, n': nat) {
    && |v| == |v'| == NUM_LEVELS && n <= n'
    && (forall l :: 1 <= l < NUM_LEVELS ==> v'[l] == v[l])
    && v[0] <= v'[0]
    && forall f :: f in v'[0] - v[0] ==> n <= f.number < n'
  }

  lemma GrownTrans(v: Version, v1: Version, v2: Version, n: nat, n1: nat, m: nat, n2: nat)
    requires Grown(v, v1, n, n1) && Grown(v1, v2, m, n2) && n1 <= m
    ensures Grown(v, v2, n, n2)
  {
    forall f | f in v2[0] - v[0]
      ensures n <= f.number < n2
    {
      assert f in v1[0] - v[0] || f in v2[0] - v1[0];
    }
  }

  lemma {:induction false} FlushPartsInv(tb: Tables, v: Version, parts: seq<seq<Batch>>, n: nat,
                                         h: Hist, lo: nat, hi: nat, low: nat)
    requires |v| == NUM_LEVELS && VersionInv(tb, v, h, lo, low, n) && hi <= |h| && Matches(Join(parts), h, lo, hi)
    ensures var r := FlushParts(tb, v, parts, n);
            VersionInv(r.0, r.1, h, hi, low, r.2) && Grown(v, r.1, n, r.2)
    decreases |parts|
  {
    hide VersionInv;
    if parts != [] {
      hide Grown;
      var t := Replay([], parts[0]);
      var rest := parts[1..];
      var mid := SplitMatches(parts[0], Join(rest), h, lo, hi);
      ReplayIsTable(h, lo, lo, mid, parts[0]);
      assert t == TableOf(h, lo, mid);
      assert FlushParts(tb, v, parts, n) ==
        if t == [] then FlushParts(tb, v, rest, n + 1)
        else FlushParts(NewTables(tb, [t], n), Placed(v, 0, n, t), rest, n + 1);
      hide Matches; hide Replay; hide TableOf; hide Join; hide FlushParts; hide NewTables;
      if t == [] {
        TableOfLength(h, lo, mid);
        OlderStill(tb, v, h, lo, low, n, n + 1);
        GrownRefl(v, n);
        FlushPartsInv(tb, v, rest, n + 1, h, mid, hi, low);
        GrownTrans(v, v, FlushParts(tb, v, rest, n + 1).1, n, n + 1, n + 1, FlushParts(tb, v, rest, n + 1).2);
      } else {
        var tb1, v1 := NewTables(tb, [t], n), Placed(v, 0, n, t);
        OnePart(tb, v, h, lo, mid, low, n, t);
        hide Placed;
        FlushPartsInv(tb1, v1, rest, n + 1, h, mid, hi, low);
        var r := FlushParts(tb1, v1, rest, n + 1);
        GrownTrans(v, v1, r.1, n, n + 1, n + 1, r.2);
      }
    }
  }

  lemma GrownRefl(v: Version, n: nat)
    requires |v| == NUM_LEVELS
    ensures Grown(v, v, n, n + 1)
  {
  }

  lemma OnePart(tb: Tables, v: Version, h: Hist, lo: nat, mid: nat, low: nat, n: nat, t: Table)
    requires |v| == NUM_LEVELS && VersionInv(tb, v, h, lo, low, n) && lo <= mid <= |h|
    requires t == TableOf(h, lo, mid) && t != []
    ensures VersionInv(NewTables(tb, [t], n), Placed(v, 0, n, t), h, mid, low, n + 1)
    ensures Grown(v, Placed(v, 0, n, t), n, n + 1)
  {
    hide VersionInv;
    TableOfEntries(h, lo, mid);
    hide TableOf;
    assert WholeBatch(h, lo, mid, t);
    assert Fits(v, 0, t);
    Flush(tb, v, h, lo, mid, low, 0, n, t);
    OneNewFile(t, n);
  }

  lemma {:induction false} FlushLogsInv(tb: Tables, v: Version, plan: seq<LogPlan>, n: nat,
                                        h: Hist, lo: nat, hi: nat, low: nat)
    requires |v| == NUM_LEVELS && VersionInv(tb, v, h, lo, low, n) && hi <= |h| && Matches(Replayed(plan), h, lo, hi)
    ensures var r := FlushLogs(tb, v, plan, n);
            VersionInv(r.0, r.1, h, hi, low, r.2) && Grown(v, r.1, n, r.2) && forall p :: p in plan ==> p.number < r.2
    decreases |plan|
  {
    hide VersionInv;
    if plan != [] {
      var rest := plan[1..];
      var r1 := FlushParts(tb, v, plan[0].parts, n);
      var m := if r1.2 <= plan[0].number then plan[0].number + 1 else r1.2;
      assert FlushLogs(tb, v, plan, n) == FlushLogs(r1.0, r1.1, rest, m);
      var mid := SplitMatches(Join(plan[0].parts), Replayed(rest), h, lo, hi);
      hide Matches; hide Join; hide Replayed; hide FlushLogs; hide FlushParts;
      FlushPartsInv(tb, v, plan[0].parts, n, h, lo, mid, low);
      OlderStill(r1.0, r1.1, h, mid, low, r1.2, m);
      FlushLogsInv(r1.0, r1.1, rest, m, h, mid, hi, low);
      var r2 := FlushLogs(r1.0, r1.1, rest, m);
      assert m <= r2.2;
      GrownTrans(v, r1.1, r2.1, n, r1.2, m, r2.2);
      hide Grown;
      assert plan == [plan[0]] + rest;
    }
  }

  lemma {:induction false} MaxSeqOf(bs: seq<Batch>, h: Hist, lo: nat, hi: nat, m: int)
    requires Matches(bs, h, lo, hi) && m <= hi
    ensures bs != [] ==> MaxSeq(bs, m) == hi
    decreases |bs|
  {
    if bs != [] {
      MatchesBounds(bs, h, lo, hi);
      var last := bs[0].first + |bs[0].ops| - 1;
      MaxSeqOf(bs[1..], h, lo + |bs[0].ops|, hi, if last > m then last else m);
    }
  }

  // ----- which logs are replayed

  lemma PlanRecords(logs: Logs, logNumber: nat, logFile: nat, next: nat, hasImm: bool, h: Hist, flushed: nat, switched: nat,
                    plan: seq<LogPlan>)
    requires LogInv(logs, logNumber, logFile, next, hasImm, h, flushed, switched)
    requires flushed <= switched <= |h| && (!hasImm ==> flushed == switched)
    requires PlanOk(logs, logNumber, plan)
    ensures Matches(Replayed(plan), h, flushed, |h|)
  {
    hide Matches; hide Join; hide Replayed;
    var p :| p in plan && p.number == logNumber;
    var q :| q in plan && q.number == logFile;
    var i :| 0 <= i < |plan| && plan[i] == p;
    var j :| 0 <= j < |plan| && plan[j] == q;
    assert forall k :: 0 <= k < |plan| ==> plan[k] in plan;
    AtMostTwo(plan, logNumber, logFile);
    if hasImm {
      assert i == 0 && j == 1;
      assert Join(plan[0].parts) == logs[logNumber] && Join(plan[1].parts) == logs[logFile];
      TwoLogs(plan, logs[logNumber], logs[logFile]);
      JoinMatches(logs[logNumber], logs[logFile], h, flushed, switched, |h|);
    } else {
      assert i == j && |plan| == 1;
      OneLog(plan, logs[logFile]);
    }
  }

  lemma AtMostTwo(plan: seq<LogPlan>, a: nat, b: nat)
    requires forall i, j :: 0 <= i < j < |plan| ==> plan[i].number < plan[j].number
    requires forall k :: 0 <= k < |plan| ==> plan[k].number == a || plan[k].number == b
    ensures |plan| <= if a == b then 1 else 2
  {
    var x, y, z := NumberAt(plan, 0), NumberAt(plan, 1), NumberAt(plan, 2);
    assert |plan| > 1 ==> x < y;
    assert |plan| > 2 ==> y < z;
  }

  function NumberAt(plan: seq<LogPlan>, i: nat): nat {
    if i < |plan| then plan[i].number else 0
  }

  lemma OneLog(plan: seq<LogPlan>, a: seq<Batch>)
    requires |plan| == 1 && Join(plan[0].parts) == a
    ensures Replayed(plan) == a
  {
    assert plan[1..] == [];
  }

  lemma TwoLogs(plan: seq<LogPlan>, a: seq<Batch>, b: seq<Batch>)
    requires |plan| == 2 && Join(plan[0].parts) == a && Join(plan[1].parts) == b
    ensures Replayed(plan) == a + b
  {
    assert plan[1..][1..] == [];
    OneLog(plan[1..], b);
  }

  lemma {:induction false} JoinMatches(a: seq<Batch>, b: seq<Batch>, h: Hist, lo: nat, mid: nat, hi: nat)
    requires Matches(a, h, lo, mid) && Matches(b, h, mid, hi) && hi <= |h|
    ensures Matches(a + b, h, lo, hi)
    decreases |a|
  {
    MatchesBounds(b, h, mid, hi);
    if a == [] {
      assert a + b == b;
    } else {
      assert (a + b)[0] == a[0] && (a + b)[1..] == a[1..] + b;
      JoinMatches(a[1..], b, h, lo + |a[0].ops|, mid, hi);
    }
  }

  // ----- the recovered state

  lemma RecoveredManifest(v: Version, v': Version, n: nat, log: nat, last: nat)
    requires Grown(v, v', n, log) && AllOlder(v, n) && NumbersUnique(v)
    ensures var e0, e1 := Record(0, 0, 0, NO_DELETIONS, v), Record(log, log + 1, last, NO_DELETIONS, NewIn(v', v));
            ManifestInv([e0, e1], v', log, log + 1, last, last)
  {
    var e0, e1 := Record(0, 0, 0, NO_DELETIONS, v), Record(log, log + 1, last, NO_DELETIONS, NewIn(v', v));
    RecoveredFold(v, v', n, log, last);
    hide Fold;
    forall l: nat | l < NUM_LEVELS
      ensures NewIn(v', v)[l] == if l == 0 then v'[0] - v[0] else {}
    {
    }
    forall l | 0 <= l < |v'|
      ensures Numbered(v'[l], log)
    {
      assert Numbered(v[l], n);
      assert l == 0 ==> forall f :: f in v'[0] ==> f in v[0] || f in v'[0] - v[0];
    }
    assert AllOlder(v', log + 1);
    RecoveredUnique(v, v', n, log);
    RecoveredAdds(v, v', n, log, e0, e1);
    hide AddedOnce; hide AddedSmall; hide AddedAbove; hide NumbersUnique; hide AllOlder; hide NewIn; hide Grown;
  }

  lemma RecoveredFold(v: Version, v': Version, n: nat, log: nat, last: nat)
    requires Grown(v, v', n, log)
    ensures var e0, e1 := Record(0, 0, 0, NO_DELETIONS, v), Record(log, log + 1, last, NO_DELETIONS, NewIn(v', v));
            Fold([e0, e1]) == v'
  {
    var e0, e1 := Record(0, 0, 0, NO_DELETIONS, v), Record(log, log + 1, last, NO_DELETIONS, NewIn(v', v));
    hide Fold; hide EditVersion; hide NewIn; hide Grown;
    SnapshotEdit(v, v', n, log, e0);
    GrowthEdit(v, v', n, log, e1);
    TwoEdits(e0, e1);
  }

  lemma TwoEdits(e0: Edit, e1: Edit)
    ensures |EditVersion(EMPTY_VERSION, e0)| == NUM_LEVELS && Fold([e0, e1]) == EditVersion(EditVersion(EMPTY_VERSION, e0), e1)
  {
    assert [] + [e0] == [e0] && [e0] + [e1] == [e0, e1];
    assert Fold([]) == EMPTY_VERSION;
    EditLength(EMPTY_VERSION, e0);
    hide Fold; hide EditVersion;
    FoldAppend([], e0);
    FoldAppend([e0], e1);
  }

  lemma SnapshotEdit(v: Version, v': Version, n: nat, log: nat, e0: Edit)
    requires Grown(v, v', n, log) && e0.deleted == NO_DELETIONS && e0.added == v
    ensures EditVersion(EMPTY_VERSION, e0) == v && |v| == |v'| == NUM_LEVELS
  {
    assert |v| == |v'| == NUM_LEVELS;
    hide EditVersion; hide Grown;
    EditLength(EMPTY_VERSION, e0);
    forall l: nat | l < NUM_LEVELS
      ensures EditVersion(EMPTY_VERSION, e0)[l] == v[l]
    {
      EditAt(EMPTY_VERSION, e0, l);
      assert e0.deleted[l] == {} && EMPTY_VERSION[l] == {};
      AddOnly({}, v[l]);
    }
  }

  lemma GrowthEdit(v: Version, v': Version, n: nat, log: nat, e1: Edit)
    requires Grown(v, v', n, log) && |v| == |v'| == NUM_LEVELS && e1.deleted == NO_DELETIONS && e1.added == NewIn(v', v)
    ensures EditVersion(v, e1) == v'
  {
    hide EditVersion;
    EditLength(v, e1);
    forall l: nat | l < NUM_LEVELS
      ensures EditVersion(v, e1)[l] == v'[l]
    {
      EditAt(v, e1, l);
      assert e1.deleted[l] == {} && e1.added[l] == v'[l] - v[l] && v[l] <= v'[l];
      hide EditLevel; hide Grown; hide NewIn;
      AddOnly(v[l], e1.added[l]);
    }
  }

  lemma EditLength(v: Version, e: Edit)
    requires |v| == NUM_LEVELS
    ensures |EditVersion(v, e)| == NUM_LEVELS
  {
  }

  lemma RecoveredUnique(v: Version, v': Version, n: nat, log: nat)
    requires Grown(v, v', n, log) && AllOlder(v, n) && NumbersUnique(v)
    ensures NumbersUnique(v')
  {
    forall l, l', f, g | 0 <= l < |v'| && 0 <= l' < |v'| && f in v'[l] && g in v'[l'] && f.number == g.number
      ensures l == l'
    {
      assert Numbered(v[l], n) && Numbered(v[l'], n);
      assert f in v[l] || (l == 0 && f in v'[0] - v[0]);
      assert g in v[l'] || (l' == 0 && g in v'[0] - v[0]);
    }
  }

  lemma RecoveredAdds(v: Version, v': Version, n: nat, log: nat, e0: Edit, e1: Edit)
    requires Grown(v, v', n, log) && AllOlder(v, n) && NumbersUnique(v') && AllOlder(v', log + 1)
    requires e0.added == v && forall l :: 0 <= l < NUM_LEVELS ==> e1.added[l] == if l == 0 then v'[0] - v[0] else {}
    ensures AddedOnce([e0, e1]) && AddedSmall([e0, e1], log + 1) && AddedAbove([e0, e1], v')
  {
    var es := [e0, e1];
    forall i, j, l | 0 <= i < j < |es| && 0 <= l < NUM_LEVELS
      ensures Numbers(es[i].added[l]) !! Numbers(es[j].added[l])
    {
      assert es[i] == e0 && es[j] == e1 && Numbered(v[l], n);
    }
    forall i, l, f | 0 <= i < |es| && 0 <= l < NUM_LEVELS && f in es[i].added[l]
      ensures f in v'[l] && f.number < log + 1
    {
      assert es[i] == e0 || es[i] == e1;
      assert v[l] <= v'[l] && Numbered(v'[l], log + 1);
    }
    hide Grown; hide AllOlder;
  }

  lemma RecoveredLogs(logs: Logs, logNumber: nat, logFile: nat, next: nat, hasImm: bool, h: Hist, flushed: nat, switched: nat,
                      plan: seq<LogPlan>, log: nat)
    requires LogInv(logs, logNumber, logFile, next, hasImm, h, flushed, switched) && PlanOk(logs, logNumber, plan)
    requires forall p :: p in plan ==> p.number < log
    ensures LogInv(logs[log := []], log, log, log + 1, false, h, |h|, |h|)
  {
    hide Matches; hide Join;
    EmptyMatches(h);
    assert exists p :: p in plan && p.number == logNumber;
  }

  lemma LostQueue(db: Db, hist: Hist, fates: seq<Fate>, arrivals: seq<Writer>)
    requires QueueInv(db.queue, db.group, hist, fates, arrivals)
    requires db.group.Some? ==> 1 <= db.group.value.size <= |db.queue|
    ensures QueueInv([], None, hist + InFlight(db.group), fates + LostFates(db), arrivals)
  {
    var n := if db.group.Some? then db.group.value.size else 0;
    var a, b := db.queue[..n], db.queue[n..];
    var synced := n > 0 && db.queue[0].sync;
    var fa, fb := Fates(a, true, false, synced), Fates(b, false, false, false);
    assert db.queue == a + b && LostFates(db) == fa + fb;
    assert InFlight(db.group) == GroupOps(a);
    LostParts(a, b, synced, hist, fates, arrivals);
    hide Landed; hide Served; hide GroupOps; hide Fates;
    assert fates + LostFates(db) == fates + fa + fb;
  }

  lemma LostParts(a: seq<Writer>, b: seq<Writer>, synced: bool, hist: Hist, fates: seq<Fate>, arrivals: seq<Writer>)
    requires hist == Landed(fates) && arrivals == Served(fates) + (a + b)
    requires forall f :: f in fates && f.acked ==> f.landed && (f.w.sync ==> f.synced)
    ensures QueueInv([], None, hist + GroupOps(a),
                     fates + Fates(a, true, false, synced) + Fates(b, false, false, false), arrivals)
  {
    var fa, fb := Fates(a, true, false, synced), Fates(b, false, false, false);
    hide Landed; hide Served; hide GroupOps;
    LandedAppend(fates, a, false, synced);
    NotLanded(fates + fa, b);
    ServedAppend(fates, a, true, false, synced);
    ServedAppend(fates + fa, b, false, false, false);
    assert forall f :: f in fa ==> !f.acked;
    assert forall f :: f in fb ==> !f.acked;
    hide Landed; hide Served; hide GroupOps; hide Fates;
    assert Served(fates) + (a + b) == Served(fates) + a + b + [];
  }

  /** The whole of recovery: from a disk whose manifest replays to v and whose
      recent logs hold the writes after `flushed`. */
  lemma RecoverParts(d: Disk, v: Version, h: Hist, flushed: nat, low: nat, committed: nat, logNumber: nat, next: nat, plan: seq<LogPlan>)
    requires ManifestInv(d.manifest, v, logNumber, next, flushed, committed) && committed <= |h|
    requires VersionInv(d.tables, v, h, flushed, low, next)
    requires Matches(Replayed(plan), h, flushed, |h|)
    ensures var db := Recover(d, plan);
            && db.lastSeq == |h| && db.nextFile == db.logFile + 1 && db.logNumber == db.logFile
            && VersionInv(db.disk.tables, db.version, h, |h|, low, db.nextFile)
            && ManifestInv(db.disk.manifest, db.version, db.logNumber, db.nextFile, |h|, |h|)
            && db.disk.logs == d.logs[db.logFile := []]
            && (forall p :: p in plan ==> p.number < db.logFile)
            && db.mem == [] && db.imm.None? && db.snapshots == [] && db.queue == [] && db.group.None?
  {
    hide ManifestInv; hide VersionInv; hide Rebuild; hide AllOlder; hide NumbersUnique; hide Matches; hide Replayed; hide FlushLogs; hide MaxSeq; hide Grown;
    ManifestReplays(d.manifest, v, logNumber, next, flushed, committed);
    var last := d.manifest[|d.manifest| - 1];
    var n := last.nextFile + 1;
    AtNumber(d.tables, v, h, flushed, low, next, last.nextFile, n);
    FlushLogsInv(d.tables, v, plan, n, h, flushed, |h|, low);
    var r := FlushLogs(d.tables, v, plan, n);
    RecoveredSeq(plan, h, flushed, last.lastSeq);
    OlderStill(r.0, r.1, h, |h|, low, r.2, r.2 + 1);
    RecoveredManifest(v, r.1, n, r.2, |h|);
  }

  lemma ManifestReplays(es: seq<Edit>, v: Version, logNumber: nat, next: nat, flushed: nat, committed: nat)
    requires ManifestInv(es, v, logNumber, next, flushed, committed)
    ensures es != [] && |v| == NUM_LEVELS && Rebuild(es) == v && NumbersUnique(v)
    ensures var last := es[|es| - 1]; AllOlder(v, last.nextFile) && flushed <= last.lastSeq <= committed
  {
    hide Rebuild; hide Fold; hide AddedOnce; hide AddedSmall; hide AddedAbove; hide NumbersUnique; hide AllOlder;
    RebuildIsFold(es);
  }

  lemma RecoveredSeq(plan: seq<LogPlan>, h: Hist, flushed: nat, last: nat)
    requires Matches(Replayed(plan), h, flushed, |h|) && flushed <= last <= |h|
    ensures MaxSeq(Replayed(plan), last) == |h|
  {
    hide Replayed; hide MaxSeq;
    MaxSeqOf(Replayed(plan), h, flushed, |h|, last);
    assert Replayed(plan) == [] ==> flushed == |h|;
    hide Matches;
    MaxSeqEmpty(last);
  }

  lemma MaxSeqEmpty(m: int)
    ensures MaxSeq([], m) == m
  {
  }

  lemma AtNumber(tb: Tables, v: Version, h: Hist, flushed: nat, low: nat, next: nat, m: nat, n: nat)
    requires VersionInv(tb, v, h, flushed, low, next) && AllOlder(v, m) && m <= n
    ensures VersionInv(tb, v, h, flushed, low, n) && AllOlder(v, n)
  {
    hide Sound; hide Truthful; hide Covered;
    forall l | 0 <= l < |v|
      ensures Numbered(v[l], n)
    {
      assert Numbered(v[l], m);
    }
  }

  function Crashed(s: State, plan: seq<LogPlan>): State
    requires s.db.disk.manifest != []
    requires s.db.group.Some? ==> 1 <= s.db.group.value.size <= |s.db.queue|
  {
    var h := Logged(s);
    State(Recover(s.db.disk, plan), Spec(h, s.spec.fates + LostFates(s.db), s.spec.arrivals, s.spec.low, |h|, |h|))
  }

  lemma CrashedKeeps(s: State, plan: seq<LogPlan>)
    requires Inv(s) && Shaped(s) && s.db.disk.manifest != []
    requires PlanOk(s.db.disk.logs, s.db.logNumber, plan)
    ensures Inv(Crashed(s, plan))
  {
    var db, sp, h := s.db, s.spec, Logged(s);
    hide VersionInv; hide LogInv; hide ManifestInv; hide SnapInv; hide QueueInv; hide PlanOk; hide TableOf;
    PlanRecords(db.disk.logs, db.logNumber, db.logFile, db.nextFile, db.imm.Some?, h, sp.flushed, sp.switched, plan);
    hide Matches; hide Replayed; hide Recover;
    RecoverParts(db.disk, db.version, h, sp.flushed, sp.low, |sp.hist|, db.logNumber, db.nextFile, plan);
    var db' := Recover(db.disk, plan);
    RecoveredLogs(db.disk.logs, db.logNumber, db.logFile, db.nextFile, db.imm.Some?, h, sp.flushed, sp.switched, plan, db'.logFile);
    LostQueue(db, sp.hist, sp.fates, sp.arrivals);
    EmptySnapshots(db.snapshots, sp.low, db.lastSeq, |h|);
    EmptyMem(h);
    hide LostFates;
    assert Logged(Crashed(s, plan)) == h;
  }

  lemma EmptySnapshots(snapshots: seq<nat>, low: nat, lastSeq: nat, lastSeq': nat)
    requires SnapInv(snapshots, low, lastSeq) && lastSeq <= lastSeq'
    ensures SnapInv([], low, lastSeq')
  {
  }

  lemma EmptyMem(h: Hist)
    ensures TableOf(h, |h|, |h|) == []
  {
  }

  lemma LastLogNumber(s: State)
    requires Inv(s)
    ensures s.db.disk.manifest != [] && s.db.disk.manifest[|s.db.disk.manifest| - 1].logNumber == s.db.logNumber
  {
    hide MemInv; hide VersionInv; hide LogInv; hide SnapInv; hide QueueInv;
    hide Fold; hide AddedOnce; hide AddedSmall; hide AddedAbove; hide NumbersUnique; hide AllOlder;
  }

  lemma CrashKeeps(s: State, plan: seq<LogPlan>)
    requires Inv(s) && Shaped(s) && Enabled(s, Crash(plan))
    ensures Inv(Next(s, Crash(plan)))
  {
    hide Inv; hide PlanOk;
    LastLogNumber(s);
    assert Next(s, Crash(plan)) == Crashed(s, plan);
    CrashedKeeps(s, plan);
  }

  // ----- a new database

  lemma NewManifest()
    ensures ManifestInv(NEW_DISK.manifest, EMPTY_VERSION, 0, 2, 0, 0)
  {
    var e := NEW_DISK.manifest[0];
    assert [] + [e] == [e];
    FoldAppend([], e);
    EmptyEdit(EMPTY_VERSION, e);
    hide Fold; hide EditVersion;
    assert forall l :: 0 <= l < NUM_LEVELS ==> EMPTY_VERSION[l] == {};
  }

  lemma NewVersion()
    ensures VersionInv(map[], EMPTY_VERSION, [], 0, 0, 2)
  {
    assert forall l :: 0 <= l < NUM_LEVELS ==> EMPTY_VERSION[l] == {};
    hide FileOk;
  }

  lemma InitInv()
    ensures Inv(Init())
  {
    NewManifest();
    NewVersion();
    assert Matches(Replayed([]), [], 0, 0);
    hide VersionInv; hide ManifestInv; hide Recover;
    RecoverParts(NEW_DISK, EMPTY_VERSION, [], 0, 0, 0, 0, 2, []);
    hide Matches;
    EmptyMatches([]);
    EmptyMem([]);
    hide TableOf;
    assert Logged(Init()) == [];
  }
}
