/** Recovery as the program runs it (DBImpl::Recover, RecoverLogFile,
    VersionSet::Recover): loops over the manifest's edits and the logs' records. */
module Reopen {
  import opened Keys
  import opened Versions
  import opened Install
  import opened Placement
  import opened Manifest
  import opened Engine
  import opened Picking
  import opened Builder

  // ----- the manifest

  ghost predicate NumbersDistinct(fs: Level) {
    forall f, g :: f in fs && g in fs && f.number == g.number ==> f == g
  }

  /** A set of files in the order BySmallestKey keeps them. */
  method SortFiles(fs: Level) returns (r: seq<File>)
    requires NumbersDistinct(fs)
    ensures Ordered(r) && SetOf(r) == fs
  {
    var rest := fs;
    r := [];
    while rest != {}
      invariant Ordered(r) && rest <= fs && SetOf(r) == fs - rest
      decreases rest
    {
      var f :| f in rest;
      assert forall g :: g in r ==> g in SetOf(r);
      ApartOne(r, f);
      var r' := SaveTo(r, [f], {});
      assert SetOf(r') == SetOf(r) + {f};
      r, rest := r', rest - {f};
    }
  }

  method ApplyEdits(es: seq<Edit>, l: nat) returns (b: LevelState)
    requires l < NUM_LEVELS
    ensures b == ApplyAll(es, l)
  {
    b := EMPTY_STATE;
    for i := 0 to |es|
      invariant b == ApplyAll(es[..i], l)
    {
      assert es[..i + 1][..i] == es[..i];
      b := Apply(b, es[i].deleted[l], es[i].added[l]);
    }
    assert es[..|es|] == es;
  }

  /** One builder over all edits, saved once, gives the ordered file lists. */
  method RebuildFiles(es: seq<Edit>) returns (files: seq<seq<File>>)
    requires forall l :: 0 <= l < NUM_LEVELS ==> NumbersDistinct(Rebuild(es)[l])
    ensures AllOrdered(files) && SetsOf(files) == Rebuild(es)
  {
    hide Save; hide ApplyAll; hide NumbersDistinct; hide Ordered;
    files := [];
    for l := 0 to NUM_LEVELS
      invariant |files| == l && forall k :: 0 <= k < l ==> Ordered(files[k]) && SetOf(files[k]) == Rebuild(es)[k]
    {
      var b := ApplyEdits(es, l);
      assert Rebuild(es)[l] == Save({}, b);
      var fs := SortFiles(Save({}, b));
      files := files + [fs];
    }
    assert forall l :: 0 <= l < NUM_LEVELS ==> SetsOf(files)[l] == Rebuild(es)[l];
  }

  // ----- which logs to replay

  lemma {:induction false} MinExists(s: set<nat>) returns (m: nat)
    requires s != {}
    ensures m in s && forall k :: k in s ==> m <= k
    decreases |s|
  {
    var x :| x in s;
    m := x;
    if s - {x} != {} {
      var y := MinExists(s - {x});
      m := if x < y then x else y;
    }
    assert forall k :: k in s ==> k == x || k in s - {x};
  }

  method SortNumbers(s: set<nat>) returns (r: seq<nat>)
    ensures forall i, j :: 0 <= i < j < |r| ==> r[i] < r[j]
    ensures forall n :: n in r <==> n in s
  {
    var rest := s;
    r := [];
    while rest != {}
      invariant rest <= s && forall n :: n in r <==> n in s && n !in rest
      invariant forall i, j :: 0 <= i < j < |r| ==> r[i] < r[j]
      invariant forall n, k :: n in r && k in rest ==> n < k
      decreases rest
    {
      ghost var least := MinExists(rest);
      var m: nat :| m in rest && forall k :: k in rest ==> m <= k;
      assert forall i :: 0 <= i < |r| ==> r[i] in r;
      r, rest := r + [m], rest - {m};
    }
  }

  // ----- the records of one log

  lemma {:induction false} ReplayAppend(t: Table, bs: seq<Batch>, b: Batch)
    ensures Replay(t, bs + [b]) == InsertOps(Replay(t, bs), b.first, b.ops)
    decreases |bs|
  {
    if bs == [] {
      assert [b][1..] == [] && bs + [b] == [b];
    } else {
      ReplayAppend(InsertOps(t, bs[0].first, bs[0].ops), bs[1..], b);
      assert (bs + [b])[1..] == bs[1..] + [b];
    }
  }

  lemma {:induction false} JoinAppend(parts: seq<seq<Batch>>, p: seq<Batch>)
    ensures Join(parts + [p]) == Join(parts) + p
  {
    if parts == [] {
      assert parts + [p] == [p] && [p][1..] == [];
    } else {
      JoinAppend(parts[1..], p);
      assert (parts + [p])[1..] == parts[1..] + [p];
    }
  }

  lemma {:induction false} MaxSeqAppend(bs: seq<Batch>, b: Batch, m: int)
    ensures MaxSeq(bs + [b], m) == var x := MaxSeq(bs, m); var last := b.first + |b.ops| - 1; if last > x then last else x
    decreases |bs|
  {
    if bs == [] {
      assert bs + [b] == [b] && [b][1..] == [];
      assert MaxSeq([b], m) == MaxSeq([], if b.first + |b.ops| - 1 > m then b.first + |b.ops| - 1 else m);
    } else {
      var last := bs[0].first + |bs[0].ops| - 1;
      MaxSeqAppend(bs[1..], b, if last > m then last else m);
      assert (bs + [b])[1..] == bs[1..] + [b];
    }
  }

  lemma {:induction false} FlushPartsAppend(tb: Tables, v: Version, parts: seq<seq<Batch>>, p: seq<Batch>, n: nat)
    requires |v| == NUM_LEVELS
    ensures FlushParts(tb, v, parts + [p], n) ==
              var (tb', v', n') := FlushParts(tb, v, parts, n);
              var t := Replay([], p);
              if t == [] then (tb', v', n' + 1) else (NewTables(tb', [t], n'), Placed(v', 0, n', t), n' + 1)
    decreases |parts|
  {
    hide Replay; hide NewTables; hide Placed;
    if parts == [] {
      assert parts + [p] == [p] && [p][1..] == [];
      var t := Replay([], p);
      if t != [] {
        PlacedLength(v, n, t);
      }
      assert FlushParts(tb, v, [p], n) ==
        if t == [] then FlushParts(tb, v, [], n + 1) else FlushParts(NewTables(tb, [t], n), Placed(v, 0, n, t), [], n + 1);
    } else {
      assert (parts + [p])[1..] == parts[1..] + [p] && (parts + [p])[0] == parts[0];
      var t := Replay([], parts[0]);
      if t == [] {
        FlushPartsAppend(tb, v, parts[1..], p, n + 1);
      } else {
        PlacedLength(v, n, t);
        FlushPartsAppend(NewTables(tb, [t], n), Placed(v, 0, n, t), parts[1..], p, n + 1);
      }
    }
  }

  lemma PlacedLength(v: Version, n: nat, t: Table)
    requires |v| == NUM_LEVELS && t != []
    ensures |Placed(v, 0, n, t)| == NUM_LEVELS
  {
  }

  /** What recovery has written so far: tables, the level-0 files to add, the
      next file number. */
  datatype Progress = Progress(tables: Tables, made: seq<File>, next: nat)

  /** Files are numbered in the order they are written. */
  ghost predicate Numbering(p: Progress, lo: nat) {
    && lo <= p.next
    && (forall i :: 0 <= i < |p.made| ==> lo <= p.made[i].number < p.next)
    && NumbersApart(p.made)
  }

  function WithZero(v: Version, made: seq<File>): (r: Version)
    requires |v| == NUM_LEVELS
    ensures |r| == NUM_LEVELS
  {
    v[0 := v[0] + SetOf(made)]
  }

  ghost predicate Wrote(p: Progress, v: Version, r: (Tables, Version, nat))
    requires |v| == NUM_LEVELS
  {
    p.tables == r.0 && WithZero(v, p.made) == r.1 && p.next == r.2
  }

  /** WriteLevel0Table without a base version: always level 0. */
  method WriteLevelZero(p: Progress, t: Table, ghost v: Version) returns (p': Progress)
    requires |v| == NUM_LEVELS
    ensures t == [] ==> p' == p.(next := p.next + 1)
    ensures t != [] ==> Wrote(p', v, (NewTables(p.tables, [t], p.next), Placed(WithZero(v, p.made), 0, p.next, t), p.next + 1))
    ensures forall lo :: Numbering(p, lo) ==> Numbering(p', lo)
  {
    if t == [] {
      p' := p.(next := p.next + 1);
    } else {
      var f := FileOf(p.next, t);
      p' := Progress(NewTables(p.tables, [t], p.next), p.made + [f], p.next + 1);
      OneMore(v, p.made, f, p.next, t);
    }
  }

  lemma OneMore(v: Version, made: seq<File>, f: File, n: nat, t: Table)
    requires |v| == NUM_LEVELS && t != [] && f == FileOf(n, t)
    ensures WithZero(v, made + [f]) == Placed(WithZero(v, made), 0, n, t)
  {
    assert SetOf(made + [f]) == SetOf(made) + {f};
    OneNewFile(t, n);
    var r, r' := WithZero(v, made + [f]), Placed(WithZero(v, made), 0, n, t);
    assert forall l :: 0 <= l < NUM_LEVELS ==> r[l] == r'[l];
  }

  /** RecoverLogFile: the records are replayed into a memtable that is written
      out whenever it is full and once more at the end. */
  method RecoverLogFile(records: seq<Batch>, p0: Progress, m0: int, full: Table -> bool, ghost v: Version)
    returns (p: Progress, m: int, ghost parts: seq<seq<Batch>>)
    requires |v| == NUM_LEVELS
    ensures Join(parts) == records && m == MaxSeq(records, m0)
    ensures Wrote(p, v, FlushParts(p0.tables, WithZero(v, p0.made), parts, p0.next))
    ensures forall lo :: Numbering(p0, lo) ==> Numbering(p, lo)
  {
    hide FlushParts; hide Replay; hide InsertOps; hide MaxSeq; hide Numbering; hide WithZero;
    p, m, parts := p0, m0, [];
    NoParts(p0.tables, WithZero(v, p0.made), p0.next);
    var mem: Option<Table> := None;
    ghost var cur: seq<Batch> := [];
    MaxSeqNone(m0);
    for i := 0 to |records|
      invariant Join(parts) + cur == records[..i] && m == MaxSeq(records[..i], m0)
      invariant mem == if cur == [] then None else Some(Replay([], cur))
      invariant Wrote(p, v, FlushParts(p0.tables, WithZero(v, p0.made), parts, p0.next))
      invariant forall lo :: Numbering(p0, lo) ==> Numbering(p, lo)
    {
      var b := records[i];
      assert records[..i + 1] == records[..i] + [b];
      MaxSeqAppend(records[..i], b, m0);
      ReplayAppend([], cur, b);
      NoReplay([]);
      mem := Some(InsertOps(if mem.None? then [] else mem.value, b.first, b.ops));
      cur := cur + [b];
      var last := b.first + |b.ops| - 1;
      if last > m {
        m := last;
      }
      if full(mem.value) {
        p, parts := FlushCurrent(p0, p, v, parts, cur, mem.value);
        mem, cur := None, [];
      }
    }
    assert records[..|records|] == records;
    if mem.Some? {
      p, parts := FlushCurrent(p0, p, v, parts, cur, mem.value);
    }
  }

  method FlushCurrent(ghost p0: Progress, p: Progress, ghost v: Version, ghost parts: seq<seq<Batch>>, ghost cur: seq<Batch>, mem: Table)
    returns (p': Progress, ghost parts': seq<seq<Batch>>)
    requires |v| == NUM_LEVELS && mem == Replay([], cur)
    requires Wrote(p, v, FlushParts(p0.tables, WithZero(v, p0.made), parts, p0.next))
    ensures parts' == parts + [cur] && Join(parts') == Join(parts) + cur
    ensures Wrote(p', v, FlushParts(p0.tables, WithZero(v, p0.made), parts', p0.next))
    ensures forall lo :: Numbering(p, lo) ==> Numbering(p', lo)
  {
    hide FlushParts; hide Replay; hide WithZero; hide NewTables; hide Placed; hide Numbering;
    FlushPartsAppend(p0.tables, WithZero(v, p0.made), parts, cur, p0.next);
    JoinAppend(parts, cur);
    parts' := parts + [cur];
    p' := WriteLevelZero(p, mem, v);
  }

  lemma NoParts(tb: Tables, v: Version, n: nat)
    requires |v| == NUM_LEVELS
    ensures FlushParts(tb, v, [], n) == (tb, v, n) && Join([]) == []
  {
  }

  lemma NoReplay(t: Table)
    ensures Replay(t, []) == t
  {
  }

  lemma MaxSeqNone(m: int)
    ensures MaxSeq([], m) == m
  {
  }

  // ----- all the logs

  function Used(number: nat, n: nat): nat {
    if n <= number then number + 1 else n
  }

  lemma {:induction false} FlushLogsAppend(tb: Tables, v: Version, plan: seq<LogPlan>, q: LogPlan, n: nat)
    requires |v| == NUM_LEVELS
    ensures FlushLogs(tb, v, plan + [q], n) ==
              var (tb', v', n') := FlushLogs(tb, v, plan, n);
              var (tb2, v2, n2) := FlushParts(tb', v', q.parts, n');
              (tb2, v2, Used(q.number, n2))
    decreases |plan|
  {
    hide FlushParts;
    if plan == [] {
      assert plan + [q] == [q] && [q][1..] == [];
      var (tb2, v2, n2) := FlushParts(tb, v, q.parts, n);
      assert FlushLogs(tb, v, [q], n) == FlushLogs(tb2, v2, [], Used(q.number, n2));
    } else {
      assert (plan + [q])[1..] == plan[1..] + [q] && (plan + [q])[0] == plan[0];
      var (tb2, v2, n2) := FlushParts(tb, v, plan[0].parts, n);
      FlushLogsAppend(tb2, v2, plan[1..], q, Used(plan[0].number, n2));
    }
  }

  lemma {:induction false} ReplayedAppend(plan: seq<LogPlan>, q: LogPlan)
    ensures Replayed(plan + [q]) == Replayed(plan) + Join(q.parts)
  {
    hide Join;
    if plan == [] {
      assert plan + [q] == [q] && [q][1..] == [];
    } else {
      ReplayedAppend(plan[1..], q);
      assert (plan + [q])[1..] == plan[1..] + [q];
    }
  }

  lemma {:induction false} MaxSeqConcat(a: seq<Batch>, b: seq<Batch>, m: int)
    ensures MaxSeq(a + b, m) == MaxSeq(b, MaxSeq(a, m))
    decreases |a|
  {
    if a == [] {
      assert a + b == b;
    } else {
      var last := a[0].first + |a[0].ops| - 1;
      MaxSeqConcat(a[1..], b, if last > m then last else m);
      assert (a + b)[1..] == a[1..] + b;
    }
  }

  /** Every log numbered `from` or more, in order of their numbers. */
  method RecoverLogs(d: Disk, from: nat, p0: Progress, m0: int, full: Table -> bool, ghost v: Version)
    returns (p: Progress, m: int, ghost plan: seq<LogPlan>)
    requires |v| == NUM_LEVELS && p0.made == []
    ensures PlanOk(d.logs, from, plan) && m == MaxSeq(Replayed(plan), m0)
    ensures Wrote(p, v, FlushLogs(p0.tables, v, plan, p0.next))
    ensures forall lo :: Numbering(p0, lo) ==> Numbering(p, lo)
  {
    hide MaxSeq; hide Numbering; hide FlushParts;
    var numbers := SortNumbers(set n | n in d.logs && n >= from);
    p, m, plan := p0, m0, [];
    NothingMade(v);
    MaxSeqNone(m0);
    for i := 0 to |numbers|
      invariant |plan| == i && forall j :: 0 <= j < i ==> plan[j].number == numbers[j] && numbers[j] in d.logs && Join(plan[j].parts) == d.logs[numbers[j]]
      invariant m == MaxSeq(Replayed(plan), m0)
      invariant Wrote(p, v, FlushLogs(p0.tables, v, plan, p0.next))
      invariant forall lo :: Numbering(p0, lo) ==> Numbering(p, lo)
    {
      ghost var parts, was, mWas := [], p, m;
      assert numbers[i] in numbers;
      hide FlushLogs; hide Replayed; hide Join; hide WithZero; hide Wrote;
      p, m, parts := RecoverLogFile(d.logs[numbers[i]], p, m, full, v);
      ghost var q := LogPlan(numbers[i], parts);
      ReplayedAppend(plan, q);
      MaxSeqConcat(Replayed(plan), d.logs[numbers[i]], m0);
      NextLog(p0, was, p, v, plan, q);
      p := p.(next := Used(numbers[i], p.next));
      plan := plan + [q];
    }
    PlanFromNumbers(d.logs, from, numbers, plan);
  }

  lemma NothingMade(v: Version)
    requires |v| == NUM_LEVELS
    ensures WithZero(v, []) == v
  {
    assert v[0] + SetOf([]) == v[0];
  }

  lemma NextLog(p0: Progress, was: Progress, p: Progress, v: Version, plan: seq<LogPlan>, q: LogPlan)
    requires |v| == NUM_LEVELS
    requires Wrote(was, v, FlushLogs(p0.tables, v, plan, p0.next))
    requires Wrote(p, v, FlushParts(was.tables, WithZero(v, was.made), q.parts, was.next))
    ensures Wrote(p.(next := Used(q.number, p.next)), v, FlushLogs(p0.tables, v, plan + [q], p0.next))
    ensures forall lo :: Numbering(p, lo) ==> Numbering(p.(next := Used(q.number, p.next)), lo)
  {
    hide FlushParts; hide FlushLogs; hide WithZero;
    FlushLogsAppend(p0.tables, v, plan, q, p0.next);
  }

  lemma PlanFromNumbers(logs: Logs, from: nat, numbers: seq<nat>, plan: seq<LogPlan>)
    requires forall i, j :: 0 <= i < j < |numbers| ==> numbers[i] < numbers[j]
    requires forall n :: n in numbers <==> n in logs && n >= from
    requires |plan| == |numbers|
    requires forall j :: 0 <= j < |plan| ==> plan[j].number == numbers[j] && numbers[j] in logs && Join(plan[j].parts) == logs[numbers[j]]
    ensures PlanOk(logs, from, plan)
  {
    forall p | p in plan
      ensures p.number in logs && p.number >= from && Join(p.parts) == logs[p.number]
    {
      var j :| 0 <= j < |plan| && plan[j] == p;
      assert numbers[j] in numbers;
    }
    forall n | n in logs && n >= from
      ensures exists p :: p in plan && p.number == n
    {
      assert n in numbers;
      var j :| 0 <= j < |numbers| && numbers[j] == n;
      assert plan[j] in plan;
    }
  }

  // ----- the whole recovery

  lemma NewInZero(v: Version, made: seq<File>, lo: nat)
    requires |v| == NUM_LEVELS && (forall f :: f in v[0] ==> f.number < lo) && forall i :: 0 <= i < |made| ==> lo <= made[i].number
    ensures NewIn(WithZero(v, made), v) == EMPTY_VERSION[0 := SetOf(made)]
  {
    var r, x := NewIn(WithZero(v, made), v), EMPTY_VERSION[0 := SetOf(made)];
    assert forall f :: f in made ==> f !in v[0];
    forall l | 0 <= l < NUM_LEVELS
      ensures r[l] == x[l]
    {
      if l == 0 {
        assert v[0] + SetOf(made) - v[0] == SetOf(made);
      }
    }
  }

  lemma EditIsWithZero(v: Version, made: seq<File>, e: Edit)
    requires |v| == NUM_LEVELS && e.deleted == NO_DELETIONS && e.added == EMPTY_VERSION[0 := SetOf(made)]
    ensures EditVersion(v, e) == WithZero(v, made)
  {
    forall l | 0 <= l < NUM_LEVELS
      ensures EditVersion(v, e)[l] == WithZero(v, made)[l]
    {
      assert e.deleted[l] == {} && e.added[l] == if l == 0 then SetOf(made) else {};
    }
  }

  /** A manifest whose live files can be listed and whose numbers are used up. */
  ghost predicate Recoverable(es: seq<Edit>) {
    && es != []
    && (forall l :: 0 <= l < NUM_LEVELS ==> NumbersDistinct(Rebuild(es)[l]))
    && (forall f :: f in Rebuild(es)[0] ==> f.number < es[|es| - 1].nextFile)
  }

  datatype Recovered = Recovered(files: seq<seq<File>>, tables: Tables, log: nat, lastSeq: nat, manifest: seq<Edit>)

  function Opened(d: Disk, r: Recovered): Db {
    Db([], None, SetsOf(r.files), r.log + 1, r.lastSeq, r.log, r.log, [], [], None,
       Disk(r.tables, d.logs[r.log := []], r.manifest))
  }

  method RecoverDisk(d: Disk, full: Table -> bool) returns (r: Recovered, ghost plan: seq<LogPlan>)
    requires Recoverable(d.manifest)
    ensures PlanOk(d.logs, d.manifest[|d.manifest| - 1].logNumber, plan)
    ensures AllOrdered(r.files) && Opened(d, r) == Recover(d, plan)
  {
    hide PlanOk; hide FlushLogs; hide MaxSeq; hide Replayed; hide NewIn; hide EditVersion; hide Rebuild; hide WithZero; hide AddsNew; hide AllOrdered;
    var last := d.manifest[|d.manifest| - 1];
    ghost var v := Rebuild(d.manifest);
    RebuildLength(d.manifest);
    var files := RebuildFiles(d.manifest);
    var p, m;
    p, m, plan := RecoverLogs(d, last.logNumber, Progress(d.tables, [], last.nextFile + 1), last.lastSeq, full, v);
    assert Numbering(Progress(d.tables, [], last.nextFile + 1), last.nextFile + 1);
    NewInZero(v, p.made, last.nextFile + 1);
    MadeAdds(files, p.made, last.nextFile);
    var added := NO_FILES[0 := p.made];
    var snapshot := Record(0, 0, 0, NO_DELETIONS, SetsOf(files));
    var edit := Record(p.next, p.next + 1, m, NO_DELETIONS, SetsOf(added));
    EditIsWithZero(v, p.made, edit);
    files := EditFiles(files, NO_DELETIONS, added, edit);
    r := Recovered(files, p.tables, p.next, m, [snapshot, edit]);
    RecoverIs(d, plan, v, p, m, edit);
  }

  lemma RebuildLength(es: seq<Edit>)
    ensures |Rebuild(es)| == NUM_LEVELS
  {
  }

  lemma MadeAdds(files: seq<seq<File>>, made: seq<File>, n: nat)
    requires AllOrdered(files) && (forall f :: f in SetsOf(files)[0] ==> f.number < n)
    requires NumbersApart(made) && forall i :: 0 <= i < |made| ==> n < made[i].number
    ensures AddsNew(files, NO_FILES[0 := made]) && SetsOf(NO_FILES[0 := made]) == EMPTY_VERSION[0 := SetOf(made)]
  {
    forall f | f in files[0]
      ensures f.number < n
    {
      assert f in SetsOf(files)[0];
    }
    assert Apart(files[0], made);
    AddsAt(files, 0, made);
  }

  lemma RecoverIs(d: Disk, plan: seq<LogPlan>, v: Version, p: Progress, m: int, edit: Edit)
    requires d.manifest != [] && v == Rebuild(d.manifest) && |v| == NUM_LEVELS
    requires Wrote(p, v, FlushLogs(d.tables, v, plan, d.manifest[|d.manifest| - 1].nextFile + 1))
    requires m == MaxSeq(Replayed(plan), d.manifest[|d.manifest| - 1].lastSeq)
    requires edit == Record(p.next, p.next + 1, m, NO_DELETIONS, NewIn(WithZero(v, p.made), v))
    ensures Recover(d, plan) ==
              Db([], None, WithZero(v, p.made), p.next + 1, m, p.next, p.next, [], [], None,
                 Disk(p.tables, d.logs[p.next := []], [Record(0, 0, 0, NO_DELETIONS, v), edit]))
  {
    hide FlushLogs; hide MaxSeq; hide Replayed; hide NewIn; hide Rebuild; hide WithZero;
  }
}
