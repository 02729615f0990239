/** The edits of a flush, a move and a compaction produce the versions whose
    soundness is known. */
module Edits {
  import opened Keys
  import opened Versions
  import opened Compaction
  import opened Install
  import opened Placement
  import opened Upkeep
  import opened Manifest
  import opened Engine

  lemma EditAt(v: Version, e: Edit, l: nat)
    requires |v| == NUM_LEVELS && l < NUM_LEVELS
    ensures EditVersion(v, e)[l] == EditLevel(v[l], e.deleted[l], e.added[l])
  {
  }

  lemma AddOnly(lv: Level, added: Level)
    ensures EditLevel(lv, {}, added) == lv + added
  {
  }

  lemma DeleteInputs(lv: Level, gone: Level, added: Level)
    requires gone <= lv
    requires forall f, g :: f in lv && g in lv && f.number == g.number ==> f == g
    requires forall f, g :: f in gone && g in added ==> f.number != g.number
    ensures EditLevel(lv, Numbers(gone), added) == lv - gone + added
  {
    assert forall f :: f in lv ==> (f.number in Numbers(gone) <==> f in gone);
    assert forall g :: g in added ==> g.number in Numbers(added) && g.number !in Numbers(gone);
  }

  lemma FlushEdit(v: Version, level: nat, n: nat, t: Table, e: Edit)
    requires |v| == NUM_LEVELS && level < NUM_LEVELS && t != []
    requires e.deleted == NO_DELETIONS && e.added == EMPTY_VERSION[level := NewFiles([t], n)]
    ensures EditVersion(v, e) == Placed(v, level, n, t)
  {
    forall l: nat | l < NUM_LEVELS
      ensures EditVersion(v, e)[l] == Placed(v, level, n, t)[l]
    {
      assert e.deleted[l] == {} && e.added[l] == if l == level then NewFiles([t], n) else {};
      hide NewFiles;
      EditAt(v, e, l);
      AddOnly(v[l], e.added[l]);
    }
  }

  lemma EmptyEdit(v: Version, e: Edit)
    requires |v| == NUM_LEVELS && e.deleted == NO_DELETIONS && e.added == EMPTY_VERSION
    ensures EditVersion(v, e) == v
  {
    forall l: nat | l < NUM_LEVELS
      ensures EditVersion(v, e)[l] == v[l]
    {
      assert e.deleted[l] == {} && e.added[l] == {};
      EditAt(v, e, l);
      AddOnly(v[l], {});
    }
  }

  lemma MoveEdit(tb: Tables, v: Version, level: nat, f: File, e: Edit)
    requires Sound(tb, v) && MoveOk(v, level, f)
    requires e.deleted == NO_DELETIONS[level := {f.number}] && e.added == EMPTY_VERSION[level + 1 := {f}]
    ensures EditVersion(v, e) == Moved(v, level, f)
  {
    SoundLength(tb, v);
    assert f in Job(level, {f}, {}).in0;
    assert f in v[level];
    hide Sound; hide JobOk;
    forall l: nat | l < NUM_LEVELS
      ensures EditVersion(v, e)[l] == Moved(v, level, f)[l]
    {
      MoveEditLevel(tb, v, level, f, e, l);
    }
  }

  lemma MoveEditLevel(tb: Tables, v: Version, level: nat, f: File, e: Edit, l: nat)
    requires Sound(tb, v) && |v| == NUM_LEVELS && level + 1 < NUM_LEVELS && f in v[level] && l < NUM_LEVELS
    requires e.deleted == NO_DELETIONS[level := {f.number}] && e.added == EMPTY_VERSION[level + 1 := {f}]
    ensures EditVersion(v, e)[l] == Moved(v, level, f)[l]
  {
    hide Sound; hide EditVersion; hide EditLevel;
    assert e.deleted[l] == if l == level then {f.number} else {};
    assert e.added[l] == if l == level + 1 then {f} else {};
    EditAt(v, e, l);
    if l == level {
      SoundLevel(tb, v, l);
      assert Numbers({f}) == {f.number};
      hide FileOk;
      DeleteInputs(v[l], {f}, {});
    } else {
      AddOnly(v[l], e.added[l]);
    }
  }

  lemma MergeEdit(tb: Tables, v: Version, c: Job, outs: seq<Table>, n: nat, e: Edit)
    requires Sound(tb, v) && AllOlder(v, n) && JobOk(v, c) && Chunks(outs)
    requires c.level + 1 < NUM_LEVELS
    requires e.deleted == NO_DELETIONS[c.level := Numbers(c.in0)][c.level + 1 := Numbers(c.in1)]
    requires e.added == EMPTY_VERSION[c.level + 1 := NewFiles(outs, n)]
    ensures c.level + 1 < |v| && EditVersion(v, e) == Merged(v, c, outs, n)
  {
    SoundLength(tb, v);
    assert c.in0 <= v[c.level] && c.in1 <= v[c.level + 1];
    forall l: nat | l < NUM_LEVELS
      ensures EditVersion(v, e)[l] == Merged(v, c, outs, n)[l]
    {
      hide Sound; hide JobOk;
      MergeEditLevel(tb, v, c, outs, n, e, l);
    }
  }

  lemma MergeEditLevel(tb: Tables, v: Version, c: Job, outs: seq<Table>, n: nat, e: Edit, l: nat)
    requires Sound(tb, v) && AllOlder(v, n) && Chunks(outs)
    requires |v| == NUM_LEVELS && c.level + 1 < NUM_LEVELS && l < NUM_LEVELS
    requires c.in0 <= v[c.level] && c.in1 <= v[c.level + 1]
    requires e.deleted == NO_DELETIONS[c.level := Numbers(c.in0)][c.level + 1 := Numbers(c.in1)]
    requires e.added == EMPTY_VERSION[c.level + 1 := NewFiles(outs, n)]
    ensures EditVersion(v, e)[l] == Merged(v, c, outs, n)[l]
  {
    hide Sound;
    SoundLevel(tb, v, l);
    assert Numbered(v[l], n);
    EditAt(v, e, l);
    hide FileOk; hide Disjoint; hide AgeOrdered; hide AllOlder; hide EditVersion; hide EditLevel;
    assert e.deleted[l] == if l == c.level then Numbers(c.in0) else if l == c.level + 1 then Numbers(c.in1) else {};
    assert e.added[l] == if l == c.level + 1 then NewFiles(outs, n) else {};
    if l == c.level {
      DeleteInputs(v[l], c.in0, {});
    } else if l == c.level + 1 {
      assert forall g :: g in NewFiles(outs, n) ==> g.number >= n;
      DeleteInputs(v[l], c.in1, NewFiles(outs, n));
    } else {
      AddOnly(v[l], {});
    }
  }
}
