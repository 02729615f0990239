/** Version edits and the builder that replays them (db/version_edit.h,
    VersionSet::Builder, VersionSet::Recover). */
module Manifest {
  import opened Versions

  /** One manifest record; deletions and additions are kept per level. */
  datatype Record = Record(logNumber: nat, nextFile: nat, lastSeq: nat, deleted: seq<set<nat>>, added: seq<Level>)

  type Edit = e: Record | |e.deleted| == NUM_LEVELS && |e.added| == NUM_LEVELS
    witness Record(0, 0, 0, [{}, {}, {}, {}, {}, {}, {}], [{}, {}, {}, {}, {}, {}, {}])

  function Numbers(fs: Level): set<nat> {
    set f | f in fs :: f.number
  }

  /** Builder::LevelState. */
  datatype LevelState = LevelState(deleted: set<nat>, added: Level)

  /** Builder::Apply for one level: deletions first, then every new file
      cancels the pending deletion of its number. */
  function Apply(b: LevelState, deleted: set<nat>, added: Level): LevelState {
    LevelState(b.deleted + deleted - Numbers(added), b.added + added)
  }

  /** Builder::SaveTo for one level. */
  function Save(base: Level, b: LevelState): Level {
    set f | f in base + b.added && f.number !in b.deleted
  }

  const EMPTY_STATE := LevelState({}, {})

  function ApplyAll(es: seq<Edit>, l: nat): LevelState
    requires l < NUM_LEVELS
  {
    if es == [] then EMPTY_STATE
    else
      var e := es[|es| - 1];
      Apply(ApplyAll(es[..|es| - 1], l), e.deleted[l], e.added[l])
  }

  /** One edit applied and saved, as LogAndApply does. */
  function EditLevel(lv: Level, deleted: set<nat>, added: Level): Level {
    Save(lv, Apply(EMPTY_STATE, deleted, added))
  }

  function EditVersion(v: Version, e: Edit): Version
    requires |v| == NUM_LEVELS
  {
    seq(NUM_LEVELS, l requires 0 <= l < NUM_LEVELS => EditLevel(v[l], e.deleted[l], e.added[l]))
  }

  const EMPTY_VERSION: Version := [{}, {}, {}, {}, {}, {}, {}]

  /** The versions the running program went through. */
  function Fold(es: seq<Edit>): (v: Version)
    ensures |v| == NUM_LEVELS
  {
    if es == [] then EMPTY_VERSION else EditVersion(Fold(es[..|es| - 1]), es[|es| - 1])
  }

  /** VersionSet::Recover: one builder over the whole manifest, saved once. */
  function Rebuild(es: seq<Edit>): Version
  {
    seq(NUM_LEVELS, l requires 0 <= l < NUM_LEVELS => Save({}, ApplyAll(es, l)))
  }

  /** No file number is added twice to one level. */
  ghost predicate AddedOnce(es: seq<Edit>)
  {
    forall i, j, l :: 0 <= i < j < |es| && 0 <= l < NUM_LEVELS ==>
      Numbers(es[i].added[l]) !! Numbers(es[j].added[l])
  }

  lemma {:induction false} AddedBefore(es: seq<Edit>, l: nat, f: File)
    requires l < NUM_LEVELS
    requires f in ApplyAll(es, l).added
    ensures exists i :: 0 <= i < |es| && f in es[i].added[l]
  {
    if es != [] {
      var front := es[..|es| - 1];
      if f in ApplyAll(front, l).added {
        AddedBefore(front, l, f);
        var i :| 0 <= i < |front| && f in front[i].added[l];
        assert es[i] == front[i];
      }
    }
  }

  /** Replaying the manifest through one builder and saving once gives the
      version that saving after every edit gave. */
  lemma {:induction false} RebuildLevel(es: seq<Edit>, l: nat)
    requires l < NUM_LEVELS
    requires AddedOnce(es)
    ensures Save({}, ApplyAll(es, l)) == Fold(es)[l]
  {
    if es != [] {
      var front, e := es[..|es| - 1], es[|es| - 1];
      assert AddedOnce(front);
      RebuildLevel(front, l);
      var b := ApplyAll(front, l);
      forall f | f in b.added
        ensures f.number !in Numbers(e.added[l])
      {
        AddedBefore(front, l, f);
        var i :| 0 <= i < |front| && f in front[i].added[l];
        assert es[i] == front[i] && f.number in Numbers(es[i].added[l]);
      }
      hide AddedOnce; hide ApplyAll;
      assert Fold(es)[l] == EditLevel(Fold(front)[l], e.deleted[l], e.added[l]);
      hide Fold;
      SaveTwice(b, e.deleted[l], e.added[l]);
      assert Save({}, ApplyAll(es, l)) == Save({}, Apply(b, e.deleted[l], e.added[l])) by {
        ApplyLast(es, l);
      }
    }
  }

  lemma ApplyLast(es: seq<Edit>, l: nat)
    requires es != [] && l < NUM_LEVELS
    ensures ApplyAll(es, l) == Apply(ApplyAll(es[..|es| - 1], l), es[|es| - 1].deleted[l], es[|es| - 1].added[l])
  {
  }

  lemma SaveTwice(b: LevelState, deleted: set<nat>, added: Level)
    requires forall f :: f in b.added ==> f.number !in Numbers(added)
    ensures Save({}, Apply(b, deleted, added)) == EditLevel(Save({}, b), deleted, added)
  {
    assert forall f :: f in added ==> f.number in Numbers(added);
  }

  lemma RebuildIsFold(es: seq<Edit>)
    requires AddedOnce(es)
    ensures Rebuild(es) == Fold(es)
  {
    forall l: nat | l < NUM_LEVELS
      ensures Rebuild(es)[l] == Fold(es)[l]
    {
      RebuildLevel(es, l);
    }
  }
}
