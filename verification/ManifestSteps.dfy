/** Appending an edit keeps the manifest replayable. */
module ManifestSteps {
  import opened Versions
  import opened Install
  import opened Upkeep
  import opened Manifest
  import opened Edits
  import opened EngineInv

  /** An edit that only adds files with fresh numbers, all to one level. */
  ghost predicate FreshEdit(e: Edit, level: nat, from: nat, upto: nat) {
    && level < NUM_LEVELS
    && (forall l :: 0 <= l < NUM_LEVELS && l != level ==> e.added[l] == {})
    && forall f :: f in e.added[level] ==> from <= f.number < upto
  }

  lemma EditSubset(v: Version, e: Edit, l: nat)
    requires |v| == NUM_LEVELS && l < NUM_LEVELS
    ensures EditVersion(v, e)[l] <= v[l] + e.added[l]
  {
    EditAt(v, e, l);
  }

  lemma FoldAppend(es: seq<Edit>, e: Edit)
    ensures Fold(es + [e]) == EditVersion(Fold(es), e)
  {
    assert (es + [e])[..|es|] == es;
  }

  lemma FreshAddedOnce(es: seq<Edit>, e: Edit, level: nat, from: nat, upto: nat)
    requires AddedOnce(es) && AddedSmall(es, from) && FreshEdit(e, level, from, upto)
    ensures AddedOnce(es + [e])
  {
    var es' := es + [e];
    forall i, j, l | 0 <= i < j < |es'| && 0 <= l < NUM_LEVELS
      ensures Numbers(es'[i].added[l]) !! Numbers(es'[j].added[l])
    {
      if j < |es| {
        assert es'[i] == es[i] && es'[j] == es[j];
      } else {
        assert es'[i] == es[i] && es'[j] == e;
      }
    }
  }

  lemma FreshSmall(es: seq<Edit>, e: Edit, level: nat, from: nat, upto: nat)
    requires AddedSmall(es, from) && FreshEdit(e, level, from, upto) && from <= upto
    ensures AddedSmall(es + [e], upto)
  {
    var es' := es + [e];
    forall i, l, f | 0 <= i < |es'| && 0 <= l < NUM_LEVELS && f in es'[i].added[l]
      ensures f.number < upto
    {
      assert es'[i] == if i < |es| then es[i] else e;
    }
  }

  lemma FreshAbove(es: seq<Edit>, v: Version, e: Edit, v': Version, level: nat, from: nat, upto: nat)
    requires |v| == |v'| == NUM_LEVELS && AddedSmall(es, from) && AddedAbove(es, v) && AllOlder(v, from) && FreshEdit(e, level, from, upto)
    requires forall l :: 0 <= l < NUM_LEVELS ==> v'[l] <= v[l] + e.added[l]
    ensures AddedAbove(es + [e], v')
  {
    var es' := es + [e];
    forall i, l, f, l', g | 0 <= i < |es'| && 0 <= l < NUM_LEVELS && f in es'[i].added[l] && 0 <= l' < NUM_LEVELS && g in v'[l'] && g.number == f.number
      ensures l <= l'
    {
      assert es'[i] == if i < |es| then es[i] else e;
      assert g in v[l'] + e.added[l'];
      if g in v[l'] {
        assert Numbered(v[l'], from);
      }
    }
  }

  lemma FreshUnique(v: Version, e: Edit, v': Version, level: nat, from: nat, upto: nat)
    requires |v| == |v'| == NUM_LEVELS && NumbersUnique(v) && AllOlder(v, from) && FreshEdit(e, level, from, upto)
    requires forall l :: 0 <= l < NUM_LEVELS ==> v'[l] <= v[l] + e.added[l]
    ensures NumbersUnique(v')
  {
    forall l, l', f, g | 0 <= l < |v'| && 0 <= l' < |v'| && f in v'[l] && g in v'[l'] && f.number == g.number
      ensures l == l'
    {
      assert f in v[l] + e.added[l] && g in v[l'] + e.added[l'];
      assert Numbered(v[l], from) && Numbered(v[l'], from);
    }
  }

  /** A flush or a compaction. */
  lemma FreshStep(es: seq<Edit>, v: Version, logNumber: nat, nextFile: nat, flushed: nat, committed: nat,
                  e: Edit, level: nat, flushed': nat)
    requires ManifestInv(es, v, logNumber, nextFile, flushed, committed) && AllOlder(v, nextFile)
    requires FreshEdit(e, level, nextFile, e.nextFile) && nextFile <= e.nextFile
    requires flushed' <= e.lastSeq <= committed
    ensures ManifestInv(es + [e], EditVersion(v, e), e.logNumber, e.nextFile, flushed', committed)
  {
    var v' := EditVersion(v, e);
    FoldAppend(es, e);
    forall l: nat | l < NUM_LEVELS
      ensures v'[l] <= v[l] + e.added[l]
    {
      EditSubset(v, e, l);
    }
    hide Fold; hide EditVersion; hide AddedOnce; hide AddedSmall; hide AddedAbove; hide NumbersUnique;
    FreshAddedOnce(es, e, level, nextFile, e.nextFile);
    FreshSmall(es, e, level, nextFile, e.nextFile);
    FreshAbove(es, v, e, v', level, nextFile, e.nextFile);
    FreshUnique(v, e, v', level, nextFile, e.nextFile);
    NewestOlder(v, e, v', level, nextFile);
  }

  lemma NewestOlder(v: Version, e: Edit, v': Version, level: nat, from: nat)
    requires |v| == |v'| == NUM_LEVELS && AllOlder(v, from) && FreshEdit(e, level, from, e.nextFile) && from <= e.nextFile
    requires forall l :: 0 <= l < NUM_LEVELS ==> v'[l] <= v[l] + e.added[l]
    ensures AllOlder(v', e.nextFile)
  {
    forall l | 0 <= l < |v'|
      ensures Numbered(v'[l], e.nextFile)
    {
      assert Numbered(v[l], from);
      assert v'[l] <= v[l] + e.added[l];
    }
  }

  // ----- a trivial move

  lemma MovedMembers(v: Version, level: nat, f: File, l: nat, g: File)
    requires |v| == NUM_LEVELS && level + 1 < NUM_LEVELS && l < NUM_LEVELS && f in v[level]
    ensures g in Moved(v, level, f)[l] <==> (l == level + 1 && g == f) || (g in v[l] && !(l == level && g == f))
  {
  }

  lemma MoveOnce(es: seq<Edit>, v: Version, level: nat, f: File, e: Edit)
    requires |v| == NUM_LEVELS && level + 1 < NUM_LEVELS && f in v[level]
    requires AddedOnce(es) && AddedAbove(es, v) && e.added == EMPTY_VERSION[level + 1 := {f}]
    ensures AddedOnce(es + [e])
  {
    var es' := es + [e];
    forall i, j, l | 0 <= i < j < |es'| && 0 <= l < NUM_LEVELS
      ensures Numbers(es'[i].added[l]) !! Numbers(es'[j].added[l])
    {
      if j < |es| {
        assert es'[i] == es[i] && es'[j] == es[j];
      } else {
        assert es'[i] == es[i] && es'[j] == e;
        assert e.added[l] == if l == level + 1 then {f} else {};
      }
    }
  }

  lemma MoveAbove(es: seq<Edit>, v: Version, level: nat, f: File, e: Edit)
    requires |v| == NUM_LEVELS && level + 1 < NUM_LEVELS && f in v[level]
    requires forall g :: g in v[level] && g.number == f.number ==> g == f
    requires AddedAbove(es, v) && NumbersUnique(v) && e.added == EMPTY_VERSION[level + 1 := {f}]
    ensures AddedAbove(es + [e], Moved(v, level, f)) && NumbersUnique(Moved(v, level, f))
  {
    var es', v' := es + [e], Moved(v, level, f);
    forall i, l, x: File, l': nat, g: File | 0 <= i < |es'| && 0 <= l < NUM_LEVELS && x in es'[i].added[l] && l' < NUM_LEVELS && g in v'[l'] && g.number == x.number
      ensures l <= l'
    {
      MovedMembers(v, level, f, l', g);
      if i < |es| {
        assert es'[i] == es[i];
      } else {
        assert x == f && l == level + 1;
        assert g in v[l'] ==> l' == level;
      }
    }
    forall l: nat, l': nat, x: File, g: File | l < |v'| && l' < |v'| && x in v'[l] && g in v'[l'] && x.number == g.number
      ensures l == l'
    {
      MovedMembers(v, level, f, l, x);
      MovedMembers(v, level, f, l', g);
    }
  }

  lemma MoveSmall(es: seq<Edit>, v: Version, next: nat, level: nat, f: File, e: Edit)
    requires |v| == NUM_LEVELS && level + 1 < NUM_LEVELS && f in v[level]
    requires AddedSmall(es, next) && AllOlder(v, next) && e.added == EMPTY_VERSION[level + 1 := {f}]
    ensures AddedSmall(es + [e], next) && AllOlder(Moved(v, level, f), next)
  {
    var es' := es + [e];
    assert Numbered(v[level], next) && Numbered(v[level + 1], next);
    forall i, l, x | 0 <= i < |es'| && 0 <= l < NUM_LEVELS && x in es'[i].added[l]
      ensures x.number < next
    {
      assert es'[i] == if i < |es| then es[i] else e;
      assert i == |es| ==> x == f;
    }
  }

  lemma MoveStep(es: seq<Edit>, v: Version, logNumber: nat, nextFile: nat, flushed: nat, committed: nat,
                 level: nat, f: File, e: Edit)
    requires ManifestInv(es, v, logNumber, nextFile, flushed, committed) && AllOlder(v, nextFile)
    requires level + 1 < NUM_LEVELS && f in v[level]
    requires forall g :: g in v[level] && g.number == f.number ==> g == f
    requires e.added == EMPTY_VERSION[level + 1 := {f}] && EditVersion(v, e) == Moved(v, level, f)
    requires e.logNumber == logNumber && e.nextFile == nextFile && flushed <= e.lastSeq <= committed
    ensures ManifestInv(es + [e], Moved(v, level, f), logNumber, nextFile, flushed, committed)
  {
    FoldAppend(es, e);
    hide Fold; hide EditVersion; hide AddedOnce; hide AddedSmall; hide AddedAbove; hide NumbersUnique; hide AllOlder;
    MoveOnce(es, v, level, f, e);
    MoveAbove(es, v, level, f, e);
    MoveSmall(es, v, nextFile, level, f, e);
  }
}
