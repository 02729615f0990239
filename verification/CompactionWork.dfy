/** The compaction loop (DBImpl::DoCompactionWork, Compaction::IsBaseLevelForKey). */
module CompactionWork {
  import opened Keys
  import opened Versions
  import opened Survivors
  import opened Install
  import opened Picking
  import FS = FileSearch

  lemma FlattenAppend(outs: seq<Table>, t: Table)
    ensures Flatten(outs + [t]) == Flatten(outs) + t
    ensures Chunks(outs) && t != [] ==> Chunks(outs + [t])
  {
    if outs == [] {
      assert outs + [t] == [t] && [t][1..] == [];
    } else {
      FlattenAppend(outs[1..], t);
      assert (outs + [t])[1..] == outs[1..] + [t];
    }
  }

  lemma NothingKept(v: Version, level: nat, snapshot: nat, input: Table)
    ensures Kept(v, level, snapshot, input, 0) == [] && Flatten([]) == [] && Chunks([])
  {
  }

  lemma KeptNext(v: Version, level: nat, snapshot: nat, input: Table, i: nat)
    requires i < |input|
    ensures Kept(v, level, snapshot, input, i + 1) ==
            Kept(v, level, snapshot, input, i) + if Dropped(v, level, snapshot, input, i) then [] else [input[i]]
  {
    hide Dropped;
  }

  /** What the loop's two variables decide is the rule for dropping. */
  lemma DropIs(v: Version, level: nat, snapshot: nat, input: Table, i: nat, drop: bool)
    requires i < |input|
    requires var key := input[i].key;
             var hidden := i > 0 && input[i - 1].key.user == key.user && input[i - 1].key.seqno <= snapshot;
             drop <==> hidden || (key.kind.Deletion? && key.seqno <= snapshot && BaseLevel(v, level, key.user))
    ensures drop <==> Dropped(v, level, snapshot, input, i)
  {
    hide BaseLevel;
  }

  /** One running compaction; the level pointers only ever move forward. */
  class Compaction {
    const files: seq<seq<File>>
    const level: nat
    var levelPtrs: seq<nat>

    ghost predicate Valid()
      reads this
    {
      && LevelsWf(files) && level + 1 < NUM_LEVELS && |levelPtrs| == NUM_LEVELS
      && forall l :: 0 <= l < NUM_LEVELS ==> levelPtrs[l] <= |files[l]|
    }

    /** Every file a pointer has passed ends before `user`. */
    ghost predicate PassedBefore(user: Rank)
      reads this
      requires Valid()
    {
      forall l, i :: level + 2 <= l < NUM_LEVELS && 0 <= i < levelPtrs[l] ==> files[l][i].largest.user < user
    }

    constructor (files: seq<seq<File>>, level: nat)
      requires LevelsWf(files) && level + 1 < NUM_LEVELS
      ensures Valid() && this.files == files && this.level == level
      ensures forall user :: PassedBefore(user)
    {
      this.files := files;
      this.level := level;
      levelPtrs := [0, 0, 0, 0, 0, 0, 0];
    }

    /** The pointer of one level moves to the first file ending at or after user. */
    method AdvanceLevel(l: nat, user: Rank) returns (inside: bool)
      requires Valid() && level + 2 <= l < NUM_LEVELS && PassedBefore(user)
      modifies this
      ensures Valid() && PassedBefore(user)
      ensures inside <==> exists i :: 0 <= i < |files[l]| && files[l][i].smallest.user <= user <= files[l][i].largest.user
    {
      assert FS.SortedFiles(files[l]);
      while levelPtrs[l] < |files[l]|
        invariant Valid() && PassedBefore(user)
        decreases |files[l]| - levelPtrs[l]
      {
        var f := files[l][levelPtrs[l]];
        if user <= f.largest.user {
          if user >= f.smallest.user {
            return true;
          }
          LaterFilesAfter(files[l], levelPtrs[l], user);
          return false;
        }
        levelPtrs := levelPtrs[l := levelPtrs[l] + 1];
      }
      return false;
    }

    /** For keys asked in nondecreasing order: no deeper file can hold the key. */
    method IsBaseLevelForKey(user: Rank) returns (b: bool)
      requires Valid() && PassedBefore(user)
      modifies this
      ensures Valid() && PassedBefore(user)
      ensures b <==> BaseLevel(SetsOf(files), level, user)
    {
      for l := level + 2 to NUM_LEVELS
        invariant Valid() && PassedBefore(user)
        invariant forall j, i :: level + 2 <= j < l && 0 <= i < |files[j]| ==> !(files[j][i].smallest.user <= user <= files[j][i].largest.user)
      {
        var inside := AdvanceLevel(l, user);
        if inside {
          ghost var i :| 0 <= i < |files[l]| && files[l][i].smallest.user <= user <= files[l][i].largest.user;
          InsideNotBase(files, level, user, l, i);
          return false;
        }
      }
      OutsideBase(files, level, user);
      return true;
    }

    /** The output tables of the merged input: what survives, cut wherever
        stopBefore or bigEnough ask for a new file. */
    method DoCompactionWork(input: Table, snapshot: nat, stopBefore: Key -> bool, bigEnough: Table -> bool)
      returns (outs: seq<Table>)
      requires Valid() && Sorted(input) && snapshot < MAX_SEQUENCE
      requires forall user :: PassedBefore(user)
      modifies this
      ensures Valid() && Chunks(outs)
      ensures Flatten(outs) == Kept(SetsOf(files), level, snapshot, input, |input|)
    {
      hide Kept; hide Dropped; hide Flatten; hide Chunks; hide Sorted; hide SetsOf; hide BaseLevel; hide LevelsWf;
      ghost var v := SetsOf(files);
      outs := [];
      var builder: Table := [];
      var currentUser: Option<Rank> := None;
      var lastSequence: nat := MAX_SEQUENCE;
      NothingKept(v, level, snapshot, input);
      for i := 0 to |input|
        invariant Valid() && Chunks(outs)
        invariant Flatten(outs) + builder == Kept(v, level, snapshot, input, i)
        invariant if i == 0 then currentUser == None
                  else currentUser == Some(input[i - 1].key.user) && lastSequence == input[i - 1].key.seqno
        invariant forall j :: i <= j < |input| ==> PassedBefore(input[j].key.user)
      {
        var key := input[i].key;
        if builder != [] && stopBefore(key) {
          FlattenAppend(outs, builder);
          outs, builder := outs + [builder], [];
        }
        if currentUser != Some(key.user) {
          currentUser := Some(key.user);
          lastSequence := MAX_SEQUENCE;
        }
        var drop := false;
        if lastSequence <= snapshot {
          drop := true;
        } else if key.kind.Deletion? && key.seqno <= snapshot {
          drop := IsBaseLevelForKey(key.user);
          StillPassed(input, i);
        }
        DropIs(v, level, snapshot, input, i, drop);
        KeptNext(v, level, snapshot, input, i);
        lastSequence := key.seqno;
        if !drop {
          builder := builder + [input[i]];
          if bigEnough(builder) {
            FlattenAppend(outs, builder);
            outs, builder := outs + [builder], [];
          }
        }
      }
      if builder != [] {
        FlattenAppend(outs, builder);
        outs := outs + [builder];
      }
    }

    lemma StillPassed(input: Table, i: nat)
      requires Valid() && Sorted(input) && i < |input| && PassedBefore(input[i].key.user)
      ensures forall j :: i <= j < |input| ==> PassedBefore(input[j].key.user)
    {
      forall j | i <= j < |input|
        ensures PassedBefore(input[j].key.user)
      {
        assert i < j ==> Less(input[i].key, input[j].key);
      }
    }
  }

  lemma LaterFilesAfter(files: seq<File>, p: nat, user: Rank)
    requires FS.SortedFiles(files) && p < |files| && user < files[p].smallest.user
    ensures forall i :: p <= i < |files| ==> user < files[i].smallest.user
  {
    forall i | p < i < |files|
      ensures user < files[i].smallest.user
    {
      assert FS.FileWf(files[p]) && Less(files[p].largest, files[i].smallest);
    }
  }

  lemma InsideNotBase(files: seq<seq<File>>, level: nat, user: Rank, l: nat, i: nat)
    requires level + 2 <= l < |files| && i < |files[l]| && files[l][i].smallest.user <= user <= files[l][i].largest.user
    ensures !BaseLevel(SetsOf(files), level, user)
  {
    assert files[l][i] in SetsOf(files)[l];
  }

  lemma OutsideBase(files: seq<seq<File>>, level: nat, user: Rank)
    requires forall j, i :: level + 2 <= j < |files| && 0 <= i < |files[j]| ==> !(files[j][i].smallest.user <= user <= files[j][i].largest.user)
    ensures BaseLevel(SetsOf(files), level, user)
  {
    forall j, f | level + 2 <= j < |SetsOf(files)| && f in SetsOf(files)[j]
      ensures !(f.smallest.user <= user <= f.largest.user)
    {
      assert f in files[j];
    }
  }
}
