/** Choosing the inputs of a compaction (db/version_set.cc: AddBoundaryInputs,
    GetRange, SetupOtherInputs) and the level of a flushed memtable. */
module Picking {
  import opened Keys
  import opened Versions
  import opened Compaction
  import FS = FileSearch

  function SetOf(files: seq<File>): Level {
    set f | f in files
  }

  // ----- boundary files

  /** f continues, at the same level, the user key that `key` ends with. */
  predicate Continues(f: File, key: Key) {
    Less(key, f.smallest) && f.smallest.user == key.user
  }

  method FindLargestKey(files: seq<File>) returns (largest: Option<Key>)
    ensures files == [] <==> largest.None?
    ensures largest.Some? ==> IsLargest(files, largest.value)
  {
    if files == [] {
      return None;
    }
    var k := files[0].largest;
    for i := 1 to |files|
      invariant exists j :: 0 <= j < i && files[j].largest == k
      invariant forall j :: 0 <= j < i ==> !Less(k, files[j].largest)
    {
      if Less(k, files[i].largest) {
        k := files[i].largest;
      }
    }
    return Some(k);
  }

  ghost predicate IsLargest(files: seq<File>, k: Key) {
    && (exists j :: 0 <= j < |files| && files[j].largest == k)
    && forall j :: 0 <= j < |files| ==> !Less(k, files[j].largest)
  }

  method FindSmallestBoundaryFile(files: seq<File>, key: Key) returns (r: Option<File>)
    ensures r.None? ==> forall f :: f in files ==> !Continues(f, key)
    ensures r.Some? ==> r.value in files && Continues(r.value, key)
    ensures r.Some? ==> forall f :: f in files && Continues(f, key) ==> !Less(f.smallest, r.value.smallest)
  {
    r := None;
    for i := 0 to |files|
      invariant r.None? ==> forall j :: 0 <= j < i ==> !Continues(files[j], key)
      invariant r.Some? ==> r.value in files && Continues(r.value, key)
      invariant r.Some? ==> forall j :: 0 <= j < i && Continues(files[j], key) ==> !Less(files[j].smallest, r.value.smallest)
    {
      var f := files[i];
      if Less(key, f.smallest) && f.smallest.user == key.user {
        if r.None? || Less(f.smallest, r.value.smallest) {
          r := Some(f);
        }
      }
    }
  }

  /** The inputs have no gap: a file between two inputs is an input. */
  ghost predicate Convex(files: seq<File>, inputs: seq<File>) {
    && (forall f :: f in inputs ==> f in files)
    && forall f, g, h :: f in inputs && h in inputs && g in files && Less(f.largest, g.smallest) && Less(g.largest, h.smallest) ==> g in inputs
  }

  /** Files ending after the key: each boundary file found leaves fewer. */
  function EndAfter(files: seq<File>, key: Key): nat {
    if files == [] then 0
    else EndAfter(files[..|files| - 1], key) + if Less(key, files[|files| - 1].largest) then 1 else 0
  }

  lemma {:induction false} EndAfterDrops(files: seq<File>, key: Key, key': Key)
    requires Less(key, key')
    ensures EndAfter(files, key') <= EndAfter(files, key)
    ensures (exists f :: f in files && f.largest == key') ==> EndAfter(files, key') < EndAfter(files, key)
  {
    if files != [] {
      var n := |files| - 1;
      EndAfterDrops(files[..n], key, key');
      if f :| f in files && f.largest == key' {
        assert f in files[..n] || f == files[n];
      }
    }
  }

  /** Adds, one by one, the files that continue the last user key. */
  method AddBoundaryInputs(files: seq<File>, inputs: seq<File>) returns (r: seq<File>)
    requires FS.AllWf(files) && FS.AllWf(inputs)
    ensures inputs <= r && FS.AllWf(r) && forall f :: f in r ==> f in inputs || f in files
    ensures inputs != [] ==> exists k :: IsLargest(r, k) && forall f :: f in files ==> !Continues(f, k)
    ensures FS.SortedFiles(files) && Convex(files, inputs) ==> Convex(files, r)
    ensures FS.SortedFiles(inputs) ==> FS.SortedFiles(r)
    ensures inputs != [] && (forall k, f :: IsLargest(inputs, k) && f in files ==> !Continues(f, k)) ==> r == inputs
  {
    r := inputs;
    var largest := FindLargestKey(inputs);
    if largest.None? {
      return;
    }
    var key := largest.value;
    var searching := true;
    while searching
      invariant inputs <= r && FS.AllWf(r) && forall f :: f in r ==> f in inputs || f in files
      invariant IsLargest(r, key)
      invariant !searching ==> forall f :: f in files ==> !Continues(f, key)
      invariant FS.SortedFiles(files) && Convex(files, inputs) ==> Convex(files, r)
      invariant FS.SortedFiles(inputs) ==> FS.SortedFiles(r)
      invariant (forall k, f :: IsLargest(inputs, k) && f in files ==> !Continues(f, k)) ==> r == inputs
      decreases searching, EndAfter(files, key)
    {
      var f := FindSmallestBoundaryFile(files, key);
      if f.Some? {
        ghost var before := r;
        assert FS.FileWf(f.value);
        EndAfterDrops(files, key, f.value.largest);
        if FS.SortedFiles(files) && Convex(files, before) {
          StaysConvex(files, before, key, f.value);
        }
        LargestAppend(before, key, f.value);
        SortedAppend(before, key, f.value);
        r := r + [f.value];
        key := f.value.largest;
      } else {
        searching := false;
      }
    }
  }

  lemma LargestAppend(files: seq<File>, key: Key, f: File)
    requires IsLargest(files, key) && FS.FileWf(f) && Less(key, f.smallest)
    ensures IsLargest(files + [f], f.largest)
  {
    var all := files + [f];
    assert all[|files|] == f;
    forall j | 0 <= j < |all|
      ensures !Less(f.largest, all[j].largest)
    {
      assert j < |files| ==> all[j] == files[j];
    }
  }

  lemma SortedAppend(files: seq<File>, key: Key, f: File)
    requires IsLargest(files, key) && FS.FileWf(f) && Less(key, f.smallest)
    ensures FS.SortedFiles(files) ==> FS.SortedFiles(files + [f])
  {
    forall i | 0 <= i < |files|
      ensures Less(files[i].largest, f.smallest)
    {
      assert !Less(key, files[i].largest);
    }
    hide Less;
  }

  lemma {:induction false} TouchingSorted(files: seq<File>, lo: Option<Rank>, hi: Option<Rank>)
    requires FS.SortedFiles(files)
    ensures FS.SortedFiles(FS.TouchingFiles(files, lo, hi))
  {
    if files != [] {
      var n := |files| - 1;
      var front := files[..n];
      assert FS.SortedFiles(front);
      TouchingSorted(front, lo, hi);
      var r := FS.TouchingFiles(front, lo, hi);
      forall i | 0 <= i < |r|
        ensures Less(r[i].largest, files[n].smallest)
      {
        assert r[i] in front;
        var j :| 0 <= j < n && front[j] == r[i];
        assert files[j] == r[i];
      }
      assert FS.FileWf(files[n]);
    }
  }

  lemma StaysConvex(files: seq<File>, inputs: seq<File>, key: Key, f: File)
    requires FS.SortedFiles(files) && Convex(files, inputs) && IsLargest(inputs, key)
    requires f in files && Continues(f, key)
    requires forall g :: g in files && Continues(g, key) ==> !Less(g.smallest, f.smallest)
    ensures Convex(files, inputs + [f])
  {
    var all := inputs + [f];
    forall a, g, b | a in all && b in all && g in files && Less(a.largest, g.smallest) && Less(g.largest, b.smallest)
      ensures g in all
    {
      if a in inputs && b == f {
        AfterLargest(files, inputs, key, a, g);
      } else if a == f {
        AboveAll(files, inputs, key, f, g, b);
      }
    }
  }

  /** A file that follows an input and is no input follows all of them. */
  lemma AfterLargest(files: seq<File>, inputs: seq<File>, key: Key, a: File, g: File)
    requires FS.SortedFiles(files) && Convex(files, inputs) && IsLargest(inputs, key)
    requires a in inputs && g in files && Less(a.largest, g.smallest)
    ensures g in inputs || Less(key, g.smallest)
  {
    hide Less; hide FS.FileWf;
    var j :| 0 <= j < |inputs| && inputs[j].largest == key;
    var x :| 0 <= x < |files| && files[x] == g;
    var last := inputs[j];
    assert last in inputs;
    var y :| 0 <= y < |files| && files[y] == last;
    if x < y {
      assert Less(files[x].largest, files[y].smallest);
    } else if y < x {
      assert Less(files[y].largest, files[x].smallest);
    }
  }

  lemma AboveAll(files: seq<File>, inputs: seq<File>, key: Key, f: File, g: File, b: File)
    requires FS.SortedFiles(files) && IsLargest(inputs, key) && (forall h :: h in inputs ==> h in files)
    requires f in files && Continues(f, key) && g in files
    requires b in inputs || b == f
    ensures !(Less(f.largest, g.smallest) && Less(g.largest, b.smallest))
  {
    var x :| 0 <= x < |files| && files[x] == g;
    var y :| 0 <= y < |files| && files[y] == f;
    assert FS.FileWf(files[x]) && FS.FileWf(files[y]);
    if b in inputs {
      var z :| 0 <= z < |inputs| && inputs[z] == b;
      var w :| 0 <= w < |files| && files[w] == b;
      assert FS.FileWf(files[w]) && !Less(key, inputs[z].largest);
    }
  }

  // ----- ranges

  /** The least range of keys around the files. */
  ghost predicate IsRange(inputs: seq<File>, smallest: Key, largest: Key) {
    && (forall f :: f in inputs ==> !Less(f.smallest, smallest) && !Less(largest, f.largest))
    && (exists f :: f in inputs && f.smallest == smallest)
    && (exists f :: f in inputs && f.largest == largest)
  }

  method GetRange(inputs: seq<File>) returns (smallest: Key, largest: Key)
    requires inputs != []
    ensures IsRange(inputs, smallest, largest)
  {
    smallest, largest := inputs[0].smallest, inputs[0].largest;
    for i := 1 to |inputs|
      invariant forall j :: 0 <= j < i ==> !Less(inputs[j].smallest, smallest) && !Less(largest, inputs[j].largest)
      invariant exists f :: f in inputs && f.smallest == smallest
      invariant exists f :: f in inputs && f.largest == largest
    {
      if Less(inputs[i].smallest, smallest) {
        smallest := inputs[i].smallest;
      }
      if Less(largest, inputs[i].largest) {
        largest := inputs[i].largest;
      }
    }
  }

  // ----- the inputs of a compaction

  function SetsOf(files: seq<seq<File>>): Version {
    seq(|files|, l requires 0 <= l < |files| => SetOf(files[l]))
  }

  ghost predicate LevelsWf(files: seq<seq<File>>) {
    && |files| == NUM_LEVELS
    && (forall l :: 0 <= l < NUM_LEVELS ==> FS.AllWf(files[l]))
    && forall l :: 1 <= l < NUM_LEVELS ==> FS.SortedFiles(files[l])
  }

  /** What the upper inputs are picked from: at level 0 all files meeting a
      closed range, deeper a run of files without gaps. */
  ghost predicate Picked(files: seq<File>, level: nat, inputs: seq<File>) {
    && inputs != [] && (forall f :: f in inputs ==> f in files)
    && if level > 0 then Convex(files, inputs)
       else exists lo, hi :: FS.ClosedRange(files, lo, hi) && inputs == FS.TouchingFiles(files, lo, hi)
  }

  lemma ConvexTouching(files: seq<File>, lo: Option<Rank>, hi: Option<Rank>)
    requires FS.SortedFiles(files)
    ensures Convex(files, FS.TouchingFiles(files, lo, hi))
  {
    var r := FS.TouchingFiles(files, lo, hi);
    forall f, g, h | f in r && h in r && g in files && Less(f.largest, g.smallest) && Less(g.largest, h.smallest)
      ensures g in r
    {
      var x :| 0 <= x < |files| && files[x] == g;
      assert FS.FileWf(files[x]);
    }
  }

  /** At level 0 a closed pick has no boundary file left to add. */
  lemma NothingContinues(files: seq<File>, lo: Option<Rank>, hi: Option<Rank>, k: Key, f: File)
    requires FS.AllWf(files) && FS.ClosedRange(files, lo, hi)
    requires IsLargest(FS.TouchingFiles(files, lo, hi), k) && f in files
    ensures !Continues(f, k)
  {
    var r := FS.TouchingFiles(files, lo, hi);
    var j :| 0 <= j < |r| && r[j].largest == k;
    assert r[j] in r;
    var x :| 0 <= x < |files| && files[x] == r[j];
    var y :| 0 <= y < |files| && files[y] == f;
    assert FS.FileWf(files[x]) && FS.FileWf(files[y]);
    assert FS.Covers(lo, hi, files[x]);
    assert Continues(f, k) ==> FS.Touches(f, lo, hi);
    if f in r {
      var z :| 0 <= z < |r| && r[z] == f;
      assert !Less(k, r[z].largest);
    }
  }

  lemma ClosedUpperZero(files: seq<File>, lo: Option<Rank>, hi: Option<Rank>)
    requires FS.ClosedRange(files, lo, hi)
    ensures UpperClosed(SetOf(files), 0, SetOf(FS.TouchingFiles(files, lo, hi)))
  {
    forall f, g | f in FS.TouchingFiles(files, lo, hi) && g in files && g !in FS.TouchingFiles(files, lo, hi)
      ensures !Meets(g, f.smallest.user, f.largest.user)
    {
      var x :| 0 <= x < |files| && files[x] == f;
      assert FS.Covers(lo, hi, files[x]);
    }
  }

  lemma ClosedUpperDeep(files: seq<File>, level: nat, inputs: seq<File>, k: Key)
    requires level > 0 && FS.SortedFiles(files) && Convex(files, inputs) && IsLargest(inputs, k)
    requires forall f :: f in files ==> !Continues(f, k)
    ensures UpperClosed(SetOf(files), level, SetOf(inputs))
  {
    forall f, g | f in inputs && g in files && g !in inputs && Less(f.largest, g.smallest)
      ensures f.largest.user < g.smallest.user
    {
      AfterLargest(files, inputs, k, f, g);
      var z :| 0 <= z < |inputs| && inputs[z] == f;
      assert !Less(k, inputs[z].largest);
      assert !Continues(g, k);
    }
  }

  /** AddBoundaryInputs on a pick gives closed upper inputs. */
  method CloseUpper(files: seq<File>, level: nat, picked: seq<File>) returns (r: seq<File>)
    requires FS.AllWf(files) && (level > 0 ==> FS.SortedFiles(files)) && Picked(files, level, picked)
    ensures UpperClosed(SetOf(files), level, SetOf(r)) && (forall f :: f in r ==> f in files) && r != []
    ensures forall f :: f in picked ==> f in r
    ensures level == 0 ==> r == picked
    ensures FS.SortedFiles(picked) ==> FS.SortedFiles(r)
  {
    PickedWf(files, picked);
    r := AddBoundaryInputs(files, picked);
    if level > 0 {
      ghost var k :| IsLargest(r, k) && forall f :: f in files ==> !Continues(f, k);
      ClosedUpperDeep(files, level, r, k);
    } else {
      ghost var lo, hi :| FS.ClosedRange(files, lo, hi) && picked == FS.TouchingFiles(files, lo, hi);
      forall k, f | IsLargest(picked, k) && f in files
        ensures !Continues(f, k)
      {
        NothingContinues(files, lo, hi, k, f);
      }
      ClosedUpperZero(files, lo, hi);
    }
  }

  lemma PickedWf(files: seq<File>, picked: seq<File>)
    requires FS.AllWf(files) && forall f :: f in picked ==> f in files
    ensures FS.AllWf(picked)
  {
    forall i | 0 <= i < |picked|
      ensures FS.FileWf(picked[i])
    {
      assert picked[i] in picked;
    }
  }

  lemma HullOfRange(files: seq<seq<File>>, level: nat, in0: seq<File>, smallest: Key, largest: Key)
    requires |files| == NUM_LEVELS && level + 1 < NUM_LEVELS
    requires IsRange(in0, smallest, largest)
    ensures var in1 := FS.TouchingFiles(files[level + 1], Some(smallest.user), Some(largest.user));
            Hull(SetsOf(files), Job(level, SetOf(in0), SetOf(in1)), smallest.user, largest.user)
  {
  }

  /** in1 are exactly the files that meet the range of in0. */
  ghost predicate MeetRange(files: seq<File>, in0: seq<File>, in1: seq<File>) {
    exists smallest, largest :: IsRange(in0, smallest, largest) && in1 == FS.TouchingFiles(files, Some(smallest.user), Some(largest.user))
  }

  /** Lower inputs for closed upper inputs. */
  method LowerInputs(files: seq<seq<File>>, level: nat, in0: seq<File>) returns (in1: seq<File>, smallest: Key, largest: Key)
    requires LevelsWf(files) && level + 1 < NUM_LEVELS && in0 != []
    requires UpperClosed(SetOf(files[level]), level, SetOf(in0)) && forall f :: f in in0 ==> f in files[level]
    ensures JobOk(SetsOf(files), Job(level, SetOf(in0), SetOf(in1))) && FS.SortedFiles(in1)
    ensures MeetRange(files[level + 1], in0, in1)
  {
    smallest, largest := GetRange(in0);
    var lo, hi;
    in1, lo, hi := FS.GetOverlappingInputs(level + 1, files[level + 1], Some(smallest.user), Some(largest.user));
    TouchingSorted(files[level + 1], lo, hi);
    HullOfRange(files, level, in0, smallest, largest);
    JobFromHull(files, level, in0, in1, smallest.user, largest.user);
  }

  lemma JobFromHull(files: seq<seq<File>>, level: nat, in0: seq<File>, in1: seq<File>, lo: Rank, hi: Rank)
    requires |files| == NUM_LEVELS && level + 1 < NUM_LEVELS
    requires UpperClosed(SetOf(files[level]), level, SetOf(in0)) && forall f :: f in in0 ==> f in files[level]
    requires forall f :: f in in1 ==> f in files[level + 1]
    requires Hull(SetsOf(files), Job(level, SetOf(in0), SetOf(in1)), lo, hi)
    ensures JobOk(SetsOf(files), Job(level, SetOf(in0), SetOf(in1)))
  {
    hide Hull; hide UpperClosed;
    var v := SetsOf(files);
    assert v[level] == SetOf(files[level]) && v[level + 1] == SetOf(files[level + 1]);
  }

  /** Upper inputs closed under boundary files, lower inputs under overlap, and
      the upper inputs expanded when that picks up no further lower file. */
  method SetupOtherInputs(files: seq<seq<File>>, level: nat, picked: seq<File>, mayExpand: bool)
    returns (in0: seq<File>, in1: seq<File>)
    requires LevelsWf(files) && level + 1 < NUM_LEVELS && Picked(files[level], level, picked)
    ensures JobOk(SetsOf(files), Job(level, SetOf(in0), SetOf(in1))) && in0 != []
    ensures (forall f :: f in picked ==> f in in0) && MeetRange(files[level + 1], in0, in1)
    ensures FS.SortedFiles(in1) && (level > 0 && FS.SortedFiles(picked) ==> FS.SortedFiles(in0))
    ensures level == 0 ==> exists lo, hi :: in0 == FS.TouchingFiles(files[0], lo, hi)
  {
    hide JobOk; hide MeetRange; hide UpperClosed; hide Convex; hide FS.SortedFiles; hide FS.AllWf; hide FS.ClosedRange; hide FS.TouchingFiles;
    in0 := CloseUpper(files[level], level, picked);
    var smallest, largest;
    in1, smallest, largest := LowerInputs(files, level, in0);
    if in1 != [] {
      var wider := Wider(files, level, in0, in1);
      var expanded0 := CloseUpper(files[level], level, wider);
      if |expanded0| > |in0| && mayExpand {
        var expanded1, newStart, newLimit := LowerInputs(files, level, expanded0);
        if |expanded1| == |in1| {
          in0, in1 := expanded0, expanded1;
        }
      }
    }
  }

  /** The upper files that meet the range of all inputs. */
  method Wider(files: seq<seq<File>>, level: nat, in0: seq<File>, in1: seq<File>) returns (wider: seq<File>)
    requires LevelsWf(files) && level + 1 < NUM_LEVELS && in0 != [] && forall f :: f in in0 ==> f in files[level]
    ensures Picked(files[level], level, wider) && forall f :: f in in0 ==> f in wider
    ensures level > 0 ==> FS.SortedFiles(wider)
  {
    var start, limit := GetRange(in0 + in1);
    var lo, hi;
    wider, lo, hi := FS.GetOverlappingInputs(level, files[level], Some(start.user), Some(limit.user));
    StillPicked(files[level], in0, in1, start, limit, level, wider, lo, hi);
    assert in0[0] in wider;
    if level > 0 {
      ConvexTouching(files[level], lo, hi);
      TouchingSorted(files[level], lo, hi);
    }
  }

  /** Files inside a range are among those that meet it or a wider one. */
  lemma StillPicked(files: seq<File>, in0: seq<File>, in1: seq<File>, start: Key, limit: Key, level: nat,
                    wider: seq<File>, lo: Option<Rank>, hi: Option<Rank>)
    requires FS.AllWf(files) && (forall f :: f in in0 ==> f in files) && IsRange(in0 + in1, start, limit)
    requires wider == FS.TouchingFiles(files, lo, hi) && lo.Some? && hi.Some? && lo.value <= start.user && limit.user <= hi.value
    ensures forall f :: f in in0 ==> f in wider
  {
    forall f | f in in0
      ensures f in wider
    {
      assert f in in0 + in1;
      var j :| 0 <= j < |files| && files[j] == f;
      assert FS.FileWf(files[j]);
    }
  }

  // ----- the level of a flushed memtable

  const MAX_MEM_COMPACT_LEVEL := 2

  /** heavy(l) says that too many bytes of level l + 2 overlap the table. */
  method PickLevelForMemTableOutput(files: seq<seq<File>>, smallest: Rank, largest: Rank, heavy: nat -> bool)
    returns (level: nat)
    requires LevelsWf(files)
    ensures level <= MAX_MEM_COMPACT_LEVEL
    ensures level > 0 ==> forall j, f :: 0 <= j <= level && f in SetsOf(files)[j] ==> !Meets(f, smallest, largest)
    ensures level < MAX_MEM_COMPACT_LEVEL ==>
              || (level == 0 && exists f :: f in files[0] && Meets(f, smallest, largest))
              || (exists f :: f in files[level + 1] && Meets(f, smallest, largest))
              || heavy(level)
  {
    level := 0;
    var b := FS.SomeFileOverlapsRange(false, files[0], Some(smallest), Some(largest));
    SomeMeets(files[0], smallest, largest);
    if !b {
      NoneMeet(files[0], smallest, largest);
      while level < MAX_MEM_COMPACT_LEVEL
        invariant level <= MAX_MEM_COMPACT_LEVEL
        invariant forall j, f :: 0 <= j <= level && f in files[j] ==> !Meets(f, smallest, largest)
      {
        b := FS.SomeFileOverlapsRange(true, files[level + 1], Some(smallest), Some(largest));
        SomeMeets(files[level + 1], smallest, largest);
        if b {
          break;
        }
        NoneMeet(files[level + 1], smallest, largest);
        if level + 2 < NUM_LEVELS && heavy(level) {
          break;
        }
        level := level + 1;
      }
    }
  }

  lemma SomeMeets(files: seq<File>, lo: Rank, hi: Rank)
    ensures (exists i :: 0 <= i < |files| && FS.Touches(files[i], Some(lo), Some(hi))) ==> exists f :: f in files && Meets(f, lo, hi)
  {
    if i :| 0 <= i < |files| && FS.Touches(files[i], Some(lo), Some(hi)) {
      assert files[i] in files && Meets(files[i], lo, hi);
    }
  }

  lemma NoneMeet(files: seq<File>, lo: Rank, hi: Rank)
    requires forall i :: 0 <= i < |files| ==> !FS.Touches(files[i], Some(lo), Some(hi))
    ensures forall f :: f in files ==> !Meets(f, lo, hi)
  {
    forall f | f in files
      ensures !Meets(f, lo, hi)
    {
      var i :| 0 <= i < |files| && files[i] == f;
      assert !FS.Touches(files[i], Some(lo), Some(hi));
    }
  }
}
