/** Version::Get: searching the levels from new to old (db/version_set.cc). */
module Reading {
  import opened Keys
  import opened Versions
  import opened Install
  import opened Picking
  import FS = FileSearch

  // ----- level 0: the files holding the key, newest first

  function InsertNewest(files: seq<File>, f: File): (r: seq<File>)
    ensures forall g :: g in r <==> g in files || g == f
  {
    if files == [] || f.number > files[0].number then [f] + files
    else [files[0]] + InsertNewest(files[1..], f)
  }

  ghost predicate NewestFirst(files: seq<File>) {
    forall i, j :: 0 <= i < j < |files| ==> files[i].number >= files[j].number
  }

  lemma {:induction false} InsertNewestSorted(files: seq<File>, f: File)
    requires NewestFirst(files)
    ensures NewestFirst(InsertNewest(files, f))
  {
    if files == [] || f.number > files[0].number {
    } else {
      var rest := InsertNewest(files[1..], f);
      InsertNewestSorted(files[1..], f);
      forall j | 0 <= j < |rest|
        ensures files[0].number >= rest[j].number
      {
        assert rest[j] in rest;
        if rest[j] != f {
          var k :| 0 <= k < |files[1..]| && files[1..][k] == rest[j];
          assert files[k + 1] == rest[j];
        }
      }
    }
  }

  predicate Holds(f: File, user: Rank) {
    f.smallest.user <= user <= f.largest.user
  }

  method NewestHolders(files: seq<File>, user: Rank) returns (tmp: seq<File>)
    ensures NewestFirst(tmp)
    ensures forall f :: f in tmp <==> f in files && Holds(f, user)
  {
    tmp := [];
    for i := 0 to |files|
      invariant NewestFirst(tmp)
      invariant forall f :: f in tmp <==> f in files[..i] && Holds(f, user)
    {
      assert files[..i + 1] == files[..i] + [files[i]];
      if user >= files[i].smallest.user && user <= files[i].largest.user {
        InsertNewestSorted(tmp, files[i]);
        tmp := InsertNewest(tmp, files[i]);
      }
    }
    assert files[..|files|] == files;
  }

  // ----- one level at a time

  ghost predicate SeesIn(tb: Tables, lv: Level, user: Rank, at: nat, e: Entry) {
    InLevel(tb, lv, e) && e.key.user == user && e.key.seqno <= at
  }

  /** r is the newest visible entry of the level, if any. */
  ghost predicate LevelAnswer(tb: Tables, lv: Level, user: Rank, at: nat, r: Option<Entry>) {
    && (r.Some? ==> SeesIn(tb, lv, user, at, r.value) && forall x :: SeesIn(tb, lv, user, at, x) ==> x.key.seqno <= r.value.key.seqno)
    && (r.None? ==> forall x :: !SeesIn(tb, lv, user, at, x))
  }

  lemma InLevelHolder(tb: Tables, lv: Level, user: Rank, at: nat, x: Entry) returns (g: File)
    requires (forall f :: f in lv ==> FileOk(tb, f)) && SeesIn(tb, lv, user, at, x)
    ensures g in lv && InFile(tb, g, x) && Holds(g, user) && Visible(tb[g.number], x, user, at)
  {
    hide FileOk;
    g :| g in lv && InFile(tb, g, x);
    InFileRange(tb, g, x);
  }

  /** Level 0: the first file, newest first, that answers. */
  method SearchLevelZero(tb: Tables, files: seq<File>, user: Rank, at: nat) returns (r: Option<Entry>)
    requires (forall f :: f in files ==> FileOk(tb, f)) && AgeOrdered(tb, SetOf(files))
    requires forall f, g :: f in files && g in files && f.number == g.number ==> f == g
    ensures LevelAnswer(tb, SetOf(files), user, at, r)
  {
    hide TableOk; hide AgeOrdered; hide Find; hide LevelAnswer; hide NewestFirst;
    var tmp := NewestHolders(files, user);
    r := None;
    for i := 0 to |tmp|
      invariant r.None? && forall j :: 0 <= j < i ==> tmp[j].number in tb && Find(tb[tmp[j].number], user, at).None?
    {
      assert tmp[i] in tmp;
      assert FileOk(tb, tmp[i]);
      r := Find(tb[tmp[i].number], user, at);
      if r.Some? {
        ZeroFound(tb, files, tmp, i, user, at);
        return;
      }
    }
    ZeroMissing(tb, files, tmp, user, at);
  }

  lemma ZeroFound(tb: Tables, files: seq<File>, tmp: seq<File>, i: nat, user: Rank, at: nat)
    requires (forall f :: f in files ==> FileOk(tb, f)) && AgeOrdered(tb, SetOf(files))
    requires forall f, g :: f in files && g in files && f.number == g.number ==> f == g
    requires NewestFirst(tmp) && forall f :: f in tmp <==> f in files && Holds(f, user)
    requires i < |tmp| && tmp[i].number in tb && Find(tb[tmp[i].number], user, at).Some?
    requires forall j :: 0 <= j < i ==> tmp[j].number in tb && Find(tb[tmp[j].number], user, at).None?
    ensures LevelAnswer(tb, SetOf(files), user, at, Find(tb[tmp[i].number], user, at))
  {
    hide Find; hide TableOk;
    assert tmp[i] in tmp;
    var f, t := tmp[i], tb[tmp[i].number];
    assert FileOk(tb, f);
    TableSorted(tb, f);
    FindNewest(t, user, at);
    hide FileOk;
    var e := Find(t, user, at).value;
    assert InFile(tb, f, e);
    forall x | SeesIn(tb, SetOf(files), user, at, x)
      ensures x.key.seqno <= e.key.seqno
    {
      var g := InLevelHolder(tb, SetOf(files), user, at, x);
      assert g in tmp;
      var k :| 0 <= k < |tmp| && tmp[k] == g;
      TableSorted(tb, g);
      FindNewest(tb[g.number], user, at);
      if k > i && g.number != f.number {
        assert g.number < f.number && InFile(tb, g, x);
      }
    }
  }

  lemma ZeroMissing(tb: Tables, files: seq<File>, tmp: seq<File>, user: Rank, at: nat)
    requires forall f :: f in files ==> FileOk(tb, f)
    requires forall f :: f in tmp <==> f in files && Holds(f, user)
    requires forall j :: 0 <= j < |tmp| ==> tmp[j].number in tb && Find(tb[tmp[j].number], user, at).None?
    ensures LevelAnswer(tb, SetOf(files), user, at, None)
  {
    hide Find; hide FileOk;
    forall x | SeesIn(tb, SetOf(files), user, at, x)
      ensures false
    {
      var g := InLevelHolder(tb, SetOf(files), user, at, x);
      assert g in tmp;
      TableSorted(tb, g);
      FindNewest(tb[g.number], user, at);
    }
  }

  lemma TableSorted(tb: Tables, f: File)
    requires FileOk(tb, f)
    ensures f.number in tb && Sorted(tb[f.number])
  {
  }

  /** Deeper levels: the one file a binary search leads to. */
  method SearchSortedLevel(tb: Tables, files: seq<File>, user: Rank, at: nat) returns (r: Option<Entry>)
    requires (forall f :: f in files ==> FileOk(tb, f)) && FS.SortedFiles(files)
    ensures LevelAnswer(tb, SetOf(files), user, at, r)
  {
    var index := FS.FindFile(files, SeekKey(user, at));
    if index >= |files| {
      MissedBefore(tb, files, user, at, index);
      return None;
    }
    var f := files[index];
    assert f in files && FileOk(tb, f);
    if user < f.smallest.user {
      MissedBefore(tb, files, user, at, index);
      return None;
    }
    r := Find(tb[f.number], user, at);
    SortedFound(tb, files, user, at, index);
  }

  lemma FileAt(files: seq<File>, f: File) returns (i: nat)
    requires f in files
    ensures i < |files| && files[i] == f
  {
    i :| 0 <= i < |files| && files[i] == f;
  }

  lemma MissedBefore(tb: Tables, files: seq<File>, user: Rank, at: nat, index: nat)
    requires (forall f :: f in files ==> FileOk(tb, f)) && FS.SortedFiles(files) && index <= |files|
    requires forall i :: 0 <= i < index ==> Less(files[i].largest, SeekKey(user, at))
    requires index < |files| ==> user < files[index].smallest.user
    ensures LevelAnswer(tb, SetOf(files), user, at, None)
  {
    hide FileOk;
    assert index < |files| ==> FS.FileWf(files[index]);
    forall x | SeesIn(tb, SetOf(files), user, at, x)
      ensures false
    {
      var g := InLevelHolder(tb, SetOf(files), user, at, x);
      var k := FileAt(files, g);
      InFileRange(tb, g, x);
    }
  }

  lemma SortedFound(tb: Tables, files: seq<File>, user: Rank, at: nat, index: nat)
    requires (forall f :: f in files ==> FileOk(tb, f)) && FS.SortedFiles(files) && index < |files|
    requires forall i :: 0 <= i < index ==> Less(files[i].largest, SeekKey(user, at))
    requires !Less(files[index].largest, SeekKey(user, at)) && files[index].smallest.user <= user
    requires files[index].number in tb
    ensures LevelAnswer(tb, SetOf(files), user, at, Find(tb[files[index].number], user, at))
  {
    hide Find;
    var f := files[index];
    assert f in files;
    var t, r := tb[f.number], Find(tb[f.number], user, at);
    LastEntry(tb, f);
    TableSorted(tb, f);
    FindNewest(t, user, at);
    hide FileOk; hide Sorted;
    if r.Some? {
      assert InFile(tb, f, r.value);
    }
    forall x | SeesIn(tb, SetOf(files), user, at, x)
      ensures r.Some? && x.key.seqno <= r.value.key.seqno
    {
      var g := InLevelHolder(tb, SetOf(files), user, at, x);
      var k := FileAt(files, g);
      InFileRange(tb, g, x);
      if k > index {
        assert Less(f.largest, files[k].smallest);
        assert Visible(t, t[|t| - 1], user, at);
        InFileRange(tb, f, r.value);
      }
    }
  }

  lemma LastEntry(tb: Tables, f: File)
    requires FileOk(tb, f)
    ensures f.number in tb && var t := tb[f.number]; t != [] && t[|t| - 1] in t && t[|t| - 1].key == f.largest
  {
  }

  // ----- all levels

  /** The file lists represent a sound version. */
  ghost predicate FilesOk(tb: Tables, files: seq<seq<File>>) {
    Sound(tb, SetsOf(files)) && LevelsWf(files)
  }

  lemma FilesAt(tb: Tables, files: seq<seq<File>>, l: nat)
    requires FilesOk(tb, files) && l < NUM_LEVELS
    ensures |files| == NUM_LEVELS && SetsOf(files)[l] == SetOf(files[l])
    ensures forall f :: f in files[l] ==> FileOk(tb, f)
    ensures forall f, g :: f in files[l] && g in files[l] && f.number == g.number ==> f == g
    ensures l == 0 ==> AgeOrdered(tb, SetOf(files[l]))
    ensures l > 0 ==> FS.SortedFiles(files[l])
  {
    hide Sound; hide FS.SortedFiles; hide FS.AllWf;
    SoundLevel(tb, SetsOf(files), l);
    hide AgeOrdered; hide FileOk;
  }

  lemma LevelDecides(tb: Tables, v: Version, level: nat, user: Rank, at: nat, r: Option<Entry>)
    requires Sound(tb, v) && level < |v| && r.Some? && LevelAnswer(tb, v[level], user, at, r)
    requires forall j, x :: 0 <= j < level ==> !SeesIn(tb, v[j], user, at, x)
    ensures IsNewest(tb, v, user, at, r.value)
  {
    hide Sound; hide InLevel;
    forall x | Sees(tb, v, user, at, x)
      ensures x.key.seqno <= r.value.key.seqno
    {
      var j: nat :| j < |v| && InLevel(tb, v[j], x);
      assert SeesIn(tb, v[j], user, at, x);
      if j > level {
        SoundOrder(tb, v, level, r.value, j, x);
      }
    }
  }

  lemma NothingSeen(tb: Tables, v: Version, user: Rank, at: nat)
    requires forall j, x :: 0 <= j < |v| ==> !SeesIn(tb, v[j], user, at, x)
    ensures Reads(tb, v, user, at, None)
  {
    hide InLevel;
    forall x
      ensures !Sees(tb, v, user, at, x)
    {
      if j :| 0 <= j < |v| && InLevel(tb, v[j], x) {
        assert !SeesIn(tb, v[j], user, at, x);
      }
    }
  }

  lemma LevelSilent(tb: Tables, lv: Level, user: Rank, at: nat)
    requires LevelAnswer(tb, lv, user, at, None)
    ensures forall x :: !SeesIn(tb, lv, user, at, x)
  {
  }

  /** The first level that answers decides, and decides correctly. */
  method Get(tb: Tables, files: seq<seq<File>>, user: Rank, at: nat) returns (value: Option<Value>)
    requires FilesOk(tb, files)
    ensures Reads(tb, SetsOf(files), user, at, value)
  {
    hide FilesOk; hide LevelAnswer; hide AgeOrdered; hide FS.SortedFiles; hide FileOk; hide Reads; hide SeesIn;
    FilesAt(tb, files, 0);
    ghost var v := SetsOf(files);
    assert |v| == NUM_LEVELS && Sound(tb, v) by { FilesSound(tb, files); }
    hide SetsOf; hide Sound; hide SetOf; hide IsNewest;
    for level := 0 to NUM_LEVELS
      invariant forall j, x :: 0 <= j < level ==> !SeesIn(tb, v[j], user, at, x)
    {
      var r: Option<Entry>;
      FilesAt(tb, files, level);
      if level == 0 {
        r := SearchLevelZero(tb, files[0], user, at);
      } else {
        r := SearchSortedLevel(tb, files[level], user, at);
      }
      if r.Some? {
        LevelDecides(tb, v, level, user, at, r);
        NewestReads(tb, v, user, at, r.value);
        return ValueOf(r.value);
      }
      LevelSilent(tb, v[level], user, at);
    }
    NothingSeen(tb, v, user, at);
    return None;
  }

  lemma FilesSound(tb: Tables, files: seq<seq<File>>)
    requires FilesOk(tb, files)
    ensures |SetsOf(files)| == NUM_LEVELS && Sound(tb, SetsOf(files))
  {
    hide Sound; hide FS.SortedFiles; hide FS.AllWf;
  }

  lemma NewestReads(tb: Tables, v: Version, user: Rank, at: nat, e: Entry)
    requires IsNewest(tb, v, user, at, e)
    ensures Reads(tb, v, user, at, ValueOf(e))
  {
  }
}
