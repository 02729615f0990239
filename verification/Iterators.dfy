/** Collecting the sources of an internal iterator. */
module Iterators {
  import opened Keys
  import opened Versions
  import opened Sources
  import opened Picking
  import Reading
  import FS = FileSearch

  ghost predicate Holds(tables: seq<Table>, e: Entry) {
    exists i :: 0 <= i < |tables| && e in tables[i]
  }

  lemma HoldsAppend(tables: seq<Table>, t: Table, e: Entry)
    ensures Holds(tables + [t], e) <==> Holds(tables, e) || e in t
  {
    var all := tables + [t];
    if i :| 0 <= i < |all| && e in all[i] {
      assert i < |tables| ==> all[i] == tables[i];
    }
    if i :| 0 <= i < |tables| && e in tables[i] {
      assert e in all[i];
    }
    if e in t {
      assert e in all[|tables|];
    }
  }

  /** A new source whose keys none of the others has. */
  lemma AddSource(tables: seq<Table>, t: Table)
    requires Apart(tables) && Sorted(t) && forall x, y :: Holds(tables, x) && y in t ==> x.key != y.key
    ensures Apart(tables + [t])
    ensures forall e :: Holds(tables + [t], e) <==> Holds(tables, e) || e in t
  {
    forall i | 0 <= i < |tables|
      ensures KeysApart(tables[i], t)
    {
      forall x, y | x in tables[i] && y in t
        ensures x.key != y.key
      {
        assert Holds(tables, x);
      }
    }
    hide Apart; hide Sorted; hide KeysApart;
    ApartAppend(tables, t);
    forall e
      ensures Holds(tables + [t], e) <==> Holds(tables, e) || e in t
    {
      HoldsAppend(tables, t, e);
    }
  }

  /** Files that share no key, one source each. */
  ghost predicate FilesApart(tb: Tables, files: seq<File>) {
    forall i, j, x, y :: 0 <= i < j < |files| && InFile(tb, files[i], x) && InFile(tb, files[j], y) ==> x.key != y.key
  }

  method AddFiles(tb: Tables, files: seq<File>, tables0: seq<Table>) returns (tables: seq<Table>)
    requires Apart(tables0) && AllOk(tb, files) && FilesApart(tb, files)
    requires forall x, i, y :: Holds(tables0, x) && 0 <= i < |files| && InFile(tb, files[i], y) ==> x.key != y.key
    ensures Apart(tables)
    ensures forall e :: Holds(tables, e) <==> Holds(tables0, e) || exists i :: 0 <= i < |files| && InFile(tb, files[i], e)
  {
    hide Apart; hide Holds; hide Sorted;
    tables := tables0;
    for n := 0 to |files|
      invariant Apart(tables)
      invariant forall e :: Holds(tables, e) <==> Holds(tables0, e) || exists i :: 0 <= i < n && InFile(tb, files[i], e)
    {
      assert FileOk(tb, files[n]);
      var t := tb[files[n].number];
      forall x, y | Holds(tables, x) && y in t
        ensures x.key != y.key
      {
        assert InFile(tb, files[n], y);
      }
      AddSource(tables, t);
      tables := tables + [t];
      assert forall e :: e in t <==> InFile(tb, files[n], e);
    }
  }

  method AddLevel(tb: Tables, files: seq<File>, tables0: seq<Table>) returns (tables: seq<Table>)
    requires Apart(tables0) && AllOk(tb, files) && FS.SortedFiles(files)
    requires forall x, i, y :: Holds(tables0, x) && 0 <= i < |files| && InFile(tb, files[i], y) ==> x.key != y.key
    ensures Apart(tables)
    ensures forall e :: Holds(tables, e) <==> Holds(tables0, e) || exists i :: 0 <= i < |files| && InFile(tb, files[i], e)
  {
    tables := tables0;
    if files != [] {
      var t := Concat(tb, files);
      ConcatSorted(tb, files);
      hide Apart; hide Holds; hide Sorted; hide AllOk; hide FS.SortedFiles; hide Concat; hide InFile;
      forall e
        ensures e in t <==> exists i :: 0 <= i < |files| && InFile(tb, files[i], e)
      {
        ConcatMembers(tb, files, e);
      }
      AddSource(tables, t);
      tables := tables + [t];
    }
  }

  ghost predicate InLevelsBelow(tb: Tables, v: Version, n: nat, e: Entry) {
    exists j :: 0 <= j < n <= |v| && InLevel(tb, v[j], e)
  }

  lemma LevelMember(tb: Tables, files: seq<seq<File>>, l: nat, e: Entry)
    requires |files| == NUM_LEVELS && l < NUM_LEVELS
    ensures InLevel(tb, SetsOf(files)[l], e) <==> exists i :: 0 <= i < |files[l]| && InFile(tb, files[l][i], e)
  {
    if i :| 0 <= i < |files[l]| && InFile(tb, files[l][i], e) {
      assert files[l][i] in SetsOf(files)[l];
    }
    if InLevel(tb, SetsOf(files)[l], e) {
      var f :| f in SetsOf(files)[l] && InFile(tb, f, e);
      var i :| 0 <= i < |files[l]| && files[l][i] == f;
    }
  }

  lemma LevelsApart(tb: Tables, v: Version, l: nat, x: Entry, y: Entry)
    requires Sound(tb, v) && l < |v| && InLevelsBelow(tb, v, l, x) && InLevel(tb, v[l], y)
    ensures x.key != y.key
  {
    hide Sound; hide InLevel;
    var j: nat :| j < l && InLevel(tb, v[j], x);
    if x.key == y.key {
      SoundOrder(tb, v, j, x, l, y);
    }
  }

  /** The sources collected so far share no key with the version. */
  ghost predicate NewFrom(tb: Tables, v: Version, tables0: seq<Table>) {
    forall x, e :: Holds(tables0, x) && InVersion(tb, v, e) ==> x.key != e.key
  }

  /** Version::AddIterators: every level-0 file, then each deeper level. */
  method AddIterators(tb: Tables, files: seq<seq<File>>, tables0: seq<Table>) returns (tables: seq<Table>)
    requires Reading.FilesOk(tb, files) && NoRepeats(files[0])
    requires Apart(tables0) && NewFrom(tb, SetsOf(files), tables0)
    ensures Apart(tables)
    ensures forall e :: Holds(tables, e) <==> Holds(tables0, e) || InVersion(tb, SetsOf(files), e)
  {
    hide Apart; hide Holds; hide FileOk; hide Reading.FilesOk; hide Sound; hide AgeOrdered; hide FS.SortedFiles; hide InFile;
    hide NewFrom;
    ghost var v := SetsOf(files);
    Reading.FilesSound(tb, files);
    Reading.FilesAt(tb, files, 0);
    ZeroApart(tb, files[0]);
    NothingYet(tb, v);
    NewKeys(tb, files, 0, tables0, tables0);
    tables := AddFiles(tb, files[0], tables0);
    MoreLevels(tb, files, 0, tables0, tables0, tables);
    for l := 1 to NUM_LEVELS
      invariant Apart(tables)
      invariant forall e :: Holds(tables, e) <==> Holds(tables0, e) || InLevelsBelow(tb, v, l, e)
    {
      Reading.FilesAt(tb, files, l);
      NewKeys(tb, files, l, tables0, tables);
      ghost var was := tables;
      tables := AddLevel(tb, files[l], tables);
      MoreLevels(tb, files, l, tables0, was, tables);
    }
    AllLevels(tb, v);
  }

  /** No file is listed twice. */
  ghost predicate NoRepeats(files: seq<File>) {
    forall i, j :: 0 <= i < j < |files| ==> files[i] != files[j]
  }

  lemma NothingYet(tb: Tables, v: Version)
    ensures forall e :: !InLevelsBelow(tb, v, 0, e)
  {
  }

  lemma ZeroApart(tb: Tables, files: seq<File>)
    requires NoRepeats(files) && AgeOrdered(tb, SetOf(files)) && (forall f :: f in files ==> FileOk(tb, f))
    requires forall f, g :: f in files && g in files && f.number == g.number ==> f == g
    ensures FilesApart(tb, files) && AllOk(tb, files)
  {
    hide FileOk; hide InFile;
    forall i: nat, j: nat, x, y | i < j < |files| && InFile(tb, files[i], x) && InFile(tb, files[j], y)
      ensures x.key != y.key
    {
      assert files[i] in SetOf(files) && files[j] in SetOf(files) && files[i] != files[j];
      assert files[i] in files && files[j] in files;
      assert files[i].number != files[j].number;
    }
  }

  lemma NewKeys(tb: Tables, files: seq<seq<File>>, l: nat, tables0: seq<Table>, tables: seq<Table>)
    requires |files| == NUM_LEVELS && l < NUM_LEVELS && Sound(tb, SetsOf(files)) && NewFrom(tb, SetsOf(files), tables0)
    requires forall f :: f in files[l] ==> FileOk(tb, f)
    requires forall e :: Holds(tables, e) ==> Holds(tables0, e) || InLevelsBelow(tb, SetsOf(files), l, e)
    ensures AllOk(tb, files[l])
    ensures forall x, i, y :: Holds(tables, x) && 0 <= i < |files[l]| && InFile(tb, files[l][i], y) ==> x.key != y.key
  {
    hide Holds; hide FileOk; hide Sound; hide InLevelsBelow; hide SetsOf; hide InFile;
    SetsLength(files);
    forall x, i, y | Holds(tables, x) && 0 <= i < |files[l]| && InFile(tb, files[l][i], y)
      ensures x.key != y.key
    {
      LevelMember(tb, files, l, y);
      hide InLevel;
      assert InVersion(tb, SetsOf(files), y);
      if !Holds(tables0, x) {
        LevelsApart(tb, SetsOf(files), l, x, y);
      }
    }
  }

  lemma MoreLevels(tb: Tables, files: seq<seq<File>>, l: nat, tables0: seq<Table>, was: seq<Table>, tables: seq<Table>)
    requires |files| == NUM_LEVELS && l < NUM_LEVELS
    requires forall e :: Holds(was, e) <==> Holds(tables0, e) || InLevelsBelow(tb, SetsOf(files), l, e)
    requires forall e :: Holds(tables, e) <==> Holds(was, e) || exists i :: 0 <= i < |files[l]| && InFile(tb, files[l][i], e)
    ensures forall e :: Holds(tables, e) <==> Holds(tables0, e) || InLevelsBelow(tb, SetsOf(files), l + 1, e)
  {
    hide Holds; hide InFile; hide SetsOf;
    SetsLength(files);
    forall e
      ensures Holds(tables, e) <==> Holds(tables0, e) || InLevelsBelow(tb, SetsOf(files), l + 1, e)
    {
      LevelMember(tb, files, l, e);
      hide InLevel;
      StepBelow(tb, SetsOf(files), l, e);
      hide InLevelsBelow;
    }
  }

  lemma SetsLength(files: seq<seq<File>>)
    ensures |SetsOf(files)| == |files|
  {
  }

  lemma StepBelow(tb: Tables, v: Version, l: nat, e: Entry)
    requires l < |v|
    ensures InLevelsBelow(tb, v, l + 1, e) <==> InLevelsBelow(tb, v, l, e) || InLevel(tb, v[l], e)
  {
    hide InLevel;
  }

  lemma AllLevels(tb: Tables, v: Version)
    requires |v| == NUM_LEVELS
    ensures forall e :: InLevelsBelow(tb, v, NUM_LEVELS, e) <==> InVersion(tb, v, e)
  {
    hide InLevel;
  }
}
