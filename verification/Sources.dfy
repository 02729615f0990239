/** The sorted sources that an internal iterator merges (Version::AddIterators,
    VersionSet::MakeInputIterator, DBImpl::NewInternalIterator). */
module Sources {
  import opened Keys
  import opened Versions
  import opened Merger
  import FS = FileSearch

  /** Sorted tables that share no key. */
  ghost predicate Apart(tables: seq<Table>) {
    && (forall i :: 0 <= i < |tables| ==> Sorted(tables[i]))
    && (forall i, j, x, y :: 0 <= i < j < |tables| && x in tables[i] && y in tables[j] ==> x.key != y.key)
  }

  ghost predicate KeysApart(a: Table, b: Table) {
    forall x, y :: x in a && y in b ==> x.key != y.key
  }

  lemma ApartPair(tables: seq<Table>, i: nat, j: nat)
    requires Apart(tables) && i < j < |tables|
    ensures KeysApart(tables[i], tables[j])
  {
  }

  /** Sources can be added one at a time. */
  lemma ApartAppend(tables: seq<Table>, t: Table)
    requires Apart(tables) && Sorted(t) && forall i :: 0 <= i < |tables| ==> KeysApart(tables[i], t)
    ensures Apart(tables + [t])
  {
    var all: seq<Table> := tables + [t];
    hide Sorted;
    forall i: nat, j: nat, x: Entry, y: Entry | i < j < |all| && x in all[i] && y in all[j]
      ensures x.key != y.key
    {
      assert i < |tables| && all[i] == tables[i];
      if j < |tables| {
        assert all[j] == tables[j];
      } else {
        assert all[j] == t && KeysApart(tables[i], t);
      }
    }
  }

  lemma {:induction false} InsertAll(all: Table, t: Table, n: nat) returns (r: Table)
    requires Sorted(all) && Sorted(t) && n <= |t| && KeysApart(all, t)
    ensures Sorted(r) && forall e :: e in r <==> e in all || e in t[..n]
  {
    r := all;
    if n > 0 {
      r := InsertAll(all, t, n - 1);
      var e := t[n - 1];
      assert t[..n] == t[..n - 1] + [e];
      NewKey(all, t, n, r);
      hide Sorted;
      InsertSorted(r, e);
      r := Insert(r, e);
    }
  }

  lemma NewKey(all: Table, t: Table, n: nat, r: Table)
    requires Sorted(t) && 0 < n <= |t| && KeysApart(all, t) && forall e :: e in r <==> e in all || e in t[..n - 1]
    ensures forall x :: x in r ==> x.key != t[n - 1].key
  {
    forall x | x in r
      ensures x.key != t[n - 1].key
    {
      if x in t[..n - 1] {
        var j :| 0 <= j < n - 1 && t[..n - 1][j] == x;
        assert Less(t[j].key, t[n - 1].key);
      } else {
        assert t[n - 1] in t;
      }
    }
  }

  /** Sources that share no key have a sorted union. */
  lemma {:induction false} UnionExists(tables: seq<Table>) returns (all: Table)
    requires Apart(tables)
    ensures Union(all, tables)
  {
    all := [];
    if tables != [] {
      var n := |tables| - 1;
      var front, t := tables[..n], tables[n];
      FrontApart(tables);
      all := UnionExists(front);
      UnionKeysApart(all, front, t);
      var r := InsertAll(all, t, |t|);
      assert t[..|t|] == t;
      UnionAppend(all, front, t, r);
      assert tables == front + [t];
      all := r;
    }
  }

  lemma FrontApart(tables: seq<Table>)
    requires tables != [] && Apart(tables)
    ensures Apart(tables[..|tables| - 1]) && Sorted(tables[|tables| - 1])
    ensures forall i :: 0 <= i < |tables| - 1 ==> KeysApart(tables[i], tables[|tables| - 1])
  {
    hide Sorted;
    var n := |tables| - 1;
    forall i | 0 <= i < n
      ensures KeysApart(tables[i], tables[n])
    {
      ApartPair(tables, i, n);
    }
  }

  lemma UnionKeysApart(all: Table, front: seq<Table>, t: Table)
    requires Union(all, front) && forall i :: 0 <= i < |front| ==> KeysApart(front[i], t)
    ensures KeysApart(all, t)
  {
    hide Sorted;
    forall x, y | x in all && y in t
      ensures x.key != y.key
    {
      var i :| 0 <= i < |front| && x in front[i];
      assert KeysApart(front[i], t);
    }
  }

  lemma UnionAppend(all: Table, front: seq<Table>, t: Table, r: Table)
    requires Union(all, front) && Sorted(t) && Sorted(r) && (forall e :: e in r <==> e in all || e in t)
    requires forall i :: 0 <= i < |front| ==> KeysApart(front[i], t)
    ensures Union(r, front + [t])
  {
    var tables: seq<Table> := front + [t];
    hide Sorted;
    forall i | 0 <= i < |tables|
      ensures Part(r, tables[i])
    {
      if i < |front| {
        assert tables[i] == front[i] && Part(all, front[i]);
      }
    }
    forall e | e in r
      ensures exists i :: 0 <= i < |tables| && e in tables[i]
    {
      if e in all {
        var i :| 0 <= i < |front| && e in front[i];
        assert e in tables[i];
      } else {
        assert e in tables[|front|];
      }
    }
    forall i: nat, j: nat, x: Entry, y: Entry | i < j < |tables| && x in tables[i] && y in tables[j]
      ensures x.key != y.key
    {
      assert tables[i] == front[i];
      if j < |front| {
        assert tables[j] == front[j];
      } else {
        assert KeysApart(front[i], t);
      }
    }
  }

  // ----- the files of one level, one after the other

  /** NewConcatenatingIterator: the tables of disjoint files in order. */
  function Concat(tb: Tables, files: seq<File>): Table {
    if files == [] then []
    else
      var f := files[|files| - 1];
      Concat(tb, files[..|files| - 1]) + if f.number in tb then tb[f.number] else []
  }

  ghost predicate AllOk(tb: Tables, files: seq<File>) {
    forall i :: 0 <= i < |files| ==> FileOk(tb, files[i])
  }

  lemma {:induction false} ConcatMembers(tb: Tables, files: seq<File>, e: Entry)
    ensures e in Concat(tb, files) <==> exists i :: 0 <= i < |files| && InFile(tb, files[i], e)
  {
    if files != [] {
      var n := |files| - 1;
      var front := files[..n];
      ConcatMembers(tb, front, e);
      if i :| 0 <= i < |front| && InFile(tb, front[i], e) {
        assert files[i] == front[i];
      }
      if i :| 0 <= i < |files| && InFile(tb, files[i], e) {
        assert i < n ==> front[i] == files[i];
      }
    }
  }

  lemma {:induction false} ConcatSorted(tb: Tables, files: seq<File>)
    requires AllOk(tb, files) && FS.SortedFiles(files)
    ensures Sorted(Concat(tb, files))
  {
    if files != [] {
      var n := |files| - 1;
      var front, f := files[..n], files[n];
      assert AllOk(tb, front) && FS.SortedFiles(front) && FileOk(tb, f);
      ConcatSorted(tb, front);
      forall x, y | x in Concat(tb, front) && y in tb[f.number]
        ensures Less(x.key, y.key)
      {
        ConcatMembers(tb, front, x);
        var i :| 0 <= i < |front| && InFile(tb, front[i], x);
        assert FileOk(tb, front[i]) && Less(files[i].largest, files[n].smallest);
        hide AllOk; hide FS.SortedFiles; hide Concat; hide FileOk;
        InFileRange(tb, front[i], x);
        InFileRange(tb, f, y);
      }
      hide AllOk; hide FS.SortedFiles;
      SortedJoin(Concat(tb, front), tb[f.number]);
    }
  }

  lemma SortedJoin(a: Table, b: Table)
    requires Sorted(a) && Sorted(b) && forall x, y :: x in a && y in b ==> Less(x.key, y.key)
    ensures Sorted(a + b)
  {
    hide Less;
    var t := a + b;
    forall i, j | 0 <= i < j < |t|
      ensures Less(t[i].key, t[j].key)
    {
      if i < |a| <= j {
        assert t[i] in a && t[j] in b;
      }
    }
  }
}
