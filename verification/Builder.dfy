/** The ordered file lists of a version (VersionSet::Builder::SaveTo). */
module Builder {
  import opened Keys
  import opened Versions
  import opened Install
  import opened Manifest
  import opened Picking

  /** BySmallestKey: smallest key first, ties by file number. */
  predicate BySmallest(f: File, g: File) {
    Less(f.smallest, g.smallest) || (f.smallest == g.smallest && f.number < g.number)
  }

  ghost predicate Ordered(files: seq<File>) {
    forall i, j :: 0 <= i < j < |files| ==> BySmallest(files[i], files[j])
  }

  /** All of `files` before f. */
  ghost predicate AllBefore(files: seq<File>, f: File) {
    forall i :: 0 <= i < |files| ==> BySmallest(files[i], f)
  }

  lemma OrderedAppend(files: seq<File>, f: File)
    requires Ordered(files) && AllBefore(files, f)
    ensures Ordered(files + [f])
  {
  }

  ghost predicate Apart(a: seq<File>, b: seq<File>) {
    forall f, g :: f in a && g in b ==> f.number != g.number
  }

  lemma Comparable(f: File, g: File)
    requires f.number != g.number
    ensures BySmallest(f, g) || BySmallest(g, f)
  {
    assert Tag(f.smallest) == Tag(g.smallest) ==> f.smallest.seqno == g.smallest.seqno;
  }

  /** The remaining input lies after everything written so far. */
  ghost predicate Ahead(r: seq<File>, rest: seq<File>) {
    forall i, j :: 0 <= i < |r| && 0 <= j < |rest| ==> BySmallest(r[i], rest[j])
  }

  /** Merges the base files with the added ones, both in order, and leaves out
      the deleted numbers. */
  method SaveTo(base: seq<File>, added: seq<File>, deleted: set<nat>) returns (r: seq<File>)
    requires Ordered(base) && Ordered(added) && Apart(base, added)
    ensures Ordered(r)
    ensures forall f :: f in r <==> (f in base || f in added) && f.number !in deleted
  {
    r := [];
    var bi := 0;
    for ai := 0 to |added|
      invariant bi <= |base| && Ordered(r)
      invariant forall f :: f in r <==> (f in base[..bi] || f in added[..ai]) && f.number !in deleted
      invariant Ahead(r, base[bi..]) && Ahead(r, added[ai..])
    {
      var a := added[ai];
      bi, r := CopySmaller(base, bi, a, added[ai..], r, deleted, added[..ai]);
      assert added[..ai + 1] == added[..ai] + [a];
      assert added[ai..][0] == a;
      r := PushUnlessDeleted(r, a, base[bi..], added[ai + 1..], deleted);
    }
    bi, r := CopyRest(base, bi, r, deleted, added);
  }

  method PushUnlessDeleted(r: seq<File>, f: File, after: seq<File>, after2: seq<File>, deleted: set<nat>) returns (r': seq<File>)
    requires Ordered(r) && AllBefore(r, f) && Ahead(r, after) && Ahead(r, after2)
    requires Ahead([f], after) && Ahead([f], after2)
    ensures Ordered(r') && Ahead(r', after) && Ahead(r', after2)
    ensures forall g :: g in r' <==> g in r || (g == f && f.number !in deleted)
  {
    r' := r;
    if f.number !in deleted {
      OrderedAppend(r, f);
      r' := r + [f];
      assert [f][0] == f;
    }
  }

  /** Copies the base files that come before a. */
  method CopySmaller(base: seq<File>, start: nat, a: File, rest: seq<File>, r0: seq<File>, deleted: set<nat>, ghost done: seq<File>)
    returns (bi: nat, r: seq<File>)
    requires start <= |base| && Ordered(base) && Ordered(r0) && Ordered(rest) && rest != [] && rest[0] == a && Apart(base, rest)
    requires Ahead(r0, base[start..]) && Ahead(r0, rest)
    requires forall f :: f in r0 <==> (f in base[..start] || f in done) && f.number !in deleted
    ensures start <= bi <= |base| && Ordered(r) && Ahead(r, base[bi..]) && Ahead(r, rest) && AllBefore(r, a)
    ensures Ahead([a], base[bi..]) && Ahead([a], rest[1..])
    ensures forall f :: f in r <==> (f in base[..bi] || f in done) && f.number !in deleted
  {
    bi, r := start, r0;
    while bi < |base| && !BySmallest(a, base[bi])
      invariant start <= bi <= |base| && Ordered(r) && Ahead(r, base[bi..]) && Ahead(r, rest)
      invariant forall f :: f in r <==> (f in base[..bi] || f in done) && f.number !in deleted
    {
      var b := base[bi];
      assert base[..bi + 1] == base[..bi] + [b];
      assert base[bi..][0] == b && b in base && a in rest;
      Comparable(a, b);
      TransAhead(b, rest);
      AheadTail(base, bi, r);
      r := PushUnlessDeleted(r, b, base[bi + 1..], rest, deleted);
      bi := bi + 1;
    }
    ghost var left, later := base[bi..], rest[1..];
    assert forall j :: 0 <= j < |left| ==> left[j] == base[bi + j];
    assert forall j :: 0 <= j < |later| ==> later[j] == rest[1 + j];
  }

  lemma TransAhead(b: File, rest: seq<File>)
    requires rest != [] && Ordered(rest) && BySmallest(b, rest[0])
    ensures Ahead([b], rest)
  {
  }

  lemma AheadTail(base: seq<File>, bi: nat, r: seq<File>)
    requires bi < |base| && Ordered(base) && Ahead(r, base[bi..])
    ensures Ahead([base[bi]], base[bi + 1..]) && Ahead(r, base[bi + 1..])
  {
    var here, tail := base[bi..], base[bi + 1..];
    assert forall j :: 0 <= j < |tail| ==> tail[j] == base[bi + 1 + j];
    assert forall j :: 0 <= j < |tail| ==> tail[j] == here[1 + j];
  }

  method CopyRest(base: seq<File>, start: nat, r0: seq<File>, deleted: set<nat>, ghost added: seq<File>) returns (bi: nat, r: seq<File>)
    requires start <= |base| && Ordered(base) && Ordered(r0) && Ahead(r0, base[start..])
    requires forall f :: f in r0 <==> (f in base[..start] || f in added) && f.number !in deleted
    ensures Ordered(r) && bi == |base|
    ensures forall f :: f in r <==> (f in base || f in added) && f.number !in deleted
  {
    bi, r := start, r0;
    while bi < |base|
      invariant start <= bi <= |base| && Ordered(r) && Ahead(r, base[bi..])
      invariant forall f :: f in r <==> (f in base[..bi] || f in added) && f.number !in deleted
    {
      var b := base[bi];
      assert base[..bi + 1] == base[..bi] + [b];
      assert base[bi..][0] == b;
      AheadTail(base, bi, r);
      r := PushUnlessDeleted(r, b, base[bi + 1..], [], deleted);
      bi := bi + 1;
    }
    assert base[..|base|] == base;
  }

  /** Builder::Apply: the added files in a set ordered by smallest key. */
  method OrderAdded(files: seq<File>) returns (r: seq<File>)
    requires forall i, j :: 0 <= i < j < |files| ==> files[i].number != files[j].number
    ensures Ordered(r)
    ensures forall f :: f in r <==> f in files
  {
    r := [];
    for i := 0 to |files|
      invariant Ordered(r)
      invariant forall f :: f in r <==> f in files[..i]
    {
      assert files[..i + 1] == files[..i] + [files[i]];
      forall f | f in r
        ensures f.number != files[i].number
      {
        var j :| 0 <= j < i && files[..i][j] == f;
        assert files[j] == f;
      }
      ApartOne(r, files[i]);
      r := SaveTo(r, [files[i]], {});
    }
    assert files[..|files|] == files;
  }

  lemma ApartOne(r: seq<File>, f: File)
    requires forall g :: g in r ==> g.number != f.number
    ensures Apart(r, [f]) && Ordered([f])
  {
  }

  /** Builder::Apply and SaveTo over all levels. */
  method ApplyEdit(files: seq<seq<File>>, deleted: seq<set<nat>>, added: seq<seq<File>>) returns (r: seq<seq<File>>)
    requires |files| == |deleted| == |added| == NUM_LEVELS
    requires forall l :: 0 <= l < NUM_LEVELS ==> Ordered(files[l]) && Apart(files[l], added[l])
    requires forall l, i, j :: 0 <= l < NUM_LEVELS && 0 <= i < j < |added[l]| ==> added[l][i].number != added[l][j].number
    ensures |r| == NUM_LEVELS && forall l :: 0 <= l < NUM_LEVELS ==> Ordered(r[l])
    ensures forall l :: 0 <= l < NUM_LEVELS ==> SetOf(r[l]) == EditLevel(SetOf(files[l]), deleted[l], SetOf(added[l]))
  {
    r := [];
    for l := 0 to NUM_LEVELS
      invariant |r| == l
      invariant forall k :: 0 <= k < l ==> Ordered(r[k])
      invariant forall k :: 0 <= k < l ==> SetOf(r[k]) == EditLevel(SetOf(files[k]), deleted[k], SetOf(added[k]))
    {
      var a := OrderAdded(added[l]);
      var numbers := set f | f in added[l] :: f.number;
      var out := SaveTo(files[l], a, deleted[l] - numbers);
      SameAsEditLevel(files[l], added[l], deleted[l], out);
      r := r + [out];
    }
  }

  lemma SameAsEditLevel(base: seq<File>, added: seq<File>, deleted: set<nat>, out: seq<File>)
    requires forall f :: f in out <==> (f in base || f in added) && f.number !in deleted - (set g | g in added :: g.number)
    ensures SetOf(out) == EditLevel(SetOf(base), deleted, SetOf(added))
  {
    assert (set g | g in added :: g.number) == Numbers(SetOf(added));
  }

  // ----- an edit applied to the file lists of all levels

  ghost predicate AllOrdered(files: seq<seq<File>>) {
    |files| == NUM_LEVELS && forall l :: 0 <= l < NUM_LEVELS ==> Ordered(files[l])
  }

  ghost predicate NumbersApart(files: seq<File>) {
    forall i, j :: 0 <= i < j < |files| ==> files[i].number != files[j].number
  }

  /** The files an edit adds have numbers their levels do not use yet. */
  ghost predicate AddsNew(files: seq<seq<File>>, added: seq<seq<File>>) {
    |files| == |added| && forall l :: 0 <= l < |files| ==> Apart(files[l], added[l]) && NumbersApart(added[l])
  }

  method EditFiles(files: seq<seq<File>>, deleted: seq<set<nat>>, added: seq<seq<File>>, ghost e: Edit) returns (r: seq<seq<File>>)
    requires AllOrdered(files) && AddsNew(files, added)
    requires e.deleted == deleted && e.added == SetsOf(added)
    ensures AllOrdered(r) && SetsOf(r) == EditVersion(SetsOf(files), e)
  {
    assert |deleted| == NUM_LEVELS;
    NewPerLevel(files, added);
    r := ApplyEdit(files, deleted, added);
    forall l | 0 <= l < NUM_LEVELS
      ensures SetsOf(r)[l] == EditVersion(SetsOf(files), e)[l]
    {
      assert SetsOf(added)[l] == SetOf(added[l]);
      hide EditLevel; hide SetOf; hide Ordered; hide Apart;
    }
    hide EditLevel; hide SetOf; hide Ordered; hide Apart;
  }

  lemma NewPerLevel(files: seq<seq<File>>, added: seq<seq<File>>)
    requires AddsNew(files, added)
    ensures forall l, i, j :: 0 <= l < |files| && 0 <= i < j < |added[l]| ==> added[l][i].number != added[l][j].number
  {
    forall l, i, j | 0 <= l < |files| && 0 <= i < j < |added[l]|
      ensures added[l][i].number != added[l][j].number
    {
      assert NumbersApart(added[l]);
    }
  }

  const NO_FILES: seq<seq<File>> := [[], [], [], [], [], [], []]

  /** Files added at one level only. */
  lemma AddsAt(files: seq<seq<File>>, level: nat, made: seq<File>)
    requires |files| == NUM_LEVELS && level < NUM_LEVELS && Apart(files[level], made) && NumbersApart(made)
    ensures AddsNew(files, NO_FILES[level := made])
    ensures SetsOf(NO_FILES[level := made]) == EMPTY_VERSION[level := SetOf(made)]
  {
    var added := NO_FILES[level := made];
    forall l | 0 <= l < NUM_LEVELS
      ensures Apart(files[l], added[l]) && NumbersApart(added[l])
      ensures SetsOf(added)[l] == EMPTY_VERSION[level := SetOf(made)][l]
    {
      assert added[l] == if l == level then made else [];
    }
  }

  // ----- the files of freshly written tables

  /** One file per table, numbered from n on. */
  method ListFiles(outs: seq<Table>, n: nat) returns (made: seq<File>)
    requires Chunks(outs)
    ensures |made| == |outs| && SetOf(made) == NewFiles(outs, n)
    ensures forall i :: 0 <= i < |made| ==> made[i].number == n + i
  {
    made := [];
    for i := 0 to |outs|
      invariant |made| == i && forall j :: 0 <= j < i ==> made[j] == FileOf(n + j, outs[j])
    {
      made := made + [FileOf(n + i, outs[i])];
    }
    forall f
      ensures f in made <==> f in NewFiles(outs, n)
    {
      if f in NewFiles(outs, n) {
        var i :| 0 <= i < |outs| && f == FileOf(n + i, outs[i]);
        assert made[i] == f;
      }
    }
  }

  lemma ListedApart(files: seq<File>, made: seq<File>, n: nat)
    requires (forall f :: f in files ==> f.number < n) && forall i :: 0 <= i < |made| ==> made[i].number == n + i
    ensures Apart(files, made) && NumbersApart(made)
  {
  }
}
