/** Searching the ordered file list of a level (db/version_set.cc: FindFile,
    SomeFileOverlapsRange, GetOverlappingInputs). */
module FileSearch {
  import opened Keys
  import opened Versions

  predicate FileWf(f: File) {
    !Less(f.largest, f.smallest) && f.smallest.seqno <= MAX_SEQUENCE && f.largest.seqno <= MAX_SEQUENCE
  }

  ghost predicate AllWf(files: seq<File>) {
    forall i :: 0 <= i < |files| ==> FileWf(files[i])
  }

  /** A level above 0: disjoint files in key order. */
  ghost predicate SortedFiles(files: seq<File>) {
    AllWf(files) && forall i, j :: 0 <= i < j < |files| ==> Less(files[i].largest, files[j].smallest)
  }

  /** Binary search for the first file whose largest key is not before `key`. */
  method FindFile(files: seq<File>, key: Key) returns (right: nat)
    requires SortedFiles(files)
    ensures right <= |files|
    ensures forall i :: 0 <= i < right ==> Less(files[i].largest, key)
    ensures forall i :: right <= i < |files| ==> !Less(files[i].largest, key)
  {
    var left := 0;
    right := |files|;
    while left < right
      invariant left <= right <= |files|
      invariant forall i :: 0 <= i < left ==> Less(files[i].largest, key)
      invariant forall i :: right <= i < |files| ==> !Less(files[i].largest, key)
    {
      var mid := (left + right) / 2;
      if Less(files[mid].largest, key) {
        assert forall i :: left <= i < mid ==> Less(files[i].largest, files[mid].smallest);
        left := mid + 1;
      } else {
        assert forall i :: mid < i < |files| ==> Less(files[mid].largest, files[i].smallest);
        right := mid;
      }
    }
  }

  /** A null bound (None) is before, respectively after, every key. */
  predicate AfterFile(user: Option<Rank>, f: File) {
    user.Some? && user.value > f.largest.user
  }

  predicate BeforeFile(user: Option<Rank>, f: File) {
    user.Some? && user.value < f.smallest.user
  }

  predicate Touches(f: File, lo: Option<Rank>, hi: Option<Rank>) {
    !AfterFile(lo, f) && !BeforeFile(hi, f)
  }

  /** The answer of a scan over all files, found by binary search when the
      files are disjoint and sorted. */
  method SomeFileOverlapsRange(disjointSorted: bool, files: seq<File>, lo: Option<Rank>, hi: Option<Rank>) returns (b: bool)
    requires AllWf(files) && (disjointSorted ==> SortedFiles(files))
    ensures b <==> exists i :: 0 <= i < |files| && Touches(files[i], lo, hi)
  {
    if !disjointSorted {
      for i := 0 to |files|
        invariant forall j :: 0 <= j < i ==> !Touches(files[j], lo, hi)
      {
        if !(AfterFile(lo, files[i]) || BeforeFile(hi, files[i])) {
          return true;
        }
      }
      return false;
    }
    var index := 0;
    if lo.Some? {
      index := FindFile(files, Key(lo.value, MAX_SEQUENCE, Put));
    }
    assert forall i :: 0 <= i < |files| ==> (i < index <==> AfterFile(lo, files[i])) by {
      forall i | 0 <= i < |files|
        ensures i < index <==> AfterFile(lo, files[i])
      {
        assert FileWf(files[i]);
      }
    }
    if index >= |files| {
      return false;
    }
    forall i | index <= i < |files|
      ensures BeforeFile(hi, files[index]) ==> BeforeFile(hi, files[i])
    {
      if i > index {
        assert FileWf(files[index]) && Less(files[index].largest, files[i].smallest);
      }
    }
    return !BeforeFile(hi, files[index]);
  }

  // ----- GetOverlappingInputs

  function TouchingFiles(files: seq<File>, lo: Option<Rank>, hi: Option<Rank>): (r: seq<File>)
    ensures forall f :: f in r <==> f in files && Touches(f, lo, hi)
  {
    if files == [] then []
    else
      var n := |files| - 1;
      TouchingFiles(files[..n], lo, hi) + if Touches(files[n], lo, hi) then [files[n]] else []
  }

  predicate Below(a: Option<Rank>, b: Option<Rank>) {
    a.None? || (b.Some? && a.value <= b.value)
  }

  predicate Above(a: Option<Rank>, b: Option<Rank>) {
    a.None? || (b.Some? && a.value >= b.value)
  }

  /** The range [lo, hi] covers the file. */
  predicate Covers(lo: Option<Rank>, hi: Option<Rank>, f: File) {
    Below(lo, Some(f.smallest.user)) && Above(hi, Some(f.largest.user))
  }

  /** Every file that meets the range lies inside it. */
  ghost predicate ClosedRange(files: seq<File>, lo: Option<Rank>, hi: Option<Rank>) {
    forall i :: 0 <= i < |files| && Touches(files[i], lo, hi) ==> Covers(lo, hi, files[i])
  }

  /** [lo, hi] is the least closed range around [begin, end]. */
  ghost predicate LeastClosed(files: seq<File>, begin: Option<Rank>, end: Option<Rank>, lo: Option<Rank>, hi: Option<Rank>) {
    && ClosedRange(files, lo, hi) && Below(lo, begin) && Above(hi, end)
    && forall a, b :: ClosedRange(files, a, b) && Below(a, begin) && Above(b, end) ==> Below(a, lo) && Above(b, hi)
  }

  /** Files that start before lo or end after hi: each restart removes one. */
  function Outside(files: seq<File>, lo: Option<Rank>, hi: Option<Rank>): nat {
    if files == [] then 0
    else
      var f := files[|files| - 1];
      Outside(files[..|files| - 1], lo, hi)
      + (if lo.Some? && f.smallest.user < lo.value then 1 else 0)
      + (if hi.Some? && f.largest.user > hi.value then 1 else 0)
  }

  lemma {:induction false} OutsideShrinks(files: seq<File>, lo: Option<Rank>, hi: Option<Rank>, lo': Option<Rank>, hi': Option<Rank>)
    requires lo.Some? == lo'.Some? && hi.Some? == hi'.Some?
    requires Below(lo', lo) && Above(hi', hi)
    ensures Outside(files, lo', hi') <= Outside(files, lo, hi)
  {
    if files != [] {
      OutsideShrinks(files[..|files| - 1], lo, hi, lo', hi');
    }
  }

  lemma {:induction false} OutsideDrops(files: seq<File>, i: nat, lo: Option<Rank>, hi: Option<Rank>, lo': Option<Rank>, hi': Option<Rank>)
    requires i < |files| && lo.Some? == lo'.Some? && hi.Some? == hi'.Some?
    requires Below(lo', lo) && Above(hi', hi)
    requires || (lo.Some? && files[i].smallest.user < lo.value && lo' == Some(files[i].smallest.user))
             || (hi.Some? && files[i].largest.user > hi.value && hi' == Some(files[i].largest.user))
    ensures Outside(files, lo', hi') < Outside(files, lo, hi)
  {
    var n := |files| - 1;
    if i < n {
      OutsideDrops(files[..n], i, lo, hi, lo', hi');
    } else {
      OutsideShrinks(files[..n], lo, hi, lo', hi');
    }
  }

  /** A closed range around [lo, hi] covers every file that meets [lo, hi]. */
  lemma WiderTouches(files: seq<File>, i: nat, lo: Option<Rank>, hi: Option<Rank>, a: Option<Rank>, b: Option<Rank>)
    requires i < |files| && Touches(files[i], lo, hi) && ClosedRange(files, a, b) && Below(a, lo) && Above(b, hi)
    ensures Covers(a, b, files[i])
  {
    assert Touches(files[i], a, b);
  }

  /** The files of a level meeting [begin, end]; at level 0 the range grows
      until no further file sticks out, restarting the scan each time. */
  method GetOverlappingInputs(level: nat, files: seq<File>, begin: Option<Rank>, end: Option<Rank>)
    returns (inputs: seq<File>, lo: Option<Rank>, hi: Option<Rank>)
    ensures inputs == TouchingFiles(files, lo, hi)
    ensures level > 0 ==> lo == begin && hi == end
    ensures level == 0 ==> LeastClosed(files, begin, end, lo, hi)
    ensures lo.Some? == begin.Some? && hi.Some? == end.Some?
  {
    inputs, lo, hi := [], begin, end;
    var i := 0;
    while i < |files|
      invariant i <= |files|
      invariant lo.Some? == begin.Some? && hi.Some? == end.Some?
      invariant inputs == TouchingFiles(files[..i], lo, hi)
      invariant level > 0 ==> lo == begin && hi == end
      invariant Below(lo, begin) && Above(hi, end)
      invariant level == 0 ==> forall j :: 0 <= j < i && Touches(files[j], lo, hi) ==> Covers(lo, hi, files[j])
      invariant level == 0 ==> forall a, b :: ClosedRange(files, a, b) && Below(a, begin) && Above(b, end) ==> Below(a, lo) && Above(b, hi)
      decreases Outside(files, lo, hi), |files| - i
    {
      var f := files[i];
      i := i + 1;
      assert files[..i][..i - 1] == files[..i - 1];
      if AfterFile(lo, f) {
      } else if BeforeFile(hi, f) {
      } else {
        inputs := inputs + [f];
        if level == 0 {
          forall a, b | ClosedRange(files, a, b) && Below(a, begin) && Above(b, end)
            ensures Covers(a, b, f)
          {
            WiderTouches(files, i - 1, lo, hi, a, b);
          }
          if lo.Some? && f.smallest.user < lo.value {
            OutsideDrops(files, i - 1, lo, hi, Some(f.smallest.user), hi);
            lo, inputs, i := Some(f.smallest.user), [], 0;
          } else if hi.Some? && f.largest.user > hi.value {
            OutsideDrops(files, i - 1, lo, hi, lo, Some(f.largest.user));
            hi, inputs, i := Some(f.largest.user), [], 0;
          }
        }
      }
    }
    assert files[..i] == files;
  }
}
