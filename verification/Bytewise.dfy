/** The default user comparator (util/comparator.cc). */
module Bytewise {
  import opened Keys
  import opened Coding

  /** Slice::compare(a, b) < 0. */
  predicate BytesLess(a: Bytes, b: Bytes)
    decreases |a|
  {
    if b == [] then false
    else if a == [] then true
    else if a[0] != b[0] then a[0] < b[0]
    else BytesLess(a[1..], b[1..])
  }

  lemma {:induction false} BytesTotal(a: Bytes, b: Bytes)
    ensures BytesLess(a, b) || BytesLess(b, a) || a == b
    ensures !(BytesLess(a, b) && BytesLess(b, a)) && !BytesLess(a, a)
    decreases |a|
  {
    if a != [] {
      BytesTotal(a[1..], a[1..]);
      if b != [] && a[0] == b[0] {
        BytesTotal(a[1..], b[1..]);
        assert a == [a[0]] + a[1..] && b == [b[0]] + b[1..];
      }
    }
  }

  lemma {:induction false} BytesTransitive(a: Bytes, b: Bytes, c: Bytes)
    requires BytesLess(a, b) && BytesLess(b, c)
    ensures BytesLess(a, c)
    decreases |a|
  {
    if a != [] && a[0] == b[0] == c[0] {
      BytesTransitive(a[1..], b[1..], c[1..]);
    }
  }

  /** Strings that differ first at position n compare as their bytes do there. */
  lemma {:induction false} DifferAt(a: Bytes, b: Bytes, n: nat)
    requires n < |a| && n < |b| && a[..n] == b[..n] && a[n] != b[n]
    ensures BytesLess(a, b) <==> a[n] < b[n]
    decreases n
  {
    if n > 0 {
      assert a[0] == a[..n][0] == b[..n][0] == b[0];
      assert a[1..][..n - 1] == a[..n][1..] && b[1..][..n - 1] == b[..n][1..];
      DifferAt(a[1..], b[1..], n - 1);
    }
  }

  /** The first position where two strings differ, when neither is a prefix of
      the other. */
  ghost predicate FirstDifference(a: Bytes, b: Bytes, n: nat) {
    n < |a| && n < |b| && a[..n] == b[..n] && a[n] != b[n]
  }

  lemma DifferOnce(a: Bytes, b: Bytes, m: nat, n: nat)
    requires FirstDifference(a, b, m) && FirstDifference(a, b, n)
    ensures m == n
  {
  }

  /** Up to the first difference there is no room between two strings. */
  lemma {:induction false} NothingShorter(start: Bytes, limit: Bytes, n: nat, x: Bytes)
    requires FirstDifference(start, limit, n) && BytesLess(start, x) && BytesLess(x, limit)
    ensures |x| > n
    decreases n
  {
    if n > 0 {
      assert start[0] == start[..n][0] == limit[..n][0] == limit[0];
      assert start[1..][..n - 1] == start[..n][1..] && limit[1..][..n - 1] == limit[..n][1..];
      NothingShorter(start[1..], limit[1..], n - 1, x[1..]);
    }
  }

  /** A short string in [start, limit) when start is before limit: at the first
      difference, if the bytes there leave room, and then none between the two
      is shorter. */
  method FindShortestSeparator(start: Bytes, limit: Bytes) returns (r: Bytes)
    ensures !BytesLess(r, start) && |r| <= |start|
    ensures BytesLess(start, limit) ==> BytesLess(r, limit)
    ensures !BytesLess(start, limit) ==> r == start
    ensures forall n: nat :: FirstDifference(start, limit, n) ==>
              r == if start[n] < 0xFF && start[n] + 1 < limit[n] then start[..n] + [start[n] + 1] else start
    ensures (forall n: nat :: !FirstDifference(start, limit, n)) ==> r == start
    ensures r != start ==> forall x :: BytesLess(start, x) && BytesLess(x, limit) ==> |x| >= |r|
  {
    r := start;
    BytesTotal(start, start);
    var n := 0;
    while n < |start| && n < |limit| && start[n] == limit[n]
      invariant n <= |start| && n <= |limit| && start[..n] == limit[..n]
    {
      n := n + 1;
    }
    if n < |start| && n < |limit| {
      DifferAt(start, limit, n);
      assert FirstDifference(start, limit, n);
      forall m: nat | FirstDifference(start, limit, m)
        ensures m == n
      {
        DifferOnce(start, limit, m, n);
      }
      if start[n] < 0xFF && start[n] + 1 < limit[n] {
        r := start[..n] + [start[n] + 1];
        assert r[..n] == start[..n] == limit[..n];
        DifferAt(r, limit, n);
        DifferAt(start, r, n);
        BytesTotal(start, r);
        forall x | BytesLess(start, x) && BytesLess(x, limit)
          ensures |x| > n
        {
          NothingShorter(start, limit, n, x);
        }
      }
    } else {
      forall m: nat | FirstDifference(start, limit, m)
        ensures false
      {
        PrefixDiffers(start, limit, n, m);
      }
    }
  }

  lemma PrefixDiffers(a: Bytes, b: Bytes, n: nat, m: nat)
    requires n <= |a| && n <= |b| && a[..n] == b[..n] && (n == |a| || n == |b|)
    ensures !FirstDifference(a, b, m)
  {
    if m < n {
      assert a[m] == a[..n][m] == b[..n][m] == b[m];
    }
  }

  /** No string after the key is shorter than its first part that can grow, and
      none of that length comes before it grown by one. */
  lemma {:induction false} LeastAfter(key: Bytes, i: nat, x: Bytes)
    requires i < |key| && key[i] != 0xFF && (forall j :: 0 <= j < i ==> key[j] == 0xFF) && BytesLess(key, x)
    ensures |x| > i && (|x| == i + 1 ==> !BytesLess(x, key[..i] + [key[i] + 1]))
    decreases i
  {
    var r := key[..i] + [key[i] + 1];
    if i > 0 {
      assert x[0] == 0xFF;
      LeastAfter(key[1..], i - 1, x[1..]);
      assert r[1..] == key[1..][..i - 1] + [key[1..][i - 1] + 1];
    }
  }

  /** The first byte that can grow. */
  ghost predicate FirstRoom(key: Bytes, i: nat) {
    i < |key| && key[i] != 0xFF && forall j :: 0 <= j < i ==> key[j] == 0xFF
  }

  /** A short string at or after the key: the least of the shortest strings after
      it, or the key itself when none as short is. */
  method FindShortSuccessor(key: Bytes) returns (r: Bytes)
    ensures !BytesLess(r, key) && |r| <= |key|
    ensures r == key <==> forall i :: 0 <= i < |key| ==> key[i] == 0xFF
    ensures forall i: nat :: FirstRoom(key, i) ==> |r| == i + 1
    ensures r != key ==> forall x :: BytesLess(key, x) ==> |x| >= |r| && (|x| == |r| ==> !BytesLess(x, r))
  {
    BytesTotal(key, key);
    for i := 0 to |key|
      invariant forall j :: 0 <= j < i ==> key[j] == 0xFF
    {
      if key[i] != 0xFF {
        r := key[..i] + [key[i] + 1];
        assert r[..i] == key[..i] && r[i] != key[i];
        DifferAt(key, r, i);
        BytesTotal(key, r);
        forall x | BytesLess(key, x)
          ensures |x| >= |r| && (|x| == |r| ==> !BytesLess(x, r))
        {
          LeastAfter(key, i, x);
        }
        return;
      }
    }
    return key;
  }

  // ----- ranks

  /** Where a string stands in the order, as a number in [0, 1). */
  function RankOf(s: Bytes): (r: Rank)
    ensures 0.0 <= r < 1.0
    ensures s != [] ==> s[0] as real + 1.0 <= 257.0 * r < s[0] as real + 2.0
  {
    if s == [] then 0.0 else (s[0] as real + 1.0 + RankOf(s[1..])) / 257.0
  }

  /** Ranks are ordered exactly as the strings they stand for. */
  lemma {:induction false} RankIsOrder(a: Bytes, b: Bytes)
    ensures RankOf(a) < RankOf(b) <==> BytesLess(a, b)
    ensures RankOf(a) == RankOf(b) <==> a == b
    decreases |a|
  {
    if a != [] && b != [] && a[0] == b[0] {
      RankIsOrder(a[1..], b[1..]);
      assert a == [a[0]] + a[1..] && b == [b[0]] + b[1..];
    }
  }
}
