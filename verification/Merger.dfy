/** Merging several sorted tables behind one cursor (table/merger.cc). */
module Merger {
  import opened Keys

  /** The child iterators' own positions: none when the child is not valid. */
  type Place = Option<nat>

  function From(t: Table, n: nat): Place {
    if n < |t| then Some(n) else None
  }

  function Before(n: nat): Place {
    if n > 0 then Some(n - 1) else None
  }

  /** How many entries of the child t come before position p of the union. */
  function Cut(all: Table, t: Table, p: nat): (n: nat)
    requires p <= |all|
    ensures n <= |t|
  {
    if p == |all| then |t| else LowerBound(t, all[p].key)
  }

  ghost predicate Part(all: Table, t: Table) {
    Sorted(t) && forall e :: e in t ==> e in all
  }

  /** j is before the cut exactly when the entry is before position p. */
  lemma CutSplits(all: Table, t: Table, p: nat, j: nat, q: nat)
    requires Sorted(all) && Sorted(t) && p <= |all| && j < |t| && q < |all| && all[q] == t[j]
    ensures j < Cut(all, t, p) <==> q < p
  {
    if p < |all| {
      SplitAt(t, Cut(all, t, p), all[p].key, j);
      assert q < p ==> Less(all[q].key, all[p].key);
      assert p < q ==> Less(all[p].key, all[q].key);
    }
  }

  lemma CutHolder(all: Table, t: Table, p: nat)
    requires Sorted(all) && Part(all, t) && p < |all| && all[p] in t
    ensures Cut(all, t, p) < |t| && t[Cut(all, t, p)] == all[p]
  {
    var j :| 0 <= j < |t| && t[j] == all[p];
    CutSplits(all, t, p, j, p);
  }

  lemma CutGrows(all: Table, t: Table, p: nat)
    requires Sorted(all) && Part(all, t) && p < |all|
    ensures Cut(all, t, p) <= Cut(all, t, p + 1)
  {
    var m := Cut(all, t, p + 1);
    hide Less; hide LowerBound; hide Cut;
    if m < |t| {
      assert t[m] in all;
      var q :| 0 <= q < |all| && all[q] == t[m];
      CutSplits(all, t, p, m, q);
      CutSplits(all, t, p + 1, m, q);
    }
  }

  lemma CutStops(all: Table, t: Table, p: nat, j: nat)
    requires Sorted(all) && Part(all, t) && p < |all| && Cut(all, t, p) <= j < |t|
    ensures j < Cut(all, t, p + 1) <==> t[j] == all[p]
  {
    assert t[j] in all;
    var q :| 0 <= q < |all| && all[q] == t[j];
    CutSplits(all, t, p, j, q);
    CutSplits(all, t, p + 1, j, q);
    hide Cut; hide LowerBound;
    assert p < q ==> Less(all[p].key, all[q].key);
  }

  /** Moving the position past one entry of the union moves only the child
      that holds it. */
  lemma CutNext(all: Table, t: Table, p: nat)
    requires Sorted(all) && Part(all, t) && p < |all|
    ensures all[p] in t ==> Cut(all, t, p) < |t| && t[Cut(all, t, p)] == all[p]
    ensures Cut(all, t, p + 1) == Cut(all, t, p) + if all[p] in t then 1 else 0
  {
    var n := Cut(all, t, p);
    hide Cut; hide LowerBound;
    CutGrows(all, t, p);
    if all[p] in t {
      CutHolder(all, t, p);
    }
    if n < |t| {
      CutStops(all, t, p, n);
    }
    if n + 1 < |t| {
      CutStops(all, t, p, n + 1);
      assert Less(t[n].key, t[n + 1].key);
    }
  }

  lemma CutAtStart(all: Table, t: Table)
    requires Sorted(all) && Part(all, t)
    ensures Cut(all, t, 0) == 0
  {
    if Cut(all, t, 0) > 0 {
      assert t[0] in all;
      var q :| 0 <= q < |all| && all[q] == t[0];
      CutSplits(all, t, 0, 0, q);
    }
  }

  lemma CutSeek(all: Table, t: Table, key: Key)
    requires Sorted(all) && Part(all, t)
    ensures LowerBound(t, key) == Cut(all, t, LowerBound(all, key))
  {
    var p := LowerBound(all, key);
    var n, m := LowerBound(t, key), Cut(all, t, p);
    var j := if n < m then n else m;
    if n != m {
      assert t[j] in all;
      var q :| 0 <= q < |all| && all[q] == t[j];
      SplitAt(t, n, key, j);
      SplitAt(all, p, key, q);
      CutSplits(all, t, p, j, q);
    }
  }

  lemma SplitAt(t: Table, n: nat, key: Key, j: nat)
    requires Sorted(t) && n <= |t| && j < |t|
    requires forall i :: 0 <= i < n ==> Less(t[i].key, key)
    requires n < |t| ==> !Less(t[n].key, key)
    ensures j < n <==> Less(t[j].key, key)
  {
    assert n < j ==> Less(t[n].key, t[j].key);
  }

  // ----- the union of the children

  /** all is the sorted union of tables that share no key. */
  ghost predicate Union(all: Table, tables: seq<Table>) {
    && Sorted(all)
    && (forall i :: 0 <= i < |tables| ==> Part(all, tables[i]))
    && (forall e :: e in all ==> exists i :: 0 <= i < |tables| && e in tables[i])
    && (forall i, j, x, y :: 0 <= i < j < |tables| && x in tables[i] && y in tables[j] ==> x.key != y.key)
  }

  lemma OneHolder(all: Table, tables: seq<Table>, i: nat, j: nat, e: Entry)
    requires Union(all, tables) && i < |tables| && j < |tables| && e in tables[i] && e in tables[j]
    ensures i == j
  {
  }

  /** Every child stands at its first entry from position p of the union on. */
  ghost predicate AllFrom(all: Table, tables: seq<Table>, at: seq<Place>, p: nat)
    requires p <= |all|
  {
    |at| == |tables| && forall i :: 0 <= i < |tables| ==> at[i] == From(tables[i], Cut(all, tables[i], p))
  }

  /** Every child stands at its last entry before position p of the union. */
  ghost predicate AllBefore(all: Table, tables: seq<Table>, at: seq<Place>, p: nat)
    requires p <= |all|
  {
    |at| == |tables| && forall i :: 0 <= i < |tables| ==> at[i] == Before(Cut(all, tables[i], p))
  }

  lemma FromEntry(all: Table, t: Table, p: nat)
    requires Sorted(all) && Part(all, t) && p <= |all| && Cut(all, t, p) < |t|
    ensures p < |all| && !Less(t[Cut(all, t, p)].key, all[p].key)
    ensures !Less(all[p].key, t[Cut(all, t, p)].key) ==> all[p] in t
  {
    var n := Cut(all, t, p);
    assert t[n] in all;
    var q :| 0 <= q < |all| && all[q] == t[n];
    assert p < q ==> Less(all[p].key, all[q].key);
  }

  lemma BeforeEntry(all: Table, t: Table, p: nat)
    requires Sorted(all) && Part(all, t) && p <= |all| && Cut(all, t, p) > 0
    ensures p > 0 && !Less(all[p - 1].key, t[Cut(all, t, p) - 1].key)
    ensures !Less(t[Cut(all, t, p) - 1].key, all[p - 1].key) ==> all[p - 1] in t
  {
    var n := Cut(all, t, p) - 1;
    assert t[n] in all;
    var q :| 0 <= q < |all| && all[q] == t[n];
    CutSplits(all, t, p, n, q);
    assert q < p - 1 ==> Less(all[q].key, all[p - 1].key);
  }

  /** A cursor over the union.  In the forward direction it stands at position
      cut of the union, in the reverse direction at cut - 1. */
  class MergingIterator {
    const tables: seq<Table>
    ghost const all: Table
    var at: seq<Place>
    var current: Place
    var forward: bool
    ghost var cut: nat

    ghost predicate Valid()
      reads this
    {
      && Union(all, tables) && cut <= |all|
      && (if forward then AllFrom(all, tables, at, cut) else AllBefore(all, tables, at, cut))
      && (current.None? <==> Pos().None?)
      && (current.Some? ==> current.value < |tables| && all[Pos().value] in tables[current.value])
    }

    /** The position in the union, none when the cursor is off either end. */
    ghost function Pos(): (p: Place)
      reads this
      ensures p.Some? && cut <= |all| ==> p.value < |all|
    {
      if forward then From(all, cut) else Before(cut)
    }

    constructor (tables: seq<Table>, ghost all: Table)
      requires Union(all, tables)
      ensures Valid() && this.tables == tables && this.all == all && Pos() == None
    {
      this.tables := tables;
      this.all := all;
      at := seq(|tables|, i => None);
      current := None;
      forward := true;
      cut := |all|;
    }

    predicate Here()
      reads this
    {
      current.Some?
    }

    lemma HerePos()
      requires Valid()
      ensures Here() <==> Pos().Some?
      ensures Pos().Some? ==> Pos().value < |all|
      ensures Sorted(all)
    {
    }

    lemma CurrentEntry()
      requires Valid() && current.Some?
      ensures |at| == |tables| && at[current.value].Some? && at[current.value].value < |tables[current.value]|
      ensures tables[current.value][at[current.value].value] == all[Pos().value]
      ensures at[current.value].value == Cut(all, tables[current.value], Pos().value)
    {
      var c, p := current.value, Pos().value;
      assert Part(all, tables[c]);
      CutNext(all, tables[c], p);
    }

    method Current() returns (e: Entry)
      requires Valid() && current.Some?
      ensures e == all[Pos().value]
    {
      CurrentEntry();
      e := tables[current.value][at[current.value].value];
    }

    /** current becomes the first child with the smallest key. */
    method FindSmallest()
      requires Union(all, tables) && cut <= |all| && AllFrom(all, tables, at, cut)
      modifies this`current, this`forward
      ensures Valid() && forward
    {
      hide Union; hide AllFrom; hide Smallest;
      FromInRange(all, tables, at, cut);
      var c := SmallestChild(tables, at);
      SmallestHolds(all, tables, at, cut, c);
      current, forward := c, true;
    }

    /** current becomes the last child with the largest key. */
    method FindLargest()
      requires Union(all, tables) && cut <= |all| && AllBefore(all, tables, at, cut)
      modifies this`current, this`forward
      ensures Valid() && !forward
    {
      hide Union; hide AllBefore; hide Largest;
      BeforeInRange(all, tables, at, cut);
      var c := LargestChild(tables, at);
      LargestHolds(all, tables, at, cut, c);
      current, forward := c, false;
    }

    method SeekToFirst()
      requires Valid()
      modifies this
      ensures Valid() && Pos() == From(all, 0)
    {
      at := seq(|tables|, i requires 0 <= i < |tables| => From(tables[i], 0));
      cut := 0;
      StartsFrom(all, tables, at);
      hide Union; hide AllFrom;
      FindSmallest();
    }

    method SeekToLast()
      requires Valid()
      modifies this
      ensures Valid() && Pos() == Before(|all|)
    {
      at := seq(|tables|, i requires 0 <= i < |tables| => Before(|tables[i]|));
      cut := |all|;
      hide Union;
      FindLargest();
    }

    method Seek(target: Key)
      requires Valid()
      modifies this
      ensures Valid() && Pos() == From(all, LowerBound(all, target))
    {
      at := SeekAll(all, tables, target);
      cut := LowerBound(all, target);
      hide Union; hide AllFrom; hide LowerBound;
      FindSmallest();
    }

    method Next()
      requires Valid() && Pos().Some?
      modifies this
      ensures Valid() && Pos() == From(all, old(Pos()).value + 1)
    {
      hide Union; hide AllFrom; hide AllBefore; hide Cut; hide Others;
      CurrentEntry();
      var c := current.value;
      var here := at[c].value;
      ghost var p := Pos().value;
      if forward {
        FromOthers(all, tables, at, p, c);
      } else {
        at := AfterKey(all, tables, p, tables[c][here].key, c, at);
      }
      MoveChild(all, tables, at, p, c, true, From(tables[c], here + 1));
      at := at[c := From(tables[c], here + 1)];
      cut := p + 1;
      NextFrom(all, tables, p, c, here, at);
      FindSmallest();
    }

    method Prev()
      requires Valid() && Pos().Some?
      modifies this
      ensures Valid() && Pos() == Before(old(Pos()).value)
    {
      hide Union; hide AllFrom; hide AllBefore; hide Cut; hide Others;
      CurrentEntry();
      var c := current.value;
      var here := at[c].value;
      ghost var p := Pos().value;
      if forward {
        at := BeforeKey(all, tables, p, tables[c][here].key, c, at);
      } else {
        BeforeOthers(all, tables, at, p, c);
      }
      MoveChild(all, tables, at, p, c, false, Before(here));
      at := at[c := Before(here)];
      cut := p;
      PrevBefore(all, tables, p, c, here, at);
      FindLargest();
    }
  }

  // ----- choosing a child

  ghost predicate InRange(tables: seq<Table>, at: seq<Place>) {
    |at| == |tables| && forall i :: 0 <= i < |at| && at[i].Some? ==> at[i].value < |tables[i]|
  }

  function KeyAt(tables: seq<Table>, at: seq<Place>, i: nat): Key
    requires InRange(tables, at) && i < |at| && at[i].Some?
  {
    tables[i][at[i].value].key
  }

  ghost predicate Smallest(tables: seq<Table>, at: seq<Place>, c: Place, n: nat)
    requires InRange(tables, at) && n <= |at|
  {
    if c.None? then forall j :: 0 <= j < n ==> at[j] == None
    else c.value < n && at[c.value].Some? && forall j :: 0 <= j < n && at[j].Some? ==> !Less(KeyAt(tables, at, j), KeyAt(tables, at, c.value))
  }

  ghost predicate Largest(tables: seq<Table>, at: seq<Place>, c: Place, n: nat)
    requires InRange(tables, at) && n <= |at|
  {
    if c.None? then forall j :: n <= j < |at| ==> at[j] == None
    else n <= c.value < |at| && at[c.value].Some? && forall j :: n <= j < |at| && at[j].Some? ==> !Less(KeyAt(tables, at, c.value), KeyAt(tables, at, j))
  }

  /** MergingIterator::FindSmallest. */
  method SmallestChild(tables: seq<Table>, at: seq<Place>) returns (c: Place)
    requires InRange(tables, at)
    ensures Smallest(tables, at, c, |at|)
  {
    c := None;
    for i := 0 to |at|
      invariant Smallest(tables, at, c, i)
    {
      if at[i].Some? && (c.None? || Less(KeyAt(tables, at, i), KeyAt(tables, at, c.value))) {
        c := Some(i);
      }
    }
  }

  /** MergingIterator::FindLargest. */
  method LargestChild(tables: seq<Table>, at: seq<Place>) returns (c: Place)
    requires InRange(tables, at)
    ensures Largest(tables, at, c, 0)
  {
    c := None;
    for i := |at| downto 0
      invariant Largest(tables, at, c, i)
    {
      if at[i].Some? && (c.None? || Less(KeyAt(tables, at, c.value), KeyAt(tables, at, i))) {
        c := Some(i);
      }
    }
  }

  lemma FromInRange(all: Table, tables: seq<Table>, at: seq<Place>, p: nat)
    requires p <= |all| && AllFrom(all, tables, at, p)
    ensures InRange(tables, at)
  {
  }

  lemma BeforeInRange(all: Table, tables: seq<Table>, at: seq<Place>, p: nat)
    requires p <= |all| && AllBefore(all, tables, at, p)
    ensures InRange(tables, at)
  {
  }

  lemma IsPart(all: Table, tables: seq<Table>, i: nat)
    requires Union(all, tables) && i < |tables|
    ensures Part(all, tables[i]) && Sorted(all)
  {
  }

  lemma HolderOf(all: Table, tables: seq<Table>, p: nat) returns (h: nat)
    requires Union(all, tables) && p < |all|
    ensures h < |tables| && all[p] in tables[h] && Part(all, tables[h]) && Cut(all, tables[h], p) < |tables[h]|
    ensures tables[h][Cut(all, tables[h], p)] == all[p] && Cut(all, tables[h], p + 1) == Cut(all, tables[h], p) + 1
  {
    assert all[p] in all;
    h :| 0 <= h < |tables| && all[p] in tables[h];
    assert Part(all, tables[h]);
    CutNext(all, tables[h], p);
  }

  lemma SmallestHolds(all: Table, tables: seq<Table>, at: seq<Place>, p: nat, c: Place)
    requires Union(all, tables) && p <= |all| && AllFrom(all, tables, at, p)
    requires InRange(tables, at) && Smallest(tables, at, c, |at|)
    ensures c.None? <==> p == |all|
    ensures c.Some? ==> c.value < |tables| && all[p] in tables[c.value]
  {
    hide Union; hide Cut; hide Less;
    if p < |all| {
      var h := HolderOf(all, tables, p);
      assert at[h].Some? && KeyAt(tables, at, h) == all[p].key;
    }
    if c.Some? {
      IsPart(all, tables, c.value);
      hide Part; hide Sorted;
      FromEntry(all, tables[c.value], p);
    }
  }

  lemma LargestHolds(all: Table, tables: seq<Table>, at: seq<Place>, p: nat, c: Place)
    requires Union(all, tables) && p <= |all| && AllBefore(all, tables, at, p)
    requires InRange(tables, at) && Largest(tables, at, c, 0)
    ensures c.None? <==> p == 0
    ensures c.Some? ==> c.value < |tables| && all[p - 1] in tables[c.value]
  {
    hide Union; hide Cut; hide Less;
    if p > 0 {
      var h := HolderOf(all, tables, p - 1);
      assert at[h].Some? && KeyAt(tables, at, h) == all[p - 1].key;
    }
    if c.Some? {
      IsPart(all, tables, c.value);
      hide Part; hide Sorted;
      BeforeEntry(all, tables[c.value], p);
    }
  }

  // ----- placing the children

  lemma StartsFrom(all: Table, tables: seq<Table>, at: seq<Place>)
    requires Union(all, tables) && |at| == |tables| && forall i :: 0 <= i < |at| ==> at[i] == From(tables[i], 0)
    ensures AllFrom(all, tables, at, 0)
  {
    forall i | 0 <= i < |tables|
      ensures Cut(all, tables[i], 0) == 0
    {
      assert Part(all, tables[i]);
      CutAtStart(all, tables[i]);
    }
  }

  method SeekAll(ghost all: Table, tables: seq<Table>, target: Key) returns (at: seq<Place>)
    requires Union(all, tables)
    ensures AllFrom(all, tables, at, LowerBound(all, target))
  {
    hide Union; hide Cut; hide LowerBound;
    at := [];
    for i := 0 to |tables|
      invariant |at| == i
      invariant forall j :: 0 <= j < i ==> at[j] == From(tables[j], Cut(all, tables[j], LowerBound(all, target)))
    {
      IsPart(all, tables, i);
      CutSeek(all, tables[i], target);
      at := at + [From(tables[i], LowerBound(tables[i], target))];
    }
  }

  /** Switching forward: every child but c goes to its first entry after key. */
  method AfterKey(ghost all: Table, tables: seq<Table>, ghost p: nat, key: Key, c: nat, at0: seq<Place>) returns (at: seq<Place>)
    requires Union(all, tables) && p < |all| && key == all[p].key && c < |tables| == |at0| && all[p] in tables[c]
    ensures Others(all, tables, at, p, c, true)
  {
    at := at0;
    for i := 0 to |tables|
      invariant |at| == |tables| && at[c] == at0[c]
      invariant forall j :: 0 <= j < i && j != c ==> at[j] == From(tables[j], Cut(all, tables[j], p))
    {
      if i != c {
        var n := LowerBound(tables[i], key);
        if n < |tables[i]| && tables[i][n].key == key {
          n := n + 1;
        }
        at := at[i := From(tables[i], n)];
        OtherKey(all, tables, p, c, i);
      }
    }
  }

  lemma OtherKey(all: Table, tables: seq<Table>, p: nat, c: nat, i: nat)
    requires Union(all, tables) && p < |all| && c < |tables| && i < |tables| && i != c && all[p] in tables[c]
    ensures forall n :: 0 <= n < |tables[i]| ==> tables[i][n].key != all[p].key
  {
    forall n | 0 <= n < |tables[i]|
      ensures tables[i][n].key != all[p].key
    {
      assert tables[i][n] in tables[i];
    }
  }

  /** Switching backward: every child but c goes to its last entry before key. */
  method BeforeKey(ghost all: Table, tables: seq<Table>, ghost p: nat, key: Key, c: nat, at0: seq<Place>) returns (at: seq<Place>)
    requires Union(all, tables) && p < |all| && key == all[p].key && c < |tables| == |at0|
    ensures Others(all, tables, at, p, c, false)
  {
    at := at0;
    for i := 0 to |tables|
      invariant |at| == |tables| && at[c] == at0[c]
      invariant forall j :: 0 <= j < i && j != c ==> at[j] == Before(Cut(all, tables[j], p))
    {
      if i != c {
        var n := LowerBound(tables[i], key);
        if n < |tables[i]| {
          at := at[i := Before(n)];
        } else {
          at := at[i := Before(|tables[i]|)];
        }
      }
    }
  }

  /** Every child but c stands where position p of the union puts it. */
  ghost predicate Others(all: Table, tables: seq<Table>, at: seq<Place>, p: nat, c: nat, forward: bool)
    requires p <= |all|
  {
    && |at| == |tables|
    && forall j :: 0 <= j < |at| && j != c ==>
         at[j] == if forward then From(tables[j], Cut(all, tables[j], p)) else Before(Cut(all, tables[j], p))
  }

  lemma FromOthers(all: Table, tables: seq<Table>, at: seq<Place>, p: nat, c: nat)
    requires p <= |all| && AllFrom(all, tables, at, p)
    ensures Others(all, tables, at, p, c, true)
  {
  }

  /** Only the holder of the entry at p notices that the position moved over it. */
  lemma OtherCut(all: Table, tables: seq<Table>, p: nat, c: nat, i: nat)
    requires Union(all, tables) && p < |all| && c < |tables| && all[p] in tables[c] && i < |tables|
    ensures Cut(all, tables[i], p + 1) == Cut(all, tables[i], p) + if i == c then 1 else 0
  {
    assert Part(all, tables[i]);
    if all[p] in tables[i] {
      OneHolder(all, tables, i, c, all[p]);
    }
    hide Union; hide Cut;
    CutNext(all, tables[i], p);
  }

  lemma BeforeOthers(all: Table, tables: seq<Table>, at: seq<Place>, p: nat, c: nat)
    requires Union(all, tables) && p < |all| && c < |tables| && all[p] in tables[c] && AllBefore(all, tables, at, p + 1)
    ensures Others(all, tables, at, p, c, false)
  {
    hide Union; hide Cut;
    forall i | 0 <= i < |tables|
      ensures Cut(all, tables[i], p + 1) == Cut(all, tables[i], p) + if i == c then 1 else 0
    {
      OtherCut(all, tables, p, c, i);
    }
  }

  lemma NextFrom(all: Table, tables: seq<Table>, p: nat, c: nat, here: nat, at: seq<Place>)
    requires Union(all, tables) && p < |all| && c < |tables| == |at| && all[p] in tables[c]
    requires here == Cut(all, tables[c], p) && at[c] == From(tables[c], here + 1)
    requires Others(all, tables, at, p, c, true)
    ensures AllFrom(all, tables, at, p + 1)
  {
    hide Union; hide Cut;
    forall i | 0 <= i < |tables|
      ensures at[i] == From(tables[i], Cut(all, tables[i], p + 1))
    {
      OtherCut(all, tables, p, c, i);
    }
  }

  lemma PrevBefore(all: Table, tables: seq<Table>, p: nat, c: nat, here: nat, at: seq<Place>)
    requires p < |all| && c < |tables| == |at|
    requires here == Cut(all, tables[c], p) && at[c] == Before(here)
    requires Others(all, tables, at, p, c, false)
    ensures AllBefore(all, tables, at, p)
  {
  }

  lemma MoveChild(all: Table, tables: seq<Table>, at: seq<Place>, p: nat, c: nat, forward: bool, to: Place)
    requires p <= |all| && c < |at| && Others(all, tables, at, p, c, forward)
    ensures Others(all, tables, at[c := to], p, c, forward)
  {
  }
}
