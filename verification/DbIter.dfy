/** The user's view of the merged internal entries (db/db_iter.cc): a cursor
    over the live pairs at one sequence number. */
module DbIter {
  import opened Keys
  import opened Merger

  // ----- the list a reader must see

  predicate Seen(t: Table, s: nat, i: nat)
    requires i < |t|
  {
    t[i].key.seqno <= s
  }

  /** Entry i is a value and the newest entry of its user key visible at s. */
  ghost predicate Shown(t: Table, s: nat, i: nat) {
    i < |t| && Seen(t, s, i) && t[i].key.kind.Put? && forall j :: 0 <= j < i && t[j].key.user == t[i].key.user ==> !Seen(t, s, j)
  }

  ghost function Count(t: Table, s: nat, n: nat): nat {
    if n == 0 then 0 else Count(t, s, n - 1) + if Shown(t, s, n - 1) then 1 else 0
  }

  datatype Pair = Pair(user: Rank, value: Value)

  function PairOf(e: Entry): Pair {
    Pair(e.key.user, e.value)
  }

  /** The live pairs among the first n entries, in order. */
  ghost function Pairs(t: Table, s: nat, n: nat): (r: seq<Pair>)
    requires n <= |t|
    ensures |r| == Count(t, s, n)
  {
    if n == 0 then [] else Pairs(t, s, n - 1) + if Shown(t, s, n - 1) then [PairOf(t[n - 1])] else []
  }

  /** r is the first shown position from `from` on. */
  ghost predicate NextShown(t: Table, s: nat, from: nat, r: Place) {
    match r
    case None => forall q :: from <= q < |t| ==> !Shown(t, s, q)
    case Some(x) => from <= x && Shown(t, s, x) && forall q :: from <= q < x ==> !Shown(t, s, q)
  }

  /** r is the last shown position before `to`. */
  ghost predicate PrevShown(t: Table, s: nat, to: nat, r: Place) {
    match r
    case None => forall q :: 0 <= q < to ==> !Shown(t, s, q)
    case Some(x) => x < to && Shown(t, s, x) && forall q :: x < q < to ==> !Shown(t, s, q)
  }

  // ----- positions in the list

  function InList(n: nat, length: nat): Place {
    if n < length then Some(n) else None
  }

  ghost function ListPlace(t: Table, s: nat, spot: Place): Place {
    if spot.None? then None else Some(Count(t, s, spot.value))
  }

  lemma {:induction false} NoneCounted(t: Table, s: nat, a: nat, b: nat)
    requires a <= b && forall q :: a <= q < b ==> !Shown(t, s, q)
    ensures Count(t, s, b) == Count(t, s, a)
    decreases b
  {
    hide Shown;
    if a < b {
      NoneCounted(t, s, a, b - 1);
    }
  }

  lemma {:induction false} CountGrows(t: Table, s: nat, a: nat, b: nat)
    requires a <= b
    ensures Count(t, s, a) <= Count(t, s, b)
    decreases b
  {
    hide Shown;
    if a < b {
      CountGrows(t, s, a, b - 1);
    }
  }

  lemma {:induction false} PairAt(t: Table, s: nat, n: nat, x: nat)
    requires x < n <= |t| && Shown(t, s, x)
    ensures Count(t, s, x) < |Pairs(t, s, n)| && Pairs(t, s, n)[Count(t, s, x)] == PairOf(t[x])
    decreases n
  {
    hide Shown;
    if x < n - 1 {
      PairAt(t, s, n - 1, x);
    }
  }

  lemma NextPlace(t: Table, s: nat, from: nat, r: Place)
    requires from <= |t| && NextShown(t, s, from, r)
    ensures ListPlace(t, s, r) == InList(Count(t, s, from), |Pairs(t, s, |t|)|)
  {
    NoneCounted(t, s, from, if r.Some? then r.value else |t|);
    if r.Some? {
      CountGrows(t, s, r.value + 1, |t|);
    }
  }

  lemma AfterShown(t: Table, s: nat, x: nat, r: Place)
    requires Shown(t, s, x) && NextShown(t, s, x + 1, r)
    ensures ListPlace(t, s, r) == InList(Count(t, s, x) + 1, |Pairs(t, s, |t|)|)
  {
    hide NextShown;
    assert Count(t, s, x + 1) == Count(t, s, x) + 1;
    NextPlace(t, s, x + 1, r);
  }

  lemma ShownSeen(t: Table, s: nat, x: nat)
    requires Shown(t, s, x)
    ensures x < |t|
  {
  }

  lemma PrevPlace(t: Table, s: nat, to: nat, r: Place)
    requires to <= |t| && PrevShown(t, s, to, r)
    ensures ListPlace(t, s, r) == Before(Count(t, s, to))
  {
    NoneCounted(t, s, if r.Some? then r.value + 1 else 0, to);
  }

  /** How many pairs have a user key before `target`. */
  function PairsBelow(ps: seq<Pair>, target: Rank): nat {
    if ps == [] then 0
    else PairsBelow(ps[..|ps| - 1], target) + if ps[|ps| - 1].user < target then 1 else 0
  }

  lemma BelowAppend(ps: seq<Pair>, p: Pair, target: Rank)
    ensures PairsBelow(ps + [p], target) == PairsBelow(ps, target) + if p.user < target then 1 else 0
  {
    assert (ps + [p])[..|ps + [p]| - 1] == ps;
  }

  lemma {:induction false} BelowCounted(t: Table, s: nat, target: Rank, n: nat)
    requires Sorted(t) && n <= |t|
    ensures var p := LowerBound(t, SeekKey(target, s));
            PairsBelow(Pairs(t, s, n), target) == Count(t, s, if n <= p then n else p)
  {
    hide LowerBound; hide Sorted; hide Shown;
    if n > 0 {
      BelowCounted(t, s, target, n - 1);
      if Shown(t, s, n - 1) {
        SeekSkips(t, s, target, n - 1);
        hide PairsBelow;
        BelowAppend(Pairs(t, s, n - 1), PairOf(t[n - 1]), target);
      } else {
        hide PairsBelow;
        assert Pairs(t, s, n) == Pairs(t, s, n - 1);
      }
    }
  }

  lemma SeekPlace(t: Table, s: nat, target: Rank, r: Place)
    requires Sorted(t) && NextShown(t, s, LowerBound(t, SeekKey(target, s)), r)
    ensures ListPlace(t, s, r) == InList(PairsBelow(Pairs(t, s, |t|), target), |Pairs(t, s, |t|)|)
  {
    hide NextShown;
    BelowCounted(t, s, target, |t|);
    NextPlace(t, s, LowerBound(t, SeekKey(target, s)), r);
  }

  /** The list is in strictly increasing order of user keys. */
  lemma {:induction false} PairsSorted(t: Table, s: nat, n: nat)
    requires Sorted(t) && n <= |t|
    ensures forall i, j :: 0 <= i < j < |Pairs(t, s, n)| ==> Pairs(t, s, n)[i].user < Pairs(t, s, n)[j].user
  {
    hide Sorted; hide Shown;
    if n > 0 {
      PairsSorted(t, s, n - 1);
      if Shown(t, s, n - 1) {
        var ps := Pairs(t, s, n - 1);
        forall i | 0 <= i < |ps|
          ensures ps[i].user < t[n - 1].key.user
        {
          var x := ShownOf(t, s, n - 1, ps[i]);
          ShownApart(t, s, x, n - 1);
        }
      }
    }
  }

  lemma {:induction false} ShownOf(t: Table, s: nat, n: nat, p: Pair) returns (x: nat)
    requires n <= |t| && p in Pairs(t, s, n)
    ensures x < n && Shown(t, s, x) && PairOf(t[x]) == p
  {
    hide Shown;
    x := n - 1;
    if p in Pairs(t, s, n - 1) {
      x := ShownOf(t, s, n - 1, p);
    }
  }

  /** The list holds exactly what a point read at s finds. */
  lemma PairsAreReads(t: Table, s: nat, user: Rank, value: Value)
    requires Sorted(t)
    ensures Pair(user, value) in Pairs(t, s, |t|) <==>
              Find(t, user, s).Some? && Find(t, user, s).value.key.kind.Put? && Find(t, user, s).value.value == value
  {
    var p := LowerBound(t, SeekKey(user, s));
    hide LowerBound;
    if Pair(user, value) in Pairs(t, s, |t|) {
      var x := ShownOf(t, s, |t|, Pair(user, value));
      SeekSkips(t, s, user, x);
      UsersOrdered(t, p, x);
      UserSeen(t, s, user, p);
    }
    if p < |t| && t[p].key.user == user && t[p].key.kind.Put? {
      SeekShown(t, s, user);
      PairAt(t, s, |t|, p);
    }
  }

  lemma UserSeen(t: Table, s: nat, user: Rank, p: nat)
    requires p == LowerBound(t, SeekKey(user, s)) < |t| && t[p].key.user <= user
    ensures t[p].key.user == user && Seen(t, s, p)
  {
  }

  /** What a seek for a user key stands on is its newest visible entry. */
  lemma SeekShown(t: Table, s: nat, user: Rank)
    requires Sorted(t)
    requires var p := LowerBound(t, SeekKey(user, s)); p < |t| && t[p].key.user == user && t[p].key.kind.Put?
    ensures Shown(t, s, LowerBound(t, SeekKey(user, s)))
  {
    var p := LowerBound(t, SeekKey(user, s));
    forall j | 0 <= j < p && t[j].key.user == user
      ensures !Seen(t, s, j)
    {
      assert Less(t[j].key, SeekKey(user, s));
    }
  }

  // ----- the scans

  /** Nothing visible before position p bears on the entries from p on,
      except for user keys up to `skip`. */
  ghost predicate Fresh(t: Table, s: nat, p: nat, skip: Option<Rank>) {
    forall j, k :: 0 <= j < p <= k < |t| && Seen(t, s, j) && t[j].key.user == t[k].key.user ==>
      skip.Some? && t[k].key.user <= skip.value
  }

  /** Everything visible from p on is at or after the skipped key. */
  ghost predicate NoneBelow(t: Table, s: nat, p: nat, skip: Option<Rank>) {
    skip.Some? ==> forall k :: p <= k < |t| && Seen(t, s, k) ==> skip.value <= t[k].key.user
  }

  /** What a forward scan that skips user keys up to `skip` may stop at. */
  ghost predicate Target(t: Table, s: nat, skip: Option<Rank>, q: nat) {
    Shown(t, s, q) && (skip.Some? ==> t[q].key.user > skip.value)
  }

  ghost predicate SkipHides(t: Table, s: nat, p: nat, skip: Option<Rank>, skip0: Option<Rank>) {
    && (skip0.Some? ==> skip.Some? && skip0.value <= skip.value)
    && (skip.Some? ==> forall k :: p <= k < |t| && t[k].key.user == skip.value ==> !Target(t, s, skip0, k))
  }

  lemma UsersOrdered(t: Table, i: nat, j: nat)
    requires Sorted(t) && i <= j < |t|
    ensures t[i].key.user <= t[j].key.user
    ensures t[i].key.user == t[j].key.user ==> t[i].key.seqno >= t[j].key.seqno
  {
    assert i == j || Less(t[i].key, t[j].key);
  }

  /** The forward scan has reached p from p0 and passed no target. */
  ghost predicate Scanning(t: Table, s: nat, p0: nat, p: nat, skip: Option<Rank>, skip0: Option<Rank>) {
    && Fresh(t, s, p, skip) && NoneBelow(t, s, p, skip) && SkipHides(t, s, p, skip, skip0)
    && forall q :: p0 <= q < p ==> !Target(t, s, skip0, q)
  }

  lemma ScanUnseen(t: Table, s: nat, p0: nat, p: nat, skip: Option<Rank>, skip0: Option<Rank>)
    requires Scanning(t, s, p0, p, skip, skip0) && p < |t| && !Seen(t, s, p)
    ensures Scanning(t, s, p0, p + 1, skip, skip0)
  {
  }

  lemma ScanDeletion(t: Table, s: nat, p0: nat, p: nat, skip: Option<Rank>, skip0: Option<Rank>)
    requires Sorted(t) && Scanning(t, s, p0, p, skip, skip0) && p < |t| && Seen(t, s, p) && t[p].key.kind.Deletion?
    ensures Scanning(t, s, p0, p + 1, Some(t[p].key.user), skip0)
  {
    forall k | p <= k < |t|
      ensures t[p].key.user <= t[k].key.user
    {
      UsersOrdered(t, p, k);
    }
    hide Sorted;
    assert skip.Some? ==> skip.value <= t[p].key.user;
    assert Fresh(t, s, p + 1, Some(t[p].key.user));
  }

  lemma ScanHidden(t: Table, s: nat, p0: nat, p: nat, skip: Option<Rank>, skip0: Option<Rank>)
    requires Scanning(t, s, p0, p, skip, skip0) && p < |t| && Seen(t, s, p)
    requires skip.Some? && t[p].key.user <= skip.value
    ensures Scanning(t, s, p0, p + 1, skip, skip0)
  {
    assert skip.value <= t[p].key.user;
    assert !Target(t, s, skip0, p);
    assert Fresh(t, s, p + 1, skip);
  }

  lemma ScanStops(t: Table, s: nat, p0: nat, p: nat, skip: Option<Rank>, skip0: Option<Rank>)
    requires Scanning(t, s, p0, p, skip, skip0) && p < |t| && Seen(t, s, p) && t[p].key.kind.Put?
    requires skip.Some? ==> skip.value < t[p].key.user
    ensures Target(t, s, skip0, p)
  {
  }

  // ----- scanning backwards

  /** The backward scan from g0 has come down to g; c is the value saved. */
  ghost predicate Descending(t: Table, s: nat, g0: nat, g: nat, c: Place) {
    && g <= g0 <= |t|
    && match c
       case None => forall q :: g <= q < g0 ==> !Shown(t, s, q)
       case Some(x) =>
         && g <= x < g0 && Seen(t, s, x) && t[x].key.kind.Put?
         && (forall j :: g <= j < x ==> !Seen(t, s, j))
         && (forall q :: x < q < g0 ==> !Shown(t, s, q))
  }

  lemma DescendUnseen(t: Table, s: nat, g0: nat, g: nat, c: Place)
    requires Descending(t, s, g0, g, c) && g > 0 && !Seen(t, s, g - 1)
    ensures Descending(t, s, g0, g - 1, c)
  {
  }

  lemma DescendSeen(t: Table, s: nat, g0: nat, g: nat, c: Place)
    requires Sorted(t) && Descending(t, s, g0, g, c) && g > 0 && Seen(t, s, g - 1)
    requires c.Some? ==> t[c.value].key.user <= t[g - 1].key.user
    ensures Descending(t, s, g0, g - 1, if t[g - 1].key.kind.Put? then Some(g - 1) else None)
  {
    if c.Some? {
      UsersOrdered(t, g - 1, c.value);
      assert !Shown(t, s, c.value);
    }
  }

  lemma DescendStops(t: Table, s: nat, g0: nat, g: nat, c: Place)
    requires Sorted(t) && Descending(t, s, g0, g, c) && (g > 0 && c.Some? ==> t[g - 1].key.user < t[c.value].key.user)
    requires c.None? ==> g == 0
    ensures PrevShown(t, s, g0, c)
    ensures c.Some? ==> Shown(t, s, c.value) && Reversed(t, s, g, c.value)
  {
    if c.Some? {
      forall j | 0 <= j < g
        ensures t[j].key.user < t[c.value].key.user
      {
        UsersOrdered(t, j, g - 1);
      }
      forall j | c.value <= j < |t|
        ensures t[c.value].key.user <= t[j].key.user
      {
        UsersOrdered(t, c.value, j);
      }
    }
  }

  /** Where a backward scan of the inner cursor resumes. */
  function Above(p: Place): nat {
    if p.None? then 0 else p.value + 1
  }

  class DBIter {
    const iter: MergingIterator
    const sequence: nat
    var forward: bool
    var valid: bool
    var savedKey: Option<Rank>
    var savedValue: Value
    /** Position of the current pair among the internal entries. */
    ghost var spot: Place

    ghost function All(): Table {
      iter.all
    }

    /** What the cursor moves over. */
    ghost function List(): seq<Pair> {
      Pairs(All(), sequence, |All()|)
    }

    /** The cursor's position in the list, none when it is off either end. */
    ghost function Cursor(): Place
      reads this
    {
      ListPlace(All(), sequence, spot)
    }

    ghost predicate Valid()
      reads this, iter
    {
      && iter.Valid()
      && (valid <==> spot.Some?)
      && (valid ==> Shown(All(), sequence, spot.value))
      && (valid && forward ==> iter.Pos() == spot)
      && (valid && !forward ==> Reversed(All(), sequence, Above(iter.Pos()), spot.value) && savedKey == Some(All()[spot.value].key.user) && savedValue == All()[spot.value].value)
    }

    constructor (iter: MergingIterator, sequence: nat)
      requires iter.Valid()
      ensures Valid() && this.iter == iter && this.sequence == sequence && Cursor() == None
    {
      this.iter := iter;
      this.sequence := sequence;
      forward, valid, spot := true, false, None;
      savedKey, savedValue := None, [];
    }

    method Current() returns (pair: Pair)
      requires Valid() && valid
      ensures Cursor().Some? && Cursor().value < |List()| && pair == List()[Cursor().value]
    {
      PairAt(All(), sequence, |All()|, spot.value);
      if forward {
        var e := iter.Current();
        pair := PairOf(e);
      } else {
        pair := Pair(savedKey.value, savedValue);
      }
    }

    method FindNextUserEntry(skip0: Option<Rank>, ghost p0: nat)
      requires iter.Valid() && iter.Pos() == From(All(), p0) && forward
      requires Scanning(All(), sequence, p0, p0, skip0, skip0)
      modifies this, iter
      ensures Valid() && forward
      ensures spot.Some? ==> p0 <= spot.value && Target(All(), sequence, skip0, spot.value)
      ensures forall q :: p0 <= q < (if spot.Some? then spot.value else |All()|) ==> !Target(All(), sequence, skip0, q)
    {
      hide MergingIterator.Valid; hide Scanning; hide Target;
      var skip := skip0;
      ghost var p := p0;
      iter.HerePos();
      while iter.Here()
        invariant iter.Valid() && forward && iter.Pos() == From(All(), p) && (iter.Here() <==> iter.Pos().Some?)
        invariant Sorted(All()) && p0 <= p && Scanning(All(), sequence, p0, p, skip, skip0)
        decreases |All()| - p
      {
        var e := iter.Current();
        if e.key.seqno <= sequence {
          if e.key.kind.Deletion? {
            ScanDeletion(All(), sequence, p0, p, skip, skip0);
            skip := Some(e.key.user);
          } else if skip.Some? && e.key.user <= skip.value {
            ScanHidden(All(), sequence, p0, p, skip, skip0);
          } else {
            ScanStops(All(), sequence, p0, p, skip, skip0);
            valid, savedKey, spot := true, None, iter.Pos();
            TargetShown(p, skip0);
            NoTargetBefore(p0, p, skip, skip0);
            return;
          }
        } else {
          ScanUnseen(All(), sequence, p0, p, skip, skip0);
        }
        iter.Next();
        p := p + 1;
        iter.HerePos();
      }
      NoTargetBefore(p0, p, skip, skip0);
      valid, savedKey, spot := false, None, None;
    }

    method FindPrevUserEntry(ghost g0: nat)
      requires iter.Valid() && iter.Pos() == Before(g0) && g0 <= |All()| && !forward
      modifies this, iter
      ensures Valid() && PrevShown(All(), sequence, g0, spot)
    {
      hide MergingIterator.Valid; hide Descending; hide Shown; hide PrevShown; hide Reversed; hide Seen; hide Sorted;
      var live := false;
      ghost var g: nat, c: Place := g0, None;
      DescendStart(All(), sequence, g0);
      iter.HerePos();
      while iter.Here()
        invariant iter.Valid() && !forward && g <= g0 && iter.Pos() == Before(g) && (iter.Here() <==> iter.Pos().Some?)
        invariant Sorted(All()) && Descending(All(), sequence, g0, g, c)
        invariant live <==> c.Some?
        invariant live ==> c.value < |All()| && savedKey == Some(All()[c.value].key.user) && savedValue == All()[c.value].value
        decreases g
      {
        var e := iter.Current();
        if e.key.seqno <= sequence {
          if live && e.key.user < savedKey.value {
            break;
          }
          IsSeen(All(), sequence, g - 1);
          DescendSeen(All(), sequence, g0, g, c);
          live := e.key.kind.Put?;
          if live {
            savedKey, savedValue, c := Some(e.key.user), e.value, Some(g - 1);
          } else {
            savedKey, savedValue, c := None, [], None;
          }
        } else {
          IsSeen(All(), sequence, g - 1);
          DescendUnseen(All(), sequence, g0, g, c);
        }
        iter.Prev();
        g := g - 1;
        iter.HerePos();
      }
      DescendStops(All(), sequence, g0, g, c);
      DescendBounds(All(), sequence, g0, g, c);
      spot := c;
      if live {
        valid := true;
      } else {
        valid, savedKey, savedValue, forward := false, None, [], true;
      }
    }

    method Seek(target: Rank)
      requires Valid()
      modifies this, iter
      ensures Valid() && Cursor() == InList(PairsBelow(List(), target), |List()|)
    {
      hide MergingIterator.Valid; hide LowerBound; hide Scanning; hide NextShown; hide Shown; hide Target; hide Reversed;
      forward, savedKey, savedValue := true, None, [];
      iter.HerePos();
      iter.Seek(SeekKey(target, sequence));
      iter.HerePos();
      ghost var p := LowerBound(All(), SeekKey(target, sequence));
      SeekFresh(All(), sequence, target);
      if iter.Here() {
        FindNextUserEntry(None, p);
        NoSkip(All(), sequence, p, spot);
      } else {
        valid, spot := false, None;
      }
      SeekPlace(All(), sequence, target, spot);
    }

    method SeekToFirst()
      requires Valid()
      modifies this, iter
      ensures Valid() && Cursor() == InList(0, |List()|)
    {
      forward, savedValue := true, [];
      iter.SeekToFirst();
      hide MergingIterator.Valid; hide Scanning;
      iter.HerePos();
      StartFresh(All(), sequence);
      if iter.Here() {
        FindNextUserEntry(None, 0);
        NoSkip(All(), sequence, 0, spot);
      } else {
        valid, spot := false, None;
      }
      NextPlace(All(), sequence, 0, spot);
    }

    method SeekToLast()
      requires Valid()
      modifies this, iter
      ensures Valid() && Cursor() == Before(|List()|)
    {
      forward, savedValue := false, [];
      iter.SeekToLast();
      FindPrevUserEntry(|All()|);
      PrevPlace(All(), sequence, |All()|, spot);
    }

    method Next()
      requires Valid() && valid
      modifies this, iter
      ensures Valid() && Cursor() == InList(old(Cursor()).value + 1, |List()|)
    {
      hide MergingIterator.Valid; hide Scanning; hide Shown; hide Target; hide NextShown; hide Sorted; hide Pairs; hide Count;
      ghost var x := spot.value;
      ShownSeen(All(), sequence, x);
      ghost var p := if forward then x else Above(iter.Pos());
      iter.HerePos();
      if !forward {
        forward := true;
        if !iter.Here() {
          iter.SeekToFirst();
        } else {
          iter.Next();
        }
        ReverseScan(All(), sequence, p, x);
      } else {
        var e := iter.Current();
        savedKey := Some(e.key.user);
        ForwardScan(All(), sequence, x);
      }
      FindNextUserEntry(savedKey, p);
      AfterSkip(All(), sequence, p, x, spot);
      AfterShown(All(), sequence, x, spot);
    }

    method Prev()
      requires Valid() && valid
      modifies this, iter
      ensures Valid() && Cursor() == Before(old(Cursor()).value)
    {
      hide MergingIterator.Valid;
      ghost var x := spot.value;
      ghost var g: nat := Above(iter.Pos());
      iter.HerePos();
      if forward {
        var e := iter.Current();
        savedKey := Some(e.key.user);
        iter.Prev();
        g := x;
        iter.HerePos();
        while iter.Here()
          invariant iter.Valid() && g <= x && iter.Pos() == Before(g) && (iter.Here() <==> iter.Pos().Some?)
          invariant forall j :: g <= j < x ==> All()[j].key.user == All()[x].key.user
          invariant savedKey == Some(All()[x].key.user) && forward
          decreases g
        {
          var e := iter.Current();
          if e.key.user < savedKey.value {
            break;
          }
          UsersOrdered(All(), g - 1, x);
          iter.Prev();
          g := g - 1;
          iter.HerePos();
        }
        GroupHides(All(), sequence, g, x);
        if !iter.Here() {
          valid, savedKey, savedValue, spot := false, None, [], None;
          PrevPlace(All(), sequence, x, None);
          return;
        }
        forward := false;
      } else {
        ReverseHides(All(), sequence, g, x);
      }
      FindPrevUserEntry(g);
      PrevPlace(All(), sequence, x, spot);
    }

    lemma TargetShown(q: nat, skip: Option<Rank>)
      requires Target(All(), sequence, skip, q)
      ensures Shown(All(), sequence, q)
    {
    }

    lemma NoTargetBefore(p0: nat, p: nat, skip: Option<Rank>, skip0: Option<Rank>)
      requires Scanning(All(), sequence, p0, p, skip, skip0)
      ensures forall q :: p0 <= q < p ==> !Target(All(), sequence, skip0, q)
    {
    }
  }

  lemma IsSeen(t: Table, s: nat, i: nat)
    requires i < |t|
    ensures Seen(t, s, i) <==> t[i].key.seqno <= s
  {
  }

  lemma DescendStart(t: Table, s: nat, g0: nat)
    requires g0 <= |t|
    ensures Descending(t, s, g0, g0, None)
  {
  }

  lemma DescendBounds(t: Table, s: nat, g0: nat, g: nat, c: Place)
    requires Descending(t, s, g0, g, c)
    ensures c.Some? ==> g <= c.value < g0 <= |t|
    ensures g <= g0
  {
  }

  lemma StartFresh(t: Table, s: nat)
    ensures Scanning(t, s, 0, 0, None, None)
    ensures t == [] ==> NextShown(t, s, 0, None)
  {
  }

  lemma SeekFresh(t: Table, s: nat, user: Rank)
    requires Sorted(t)
    ensures var p := LowerBound(t, SeekKey(user, s));
            Scanning(t, s, p, p, None, None) && (p == |t| ==> NextShown(t, s, p, None))
  {
    var p := LowerBound(t, SeekKey(user, s));
    forall j, k | 0 <= j < p <= k < |t| && Seen(t, s, j)
      ensures t[j].key.user != t[k].key.user
    {
      assert Less(t[j].key, SeekKey(user, s));
      UsersOrdered(t, p, k);
    }
  }

  /** A seek passes no shown entry of the target's user key or a later one. */
  lemma SeekSkips(t: Table, s: nat, user: Rank, q: nat)
    requires Sorted(t) && Shown(t, s, q)
    ensures q < LowerBound(t, SeekKey(user, s)) <==> t[q].key.user < user
  {
    var p := LowerBound(t, SeekKey(user, s));
    if p <= q {
      UsersOrdered(t, p, q);
    } else {
      assert Less(t[q].key, SeekKey(user, s));
    }
  }

  lemma NoSkip(t: Table, s: nat, p: nat, spot: Place)
    requires spot.Some? ==> p <= spot.value && Target(t, s, None, spot.value)
    requires forall q :: p <= q < (if spot.Some? then spot.value else |t|) ==> !Target(t, s, None, q)
    ensures NextShown(t, s, p, spot)
  {
    assert forall q :: Shown(t, s, q) ==> Target(t, s, None, q);
  }

  /** Two shown entries have different user keys. */
  lemma ShownApart(t: Table, s: nat, x: nat, q: nat)
    requires Sorted(t) && Shown(t, s, x) && Shown(t, s, q)
    ensures x < q <==> t[x].key.user < t[q].key.user
  {
    if x <= q {
      UsersOrdered(t, x, q);
    } else {
      UsersOrdered(t, q, x);
    }
  }

  lemma AfterSkip(t: Table, s: nat, p: nat, x: nat, spot: Place)
    requires Sorted(t) && Shown(t, s, x) && p <= x
    requires spot.Some? ==> p <= spot.value && Target(t, s, Some(t[x].key.user), spot.value)
    requires forall q :: p <= q < (if spot.Some? then spot.value else |t|) ==> !Target(t, s, Some(t[x].key.user), q)
    ensures NextShown(t, s, x + 1, spot)
  {
    if spot.Some? {
      ShownApart(t, s, x, spot.value);
    }
    forall q | x < q < |t| && Shown(t, s, q)
      ensures Target(t, s, Some(t[x].key.user), q)
    {
      ShownApart(t, s, x, q);
    }
  }

  lemma ForwardScan(t: Table, s: nat, x: nat)
    requires Sorted(t) && Shown(t, s, x)
    ensures Scanning(t, s, x, x, Some(t[x].key.user), Some(t[x].key.user))
  {
    forall k | x <= k < |t|
      ensures t[x].key.user <= t[k].key.user
    {
      UsersOrdered(t, x, k);
    }
    forall j, k | 0 <= j < x <= k < |t| && t[j].key.user == t[k].key.user
      ensures t[k].key.user <= t[x].key.user
    {
      UsersOrdered(t, j, x);
    }
  }

  lemma ReverseScan(t: Table, s: nat, g: nat, x: nat)
    requires Sorted(t) && Shown(t, s, x) && Reversed(t, s, g, x)
    ensures Scanning(t, s, g, g, Some(t[x].key.user), Some(t[x].key.user))
  {
  }

  lemma GroupHides(t: Table, s: nat, g: nat, x: nat)
    requires Shown(t, s, x) && g <= x && forall j :: g <= j < x ==> t[j].key.user == t[x].key.user
    ensures forall r :: PrevShown(t, s, g, r) ==> PrevShown(t, s, x, r)
    ensures g == 0 ==> PrevShown(t, s, x, None)
  {
  }

  lemma ReverseHides(t: Table, s: nat, g: nat, x: nat)
    requires Sorted(t) && Shown(t, s, x) && Reversed(t, s, g, x)
    ensures forall r :: PrevShown(t, s, g, r) ==> PrevShown(t, s, x, r)
  {
    forall q | g <= q < x
      ensures !Shown(t, s, q)
    {
      UsersOrdered(t, q, x);
    }
  }

  /** In reverse, the entries from g on before the current user key are all too
      new to be seen, and the ones before g are before that key. */
  ghost predicate Reversed(t: Table, s: nat, g: nat, x: nat) {
    && g <= x < |t|
    && (forall j :: 0 <= j < g ==> t[j].key.user < t[x].key.user)
    && (forall j :: g <= j < |t| && t[j].key.user < t[x].key.user ==> !Seen(t, s, j))
  }
}
