/** Over whole runs of the cache (util/cache.cc): idle handles are evicted in
    the order they became idle, and a lookup finds what was inserted. */
module CacheOrder {
  import opened Keys
  import opened HandleTables
  import opened LruCache
  import opened CacheRuns

  // ----- order in a list

  ghost predicate Before(list: seq<nat>, x: nat, y: nat) {
    exists p, q :: 0 <= p < q < |list| && list[p] == x && list[q] == y
  }

  lemma {:induction false} WithoutBefore(list: seq<nat>, id: nat, x: nat, y: nat)
    requires Before(Without(list, id), x, y)
    ensures Before(list, x, y)
  {
    var p, q :| 0 <= p < q < |Without(list, id)| && Without(list, id)[p] == x && Without(list, id)[q] == y;
    var rest := list[1..];
    assert forall i :: 0 <= i < |rest| ==> rest[i] == list[i + 1];
    if list[0] == id {
      assert list[p + 1] == x && list[q + 1] == y;
    } else if p == 0 {
      WithoutMember(rest, id, q - 1);
      var k :| 0 <= k < |rest| && rest[k] == y;
      assert list[0] == x && list[k + 1] == y;
    } else {
      assert Without(rest, id)[p - 1] == x && Without(rest, id)[q - 1] == y;
      WithoutBefore(rest, id, x, y);
      var a, b :| 0 <= a < b < |rest| && rest[a] == x && rest[b] == y;
      assert list[a + 1] == x && list[b + 1] == y;
    }
  }

  lemma {:induction false} WithoutMember(list: seq<nat>, id: nat, i: nat)
    requires i < |Without(list, id)|
    ensures Without(list, id)[i] in list
  {
    if list[0] != id && i > 0 {
      WithoutMember(list[1..], id, i - 1);
    }
  }

  /** What is left of a list keeps its order. */
  ghost predicate Kept(list: seq<nat>, left: seq<nat>) {
    && (forall x :: x in left ==> x in list)
    && forall x, y :: Before(left, x, y) ==> Before(list, x, y)
  }

  lemma WithoutKept(list: seq<nat>, id: nat)
    ensures Kept(list, Without(list, id))
  {
    forall x | x in Without(list, id)
      ensures x in list
    {
      var i :| 0 <= i < |Without(list, id)| && Without(list, id)[i] == x;
      WithoutMember(list, id, i);
    }
    hide Without;
    forall x, y | Before(Without(list, id), x, y)
      ensures Before(list, x, y)
    {
      WithoutBefore(list, id, x, y);
    }
  }

  lemma SuffixKept(list: seq<nat>, k: nat)
    requires k <= |list|
    ensures Kept(list, list[k..])
  {
    forall x, y | Before(list[k..], x, y)
      ensures Before(list, x, y)
    {
      var p, q :| 0 <= p < q < |list[k..]| && list[k..][p] == x && list[k..][q] == y;
      assert list[k + p] == x && list[k + q] == y;
    }
  }

  lemma KeptTrans(a: seq<nat>, b: seq<nat>, c: seq<nat>)
    requires Kept(a, b) && Kept(b, c)
    ensures Kept(a, c)
  {
    hide Before;
  }

  lemma KeptRefl(a: seq<nat>)
    ensures Kept(a, a)
  {
  }

  lemma AppendBefore(list: seq<nat>, id: nat, x: nat, y: nat)
    requires Before(list + [id], x, y)
    ensures Before(list, x, y) || (y == id && x in list)
  {
    var p, q :| 0 <= p < q < |list + [id]| && (list + [id])[p] == x && (list + [id])[q] == y;
    if q < |list| {
      assert list[p] == x && list[q] == y;
    }
  }

  // ----- one operation on the idle list

  lemma EvictedKept(s: Shard, limit: int)
    requires ShardInv(s)
    ensures Kept(s.cache.lru, Evicted(s, limit).cache.lru)
  {
    hide ShardInv; hide Evicted; hide Kept;
    EvictedOldestFirst(s, limit);
    var k :| 0 <= k <= |s.cache.lru| && Evicted(s, limit).cache.lru == s.cache.lru[k..];
    SuffixKept(s.cache.lru, k);
  }

  lemma RenamedKept(s: Shard, name: Name, charge: nat)
    requires ShardInv(s)
    ensures Kept(s.cache.lru, Renamed(s, name, charge).cache.lru)
  {
    hide CacheInv; hide Without; hide Kept;
    if name in s.content {
      WithoutKept(s.cache.lru, s.content[name]);
    } else {
      KeptRefl(s.cache.lru);
    }
  }

  lemma InsertedKept(s: Shard, capacity: nat, name: Name, charge: nat)
    requires ShardInv(s)
    ensures Kept(s.cache.lru, Inserted(s, capacity, name, charge).cache.lru)
  {
    CreatedKeeps(s.cache, s.content, name, charge, false);
    hide CacheInv; hide Evicted; hide Kept; hide Renamed;
    if capacity > 0 {
      var t := Renamed(s, name, charge);
      RenamedKept(s, name, charge);
      EvictedKept(t, capacity);
      KeptTrans(s.cache.lru, t.cache.lru, Evicted(t, capacity).cache.lru);
    } else {
      EvictedKept(Shard(Created(s.cache, name, charge, false), s.content), capacity);
    }
  }

  lemma DroppedKept(s: Shard, name: Name)
    requires ShardInv(s) && name in s.content
    ensures Kept(s.cache.lru, Dropped(s, name).cache.lru)
  {
    hide CacheInv; hide Without; hide Kept;
    WithoutKept(s.cache.lru, s.content[name]);
  }

  /** The list only loses members, except that a release may append one. */
  ghost predicate Aged(s: Shard, op: Op, t: Shard) {
    || Kept(s.cache.lru, t.cache.lru)
    || (op.Release? && op.id !in s.cache.lru && t.cache.lru == s.cache.lru + [op.id])
  }

  lemma ReleasedAged(s: Shard, id: nat)
    requires ShardInv(s) && Allowed(s, Release(id)) && s.cache.handles[id].refs > 0
    ensures Aged(s, Release(id), s.(cache := Released(s.cache, id)))
  {
    KeptRefl(s.cache.lru);
    assert id in s.cache.lru ==> s.cache.handles[id].refs == 1;
    hide ShardInv; hide Without; hide Kept;
  }

  lemma AfterAged(capacity: nat, s: Shard, op: Op)
    requires ShardInv(s) && Allowed(s, op)
    ensures Aged(s, op, After(capacity, s, op))
  {
    hide ShardInv; hide Released; hide Inserted; hide Dropped; hide Evicted; hide Kept; hide Without;
    KeptRefl(s.cache.lru);
    match op {
      case Lookup(name) =>
        if name in s.content {
          WithoutKept(s.cache.lru, s.content[name]);
        }
      case Release(id) =>
        ReleaseShard(s, id);
        ReleasedAged(s, id);
      case Insert(name, charge) =>
        InsertedKept(s, capacity, name, charge);
      case Erase(name) =>
        if name in s.content {
          DroppedKept(s, name);
        }
      case Prune =>
        EvictedKept(s, -1);
    }
  }

  // ----- since when a handle is idle

  /** Operation a took the clients' last reference to the handle, and none was
      handed out since. */
  ghost predicate IdleSince(capacity: nat, ops: seq<Op>, id: nat, a: nat) {
    && a < |ops|
    && Legal(capacity, ops[..a]) && Refs(capacity, ops[..a], id) > 0
    && forall k :: a < k <= |ops| ==> Legal(capacity, ops[..k]) && Refs(capacity, ops[..k], id) == 0
  }

  lemma IdleIsUnheld(s: Shard, id: nat)
    requires ShardInv(s) && id in s.cache.lru
    ensures Held(s.cache, id) == 0
  {
    hide Charged; hide Tabled;
    assert id in s.cache.held <==> id in s.cache.handles.Keys;
  }

  lemma IdleRefs(capacity: nat, ops: seq<Op>, id: nat)
    requires Legal(capacity, ops) && id in Play(capacity, ops).cache.lru
    ensures Refs(capacity, ops, id) == 0
  {
    hide *;
    PlayInv(capacity, ops);
    HeldIsRefs(capacity, ops, id);
    IdleIsUnheld(Play(capacity, ops), id);
  }

  lemma IdleOn(capacity: nat, ops: seq<Op>, id: nat, a: nat)
    requires Legal(capacity, ops) && ops != [] && IdleSince(capacity, ops[..|ops| - 1], id, a) && Refs(capacity, ops, id) == 0
    ensures IdleSince(capacity, ops, id, a)
  {
    hide Legal; hide Refs;
    var before := ops[..|ops| - 1];
    assert before[..a] == ops[..a];
    forall k | a < k <= |ops|
      ensures Legal(capacity, ops[..k]) && Refs(capacity, ops[..k], id) == 0
    {
      if k == |ops| {
        assert ops[..k] == ops;
      } else {
        assert before[..k] == ops[..k];
      }
    }
  }

  lemma IdleNow(capacity: nat, ops: seq<Op>, id: nat)
    requires Legal(capacity, ops) && ops != [] && Legal(capacity, ops[..|ops| - 1])
    requires Refs(capacity, ops[..|ops| - 1], id) > 0 && Refs(capacity, ops, id) == 0
    ensures IdleSince(capacity, ops, id, |ops| - 1)
  {
    hide Legal; hide Refs;
    assert ops[..|ops|] == ops;
  }

  lemma LastAged(capacity: nat, ops: seq<Op>)
    requires Legal(capacity, ops) && ops != []
    ensures var before, op := ops[..|ops| - 1], ops[|ops| - 1];
            && Legal(capacity, before)
            && Aged(Play(capacity, before), op, Play(capacity, ops))
            && (op.Release? ==> Refs(capacity, before, op.id) > 0)
  {
    hide ShardInv; hide After; hide Aged; hide Refs;
    var before, op := ops[..|ops| - 1], ops[|ops| - 1];
    PlayInv(capacity, before);
    AfterAged(capacity, Play(capacity, before), op);
    if op.Release? {
      HeldIsRefs(capacity, before, op.id);
    }
  }

  lemma {:induction false} IdleSome(capacity: nat, ops: seq<Op>, id: nat) returns (a: nat)
    requires Legal(capacity, ops) && id in Play(capacity, ops).cache.lru
    ensures IdleSince(capacity, ops, id, a)
    decreases |ops|
  {
    hide Legal; hide Refs; hide IdleSince; hide Kept;
    IdleRefs(capacity, ops, id);
    NewIdle(capacity, ops);
    LastAged(capacity, ops);
    hide Play;
    var before := ops[..|ops| - 1];
    if id in Play(capacity, before).cache.lru {
      a := IdleSome(capacity, before, id);
      IdleOn(capacity, ops, id, a);
    } else {
      AgedMember(Play(capacity, before), ops[|ops| - 1], Play(capacity, ops), id);
      a := |ops| - 1;
      IdleNow(capacity, ops, id);
    }
  }

  lemma NewIdle(capacity: nat, ops: seq<Op>)
    requires Legal(capacity, ops)
    ensures ops == [] ==> Play(capacity, ops).cache.lru == []
  {
    hide ShardInv;
  }

  lemma AgedMember(s: Shard, op: Op, t: Shard, id: nat)
    requires Aged(s, op, t) && id in t.cache.lru
    ensures id in s.cache.lru || (op.Release? && id == op.id)
  {
    hide Before;
  }

  lemma AgedBefore(s: Shard, op: Op, t: Shard, x: nat, y: nat)
    requires Aged(s, op, t) && Before(t.cache.lru, x, y)
    ensures Before(s.cache.lru, x, y) || (op.Release? && y == op.id && y !in s.cache.lru && x in s.cache.lru)
  {
    if !Kept(s.cache.lru, t.cache.lru) {
      AppendBefore(s.cache.lru, op.id, x, y);
    }
  }

  lemma BeforeMembers(list: seq<nat>, x: nat, y: nat)
    requires Before(list, x, y)
    ensures x in list && y in list
  {
  }

  /** Over every run: of two idle handles, the one nearer to eviction became
      idle earlier. */
  lemma {:induction false} IdleOrder(capacity: nat, ops: seq<Op>, x: nat, y: nat)
    requires Legal(capacity, ops) && Before(Play(capacity, ops).cache.lru, x, y)
    ensures exists a, b :: a < b && IdleSince(capacity, ops, x, a) && IdleSince(capacity, ops, y, b)
    decreases |ops|
  {
    hide Legal; hide Refs; hide IdleSince; hide Kept; hide Before;
    BeforeMembers(Play(capacity, ops).cache.lru, x, y);
    IdleRefs(capacity, ops, x);
    IdleRefs(capacity, ops, y);
    NewIdle(capacity, ops);
    LastAged(capacity, ops);
    hide Play; hide Aged;
    var before, op := ops[..|ops| - 1], ops[|ops| - 1];
    AgedBefore(Play(capacity, before), op, Play(capacity, ops), x, y);
    if Before(Play(capacity, before).cache.lru, x, y) {
      IdleOrder(capacity, before, x, y);
      var a, b :| a < b && IdleSince(capacity, before, x, a) && IdleSince(capacity, before, y, b);
      IdleOn(capacity, ops, x, a);
      IdleOn(capacity, ops, y, b);
    } else {
      var a := IdleSome(capacity, before, x);
      IdleBound(capacity, before, x, a);
      IdleOn(capacity, ops, x, a);
      IdleNow(capacity, ops, y);
    }
  }

  lemma IdleBound(capacity: nat, ops: seq<Op>, id: nat, a: nat)
    requires IdleSince(capacity, ops, id, a)
    ensures a < |ops|
  {
  }

  // ----- eviction takes no more than it must

  /** The usage once the j oldest idle handles are gone. */
  ghost function UsageWithout(s: Shard, j: nat): int
    requires j <= |s.cache.lru| && Known(s.cache.handles, s.cache.lru[..j])
  {
    s.cache.usage - Total(s.cache.handles, s.cache.lru[..j])
  }

  /** The k oldest idle handles went, and with fewer the usage would not fit. */
  ghost predicate Needed(s: Shard, r: Shard, limit: int, k: nat) {
    && k <= |s.cache.lru| && r.cache.lru == s.cache.lru[k..]
    && Known(s.cache.handles, s.cache.lru[..k]) && r.cache.usage == UsageWithout(s, k)
    && forall j :: 0 <= j < k ==> Known(s.cache.handles, s.cache.lru[..j]) && UsageWithout(s, j) > limit
  }

  lemma OldestDropped(s: Shard)
    requires ShardInv(s) && s.cache.lru != []
    ensures OldestName(s) in s.content
    ensures var t := Dropped(s, OldestName(s));
            && ShardInv(t) && t.cache.lru == s.cache.lru[1..]
            && s.cache.lru[0] in s.cache.handles && s.cache.usage == t.cache.usage + s.cache.handles[s.cache.lru[0]].charge
            && forall id :: id in t.cache.handles ==> id in s.cache.handles && SameItem(s.cache.handles[id], t.cache.handles[id])
  {
    OldestLeaves(s);
    DroppedUndisturbs(s, OldestName(s));
    RemovedFromTable(s.cache, s.content, OldestName(s));
    ErasedKeeps(s.cache, s.content - {OldestName(s)}, s.content[OldestName(s)]);
    hide CacheInv; hide Without; hide SameItem;
  }

  lemma {:induction false} EvictedNeeded(s: Shard, limit: int) returns (k: nat)
    requires ShardInv(s)
    ensures Needed(s, Evicted(s, limit), limit, k)
    decreases |s.cache.lru|
  {
    hide ShardInv; hide Dropped; hide OldestName; hide Total; hide SameItem; hide Needed;
    if s.cache.usage > limit && s.cache.lru != [] {
      OldestDropped(s);
      var t := Dropped(s, OldestName(s));
      var m := EvictedNeeded(t, limit);
      k := m + 1;
      OneMoreNeeded(s, t, Evicted(t, limit), limit, m);
    } else {
      k := 0;
      NoneNeeded(s, limit);
    }
  }

  lemma NoneNeeded(s: Shard, limit: int)
    ensures Needed(s, s, limit, 0)
  {
    assert s.cache.lru[..0] == [] && s.cache.lru[0..] == s.cache.lru;
  }

  lemma WithoutOneMore(s: Shard, t: Shard, j: nat)
    requires s.cache.lru != [] && t.cache.lru == s.cache.lru[1..] && j <= |t.cache.lru|
    requires s.cache.lru[0] in s.cache.handles && s.cache.usage == t.cache.usage + s.cache.handles[s.cache.lru[0]].charge
    requires forall id :: id in t.cache.handles ==> id in s.cache.handles && SameItem(s.cache.handles[id], t.cache.handles[id])
    requires Known(t.cache.handles, t.cache.lru[..j])
    ensures Known(s.cache.handles, s.cache.lru[..j + 1]) && UsageWithout(s, j + 1) == UsageWithout(t, j)
  {
    var front, rest := s.cache.lru[..j + 1], t.cache.lru[..j];
    assert front[1..] == rest && front[0] == s.cache.lru[0];
    assert Known(s.cache.handles, rest);
    assert Known(s.cache.handles, front) by {
      assert front == [front[0]] + rest;
    }
    SameTotal(t.cache.handles, s.cache.handles, rest);
  }

  lemma OneMoreNeeded(s: Shard, t: Shard, r: Shard, limit: int, m: nat)
    requires s.cache.lru != [] && t.cache.lru == s.cache.lru[1..] && s.cache.usage > limit
    requires s.cache.lru[0] in s.cache.handles && s.cache.usage == t.cache.usage + s.cache.handles[s.cache.lru[0]].charge
    requires forall id :: id in t.cache.handles ==> id in s.cache.handles && SameItem(s.cache.handles[id], t.cache.handles[id])
    requires Needed(t, r, limit, m)
    ensures Needed(s, r, limit, m + 1)
  {
    hide SameItem;
    assert t.cache.lru[m..] == s.cache.lru[m + 1..];
    WithoutOneMore(s, t, m);
    forall j | 0 <= j < m + 1
      ensures Known(s.cache.handles, s.cache.lru[..j]) && UsageWithout(s, j) > limit
    {
      if j > 0 {
        WithoutOneMore(s, t, j - 1);
      } else {
        assert s.cache.lru[..0] == [];
      }
    }
  }

  /** The idle handles an insertion leaves to choose from. */
  ghost function Candidates(s: Shard, capacity: nat, name: Name): seq<nat> {
    if capacity > 0 && name in s.content then Without(s.cache.lru, s.content[name]) else s.cache.lru
  }

  /** The usage with the new handle in place of the one it replaces. */
  ghost function NewUsage(s: Shard, capacity: nat, name: Name, charge: nat): int {
    if capacity == 0 then s.cache.usage
    else s.cache.usage + charge - if name in s.content && s.content[name] in s.cache.handles then s.cache.handles[s.content[name]].charge else 0
  }

  /** An insertion evicts exactly the handles idle for the longest time, and no
      more of them than it must. */
  lemma InsertEvicts(capacity: nat, s: Shard, name: Name, charge: nat) returns (t: Shard, k: nat)
    requires ShardInv(s)
    ensures t.cache.lru == Candidates(s, capacity, name) && t.cache.usage == NewUsage(s, capacity, name, charge)
    ensures SameCharges(s.cache, t.cache) && Needed(t, Inserted(s, capacity, name, charge), capacity, k)
  {
    InsertedIs(s, capacity, name, charge);
    StartUsage(s, capacity, name, charge);
    hide ShardInv; hide Evicted; hide Candidates; hide NewUsage; hide Needed; hide Inserted; hide Start;
    t := Start(s, capacity, name, charge);
    k := EvictedNeeded(t, capacity);
  }

  lemma CutBefore(list: seq<nat>, k: nat, x: nat, y: nat)
    requires k <= |list| && x in list && x !in list[k..] && y in list[k..]
    ensures Before(list, x, y)
  {
    assert list == list[..k] + list[k..];
    var p :| 0 <= p < k && list[..k][p] == x;
    var q :| 0 <= q < |list[k..]| && list[k..][q] == y;
    assert list[p] == x && list[k + q] == y;
  }

  /** Of two handles idle before an insertion, if one is evicted by it and the
      other is not, the evicted one was idle for longer. */
  lemma LongestIdleFirst(capacity: nat, ops: seq<Op>, x: nat, y: nat)
    requires Legal(capacity, ops) && ops != [] && ops[|ops| - 1].Insert? && Legal(capacity, ops[..|ops| - 1])
    requires x in Candidates(Play(capacity, ops[..|ops| - 1]), capacity, ops[|ops| - 1].name)
    requires x !in Play(capacity, ops).cache.lru && y in Play(capacity, ops).cache.lru
    ensures var before := ops[..|ops| - 1];
            exists a, b :: a < b && IdleSince(capacity, before, x, a) && IdleSince(capacity, before, y, b)
  {
    var before, op := ops[..|ops| - 1], ops[|ops| - 1];
    var s := Play(capacity, before);
    PlayInv(capacity, before);
    InsertPlayed(capacity, ops);
    hide Legal; hide Refs; hide IdleSince; hide Play; hide ShardInv; hide Inserted; hide Before; hide Without; hide Evicted;
    var t, k := InsertEvicts(capacity, s, op.name, op.charge);
    CutBefore(t.cache.lru, k, x, y);
    WithoutKept(s.cache.lru, if op.name in s.content then s.content[op.name] else 0);
    IdleOrder(capacity, before, x, y);
  }

  /** The shard with the new handle, before anything is evicted. */
  ghost function Start(s: Shard, capacity: nat, name: Name, charge: nat): Shard
    requires ShardInv(s)
  {
    if capacity > 0 then Renamed(s, name, charge) else Shard(Created(s.cache, name, charge, false), s.content)
  }

  lemma InsertedIs(s: Shard, capacity: nat, name: Name, charge: nat)
    requires ShardInv(s)
    ensures ShardInv(Start(s, capacity, name, charge))
    ensures Inserted(s, capacity, name, charge) == Evicted(Start(s, capacity, name, charge), capacity)
  {
    CreatedKeeps(s.cache, s.content, name, charge, false);
    hide CacheInv; hide Evicted; hide Renamed; hide Created;
  }

  lemma RenamedIs(s: Shard, name: Name, charge: nat)
    requires ShardInv(s)
    ensures var c, t := Created(s.cache, name, charge, true), Renamed(s, name, charge);
            && t.content == s.content[name := s.cache.next]
            && if name in s.content then
                 var id := s.content[name];
                 && id in c.handles && c.handles[id].refs > 0 && c.handles[id].charge <= c.usage
                 && t.cache == Erased(c, id)
               else t.cache == c
  {
    CreatedKeeps(s.cache, s.content, name, charge, true);
    if name in s.content {
      ErasedKeeps(Created(s.cache, name, charge, true), s.content[name := s.cache.next], s.content[name]);
    }
    hide CacheInv; hide Erased; hide Created;
  }

  lemma ErasedIs(c: Cache, id: nat)
    requires id in c.handles && c.handles[id].refs > 0 && c.handles[id].charge <= c.usage
    ensures var d := Erased(c, id);
            && d.lru == Without(c.lru, id) && d.usage == c.usage - c.handles[id].charge
            && forall x :: x in d.handles ==> x in c.handles && d.handles[x].charge == c.handles[x].charge
  {
    hide Without;
  }

  lemma CreatedIs(c: Cache, name: Name, charge: nat, cached: bool)
    requires c.next !in c.handles
    ensures var d := Created(c, name, charge, cached);
            && d.lru == c.lru && d.usage == (if cached then c.usage + charge else c.usage)
            && forall x :: x in c.handles ==> x in d.handles && d.handles[x] == c.handles[x]
  {
  }

  ghost predicate SameCharges(a: Cache, b: Cache) {
    forall id :: id in a.handles && id in b.handles ==> b.handles[id].charge == a.handles[id].charge
  }

  lemma StartUsage(s: Shard, capacity: nat, name: Name, charge: nat)
    requires ShardInv(s)
    ensures var t := Start(s, capacity, name, charge);
            && t.content == (if capacity > 0 then s.content[name := s.cache.next] else s.content)
            && t.cache.lru == Candidates(s, capacity, name) && t.cache.usage == NewUsage(s, capacity, name, charge)
            && SameCharges(s.cache, t.cache)
  {
    hide ShardInv; hide Without; hide Renamed; hide Erased; hide Created;
    FreshNumber(s);
    CreatedIs(s.cache, name, charge, capacity > 0);
    if capacity > 0 {
      RenamedIs(s, name, charge);
      if name in s.content {
        NamedShard(s, name);
        ErasedIs(Created(s.cache, name, charge, true), s.content[name]);
      }
    }
  }

  lemma FreshNumber(s: Shard)
    requires ShardInv(s)
    ensures s.cache.next !in s.cache.handles && forall name :: name in s.content ==> s.content[name] != s.cache.next
  {
    hide Listed; hide Charged;
  }

  // ----- what a lookup finds

  /** How an operation changes which handle a name stands for. */
  ghost predicate Renames(capacity: nat, s: Shard, op: Op, t: Shard) {
    match op
    case Lookup(_) => t.content == s.content
    case Release(_) => t.content == s.content
    case Erase(name) => t.content == s.content - {name}
    case Prune => forall name :: (name in t.content <==> name in s.content && Held(s.cache, s.content[name]) > 0)
                                 && (name in t.content ==> t.content[name] == s.content[name])
    case Insert(name, charge) =>
      && (capacity > 0 ==> name in t.content && t.content[name] == s.cache.next)
      && (forall other :: other in t.content && (capacity == 0 || other != name) ==> other in s.content && t.content[other] == s.content[other])
      && (forall other :: other in s.content && other !in t.content ==>
            Held(s.cache, s.content[other]) == 0 && NewUsage(s, capacity, name, charge) > capacity)
  }

  lemma PruneRenames(s: Shard)
    requires ShardInv(s)
    ensures Renames(0, s, Prune, Evicted(s, -1))
  {
    var t := Evicted(s, -1);
    hide Evicted; hide CacheInv; hide Held;
    EvictedNames(s, -1);
    PrunedEmpty(s);
    forall name
      ensures (name in t.content <==> name in s.content && Held(s.cache, s.content[name]) > 0) && (name in t.content ==> t.content[name] == s.content[name])
    {
      if name in t.content {
        EvictedUndisturbs(s, -1);
        NamedUnlisted(s, t, name);
      } else if name in s.content {
        IdleIsUnheld(s, s.content[name]);
      }
    }
  }

  lemma PrunedEmpty(s: Shard)
    requires ShardInv(s)
    ensures ShardInv(Evicted(s, -1)) && Evicted(s, -1).cache.lru == []
  {
    hide CacheInv;
    EvictedOldestFirst(s, -1);
  }

  lemma NamedUnlisted(s: Shard, t: Shard, name: Name)
    requires ShardInv(s) && ShardInv(t) && t.cache.lru == [] && name in t.content && Undisturbed(s.cache, t.cache)
    ensures Held(s.cache, t.content[name]) > 0
  {
    var id := t.content[name];
    NamedShard(t, name);
    assert id !in t.cache.lru;
    hide Charged;
  }

  lemma FitsStays(s: Shard, limit: int)
    requires ShardInv(s) && s.cache.usage <= limit
    ensures Evicted(s, limit) == s
  {
  }

  /** A name lost to eviction stood for an idle handle. */
  lemma LostName(capacity: nat, s: Shard, name: Name, charge: nat, other: Name)
    requires ShardInv(s) && other in s.content && other !in Inserted(s, capacity, name, charge).content
    ensures Held(s.cache, s.content[other]) == 0 && NewUsage(s, capacity, name, charge) > capacity
  {
    hide *;
    var m := Start(s, capacity, name, charge);
    InsertedIs(s, capacity, name, charge);
    StartUsage(s, capacity, name, charge);
    if capacity > 0 {
      InsertedNames(s, capacity, name, charge);
    }
    EvictedNames(m, capacity);
    StayedName(m, Inserted(s, capacity, name, charge), other);
    CandidateIdle(s, capacity, name, s.content[other]);
    IdleIsUnheld(s, s.content[other]);
    if m.cache.usage <= capacity {
      FitsStays(m, capacity);
    }
  }

  lemma StayedName(s: Shard, t: Shard, name: Name)
    requires NamesStay(s, t) && name in s.content && name !in t.content
    ensures s.content[name] in s.cache.lru
  {
  }

  lemma CandidateIdle(s: Shard, capacity: nat, name: Name, id: nat)
    requires id in Candidates(s, capacity, name)
    ensures id in s.cache.lru
  {
    WithoutKept(s.cache.lru, if name in s.content then s.content[name] else 0);
    hide Without; hide Before;
  }

  lemma RenamesOf(capacity: nat, s: Shard, name: Name, charge: nat, m: Shard, t: Shard)
    requires m.content == (if capacity > 0 then s.content[name := s.cache.next] else s.content) && NamesStay(m, t)
    requires capacity > 0 ==> name in t.content
    requires forall other :: other in s.content && other !in t.content ==>
               Held(s.cache, s.content[other]) == 0 && NewUsage(s, capacity, name, charge) > capacity
    ensures Renames(capacity, s, Insert(name, charge), t)
  {
    hide Held; hide NewUsage;
  }

  lemma InsertRenames(capacity: nat, s: Shard, name: Name, charge: nat)
    requires ShardInv(s)
    ensures Renames(capacity, s, Insert(name, charge), Inserted(s, capacity, name, charge))
  {
    hide *;
    var m, t := Start(s, capacity, name, charge), Inserted(s, capacity, name, charge);
    InsertedIs(s, capacity, name, charge);
    StartUsage(s, capacity, name, charge);
    if capacity > 0 {
      InsertedNames(s, capacity, name, charge);
    }
    EvictedNames(m, capacity);
    forall other | other in s.content && other !in t.content
      ensures Held(s.cache, s.content[other]) == 0 && NewUsage(s, capacity, name, charge) > capacity
    {
      LostName(capacity, s, name, charge, other);
    }
    RenamesOf(capacity, s, name, charge, m, t);
  }

  lemma AfterRenames(capacity: nat, s: Shard, op: Op)
    requires ShardInv(s) && Allowed(s, op)
    ensures Renames(capacity, s, op, After(capacity, s, op))
  {
    hide ShardInv; hide Referenced; hide Released; hide Inserted; hide Evicted; hide Erased;
    match op {
      case Lookup(name) =>
      case Release(id) =>
      case Insert(name, charge) =>
        InsertRenames(capacity, s, name, charge);
      case Erase(name) =>
        if name !in s.content {
          NothingRemoved(s.content, name);
        }
      case Prune =>
        PruneRenames(s);
    }
  }

  /** Over every run: an insertion gives the name to the new handle; it keeps
      it until the name is inserted again or erased, or the handle goes while no
      client has it, by pruning or because the cache would be over capacity. */
  lemma NamesFollow(capacity: nat, ops: seq<Op>)
    requires Legal(capacity, ops) && ops != []
    ensures Legal(capacity, ops[..|ops| - 1])
    ensures Renames(capacity, Play(capacity, ops[..|ops| - 1]), ops[|ops| - 1], Play(capacity, ops))
  {
    var before, op := ops[..|ops| - 1], ops[|ops| - 1];
    hide ShardInv; hide After; hide Renames;
    PlayInv(capacity, before);
    AfterRenames(capacity, Play(capacity, before), op);
  }
}
