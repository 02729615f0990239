/** Whole runs of the cache (util/cache.cc): a handle is freed exactly when its
    last reference goes. */
module CacheRuns {
  import opened Keys
  import opened HandleTables
  import opened LruCache

  datatype Op =
    | Lookup(name: Name)
    | Release(id: nat)
    | Insert(name: Name, charge: nat)
    | Erase(name: Name)
    | Prune

  /** Clients give back only references they have. */
  ghost predicate Allowed(s: Shard, op: Op) {
    op.Release? ==> op.id in s.cache.handles && op.id in s.cache.held && s.cache.held[op.id] > 0
  }

  ghost function After(capacity: nat, s: Shard, op: Op): (r: Shard)
    requires ShardInv(s) && Allowed(s, op)
    ensures ShardInv(r)
  {
    match op
    case Lookup(name) =>
      if name !in s.content then s
      else
        NamedHandle(s.cache, s.content, name);
        ReferencedKeeps(s.cache, s.content, s.content[name]);
        s.(cache := Referenced(s.cache, s.content[name]))
    case Release(id) =>
      ReleasedKeeps(s.cache, s.content, id);
      s.(cache := Released(s.cache, id))
    case Insert(name, charge) => Inserted(s, capacity, name, charge)
    case Erase(name) => if name in s.content then Dropped(s, name) else s
    case Prune => Evicted(s, -1)
  }

  /** How many references to a handle the caller of an operation comes out with. */
  function Gain(s: Shard, op: Op, id: nat): int {
    match op
    case Lookup(name) => if name in s.content && s.content[name] == id then 1 else 0
    case Release(x) => if x == id then -1 else 0
    case Insert(name, charge) => if s.cache.next == id then 1 else 0
    case Erase(_) => 0
    case Prune => 0
  }

  /** Clients of a new cache keep to what is allowed. */
  ghost predicate Legal(capacity: nat, ops: seq<Op>)
    decreases |ops|, 0
  {
    ops != [] ==>
      var before := ops[..|ops| - 1];
      Legal(capacity, before) && Allowed(Play(capacity, before), ops[|ops| - 1])
  }

  /** The shard after the operations. */
  ghost function Play(capacity: nat, ops: seq<Op>): (s: Shard)
    requires Legal(capacity, ops)
    ensures ShardInv(s)
    decreases |ops|, 1
  {
    if ops == [] then
      EmptyInv(EMPTY_SHARD);
      EMPTY_SHARD
    else
      After(capacity, Play(capacity, ops[..|ops| - 1]), ops[|ops| - 1])
  }

  /** The references to a handle that clients were handed and have not given back. */
  ghost function Refs(capacity: nat, ops: seq<Op>, id: nat): int
    requires Legal(capacity, ops)
    decreases |ops|
  {
    if ops == [] then 0
    else
      var before := ops[..|ops| - 1];
      Refs(capacity, before, id) + Gain(Play(capacity, before), ops[|ops| - 1], id)
  }

  function Held(c: Cache, id: nat): nat {
    if id in c.held then c.held[id] else 0
  }

  ghost predicate Named(s: Shard, id: nat) {
    exists name :: name in s.content && s.content[name] == id
  }

  // ----- one operation

  /** The clients' references change by what the operation hands out, handles
      keep their item, and the freed stay freed. */
  ghost predicate Stepped(s: Shard, op: Op, t: Shard) {
    && s.cache.next <= t.cache.next && s.cache.freed <= t.cache.freed
    && (forall id :: Held(t.cache, id) == Held(s.cache, id) + Gain(s, op, id))
    && forall id :: id in s.cache.handles && id in t.cache.handles ==> SameItem(s.cache.handles[id], t.cache.handles[id])
  }

  lemma UndisturbedHeld(a: Cache, b: Cache)
    requires Undisturbed(a, b) && Counted(a) && Counted(b)
    ensures forall id :: Held(b, id) == Held(a, id)
    ensures a.freed <= b.freed
  {
    hide SameItem;
    forall id
      ensures Held(b, id) == Held(a, id)
    {
      assert id in a.held <==> id in a.handles.Keys;
      assert id in b.held <==> id in b.handles.Keys;
    }
  }

  lemma UndisturbedStep(s: Shard, op: Op, t: Shard)
    requires ShardInv(s) && ShardInv(t) && (op.Erase? || op.Prune?) && Undisturbed(s.cache, t.cache)
    ensures Stepped(s, op, t)
  {
    hide Listed; hide Charged; hide Tabled; hide SameItem;
    UndisturbedHeld(s.cache, t.cache);
    hide Counted;
  }

  lemma LookupStep(s: Shard, name: Name)
    requires ShardInv(s) && name in s.content && s.content[name] in s.cache.handles && s.content[name] in s.cache.held
    ensures Stepped(s, Lookup(name), s.(cache := Referenced(s.cache, s.content[name])))
  {
    hide ShardInv; hide Without;
  }

  lemma ReleaseStep(s: Shard, id: nat)
    requires ShardInv(s) && Allowed(s, Release(id)) && s.cache.handles[id].refs > 0
    ensures Stepped(s, Release(id), s.(cache := Released(s.cache, id)))
  {
    assert s.cache.handles[id].refs == 1 ==> s.cache.held[id] == 1 by {
      hide Listed; hide Charged; hide Tabled;
    }
    hide ShardInv; hide Without;
  }

  lemma InsertStep(s: Shard, capacity: nat, name: Name, charge: nat)
    requires ShardInv(s)
    ensures Stepped(s, Insert(name, charge), Inserted(s, capacity, name, charge))
  {
    var c, t := Created(s.cache, name, charge, capacity > 0), Inserted(s, capacity, name, charge);
    InsertedUndisturbs(s, capacity, name, charge);
    CreatedKeeps(s.cache, s.content, name, charge, capacity > 0);
    hide Listed; hide Charged; hide Tabled; hide Inserted; hide Undisturbed;
    UndisturbedHeld(c, t.cache);
    CreatedHeld(s.cache, name, charge, capacity > 0);
    CreatedItems(s.cache, name, charge, capacity > 0, t.cache);
    hide Created; hide Counted; hide SameItem;
  }

  lemma CreatedHeld(c: Cache, name: Name, charge: nat, cached: bool)
    requires Counted(c)
    ensures var d := Created(c, name, charge, cached);
            && d.freed == c.freed && d.next == c.next + 1
            && forall id :: Held(d, id) == Held(c, id) + if id == c.next then 1 else 0
  {
    assert c.next !in c.held.Keys;
  }

  lemma CreatedItems(c: Cache, name: Name, charge: nat, cached: bool, d: Cache)
    requires Counted(c) && Undisturbed(Created(c, name, charge, cached), d)
    ensures d.next == c.next + 1
    ensures forall id :: id in c.handles && id in d.handles ==> SameItem(c.handles[id], d.handles[id])
  {
    hide SameItem;
    assert c.next !in c.handles;
  }

  lemma OneStep(capacity: nat, s: Shard, op: Op)
    requires ShardInv(s) && Allowed(s, op)
    ensures Stepped(s, op, After(capacity, s, op))
  {
    hide ShardInv; hide Referenced; hide Released; hide Inserted; hide Dropped; hide Evicted; hide Stepped; hide Undisturbed;
    AfterInv(capacity, s, op);
    match op {
      case Lookup(name) =>
        if name in s.content {
          NamedShard(s, name);
          LookupStep(s, name);
        } else {
          SameStep(s, op);
        }
      case Release(id) =>
        ReleaseShard(s, id);
        ReleaseStep(s, id);
      case Insert(name, charge) =>
        InsertStep(s, capacity, name, charge);
      case Erase(name) =>
        if name in s.content {
          DroppedUndisturbs(s, name);
          UndisturbedStep(s, op, After(capacity, s, op));
        } else {
          SameStep(s, op);
        }
      case Prune =>
        EvictedUndisturbs(s, -1);
        UndisturbedStep(s, op, After(capacity, s, op));
    }
  }

  lemma AfterInv(capacity: nat, s: Shard, op: Op)
    requires ShardInv(s) && Allowed(s, op)
    ensures ShardInv(After(capacity, s, op))
  {
  }

  lemma SameStep(s: Shard, op: Op)
    requires (op.Lookup? || op.Erase?) && op.name !in s.content
    ensures Stepped(s, op, s)
  {
  }

  lemma NamedShard(s: Shard, name: Name)
    requires ShardInv(s) && name in s.content
    ensures s.content[name] in s.cache.handles && s.content[name] in s.cache.held
  {
    hide CacheInv;
    NamedHandle(s.cache, s.content, name);
  }

  lemma ReleaseShard(s: Shard, id: nat)
    requires ShardInv(s) && Allowed(s, Release(id))
    ensures s.cache.handles[id].refs > 0
  {
    hide CacheInv; hide Released;
    ReleasedKeeps(s.cache, s.content, id);
  }

  // ----- whole runs

  /** The run without its last operation. */
  lemma LastOp(capacity: nat, ops: seq<Op>)
    requires Legal(capacity, ops) && ops != []
    ensures var before, op := ops[..|ops| - 1], ops[|ops| - 1];
            && Legal(capacity, before) && Stepped(Play(capacity, before), op, Play(capacity, ops))
            && forall id :: Refs(capacity, ops, id) == Refs(capacity, before, id) + Gain(Play(capacity, before), op, id)
  {
    hide ShardInv; hide After; hide Stepped; hide Allowed; hide Gain;
    var before, op := ops[..|ops| - 1], ops[|ops| - 1];
    PlayInv(capacity, before);
    OneStep(capacity, Play(capacity, before), op);
  }

  lemma PlayInv(capacity: nat, ops: seq<Op>)
    requires Legal(capacity, ops)
    ensures ShardInv(Play(capacity, ops))
  {
  }

  lemma NewShard(capacity: nat, ops: seq<Op>, id: nat)
    requires Legal(capacity, ops)
    ensures Held(Play(capacity, ops).cache, id) == Refs(capacity, ops, id) || ops != []
  {
    hide ShardInv;
  }

  /** The references counted in the state are the clients'. */
  lemma {:induction false} HeldIsRefs(capacity: nat, ops: seq<Op>, id: nat)
    requires Legal(capacity, ops)
    ensures Held(Play(capacity, ops).cache, id) == Refs(capacity, ops, id)
    decreases |ops|
  {
    hide *;
    if ops == [] {
      NewShard(capacity, ops, id);
    } else {
      LastOp(capacity, ops);
      HeldIsRefs(capacity, ops[..|ops| - 1], id);
      SteppedHeld(Play(capacity, ops[..|ops| - 1]), ops[|ops| - 1], Play(capacity, ops), id);
    }
  }

  lemma SteppedHeld(s: Shard, op: Op, t: Shard, id: nat)
    requires Stepped(s, op, t)
    ensures Held(t.cache, id) == Held(s.cache, id) + Gain(s, op, id)
  {
  }

  lemma StateCounts(s: Shard, id: nat)
    requires ShardInv(s)
    ensures id in s.cache.handles <==> id < s.cache.next && (Held(s.cache, id) > 0 || Named(s, id))
    ensures id in s.cache.freed <==> id < s.cache.next && Held(s.cache, id) == 0 && !Named(s, id)
    ensures id in s.cache.handles ==> s.cache.handles[id].refs == Held(s.cache, id) + if Named(s, id) then 1 else 0
  {
    hide Listed; hide Charged;
    CachedIsNamed(s, id);
    assert id in s.cache.held <==> id in s.cache.handles.Keys;
    hide Tabled; hide Named;
  }

  lemma CachedIsNamed(s: Shard, id: nat)
    requires ShardInv(s)
    ensures Named(s, id) <==> id in s.cache.handles && s.cache.handles[id].inCache
  {
    hide Listed; hide Charged; hide Counted;
    if id in s.cache.handles && s.cache.handles[id].inCache {
      assert s.cache.handles[id].name in s.content;
    }
  }

  /** Over every run a handle lives exactly as long as a client refers to it or
      the table names it, its count is the number of those references, and it
      is freed exactly when it was created and none is left. */
  lemma FreedExactly(capacity: nat, ops: seq<Op>, id: nat)
    requires Legal(capacity, ops)
    ensures var s, refs := Play(capacity, ops), Refs(capacity, ops, id);
            && refs >= 0
            && (id in s.cache.handles <==> id < s.cache.next && (refs > 0 || Named(s, id)))
            && (id in s.cache.freed <==> id < s.cache.next && refs == 0 && !Named(s, id))
            && (id in s.cache.handles ==> s.cache.handles[id].refs == refs + if Named(s, id) then 1 else 0)
  {
    hide *;
    PlayInv(capacity, ops);
    HeldIsRefs(capacity, ops, id);
    StateCounts(Play(capacity, ops), id);
  }

  /** What is freed stays freed, and a handle keeps its item while it lives. */
  lemma {:induction false} FreedForever(capacity: nat, ops: seq<Op>, i: nat, id: nat)
    requires Legal(capacity, ops) && i <= |ops|
    ensures Legal(capacity, ops[..i])
    ensures var s, t := Play(capacity, ops[..i]).cache, Play(capacity, ops).cache;
            && s.next <= t.next && (id in s.freed ==> id in t.freed)
            && (id in s.handles && id in t.handles ==> SameItem(s.handles[id], t.handles[id]))
    decreases |ops|
  {
    hide *;
    if i == |ops| {
      assert ops[..i] == ops;
      ItemSame(Play(capacity, ops).cache, id);
    } else {
      var before := ops[..|ops| - 1];
      LastOp(capacity, ops);
      assert before[..i] == ops[..i];
      FreedForever(capacity, before, i, id);
      PlayInv(capacity, before);
      PlayInv(capacity, ops[..i]);
      PlayInv(capacity, ops);
      ItemStays(Play(capacity, ops[..i]), Play(capacity, before), ops[|ops| - 1], Play(capacity, ops), id);
    }
  }

  lemma ItemSame(c: Cache, id: nat)
    ensures id in c.handles ==> SameItem(c.handles[id], c.handles[id])
  {
  }

  lemma ItemStays(s: Shard, t: Shard, op: Op, u: Shard, id: nat)
    requires ShardInv(s) && ShardInv(t) && ShardInv(u) && Stepped(t, op, u)
    requires s.cache.next <= t.cache.next && (id in s.cache.freed ==> id in t.cache.freed)
    requires id in s.cache.handles && id in t.cache.handles ==> SameItem(s.cache.handles[id], t.cache.handles[id])
    ensures s.cache.next <= u.cache.next && (id in s.cache.freed ==> id in u.cache.freed)
    ensures id in s.cache.handles && id in u.cache.handles ==> SameItem(s.cache.handles[id], u.cache.handles[id])
  {
    hide ShardInv; hide Held; hide Gain;
    Living(s, id);
    Living(t, id);
    Living(u, id);
  }

  lemma Living(s: Shard, id: nat)
    requires ShardInv(s)
    ensures id in s.cache.handles <==> id < s.cache.next && id !in s.cache.freed
  {
    hide Listed; hide Charged; hide Tabled;
  }

  /** The usage is the sum of the charges of the cached handles, whatever was
      done, and after an insertion it fits or nothing idle is left. */
  lemma UsageFits(capacity: nat, ops: seq<Op>)
    requires Legal(capacity, ops)
    ensures Charged(Play(capacity, ops).cache)
    ensures var c := Play(capacity, ops).cache; ops != [] && ops[|ops| - 1].Insert? ==> c.usage <= capacity || c.lru == []
  {
    hide *;
    PlayInv(capacity, ops);
    ChargedShard(Play(capacity, ops));
    if ops != [] && ops[|ops| - 1].Insert? {
      var before, op := ops[..|ops| - 1], ops[|ops| - 1];
      LastOp(capacity, ops);
      PlayInv(capacity, before);
      InsertPlayed(capacity, ops);
      InsertedFits(Play(capacity, before), capacity, op.name, op.charge);
    }
  }

  lemma ChargedShard(s: Shard)
    requires ShardInv(s)
    ensures Charged(s.cache)
  {
    hide Listed; hide Charged; hide Tabled; hide Counted;
  }

  lemma InsertPlayed(capacity: nat, ops: seq<Op>)
    requires Legal(capacity, ops) && ops != [] && ops[|ops| - 1].Insert? && Legal(capacity, ops[..|ops| - 1])
    ensures ShardInv(Play(capacity, ops[..|ops| - 1]))
    ensures Play(capacity, ops) == Inserted(Play(capacity, ops[..|ops| - 1]), capacity, ops[|ops| - 1].name, ops[|ops| - 1].charge)
  {
    hide ShardInv; hide Inserted;
    PlayInv(capacity, ops[..|ops| - 1]);
  }

  lemma InsertedFits(s: Shard, capacity: nat, name: Name, charge: nat)
    requires ShardInv(s)
    ensures var r := Inserted(s, capacity, name, charge); r.cache.usage <= capacity || r.cache.lru == []
  {
    CreatedKeeps(s.cache, s.content, name, charge, false);
    hide CacheInv; hide Evicted; hide Created;
    EvictedOldestFirst(if capacity > 0 then Renamed(s, name, charge) else Shard(Created(s.cache, name, charge, false), s.content), capacity);
  }

  // ----- the object takes these steps

  method Perform(c: LRUCache, op: Op)
    requires c.Valid() && Allowed(c.Whole(), op)
    modifies c, c.table
    ensures c.Valid() && c.Whole() == After(c.capacity, old(c.Whole()), op)
  {
    hide ShardInv; hide Referenced; hide Released; hide Inserted; hide Dropped; hide Evicted; hide Undisturbed; hide HandleTable.Valid;
    match op {
      case Lookup(name) =>
        var id := c.Lookup(name);
      case Release(id) =>
        c.Release(id);
      case Insert(name, charge) =>
        var id := c.Insert(name, charge);
      case Erase(name) =>
        c.Erase(name);
      case Prune =>
        c.Prune();
    }
  }

  /** The runs are the histories of a cache object. */
  method Drive(capacity: nat, ops: seq<Op>) returns (c: LRUCache)
    requires Legal(capacity, ops)
    ensures fresh(c) && c.Valid() && c.capacity == capacity && c.Whole() == Play(capacity, ops)
  {
    hide ShardInv; hide After; hide Allowed; hide LRUCache.Valid;
    c := new LRUCache(capacity);
    PrefixesLegal(capacity, ops);
    assert ops[..0] == [];
    for i := 0 to |ops|
      invariant fresh(c) && fresh(c.table) && c.Valid() && c.capacity == capacity && Legal(capacity, ops[..i]) && c.Whole() == Play(capacity, ops[..i])
    {
      assert ops[..i + 1][..i] == ops[..i] && Legal(capacity, ops[..i + 1]);
      Perform(c, ops[i]);
    }
    assert ops[..|ops|] == ops;
  }

  lemma {:induction false} PrefixesLegal(capacity: nat, ops: seq<Op>)
    requires Legal(capacity, ops)
    ensures forall i :: 0 <= i <= |ops| ==> Legal(capacity, ops[..i])
    decreases |ops|
  {
    hide Play; hide Allowed;
    if ops != [] {
      var before := ops[..|ops| - 1];
      PrefixesLegal(capacity, before);
      forall i | 0 <= i <= |ops|
        ensures Legal(capacity, ops[..i])
      {
        if i < |ops| {
          assert before[..i] == ops[..i];
        } else {
          assert ops[..i] == ops;
        }
      }
    }
  }
}
