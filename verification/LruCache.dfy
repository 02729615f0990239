/** The reference-counted LRU cache (util/cache.cc LRUCache). */
module LruCache {
  import opened Keys
  import opened HandleTables

  /** refs counts the clients' references and, while in_cache, the cache's. */
  datatype Handle = Handle(name: Name, charge: nat, refs: nat, inCache: bool)

  type Handles = map<nat, Handle>

  // ----- lists of handles

  ghost predicate NoDup(list: seq<nat>) {
    forall i, j :: 0 <= i < j < |list| ==> list[i] != list[j]
  }

  /** LRU_Remove for the list the handle is on. */
  function Without(list: seq<nat>, id: nat): seq<nat> {
    if list == [] then [] else if list[0] == id then list[1..] else [list[0]] + Without(list[1..], id)
  }

  ghost predicate Known(handles: Handles, list: seq<nat>) {
    forall id :: id in list ==> id in handles
  }

  function Total(handles: Handles, list: seq<nat>): nat
    requires Known(handles, list)
  {
    if list == [] then 0 else handles[list[0]].charge + Total(handles, list[1..])
  }

  lemma {:induction false} WithoutList(list: seq<nat>, id: nat)
    requires NoDup(list)
    ensures NoDup(Without(list, id))
    ensures forall x :: x in Without(list, id) <==> x in list && x != id
  {
    if list != [] {
      var rest := list[1..];
      assert NoDup(rest) && list[0] !in rest;
      WithoutList(rest, id);
      assert list == [list[0]] + rest;
      hide NoDup;
      if list[0] != id {
        ConsNoDup(list[0], Without(rest, id));
      }
    }
  }

  lemma ConsNoDup(x: nat, list: seq<nat>)
    requires NoDup(list) && x !in list
    ensures NoDup([x] + list)
  {
  }

  lemma AppendNoDup(list: seq<nat>, x: nat)
    requires NoDup(list) && x !in list
    ensures NoDup(list + [x])
  {
  }

  lemma {:induction false} WithoutTotal(handles: Handles, list: seq<nat>, id: nat)
    requires Known(handles, list)
    ensures Known(handles, Without(list, id))
    ensures Total(handles, list) == Total(handles, Without(list, id)) + if id in list then handles[id].charge else 0
  {
    if list != [] {
      var rest := list[1..];
      assert list == [list[0]] + rest;
      WithoutTotal(handles, rest, id);
      if list[0] != id {
        assert Without(list, id)[1..] == Without(rest, id);
      }
    }
  }

  lemma {:induction false} AppendTotal(handles: Handles, list: seq<nat>, x: nat)
    requires Known(handles, list + [x])
    ensures Known(handles, list) && x in handles && Total(handles, list + [x]) == Total(handles, list) + handles[x].charge
  {
    assert x in list + [x];
    assert forall id :: id in list ==> id in list + [x];
    if list == [] {
      assert list + [x] == [x] && [x][1..] == [];
    } else {
      assert (list + [x])[1..] == list[1..] + [x];
      assert forall id :: id in list[1..] + [x] ==> id in list + [x];
      AppendTotal(handles, list[1..], x);
    }
  }

  /** Charges of other handles do not matter. */
  lemma {:induction false} SameTotal(a: Handles, b: Handles, list: seq<nat>)
    requires Known(a, list) && Known(b, list) && forall id :: id in list ==> a[id].charge == b[id].charge
    ensures Total(a, list) == Total(b, list)
  {
    if list != [] {
      assert forall id :: id in list[1..] ==> id in list;
      SameTotal(a, b, list[1..]);
    }
  }

  // ----- the invariant

  /** A cache's state; `held` are the clients' references, `freed` the handles
      whose deleter ran. */
  datatype Cache = Cache(handles: Handles, lru: seq<nat>, inUse: seq<nat>, usage: nat, held: map<nat, nat>, freed: set<nat>, next: nat)

  function CacheRef(h: Handle): nat {
    if h.inCache then 1 else 0
  }

  /** Handles live as long as somebody refers to them, and are freed then. */
  ghost predicate Counted(c: Cache) {
    && c.held.Keys == c.handles.Keys
    && (forall id :: id in c.handles ==> c.handles[id].refs == c.held[id] + CacheRef(c.handles[id]) >= 1)
    && (forall id: nat :: id < c.next <==> id in c.handles || id in c.freed)
    && c.handles.Keys !! c.freed
  }

  /** The two lists share out the cached handles by whether a client has them. */
  ghost predicate Listed(c: Cache) {
    && NoDup(c.lru) && NoDup(c.inUse)
    && (forall id :: id in c.lru <==> id in c.handles && c.handles[id].inCache && c.handles[id].refs == 1)
    && (forall id :: id in c.inUse <==> id in c.handles && c.handles[id].inCache && c.handles[id].refs >= 2)
  }

  ghost predicate Charged(c: Cache) {
    && Known(c.handles, c.lru) && Known(c.handles, c.inUse)
    && c.usage == Total(c.handles, c.lru) + Total(c.handles, c.inUse)
  }

  /** The table names the cached handles, all but one that is on its way out. */
  ghost predicate Tabled(handles: Handles, content: map<Name, nat>, leaving: Option<nat>) {
    && (forall name :: name in content ==>
          content[name] in handles && handles[content[name]].inCache && handles[content[name]].name == name && leaving != Some(content[name]))
    && (forall id :: id in handles && handles[id].inCache && leaving != Some(id) ==>
          handles[id].name in content && content[handles[id].name] == id)
    && (leaving.Some? ==> leaving.value in handles && handles[leaving.value].inCache)
  }

  ghost predicate CacheInv(c: Cache, content: map<Name, nat>, leaving: Option<nat>) {
    Counted(c) && Listed(c) && Charged(c) && Tabled(c.handles, content, leaving)
  }

  // ----- what the operations do

  /** Ref. */
  function Referenced(c: Cache, id: nat): Cache
    requires id in c.handles && id in c.held
  {
    var h := c.handles[id];
    var moved := if h.refs == 1 && h.inCache then c.(lru := Without(c.lru, id), inUse := c.inUse + [id]) else c;
    moved.(handles := c.handles[id := h.(refs := h.refs + 1)], held := c.held[id := c.held[id] + 1])
  }

  /** Unref for a client's reference. */
  function Released(c: Cache, id: nat): Cache
    requires id in c.handles && id in c.held && c.held[id] > 0 && c.handles[id].refs > 0
  {
    var h := c.handles[id];
    if h.refs == 1 then c.(handles := c.handles - {id}, held := c.held - {id}, freed := c.freed + {id})
    else
      var moved := if h.inCache && h.refs == 2 then c.(inUse := Without(c.inUse, id), lru := c.lru + [id]) else c;
      moved.(handles := c.handles[id := h.(refs := h.refs - 1)], held := c.held[id := c.held[id] - 1])
  }

  /** A new handle with one client reference, cached or not. */
  function Created(c: Cache, name: Name, charge: nat, cached: bool): Cache {
    var h := Handle(name, charge, if cached then 2 else 1, cached);
    var listed := if cached then c.(inUse := c.inUse + [c.next], usage := c.usage + charge) else c;
    listed.(handles := c.handles[c.next := h], held := c.held[c.next := 1], next := c.next + 1)
  }

  /** FinishErase: off its list, out of the cache, one reference less. */
  function Erased(c: Cache, id: nat): Cache
    requires id in c.handles && c.handles[id].refs > 0 && c.handles[id].charge <= c.usage
  {
    var h := c.handles[id];
    var off := c.(lru := Without(c.lru, id), inUse := Without(c.inUse, id), usage := c.usage - h.charge);
    if h.refs == 1 then off.(handles := c.handles - {id}, held := c.held - {id}, freed := c.freed + {id})
    else off.(handles := c.handles[id := h.(refs := h.refs - 1, inCache := false)])
  }

  lemma ReferencedCounted(c: Cache, id: nat)
    requires Counted(c) && id in c.handles && id in c.held
    ensures Counted(Referenced(c, id))
  {
    hide Without;
  }

  lemma ReferencedTabled(c: Cache, content: map<Name, nat>, id: nat)
    requires Tabled(c.handles, content, None) && id in c.handles && id in c.held
    ensures Tabled(Referenced(c, id).handles, content, None)
  {
    hide Without;
  }

  lemma ReferencedListed(c: Cache, id: nat)
    requires Listed(c) && id in c.handles && id in c.held && c.handles[id].refs >= 1
    ensures Listed(Referenced(c, id))
  {
    var h := c.handles[id];
    if h.refs == 1 && h.inCache {
      WithoutList(c.lru, id);
      AppendNoDup(c.inUse, id);
    }
    hide NoDup; hide Without;
  }

  lemma ReferencedKeeps(c: Cache, content: map<Name, nat>, id: nat)
    requires CacheInv(c, content, None) && id in c.handles && id in c.held
    ensures CacheInv(Referenced(c, id), content, None)
  {
    var d, h := Referenced(c, id), c.handles[id];
    assert h.refs >= 1 && (h.refs == 1 && h.inCache ==> id in c.lru);
    hide Counted; hide Tabled; hide Listed; hide Charged; hide Without;
    ReferencedCounted(c, id);
    ReferencedTabled(c, content, id);
    ReferencedListed(c, id);
    Rechargeable(c, d, id, h.refs == 1 && h.inCache, false);
  }

  /** Moving a handle between the lists, or not, keeps the usage right. */
  lemma Rechargeable(c: Cache, d: Cache, id: nat, toUse: bool, toLru: bool)
    requires Charged(c) && d.usage == c.usage && id in c.handles && id in d.handles && d.handles[id].charge == c.handles[id].charge
    requires forall x :: x in c.handles ==> x in d.handles && d.handles[x].charge == c.handles[x].charge
    requires !(toUse && toLru) && (toUse ==> id in c.lru) && (toLru ==> id in c.inUse)
    requires d.lru == if toUse then Without(c.lru, id) else if toLru then c.lru + [id] else c.lru
    requires d.inUse == if toUse then c.inUse + [id] else if toLru then Without(c.inUse, id) else c.inUse
    ensures Charged(d)
  {
    SameTotal(c.handles, d.handles, c.lru);
    SameTotal(c.handles, d.handles, c.inUse);
    if toUse {
      WithoutTotal(d.handles, c.lru, id);
      AppendTotal(d.handles, c.inUse, id);
    } else if toLru {
      WithoutTotal(d.handles, c.inUse, id);
      AppendTotal(d.handles, c.lru, id);
    }
  }

  lemma ReleasedCounted(c: Cache, id: nat)
    requires Counted(c) && id in c.handles && id in c.held && c.held[id] > 0
    ensures c.handles[id].refs > 0 && Counted(Released(c, id))
  {
    hide Without;
  }

  lemma ReleasedTabled(c: Cache, content: map<Name, nat>, id: nat)
    requires Tabled(c.handles, content, None) && id in c.handles && id in c.held && c.held[id] > 0 && c.handles[id].refs > 0
    requires c.handles[id].refs == 1 ==> !c.handles[id].inCache
    ensures Tabled(Released(c, id).handles, content, None)
  {
    hide Without;
  }

  lemma ReleasedListed(c: Cache, id: nat)
    requires Listed(c) && id in c.handles && id in c.held && c.held[id] > 0 && c.handles[id].refs > 0
    requires c.handles[id].refs == 1 ==> !c.handles[id].inCache
    ensures Listed(Released(c, id))
  {
    var h := c.handles[id];
    if h.inCache && h.refs == 2 {
      WithoutList(c.inUse, id);
      AppendNoDup(c.lru, id);
    }
    hide NoDup; hide Without;
  }

  lemma ReleasedCharged(c: Cache, id: nat)
    requires Listed(c) && Charged(c) && id in c.handles && id in c.held && c.held[id] > 0 && c.handles[id].refs > 0
    requires c.handles[id].refs == 1 ==> !c.handles[id].inCache
    ensures Charged(Released(c, id))
  {
    var d, h := Released(c, id), c.handles[id];
    assert h.refs == 1 ==> id !in c.lru && id !in c.inUse;
    assert h.inCache && h.refs == 2 ==> id in c.inUse;
    hide Listed; hide Without;
    if h.refs == 1 {
      SameTotal(c.handles, d.handles, c.lru);
      SameTotal(c.handles, d.handles, c.inUse);
    } else {
      hide Charged;
      Rechargeable(c, d, id, false, h.inCache && h.refs == 2);
    }
  }

  lemma ReleasedKeeps(c: Cache, content: map<Name, nat>, id: nat)
    requires CacheInv(c, content, None) && id in c.handles && id in c.held && c.held[id] > 0
    ensures c.handles[id].refs > 0 && CacheInv(Released(c, id), content, None)
  {
    assert c.handles[id].refs == 1 ==> !c.handles[id].inCache;
    hide Counted; hide Tabled; hide Listed; hide Charged; hide Released;
    ReleasedCounted(c, id);
    ReleasedTabled(c, content, id);
    ReleasedListed(c, id);
    ReleasedCharged(c, id);
  }

  lemma CreatedCounted(c: Cache, name: Name, charge: nat, cached: bool)
    requires Counted(c)
    ensures Counted(Created(c, name, charge, cached)) && c.next !in c.handles
  {
  }

  lemma CreatedTabled(c: Cache, content: map<Name, nat>, name: Name, charge: nat, cached: bool)
    requires Tabled(c.handles, content, None) && c.next !in c.handles
    ensures var d := Created(c, name, charge, cached);
            if cached then Tabled(d.handles, content[name := c.next], if name in content then Some(content[name]) else None)
            else Tabled(d.handles, content, None)
  {
  }

  lemma CreatedListed(c: Cache, name: Name, charge: nat, cached: bool)
    requires Listed(c) && c.next !in c.handles
    ensures Listed(Created(c, name, charge, cached))
  {
    assert c.next !in c.inUse && c.next !in c.lru;
    AppendNoDup(c.inUse, c.next);
    hide NoDup;
  }

  lemma CreatedCharged(c: Cache, name: Name, charge: nat, cached: bool)
    requires Charged(c) && c.next !in c.handles
    ensures Charged(Created(c, name, charge, cached))
  {
    var d := Created(c, name, charge, cached);
    SameTotal(c.handles, d.handles, c.lru);
    SameTotal(c.handles, d.handles, c.inUse);
    if cached {
      AppendTotal(d.handles, c.inUse, c.next);
    }
  }

  lemma CreatedKeeps(c: Cache, content: map<Name, nat>, name: Name, charge: nat, cached: bool)
    requires CacheInv(c, content, None)
    ensures cached ==> CacheInv(Created(c, name, charge, cached), content[name := c.next], if name in content then Some(content[name]) else None)
    ensures !cached ==> CacheInv(Created(c, name, charge, cached), content, None)
  {
    hide Counted; hide Tabled; hide Listed; hide Charged; hide Created;
    CreatedCounted(c, name, charge, cached);
    CreatedTabled(c, content, name, charge, cached);
    CreatedListed(c, name, charge, cached);
    CreatedCharged(c, name, charge, cached);
  }

  lemma ErasedCounted(c: Cache, id: nat)
    requires Counted(c) && id in c.handles && c.handles[id].inCache && c.handles[id].charge <= c.usage
    ensures c.handles[id].refs > 0 && Counted(Erased(c, id))
  {
    hide Without;
  }

  lemma ErasedTabled(c: Cache, content: map<Name, nat>, id: nat)
    requires Tabled(c.handles, content, Some(id)) && c.handles[id].refs > 0 && c.handles[id].charge <= c.usage
    ensures Tabled(Erased(c, id).handles, content, None)
  {
    hide Without;
  }

  lemma ErasedListed(c: Cache, id: nat)
    requires Listed(c) && id in c.handles && c.handles[id].inCache && c.handles[id].refs > 0 && c.handles[id].charge <= c.usage
    ensures Listed(Erased(c, id)) && (id in c.lru <==> id !in c.inUse)
  {
    WithoutList(c.lru, id);
    WithoutList(c.inUse, id);
    hide NoDup; hide Without;
  }

  lemma ErasedCharged(c: Cache, id: nat)
    requires NoDup(c.lru) && NoDup(c.inUse) && Charged(c) && (id in c.lru <==> id !in c.inUse)
    requires id in c.handles && c.handles[id].refs > 0 && c.handles[id].charge <= c.usage
    ensures Charged(Erased(c, id))
  {
    hide NoDup; hide Without; hide Total;
    WithoutTotal(c.handles, c.lru, id);
    WithoutTotal(c.handles, c.inUse, id);
    ErasedTotal(c, Erased(c, id), id);
  }

  lemma ErasedKeeps(c: Cache, content: map<Name, nat>, id: nat)
    requires CacheInv(c, content, Some(id))
    ensures id in c.handles && c.handles[id].refs > 0 && c.handles[id].charge <= c.usage
    ensures CacheInv(Erased(c, id), content, None)
  {
    assert id in c.handles && c.handles[id].inCache && NoDup(c.lru) && NoDup(c.inUse);
    hide Counted; hide Tabled; hide Listed; hide Charged; hide Erased; hide NoDup;
    CachedCharge(c, id);
    ErasedCounted(c, id);
    ErasedTabled(c, content, id);
    ErasedListed(c, id);
    ErasedCharged(c, id);
  }

  lemma ErasedTotal(c: Cache, d: Cache, id: nat)
    requires NoDup(c.lru) && NoDup(c.inUse) && Known(c.handles, d.lru) && Known(c.handles, d.inUse)
    requires d.lru == Without(c.lru, id) && d.inUse == Without(c.inUse, id)
    requires forall x :: x in c.handles && x != id ==> x in d.handles && d.handles[x].charge == c.handles[x].charge
    ensures Known(d.handles, d.lru) && Known(d.handles, d.inUse)
    ensures Total(d.handles, d.lru) == Total(c.handles, d.lru) && Total(d.handles, d.inUse) == Total(c.handles, d.inUse)
  {
    WithoutList(c.lru, id);
    WithoutList(c.inUse, id);
    hide NoDup; hide Without;
    SameTotal(c.handles, d.handles, d.lru);
    SameTotal(c.handles, d.handles, d.inUse);
  }

  lemma CachedCharge(c: Cache, id: nat)
    requires Counted(c) && Listed(c) && Charged(c) && id in c.handles && c.handles[id].inCache
    ensures c.handles[id].charge <= c.usage
  {
    WithoutTotal(c.handles, c.lru, id);
    WithoutTotal(c.handles, c.inUse, id);
    assert id in c.lru || id in c.inUse;
  }

  /** The table lets go of a name first; its handle is then on its way out. */
  lemma RemovedFromTable(c: Cache, content: map<Name, nat>, name: Name)
    requires CacheInv(c, content, None) && name in content
    ensures CacheInv(c, content - {name}, Some(content[name]))
  {
    hide Counted; hide Listed; hide Charged;
  }

  // ----- a shard: the cache together with its table

  datatype Shard = Shard(cache: Cache, content: map<Name, nat>)

  ghost predicate ShardInv(s: Shard) {
    CacheInv(s.cache, s.content, None)
  }

  /** The handle of a name leaves table, list and cache; without clients it is
      freed at once. */
  ghost function Dropped(s: Shard, name: Name): (r: Shard)
    requires ShardInv(s) && name in s.content
    ensures ShardInv(r)
  {
    RemovedFromTable(s.cache, s.content, name);
    ErasedKeeps(s.cache, s.content - {name}, s.content[name]);
    Shard(Erased(s.cache, s.content[name]), s.content - {name})
  }

  /** The name of the handle no client has had for the longest time. */
  ghost function OldestName(s: Shard): (name: Name)
    requires ShardInv(s) && s.cache.lru != []
    ensures name in s.content && s.content[name] == s.cache.lru[0] && Dropped(s, name).cache.lru == s.cache.lru[1..]
  {
    OldestHandle(s.cache, s.content);
    s.cache.handles[s.cache.lru[0]].name
  }

  /** Idle handles go, oldest first, until the usage is within the limit. */
  ghost function Evicted(s: Shard, limit: int): (r: Shard)
    requires ShardInv(s)
    ensures ShardInv(r)
    decreases |s.cache.lru|
  {
    if s.cache.usage <= limit || s.cache.lru == [] then s else Evicted(Dropped(s, OldestName(s)), limit)
  }

  /** A new handle stands for the name; the one it replaces leaves the cache. */
  ghost function Renamed(s: Shard, name: Name, charge: nat): (r: Shard)
    requires ShardInv(s)
    ensures ShardInv(r)
  {
    CreatedKeeps(s.cache, s.content, name, charge, true);
    var c, content := Created(s.cache, name, charge, true), s.content[name := s.cache.next];
    if name in s.content then
      ErasedKeeps(c, content, s.content[name]);
      Shard(Erased(c, s.content[name]), content)
    else Shard(c, content)
  }

  /** Without capacity the new handle belongs to the client alone. */
  ghost function Inserted(s: Shard, capacity: nat, name: Name, charge: nat): (r: Shard)
    requires ShardInv(s)
    ensures ShardInv(r)
  {
    CreatedKeeps(s.cache, s.content, name, charge, false);
    Evicted(if capacity > 0 then Renamed(s, name, charge) else Shard(Created(s.cache, name, charge, false), s.content), capacity)
  }

  const EMPTY_CACHE := Cache(map[], [], [], 0, map[], {}, 0)
  const EMPTY_SHARD := Shard(EMPTY_CACHE, map[])

  lemma EmptyInv(s: Shard)
    requires s == EMPTY_SHARD
    ensures ShardInv(s)
  {
    assert Counted(s.cache);
    hide Counted;
    assert Tabled(s.cache.handles, map[], None);
    hide Tabled;
    assert Listed(s.cache);
    hide Listed;
  }

  // ----- what clients notice of it

  ghost predicate SameItem(a: Handle, b: Handle) {
    a.name == b.name && a.charge == b.charge
  }

  /** From a to b no client gains or loses a reference, and exactly the handles
      that went are freed, which no client had. */
  ghost predicate Undisturbed(a: Cache, b: Cache) {
    && a.next == b.next
    && (forall id :: id in b.handles ==>
          id in a.handles && id in a.held && id in b.held && b.held[id] == a.held[id] && SameItem(a.handles[id], b.handles[id]))
    && (forall id :: id in a.handles && id !in b.handles ==> id in a.held && a.held[id] == 0)
    && b.freed == a.freed + (a.handles.Keys - b.handles.Keys)
  }

  lemma UndisturbedTrans(a: Cache, b: Cache, c: Cache)
    requires Undisturbed(a, b) && Undisturbed(b, c)
    ensures Undisturbed(a, c)
  {
    hide SameItem;
    forall id | id in c.handles
      ensures SameItem(a.handles[id], c.handles[id])
    {
      SameItemTrans(a.handles[id], b.handles[id], c.handles[id]);
    }
    assert c.freed == a.freed + (a.handles.Keys - c.handles.Keys);
  }

  /** What a client refers to stays. */
  lemma ClientKeeps(a: Cache, b: Cache, id: nat)
    requires Undisturbed(a, b) && id in a.handles && id in a.held && a.held[id] > 0
    ensures id in b.handles && id in b.held && b.held[id] == a.held[id]
  {
  }

  lemma SameItemTrans(a: Handle, b: Handle, c: Handle)
    requires SameItem(a, b) && SameItem(b, c)
    ensures SameItem(a, c)
  {
  }

  lemma ErasedUndisturbs(c: Cache, id: nat)
    requires Counted(c) && id in c.handles && c.handles[id].inCache && c.handles[id].charge <= c.usage
    ensures c.handles[id].refs > 0 && Undisturbed(c, Erased(c, id))
  {
    hide Without;
  }

  lemma DroppedUndisturbs(s: Shard, name: Name)
    requires ShardInv(s) && name in s.content
    ensures Undisturbed(s.cache, Dropped(s, name).cache)
  {
    hide Undisturbed; hide Erased; hide Listed; hide Charged;
    RemovedFromTable(s.cache, s.content, name);
    ErasedKeeps(s.cache, s.content - {name}, s.content[name]);
    ErasedUndisturbs(s.cache, s.content[name]);
  }

  lemma UndisturbedRefl(c: Cache)
    requires Counted(c)
    ensures Undisturbed(c, c)
  {
  }

  lemma {:induction false} EvictedUndisturbs(s: Shard, limit: int)
    requires ShardInv(s)
    ensures Undisturbed(s.cache, Evicted(s, limit).cache)
    decreases |s.cache.lru|
  {
    hide Undisturbed; hide Dropped; hide Counted; hide Listed; hide Charged; hide Tabled;
    UndisturbedRefl(s.cache);
    if s.cache.usage > limit && s.cache.lru != [] {
      var name := OldestName(s);
      var t := Dropped(s, name);
      DroppedUndisturbs(s, name);
      DroppedInv(s, name);
      hide CacheInv; hide OldestName;
      EvictedUndisturbs(t, limit);
      UndisturbedTrans(s.cache, t.cache, Evicted(t, limit).cache);
    }
  }

  lemma DroppedInv(s: Shard, name: Name)
    requires ShardInv(s) && name in s.content
    ensures ShardInv(Dropped(s, name)) && Dropped(s, name).content == s.content - {name}
  {
  }

  /** What is left of the idle handles are the youngest, and the loop stops as
      soon as the usage fits. */
  lemma {:induction false} EvictedOldestFirst(s: Shard, limit: int)
    requires ShardInv(s)
    ensures var r := Evicted(s, limit);
            && (r.cache.usage <= limit || r.cache.lru == [])
            && exists k :: 0 <= k <= |s.cache.lru| && r.cache.lru == s.cache.lru[k..]
    decreases |s.cache.lru|
  {
    hide Dropped; hide CacheInv;
    if s.cache.usage > limit && s.cache.lru != [] {
      OldestLeaves(s);
      hide OldestName;
      var t := Dropped(s, OldestName(s));
      EvictedOldestFirst(t, limit);
      var k :| 0 <= k <= |t.cache.lru| && Evicted(t, limit).cache.lru == t.cache.lru[k..];
      assert t.cache.lru[k..] == s.cache.lru[k + 1..];
    } else {
      assert s.cache.lru[0..] == s.cache.lru;
    }
  }

  lemma OldestLeaves(s: Shard)
    requires ShardInv(s) && s.cache.lru != []
    ensures OldestName(s) in s.content && ShardInv(Dropped(s, OldestName(s))) && Dropped(s, OldestName(s)).cache.lru == s.cache.lru[1..]
  {
    hide Dropped; hide CacheInv;
    DroppedInv(s, OldestName(s));
  }

  /** The replaced handle is out of the cache, and freed if no client has it. */
  lemma InsertedUndisturbs(s: Shard, capacity: nat, name: Name, charge: nat)
    requires ShardInv(s)
    ensures Undisturbed(Created(s.cache, name, charge, capacity > 0), Inserted(s, capacity, name, charge).cache)
  {
    hide Undisturbed; hide Created; hide Listed; hide Charged; hide Erased; hide Counted; hide Tabled; hide Evicted;
    var c := Created(s.cache, name, charge, capacity > 0);
    CreatedKeeps(s.cache, s.content, name, charge, capacity > 0);
    UndisturbedRefl(c);
    if capacity > 0 {
      var t := Renamed(s, name, charge);
      RenamedUndisturbs(s, name, charge);
      EvictedUndisturbs(t, capacity);
      UndisturbedTrans(c, t.cache, Evicted(t, capacity).cache);
    } else {
      EvictedUndisturbs(Shard(c, s.content), capacity);
    }
  }

  lemma RenamedUndisturbs(s: Shard, name: Name, charge: nat)
    requires ShardInv(s)
    ensures Undisturbed(Created(s.cache, name, charge, true), Renamed(s, name, charge).cache)
  {
    hide Undisturbed; hide Created; hide Listed; hide Charged; hide Erased;
    var c, content := Created(s.cache, name, charge, true), s.content[name := s.cache.next];
    CreatedKeeps(s.cache, s.content, name, charge, true);
    UndisturbedRefl(c);
    if name in s.content {
      ErasedKeeps(c, content, s.content[name]);
      ErasedUndisturbs(c, s.content[name]);
    }
  }

  // ----- which names stay

  /** Only idle handles lose their name. */
  ghost predicate NamesStay(s: Shard, r: Shard) {
    && (forall name :: name in r.content ==> name in s.content && r.content[name] == s.content[name])
    && forall name :: name in s.content && name !in r.content ==> s.content[name] in s.cache.lru
  }

  lemma {:induction false} EvictedNames(s: Shard, limit: int)
    requires ShardInv(s)
    ensures NamesStay(s, Evicted(s, limit))
    decreases |s.cache.lru|
  {
    hide Dropped; hide CacheInv;
    if s.cache.usage > limit && s.cache.lru != [] {
      var t := Dropped(s, OldestName(s));
      DroppedInv(s, OldestName(s));
      OldestLeaves(s);
      hide OldestName;
      assert forall id :: id in t.cache.lru ==> id in s.cache.lru;
      EvictedNames(t, limit);
    }
  }

  /** The new handle has the name; the one it replaced is no longer cached. */
  lemma InsertedNames(s: Shard, capacity: nat, name: Name, charge: nat)
    requires ShardInv(s) && capacity > 0
    ensures var r := Inserted(s, capacity, name, charge);
            && name in r.content && r.content[name] == s.cache.next
            && (name in s.content && s.content[name] in r.cache.handles ==> !r.cache.handles[s.content[name]].inCache)
  {
    hide Evicted; hide Undisturbed; hide CacheInv;
    var t, r := Renamed(s, name, charge), Inserted(s, capacity, name, charge);
    RenamedFacts(s, name, charge);
    EvictedNames(t, capacity);
    InsertedUndisturbs(s, capacity, name, charge);
    if name in s.content && s.content[name] in r.cache.handles {
      ReplacedName(s, name, charge, r);
    }
  }

  lemma RenamedFacts(s: Shard, name: Name, charge: nat)
    requires ShardInv(s)
    ensures var t := Renamed(s, name, charge);
            && name in t.content && t.content[name] == s.cache.next && s.cache.next !in t.cache.lru
            && (name in s.content ==> s.content[name] != s.cache.next && s.content[name] in s.cache.handles && s.cache.handles[s.content[name]].name == name)
  {
    hide Charged; hide Undisturbed;
    RenamedUndisturbs(s, name, charge);
    RenamedRefs(s, name, charge);
    hide Renamed;
  }

  lemma RenamedRefs(s: Shard, name: Name, charge: nat)
    requires ShardInv(s)
    ensures var t := Renamed(s, name, charge);
            && name in t.content && t.content[name] == s.cache.next
            && s.cache.next in t.cache.handles && t.cache.handles[s.cache.next].refs == 2
  {
    hide Charged; hide Listed; hide Without;
  }

  lemma ReplacedName(s: Shard, name: Name, charge: nat, r: Shard)
    requires ShardInv(s) && ShardInv(r) && name in s.content && s.content[name] in s.cache.handles && s.cache.handles[s.content[name]].name == name
    requires Undisturbed(Created(s.cache, name, charge, true), r.cache) && s.content[name] in r.cache.handles
    requires s.content[name] != s.cache.next && name in r.content && r.content[name] == s.cache.next
    ensures !r.cache.handles[s.content[name]].inCache
  {
    hide Counted; hide Listed; hide Charged;
    assert r.cache.handles[s.content[name]].name == name;
    hide Undisturbed; hide Created;
  }

  /** One shard of the cache. */
  class LRUCache {
    const table: HandleTable
    const capacity: nat
    var handles: Handles
    var lru: seq<nat>
    var inUse: seq<nat>
    var usage: nat
    var next: nat
    ghost var held: map<nat, nat>
    ghost var freed: set<nat>

    ghost function State(): Cache
      reads this
    {
      Cache(handles, lru, inUse, usage, held, freed, next)
    }

    ghost function Whole(): Shard
      reads this, table
    {
      Shard(State(), table.content)
    }

    ghost predicate Valid()
      reads this, table
    {
      table.Valid() && ShardInv(Whole())
    }

    constructor (capacity: nat)
      ensures Valid() && fresh(table) && this.capacity == capacity && Whole() == EMPTY_SHARD
    {
      this.capacity := capacity;
      table := new HandleTable();
      handles, lru, inUse, usage, next, held, freed := map[], [], [], 0, 0, map[], {};
      new;
      hide ShardInv; hide HandleTable.Valid;
      EmptyInv(Whole());
    }

    /** The handle under the name, with a reference for the caller. */
    method Lookup(name: Name) returns (id: Option<nat>)
      requires Valid()
      modifies this
      ensures Valid() && id == (if name in table.content then Some(table.content[name]) else None)
      ensures id.None? ==> State() == old(State())
      ensures id.Some? ==> id.value in old(handles) && id.value in old(held) && State() == Referenced(old(State()), id.value)
    {
      hide CacheInv; hide HandleTable.Valid; hide Without;
      id := table.Lookup(name);
      if id.Some? {
        NamedHandle(State(), table.content, name);
        ReferencedKeeps(State(), table.content, id.value);
        Ref(id.value);
      }
    }

    method Ref(id: nat)
      requires id in handles && id in held
      modifies this
      ensures State() == Referenced(old(State()), id)
    {
      hide Without;
      var h := handles[id];
      if h.refs == 1 && h.inCache {
        lru := Without(lru, id);
        inUse := inUse + [id];
      }
      handles := handles[id := h.(refs := h.refs + 1)];
      held := held[id := held[id] + 1];
    }

    /** A client gives its reference back; the last one frees the handle. */
    method Release(id: nat)
      requires Valid() && id in handles && id in held && held[id] > 0
      modifies this
      ensures Valid() && old(handles)[id].refs > 0 && State() == Released(old(State()), id)
      ensures id in freed <==> old(handles)[id].refs == 1
    {
      hide HandleTable.Valid; hide Without; hide CacheInv;
      ReleasedKeeps(State(), table.content, id);
      NotFreed(State(), table.content, id);
      var h := handles[id];
      if h.refs == 1 {
        handles, held, freed := handles - {id}, held - {id}, freed + {id};
      } else {
        if h.inCache && h.refs == 2 {
          inUse := Without(inUse, id);
          lru := lru + [id];
        }
        handles := handles[id := h.(refs := h.refs - 1)];
        held := held[id := held[id] - 1];
      }
    }

    /** What the table no longer names leaves the lists; without clients it is
        freed at once. */
    method FinishErase(id: nat)
      requires table.Valid() && CacheInv(State(), table.content, Some(id))
      modifies this
      ensures Valid() && id in old(handles) && old(handles)[id].refs > 0 && old(handles)[id].charge <= old(usage)
      ensures State() == Erased(old(State()), id)
    {
      hide HandleTable.Valid; hide Without; hide CacheInv;
      ErasedKeeps(State(), table.content, id);
      var h := handles[id];
      lru, inUse := Without(lru, id), Without(inUse, id);
      usage := usage - h.charge;
      if h.refs == 1 {
        handles, held, freed := handles - {id}, held - {id}, freed + {id};
      } else {
        handles := handles[id := h.(refs := h.refs - 1, inCache := false)];
      }
    }

    /** The name is gone; clients keep what they hold of its handle. */
    method Erase(name: Name)
      requires Valid()
      modifies this, table
      ensures Valid() && Undisturbed(old(State()), State())
      ensures Whole() == if name in old(table.content) then Dropped(old(Whole()), name) else old(Whole())
    {
      hide HandleTable.Valid; hide CacheInv; hide Erased; hide Undisturbed;
      if name in table.content {
        RemovedFromTable(State(), table.content, name);
        DroppedUndisturbs(Whole(), name);
      } else {
        WholeUndisturbed(Whole());
      }
      var id := table.Remove(name);
      if id.Some? {
        FinishErase(id.value);
      } else {
        NothingRemoved(old(table.content), name);
      }
    }

    /** Idle handles are evicted, oldest first, until the cache fits. */
    method Evict(limit: int)
      requires Valid()
      modifies this, table
      ensures Valid() && Whole() == Evicted(old(Whole()), limit)
      ensures (usage <= limit || lru == []) && Undisturbed(old(State()), State())
      ensures exists k :: 0 <= k <= |old(lru)| && lru == old(lru)[k..]
    {
      hide HandleTable.Valid; hide CacheInv; hide Erased; hide Undisturbed; hide Dropped;
      EvictedUndisturbs(Whole(), limit);
      EvictedOldestFirst(Whole(), limit);
      while usage > limit && lru != []
        invariant Valid() && Evicted(Whole(), limit) == Evicted(old(Whole()), limit)
        decreases |lru|
      {
        EvictOldest();
      }
    }

    /** The handle that has been idle for the longest time goes. */
    method EvictOldest()
      requires Valid() && lru != []
      modifies this, table
      ensures Valid() && Whole() == Dropped(old(Whole()), OldestName(old(Whole()))) && lru == old(lru)[1..]
    {
      hide HandleTable.Valid; hide CacheInv; hide Erased;
      OldestHandle(State(), table.content);
      OldestLeaves(Whole());
      var oldest := lru[0];
      RemovedFromTable(State(), table.content, handles[oldest].name);
      var id := table.Remove(handles[oldest].name);
      FinishErase(oldest);
    }

    /** A new handle replaces the one of that name; whatever no longer fits and
        nobody refers to is evicted.  Clients keep what they hold. */
    method Insert(name: Name, charge: nat) returns (id: nat)
      requires Valid()
      modifies this, table
      ensures Valid() && id == old(next) && Whole() == Inserted(old(Whole()), capacity, name, charge)
      ensures usage <= capacity || lru == []
      ensures Undisturbed(Created(old(State()), name, charge, capacity > 0), State()) && id in handles && id in held && held[id] == 1
      ensures capacity > 0 ==> name in table.content && table.content[name] == id
      ensures capacity > 0 && name in old(table.content) && old(table.content)[name] in handles ==>
                !handles[old(table.content)[name]].inCache
    {
      hide HandleTable.Valid; hide CacheInv; hide Erased; hide Undisturbed; hide Evicted;
      id := next;
      ghost var before := Whole();
      CreatedKeeps(before.cache, before.content, name, charge, capacity > 0);
      InsertedUndisturbs(before, capacity, name, charge);
      ClientKeeps(Created(before.cache, name, charge, capacity > 0), Inserted(before, capacity, name, charge).cache, id);
      if capacity > 0 {
        InsertedNames(before, capacity, name, charge);
      }
      handles := handles[id := Handle(name, charge, if capacity > 0 then 2 else 1, capacity > 0)];
      held, next := held[id := 1], next + 1;
      if capacity > 0 {
        inUse := inUse + [id];
        usage := usage + charge;
        var was := table.Insert(name, id);
        if was.Some? {
          FinishErase(was.value);
        }
      }
      Evict(capacity);
    }

    /** No idle handle is left. */
    method Prune()
      requires Valid()
      modifies this, table
      ensures Valid() && lru == [] && Whole() == Evicted(old(Whole()), -1) && Undisturbed(old(State()), State())
    {
      hide HandleTable.Valid; hide CacheInv; hide Erased; hide Undisturbed; hide Dropped;
      EvictedUndisturbs(Whole(), -1);
      while lru != []
        invariant Valid() && Evicted(Whole(), -1) == Evicted(old(Whole()), -1)
        decreases |lru|
      {
        EvictOldest();
      }
    }
  }

  lemma WholeUndisturbed(s: Shard)
    requires ShardInv(s)
    ensures Undisturbed(s.cache, s.cache)
  {
    hide Listed; hide Charged; hide Tabled; hide Undisturbed; hide Counted;
    UndisturbedRefl(s.cache);
  }

  lemma NamedHandle(c: Cache, content: map<Name, nat>, name: Name)
    requires CacheInv(c, content, None) && name in content
    ensures content[name] in c.handles && content[name] in c.held
  {
    hide Listed; hide Charged;
    assert content[name] in c.handles.Keys;
  }

  lemma NotFreed(c: Cache, content: map<Name, nat>, id: nat)
    requires CacheInv(c, content, None) && id in c.handles
    ensures id !in c.freed
  {
    hide Listed; hide Charged; hide Tabled;
  }

  lemma NothingRemoved(content: map<Name, nat>, name: Name)
    requires name !in content
    ensures content - {name} == content
  {
  }

  lemma OldestHandle(c: Cache, content: map<Name, nat>)
    requires CacheInv(c, content, None) && c.lru != []
    ensures c.lru[0] in c.handles && c.handles[c.lru[0]].name in content && content[c.handles[c.lru[0]].name] == c.lru[0]
  {
    assert c.lru[0] in c.lru;
    hide Counted; hide Charged;
  }
}
