/** The cache's hash table (util/cache.cc HandleTable): an array of chains that
    is rebuilt twice as long when it fills up. */
module HandleTables {
  import opened Keys
  import opened Coding

  /** What a handle is found by. */
  datatype Name = Name(key: Bytes, hash: nat)

  datatype Item = Item(name: Name, id: nat)

  type Chain = seq<Item>

  /** hash & (length - 1), the length being a power of two. */
  function Slot(hash: nat, length: nat): (i: nat)
    requires length > 0
    ensures i < length
  {
    hash % length
  }

  predicate Has(chain: Chain, name: Name) {
    exists j :: 0 <= j < |chain| && chain[j].name == name
  }

  /** Every item of a chain belongs there, is what the map says, and no name
      occurs twice. */
  ghost predicate Tidy(chain: Chain, i: nat, length: nat, content: map<Name, nat>)
    requires length > 0
  {
    && (forall j :: 0 <= j < |chain| ==>
          Slot(chain[j].name.hash, length) == i && chain[j].name in content && content[chain[j].name] == chain[j].id)
    && (forall j, k :: 0 <= j < k < |chain| ==> chain[j].name != chain[k].name)
  }

  ghost predicate AllTidy(buckets: seq<Chain>, content: map<Name, nat>) {
    |buckets| > 0 && forall i :: 0 <= i < |buckets| ==> Tidy(buckets[i], i, |buckets|, content)
  }

  ghost predicate InTable(buckets: seq<Chain>, name: Name)
    requires |buckets| > 0
  {
    Has(buckets[Slot(name.hash, |buckets|)], name)
  }

  /** The table is exactly the map. */
  ghost predicate Refines(buckets: seq<Chain>, content: map<Name, nat>) {
    AllTidy(buckets, content) && forall name :: name in content ==> InTable(buckets, name)
  }

  /** FindPointer: the place of the name in its chain, or the chain's end. */
  method FindPointer(chain: Chain, name: Name) returns (j: nat)
    ensures j <= |chain| && (j < |chain| ==> chain[j].name == name) && (j == |chain| ==> !Has(chain, name))
  {
    j := 0;
    while j < |chain| && chain[j].name != name
      invariant j <= |chain| && forall k :: 0 <= k < j ==> chain[k].name != name
    {
      j := j + 1;
    }
  }

  lemma TidyAt(buckets: seq<Chain>, content: map<Name, nat>, i: nat)
    requires AllTidy(buckets, content) && i < |buckets|
    ensures Tidy(buckets[i], i, |buckets|, content)
  {
    hide Tidy;
  }

  /** In a tidy chain a name is found exactly when the map has it. */
  lemma Found(buckets: seq<Chain>, content: map<Name, nat>, name: Name, j: nat)
    requires Refines(buckets, content)
    requires var chain := buckets[Slot(name.hash, |buckets|)];
             j <= |chain| && (j < |chain| ==> chain[j].name == name) && (j == |chain| ==> !Has(chain, name))
    ensures name in content <==> j < |buckets[Slot(name.hash, |buckets|)]|
    ensures name in content ==> content[name] == buckets[Slot(name.hash, |buckets|)][j].id
  {
    hide Slot; hide Has;
    TidyAt(buckets, content, Slot(name.hash, |buckets|));
  }

  /** One more name in a chain that does not have it. */
  lemma TidyAppend(chain: Chain, i: nat, length: nat, content: map<Name, nat>, item: Item, front: bool)
    requires length > 0 && Tidy(chain, i, length, content) && !Has(chain, item.name) && Slot(item.name.hash, length) == i
    requires item.name in content && content[item.name] == item.id
    ensures Tidy(if front then [item] + chain else chain + [item], i, length, content)
  {
    hide Slot;
    assert forall j :: 0 <= j < |chain| ==> chain[j].name != item.name;
  }

  /** A change of one name leaves every other chain tidy. */
  lemma TidyOther(chain: Chain, i: nat, length: nat, content: map<Name, nat>, content': map<Name, nat>, name: Name)
    requires length > 0 && Tidy(chain, i, length, content) && !Has(chain, name)
    requires forall n :: n != name ==> (n in content <==> n in content') && (n in content ==> content[n] == content'[n])
    ensures Tidy(chain, i, length, content')
  {
    hide Slot;
    assert forall j :: 0 <= j < |chain| ==> chain[j].name != name;
  }

  lemma OtherSlot(chain: Chain, i: nat, length: nat, content: map<Name, nat>, name: Name)
    requires length > 0 && Tidy(chain, i, length, content) && Slot(name.hash, length) != i
    ensures !Has(chain, name)
  {
    hide Slot;
  }

  function Stored(chain: Chain, j: nat, item: Item): Chain
    requires j <= |chain|
  {
    if j < |chain| then chain[j := item] else chain + [item]
  }

  function Unlinked(chain: Chain, j: nat): Chain
    requires j < |chain|
  {
    chain[..j] + chain[j + 1..]
  }

  lemma PutTidy(chain: Chain, i: nat, length: nat, content: map<Name, nat>, name: Name, id: nat, j: nat)
    requires length > 0 && Tidy(chain, i, length, content) && Slot(name.hash, length) == i
    requires j <= |chain| && (j < |chain| ==> chain[j].name == name) && (j == |chain| ==> !Has(chain, name))
    ensures Tidy(Stored(chain, j, Item(name, id)), i, length, content[name := id])
    ensures forall n :: Has(Stored(chain, j, Item(name, id)), n) <==> Has(chain, n) || n == name
  {
    hide Slot;
    var chain' := Stored(chain, j, Item(name, id));
    if j == |chain| {
      TidyOther(chain, i, length, content, content[name := id], name);
      TidyAppend(chain, i, length, content[name := id], Item(name, id), false);
    }
    forall n
      ensures Has(chain', n) <==> Has(chain, n) || n == name
    {
      if k :| 0 <= k < |chain| && chain[k].name == n {
        assert chain'[k].name == n;
      }
      assert chain'[j].name == name;
    }
  }

  lemma CutTidy(chain: Chain, i: nat, length: nat, content: map<Name, nat>, name: Name, j: nat)
    requires length > 0 && Tidy(chain, i, length, content) && j < |chain| && chain[j].name == name
    ensures Tidy(Unlinked(chain, j), i, length, content - {name})
    ensures forall n :: Has(Unlinked(chain, j), n) <==> Has(chain, n) && n != name
  {
    hide Slot;
    var chain' := Unlinked(chain, j);
    assert forall k :: 0 <= k < |chain'| ==> chain'[k] == if k < j then chain[k] else chain[k + 1];
    forall n
      ensures Has(chain', n) <==> Has(chain, n) && n != name
    {
      if k :| 0 <= k < |chain| && chain[k].name == n {
        if k != j {
          assert chain'[if k < j then k else k - 1].name == n;
        }
      }
    }
  }

  /** One chain is replaced by one that differs in a single name. */
  lemma ReplaceChain(buckets: seq<Chain>, content: map<Name, nat>, name: Name, chain': Chain, content': map<Name, nat>)
    requires Refines(buckets, content)
    requires forall n :: n != name ==> (n in content <==> n in content') && (n in content ==> content[n] == content'[n])
    requires var s := Slot(name.hash, |buckets|);
             && Tidy(chain', s, |buckets|, content')
             && (forall n :: n != name && Has(buckets[s], n) ==> Has(chain', n)) && (name in content' ==> Has(chain', name))
    ensures Refines(buckets[Slot(name.hash, |buckets|) := chain'], content')
  {
    var s := Slot(name.hash, |buckets|);
    var buckets' := buckets[s := chain'];
    hide Slot; hide Has;
    forall i | 0 <= i < |buckets'|
      ensures Tidy(buckets'[i], i, |buckets'|, content')
    {
      if i != s {
        TidyAt(buckets, content, i);
        hide Tidy;
        OtherSlot(buckets[i], i, |buckets|, content, name);
        TidyOther(buckets[i], i, |buckets|, content, content', name);
      }
    }
    hide Tidy;
    forall n | n in content'
      ensures InTable(buckets', n)
    {
      if n != name {
        assert InTable(buckets, n);
      }
    }
  }

  class HandleTable {
    var buckets: seq<Chain>
    var elems: nat
    ghost var content: map<Name, nat>

    ghost predicate Valid()
      reads this
    {
      Refines(buckets, content) && elems == |content| <= |buckets|
    }

    constructor ()
      ensures Valid() && content == map[]
    {
      buckets, elems, content := [[], [], [], []], 0, map[];
    }

    method Lookup(name: Name) returns (id: Option<nat>)
      requires Valid()
      ensures id == if name in content then Some(content[name]) else None
    {
      hide Slot; hide Has; hide Tidy;
      var chain := buckets[Slot(name.hash, |buckets|)];
      var j := FindPointer(chain, name);
      Found(buckets, content, name, j);
      id := if j < |chain| then Some(chain[j].id) else None;
    }

    method Insert(name: Name, id: nat) returns (was: Option<nat>)
      requires Valid()
      modifies this
      ensures Valid() && content == old(content)[name := id]
      ensures was == if name in old(content) then Some(old(content)[name]) else None
    {
      hide Slot; hide Has; hide Tidy; hide Stored; hide Refines;
      Nonempty(buckets, content);
      var s := Slot(name.hash, |buckets|);
      var chain := buckets[s];
      var j := FindPointer(chain, name);
      Found(buckets, content, name, j);
      ChainTidy(buckets, content, s);
      PutTidy(chain, s, |buckets|, content, name, id, j);
      ReplaceChain(buckets, content, name, Stored(chain, j, Item(name, id)), content[name := id]);
      was := if j < |chain| then Some(chain[j].id) else None;
      buckets := buckets[s := Stored(chain, j, Item(name, id))];
      CountPut(content, name, id);
      content := content[name := id];
      if was.None? {
        elems := elems + 1;
        if elems > |buckets| {
          Resize();
        }
      }
    }

    method Remove(name: Name) returns (was: Option<nat>)
      requires Valid()
      modifies this
      ensures Valid() && content == old(content) - {name}
      ensures was == if name in old(content) then Some(old(content)[name]) else None
    {
      hide Slot; hide Has; hide Tidy; hide Unlinked; hide Refines;
      Nonempty(buckets, content);
      var s := Slot(name.hash, |buckets|);
      var chain := buckets[s];
      var j := FindPointer(chain, name);
      Found(buckets, content, name, j);
      CountCut(content, name);
      if j < |chain| {
        ChainTidy(buckets, content, s);
        CutTidy(chain, s, |buckets|, content, name, j);
        ReplaceChain(buckets, content, name, Unlinked(chain, j), content - {name});
        was := Some(chain[j].id);
        buckets := buckets[s := Unlinked(chain, j)];
        elems := elems - 1;
      } else {
        was := None;
      }
      content := content - {name};
    }

    /** Every item moves to the front of its new chain. */
    method Resize()
      requires Refines(buckets, content) && elems == |content|
      modifies this`buckets
      ensures Valid() && |buckets| >= elems && |buckets| >= 4
    {
      var length := 4;
      while length < elems
        invariant length >= 4
        decreases elems - length
      {
        length := 2 * length;
      }
      buckets := Rebuilt(buckets, length, content);
    }
  }

  lemma Nonempty(buckets: seq<Chain>, content: map<Name, nat>)
    requires Refines(buckets, content)
    ensures |buckets| > 0
  {
    hide Tidy;
  }

  lemma ChainTidy(buckets: seq<Chain>, content: map<Name, nat>, i: nat)
    requires Refines(buckets, content) && i < |buckets|
    ensures Tidy(buckets[i], i, |buckets|, content)
  {
    hide Tidy;
  }

  lemma CountPut(content: map<Name, nat>, name: Name, id: nat)
    ensures |content[name := id]| == |content| + if name in content then 0 else 1
  {
    if name in content {
      assert content[name := id].Keys == content.Keys;
    } else {
      assert content[name := id].Keys == content.Keys + {name};
    }
  }

  lemma CountCut(content: map<Name, nat>, name: Name)
    ensures |content - {name}| == |content| - if name in content then 1 else 0
    ensures name !in content ==> content - {name} == content
  {
    if name in content {
      assert (content - {name}).Keys == content.Keys - {name};
    }
  }

  // ----- rebuilding

  /** A name the rebuilding has not come to yet: in chain i from item k on, or
      in a later chain. */
  ghost predicate Ahead(buckets: seq<Chain>, i: nat, k: nat, name: Name)
    requires |buckets| > 0
  {
    var s := Slot(name.hash, |buckets|);
    && Has(buckets[s], name)
    && (s > i || (s == i && exists j :: k <= j < |buckets[s]| && buckets[s][j].name == name))
  }

  ghost predicate Moving(buckets: seq<Chain>, i: nat, k: nat, content: map<Name, nat>, moved: seq<Chain>)
    requires |buckets| > 0
  {
    && AllTidy(moved, content)
    && (forall name :: name in content ==> (InTable(moved, name) <==> !Ahead(buckets, i, k, name)))
  }

  method Rebuilt(buckets: seq<Chain>, length: nat, ghost content: map<Name, nat>) returns (moved: seq<Chain>)
    requires Refines(buckets, content) && length > 0
    ensures Refines(moved, content) && |moved| == length
  {
    Nonempty(buckets, content);
    moved := seq(length, i => []);
    StartMoving(buckets, content, moved);
    hide Slot; hide Moving; hide Refines;
    for i := 0 to |buckets|
      invariant |moved| == length && Moving(buckets, i, 0, content, moved)
    {
      for k := 0 to |buckets[i]|
        invariant |moved| == length && Moving(buckets, i, k, content, moved)
      {
        var item := buckets[i][k];
        MoveItem(buckets, i, k, content, moved);
        var s := Slot(item.name.hash, length);
        assert s < length by { SlotBound(item.name.hash, length); }
        moved := moved[s := [item] + moved[s]];
      }
      NextChain(buckets, i, content, moved);
    }
    AllMoved(buckets, content, moved);
  }

  lemma SlotBound(hash: nat, length: nat)
    requires length > 0
    ensures Slot(hash, length) < length
  {
  }

  lemma StartMoving(buckets: seq<Chain>, content: map<Name, nat>, moved: seq<Chain>)
    requires Refines(buckets, content) && |moved| > 0 && forall i :: 0 <= i < |moved| ==> moved[i] == []
    ensures Moving(buckets, 0, 0, content, moved)
  {
    hide Slot;
    forall name | name in content
      ensures !InTable(moved, name) && Ahead(buckets, 0, 0, name)
    {
      assert InTable(buckets, name);
      SlotBound(name.hash, |moved|);
    }
  }

  lemma NextChain(buckets: seq<Chain>, i: nat, content: map<Name, nat>, moved: seq<Chain>)
    requires |buckets| > 0 && i < |buckets| && Moving(buckets, i, |buckets[i]|, content, moved)
    ensures Moving(buckets, i + 1, 0, content, moved)
  {
    hide Slot; hide AllTidy; hide InTable;
    forall name
      ensures Ahead(buckets, i, |buckets[i]|, name) <==> Ahead(buckets, i + 1, 0, name)
    {
    }
  }

  lemma AllMoved(buckets: seq<Chain>, content: map<Name, nat>, moved: seq<Chain>)
    requires |buckets| > 0 && Moving(buckets, |buckets|, 0, content, moved)
    ensures Refines(moved, content)
  {
    hide Slot; hide AllTidy; hide InTable;
    forall name
      ensures !Ahead(buckets, |buckets|, 0, name)
    {
      SlotBound(name.hash, |buckets|);
    }
  }

  lemma MoveItem(buckets: seq<Chain>, i: nat, k: nat, content: map<Name, nat>, moved: seq<Chain>)
    requires Refines(buckets, content) && |buckets| > 0 && i < |buckets| && k < |buckets[i]| && |moved| > 0
    requires Moving(buckets, i, k, content, moved)
    ensures var item := buckets[i][k];
            var s := Slot(item.name.hash, |moved|);
            s < |moved| && Moving(buckets, i, k + 1, content, moved[s := [item] + moved[s]])
  {
    hide Slot; hide Has;
    var item := buckets[i][k];
    var s := Slot(item.name.hash, |moved|);
    SlotBound(item.name.hash, |moved|);
    ChainTidy(buckets, content, i);
    ItemAhead(buckets, i, k, content);
    var moved': seq<Chain> := moved[s := [item] + moved[s]];
    hide Refines;
    MovedTidy(content, moved, item);
    forall name | name in content
      ensures InTable(moved', name) <==> !Ahead(buckets, i, k + 1, name)
    {
      MovedIn(moved, item, name);
      StepAhead(buckets, i, k, content, name);
    }
  }

  lemma ItemAhead(buckets: seq<Chain>, i: nat, k: nat, content: map<Name, nat>)
    requires |buckets| > 0 && i < |buckets| && k < |buckets[i]| && Tidy(buckets[i], i, |buckets|, content)
    ensures Ahead(buckets, i, k, buckets[i][k].name) && buckets[i][k].name in content && content[buckets[i][k].name] == buckets[i][k].id
  {
    hide Slot;
  }

  lemma StepAhead(buckets: seq<Chain>, i: nat, k: nat, content: map<Name, nat>, name: Name)
    requires |buckets| > 0 && i < |buckets| && k < |buckets[i]| && Tidy(buckets[i], i, |buckets|, content)
    ensures Ahead(buckets, i, k + 1, name) <==> Ahead(buckets, i, k, name) && name != buckets[i][k].name
  {
    hide Slot; hide Has;
  }

  lemma MovedTidy(content: map<Name, nat>, moved: seq<Chain>, item: Item)
    requires AllTidy(moved, content) && !InTable(moved, item.name) && item.name in content && content[item.name] == item.id
    ensures var s := Slot(item.name.hash, |moved|); AllTidy(moved[s := [item] + moved[s]], content)
  {
    var s := Slot(item.name.hash, |moved|);
    hide Slot; hide Has;
    var moved': seq<Chain> := moved[s := [item] + moved[s]];
    forall i | 0 <= i < |moved'|
      ensures Tidy(moved'[i], i, |moved'|, content)
    {
      TidyAt(moved, content, i);
      hide Tidy;
      if i == s {
        TidyAppend(moved[s], s, |moved|, content, item, true);
      }
    }
  }

  lemma MovedIn(moved: seq<Chain>, item: Item, name: Name)
    requires |moved| > 0
    ensures var s := Slot(item.name.hash, |moved|);
            InTable(moved[s := [item] + moved[s]], name) <==> InTable(moved, name) || name == item.name
  {
    var s := Slot(item.name.hash, |moved|);
    var t := Slot(name.hash, |moved|);
    hide Slot;
    var moved': seq<Chain> := moved[s := [item] + moved[s]];
    if k :| 0 <= k < |moved[t]| && moved[t][k].name == name {
      assert moved'[t][if s == t then k + 1 else k].name == name;
    }
    if name == item.name {
      assert moved'[s][0].name == name;
    }
  }
}
