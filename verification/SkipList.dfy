/** The memtable's skip list (db/skiplist.h): nodes in an arena, one link per
    level, published from the lowest level up. */
module SkipList {
  import opened Keys

  const MAX_HEIGHT: nat := 12

  /** Node 0 is the head; its key means nothing. */
  type Links = seq<seq<Option<nat>>>

  function NodeAt(list: seq<nat>, p: nat): nat
    requires p <= |list|
  {
    if p == 0 then 0 else list[p - 1]
  }

  function NextIn(list: seq<nat>, p: nat): Option<nat>
    requires p <= |list|
  {
    if p < |list| then Some(list[p]) else None
  }

  /** Following level l from the head visits exactly the list. */
  ghost predicate Linked(links: Links, list: seq<nat>, l: nat) {
    forall p :: 0 <= p <= |list| ==>
      NodeAt(list, p) < |links| && l < |links[NodeAt(list, p)]| && links[NodeAt(list, p)][l] == NextIn(list, p)
  }

  ghost predicate Increasing(keys: seq<Key>, list: seq<nat>) {
    && (forall i :: 0 <= i < |list| ==> 0 < list[i] < |keys|)
    && (forall i, j :: 0 <= i < j < |list| ==> Less(keys[list[i]], keys[list[j]]))
  }

  /** Every level is a sorted sublist of the one below. */
  ghost predicate Layers(keys: seq<Key>, links: Links, lists: seq<seq<nat>>) {
    && |links| == |keys| && |lists| == MAX_HEIGHT
    && (forall l :: 0 <= l < MAX_HEIGHT ==> Linked(links, lists[l], l) && Increasing(keys, lists[l]))
    && (forall l :: 0 <= l < MAX_HEIGHT ==> Sublist(lists, l))
  }

  /** What is on level l is on the level below it. */
  ghost predicate Sublist(lists: seq<seq<nat>>, l: nat)
    requires l < |lists|
  {
    l > 0 ==> forall n :: n in lists[l] ==> n in lists[l - 1]
  }

  /** node is the last one of the list before the key. */
  ghost predicate LastBefore(keys: seq<Key>, list: seq<nat>, key: Key, p: nat, node: nat) {
    Increasing(keys, list) && Split(keys, list, key, p) && node == NodeAt(list, p)
  }

  /** The first p nodes are before the key, the others are not. */
  ghost predicate Split(keys: seq<Key>, list: seq<nat>, key: Key, p: nat)
    requires forall i :: 0 <= i < |list| ==> list[i] < |keys|
  {
    && p <= |list|
    && (forall i :: 0 <= i < p ==> Less(keys[list[i]], key))
    && (forall i :: p <= i < |list| ==> !Less(keys[list[i]], key))
  }

  lemma LayerAt(keys: seq<Key>, links: Links, lists: seq<seq<nat>>, l: nat)
    requires Layers(keys, links, lists) && l < MAX_HEIGHT
    ensures Linked(links, lists[l], l) && Increasing(keys, lists[l])
    ensures Sublist(lists, l)
  {
    hide Linked; hide Increasing; hide Sublist;
  }

  lemma LinkAt(links: Links, list: seq<nat>, l: nat, p: nat)
    requires Linked(links, list, l) && p <= |list|
    ensures NodeAt(list, p) < |links| && l < |links[NodeAt(list, p)]| && links[NodeAt(list, p)][l] == NextIn(list, p)
  {
  }

  /** A search stops where the next node is not before the key. */
  lemma StopsHere(keys: seq<Key>, list: seq<nat>, key: Key, p: nat)
    requires Increasing(keys, list) && p <= |list|
    requires p > 0 ==> Less(keys[list[p - 1]], key)
    requires p < |list| ==> !Less(keys[list[p]], key)
    ensures Split(keys, list, key, p) && LastBefore(keys, list, key, p, NodeAt(list, p))
  {
    forall i | 0 <= i < |list|
      ensures i < p ==> Less(keys[list[i]], key)
      ensures p <= i ==> !Less(keys[list[i]], key)
    {
      if i < p - 1 {
        assert Less(keys[list[i]], keys[list[p - 1]]);
      }
      if p < i {
        assert Less(keys[list[p]], keys[list[i]]);
      }
    }
  }

  /** A node found on one level is on the level below. */
  lemma Descend(lists: seq<seq<nat>>, l: nat, p: nat) returns (q: nat)
    requires 0 < l < |lists| && Sublist(lists, l) && p <= |lists[l]|
    ensures q <= |lists[l - 1]| && NodeAt(lists[l - 1], q) == NodeAt(lists[l], p) && (q > 0 <==> p > 0)
  {
    var upper, lower := lists[l], lists[l - 1];
    if p == 0 {
      q := 0;
    } else {
      assert upper[p - 1] in upper;
      var i :| 0 <= i < |lower| && lower[i] == upper[p - 1];
      q := i + 1;
    }
  }

  class SkipList {
    var keys: seq<Key>
    var links: Links
    var maxHeight: nat
    ghost var lists: seq<seq<nat>>

    ghost predicate Valid()
      reads this
    {
      && Layers(keys, links, lists)
      && 1 <= maxHeight <= MAX_HEIGHT
      && |keys| > 0 && |links[0]| == MAX_HEIGHT
      && forall l :: maxHeight <= l < MAX_HEIGHT ==> lists[l] == []
    }

    constructor (any: Key)
      ensures Valid() && lists[0] == []
    {
      keys, maxHeight := [any], 1;
      links := [seq(MAX_HEIGHT, i => None)];
      lists := seq(MAX_HEIGHT, i => []);
    }

    /** Walks right while the next node is before the key, else down; prev[l]
        is the last node before the key on level l. */
    method FindGreaterOrEqual(key: Key) returns (node: Option<nat>, prev: seq<nat>, ghost pos: seq<nat>)
      requires Valid()
      ensures |prev| == |pos| == MAX_HEIGHT
      ensures forall l :: 0 <= l < MAX_HEIGHT ==> LastBefore(keys, lists[l], key, pos[l], prev[l])
      ensures pos[0] <= |lists[0]| && node == NextIn(lists[0], pos[0])
    {
      hide Layers; hide Linked; hide Less; hide LastBefore; hide Sublist;
      prev, pos := seq(MAX_HEIGHT, i => 0), seq(MAX_HEIGHT, i => 0);
      EmptyLevels(key);
      var x: nat, level: nat := 0, maxHeight - 1;
      ghost var p: nat := 0;
      LayerAt(keys, links, lists, level);
      while true
        invariant 0 <= level < maxHeight && |prev| == |pos| == MAX_HEIGHT && |lists| == MAX_HEIGHT
        invariant Linked(links, lists[level], level) && Increasing(keys, lists[level])
        invariant p <= |lists[level]| && x == NodeAt(lists[level], p)
        invariant p > 0 ==> Less(keys[lists[level][p - 1]], key)
        invariant forall l :: level < l < MAX_HEIGHT ==> LastBefore(keys, lists[l], key, pos[l], prev[l])
        decreases level, |lists[level]| - p
      {
        LinkAt(links, lists[level], level, p);
        var next := links[x][level];
        if next.Some? && Less(keys[next.value], key) {
          x, p := next.value, p + 1;
        } else {
          StopsHere(keys, lists[level], key, p);
          prev, pos := prev[level := x], pos[level := p];
          if level == 0 {
            return next, prev, pos;
          }
          LayerAt(keys, links, lists, level);
          ghost var q := Descend(lists, level, p);
          LayerAt(keys, links, lists, level - 1);
          level, p := level - 1, q;
        }
      }
    }

    lemma Shape()
      requires Valid()
      ensures |lists| == MAX_HEIGHT && |links| == |keys| && Increasing(keys, lists[0])
    {
    }

    lemma EmptyLevels(key: Key)
      requires Valid()
      ensures |lists| == MAX_HEIGHT
      ensures forall l :: maxHeight <= l < MAX_HEIGHT ==> LastBefore(keys, lists[l], key, 0, 0)
    {
    }

    /** The last node before the key, the head if there is none. */
    method FindLessThan(key: Key) returns (x: nat, ghost p: nat)
      requires Valid()
      ensures |lists| == MAX_HEIGHT && LastBefore(keys, lists[0], key, p, x)
    {
      hide Layers; hide Linked; hide Less; hide LastBefore; hide Sublist;
      EmptyLevels(key);
      var level: nat := maxHeight - 1;
      x, p := 0, 0;
      LayerAt(keys, links, lists, level);
      while true
        invariant 0 <= level < maxHeight && |lists| == MAX_HEIGHT
        invariant Linked(links, lists[level], level) && Increasing(keys, lists[level])
        invariant p <= |lists[level]| && x == NodeAt(lists[level], p)
        invariant p > 0 ==> Less(keys[lists[level][p - 1]], key)
        decreases level, |lists[level]| - p
      {
        LinkAt(links, lists[level], level, p);
        var next := links[x][level];
        if next.None? || !Less(keys[next.value], key) {
          if level == 0 {
            StopsHere(keys, lists[0], key, p);
            return;
          }
          LayerAt(keys, links, lists, level);
          ghost var q := Descend(lists, level, p);
          LayerAt(keys, links, lists, level - 1);
          level, p := level - 1, q;
        } else {
          x, p := next.value, p + 1;
        }
      }
    }

    method FindLast() returns (x: nat)
      requires Valid()
      ensures |lists| == MAX_HEIGHT && x == NodeAt(lists[0], |lists[0]|)
    {
      hide Layers; hide Linked; hide Less; hide Sublist;
      EmptyLevels(keys[0]);
      var level: nat := maxHeight - 1;
      ghost var p: nat := 0;
      x := 0;
      LayerAt(keys, links, lists, level);
      while true
        invariant 0 <= level < maxHeight && |lists| == MAX_HEIGHT
        invariant Linked(links, lists[level], level)
        invariant p <= |lists[level]| && x == NodeAt(lists[level], p)
        decreases level, |lists[level]| - p
      {
        LinkAt(links, lists[level], level, p);
        var next := links[x][level];
        if next.None? {
          if level == 0 {
            return;
          }
          LayerAt(keys, links, lists, level);
          ghost var q := Descend(lists, level, p);
          LayerAt(keys, links, lists, level - 1);
          level, p := level - 1, q;
        } else {
          x, p := next.value, p + 1;
        }
      }
    }

    /** The keys in order, along the lowest level. */
    ghost function Contents(): seq<Key>
      requires Valid()
      reads this
    {
      KeysOf(keys, lists[0])
    }

    method Contains(key: Key) returns (found: bool)
      requires Valid()
      ensures found <==> key in Contents()
    {
      var node, prev, pos := FindGreaterOrEqual(key);
      hide Layers;
      found := node.Some? && keys[node.value] == key;
      FoundIs(keys, lists[0], key, pos[0]);
    }

    /** The two stores on level i: x points on, then prev points to x. */
    method LinkLevel(key: Key, i: nat, prev: nat, x: nat, ghost keys0: seq<Key>, ghost p: nat)
      requires Valid() && i < maxHeight && keys == keys0 + [key] && x == |keys0| > 0 && x < |links| && i < |links[x]| && |lists| == MAX_HEIGHT
      requires LastBefore(keys0, lists[i], key, p, prev) && Without(keys0, lists[i], key) && x !in lists[i] && (i > 0 ==> x in lists[i - 1])
      modifies this`links, this`lists
      ensures Valid() && |lists| == MAX_HEIGHT && p <= |old(lists)[i]| && lists == old(lists)[i := Inserted(old(lists)[i], p, x)]
      ensures x < |links| && |links[x]| == |old(links)[x]|
    {
      hide Layers; hide LastBefore; hide Less; hide Without;
      PrevLink(keys0, keys, links, lists, key, i, p, prev);
      Unlinked(keys, links, lists, x, i, links[prev][i]);
      links := links[x := links[x][i := links[prev][i]]];
      assert Valid();
      Publish(keys0, keys, links, lists, key, i, p, prev, x);
      links := links[prev := links[prev][i := Some(x)]];
      lists := lists[i := Inserted(lists[i], p, x)];
    }

    /** Links are stored from the lowest level up; after every single store the
        levels are sorted sublists of each other, so readers may run. */
    method Insert(key: Key, height: nat)
      requires Valid() && key !in Contents() && 1 <= height <= MAX_HEIGHT
      modifies this
      ensures Valid() && exists p :: 0 <= p <= |old(Contents())| && Contents() == old(Contents())[..p] + [key] + old(Contents())[p..]
    {
      hide Layers; hide LastBefore; hide Less;
      var node, prev, pos := FindGreaterOrEqual(key);
      Shape();
      ghost var before, keys0 := lists, keys;
      if height > maxHeight {
        maxHeight := height;
      }
      var x := |keys|;
      forall l | 0 <= l < MAX_HEIGHT
        ensures Without(keys, lists[l], key) && x !in lists[l]
      {
        Absent(keys, links, lists, key, l);
        LayerAt(keys, links, lists, l);
      }
      AddNode(keys, links, lists, key, height);
      keys, links := keys + [key], links + [seq(height, i => None)];
      for i := 0 to height
        invariant Valid() && height <= maxHeight && keys == keys0 + [key] && x == |keys0| && |lists| == MAX_HEIGHT
        invariant x < |links| && |links[x]| == height
        invariant forall l :: i <= l < MAX_HEIGHT ==> lists[l] == before[l]
        invariant forall l :: 0 <= l < i ==> pos[l] <= |before[l]| && lists[l] == Inserted(before[l], pos[l], x)
      {
        assert LastBefore(keys0, before[i], key, pos[i], prev[i]) && Without(keys0, before[i], key);
        assert i > 0 ==> x in lists[i - 1];
        LinkLevel(key, i, prev[i], x, keys0, pos[i]);
      }
      Shape();
      InsertedKeys(keys0, before[0], pos[0], key);
    }
  }

  // ----- what one insertion does to the levels

  function KeysOf(keys: seq<Key>, list: seq<nat>): (r: seq<Key>)
    requires forall i :: 0 <= i < |list| ==> list[i] < |keys|
    ensures |r| == |list|
  {
    seq(|list|, i requires 0 <= i < |list| => keys[list[i]])
  }

  function Inserted(list: seq<nat>, p: nat, x: nat): seq<nat>
    requires p <= |list|
  {
    list[..p] + [x] + list[p..]
  }

  lemma PairOrder(keys: seq<Key>, list: seq<nat>, a: nat, b: nat)
    requires Increasing(keys, list) && a < b < |list|
    ensures Less(keys[list[a]], keys[list[b]])
  {
  }

  lemma FoundIs(keys: seq<Key>, list: seq<nat>, key: Key, p: nat)
    requires p <= |list| && LastBefore(keys, list, key, p, NodeAt(list, p))
    ensures p <= |list| && (key in KeysOf(keys, list) <==> p < |list| && keys[list[p]] == key)
  {
    if key in KeysOf(keys, list) {
      var i: nat :| i < |list| && KeysOf(keys, list)[i] == key;
      assert keys[list[i]] == key;
      if p < i {
        PairOrder(keys, list, p, i);
      }
    }
    if p < |list| && keys[list[p]] == key {
      assert KeysOf(keys, list)[p] == key;
    }
  }

  lemma {:induction false} OnLowest(keys: seq<Key>, links: Links, lists: seq<seq<nat>>, l: nat, n: nat)
    requires Layers(keys, links, lists) && l < MAX_HEIGHT && n in lists[l]
    ensures n in lists[0]
  {
    if l > 0 {
      LayerAt(keys, links, lists, l);
      hide Layers;
      OnLowest(keys, links, lists, l - 1, n);
    }
  }

  ghost predicate Without(keys: seq<Key>, list: seq<nat>, key: Key) {
    forall i :: 0 <= i < |list| ==> list[i] < |keys| && keys[list[i]] != key
  }

  /** A key that is not in the list is on no level. */
  lemma Absent(keys: seq<Key>, links: Links, lists: seq<seq<nat>>, key: Key, l: nat)
    requires Layers(keys, links, lists) && l < MAX_HEIGHT
    requires Increasing(keys, lists[0]) && key !in KeysOf(keys, lists[0])
    ensures Without(keys, lists[l], key)
  {
    LayerAt(keys, links, lists, l);
    hide Layers; hide Linked;
    forall i | 0 <= i < |lists[l]|
      ensures lists[l][i] < |keys| && keys[lists[l][i]] != key
    {
      OnLowest(keys, links, lists, l, lists[l][i]);
      var j :| 0 <= j < |lists[0]| && lists[0][j] == lists[l][i];
      assert KeysOf(keys, lists[0])[j] == keys[lists[0][j]];
    }
  }

  /** A fresh node that nothing points to. */
  lemma AddNode(keys: seq<Key>, links: Links, lists: seq<seq<nat>>, key: Key, height: nat)
    requires Layers(keys, links, lists)
    ensures Layers(keys + [key], links + [seq(height, i => None)], lists)
  {
    var keys', links' := keys + [key], links + [seq(height, i => None)];
    forall l | 0 <= l < MAX_HEIGHT
      ensures Linked(links', lists[l], l) && Increasing(keys', lists[l])
    {
      assert Linked(links, lists[l], l) && Increasing(keys, lists[l]);
      hide Layers; hide Less;
      forall p | 0 <= p <= |lists[l]|
        ensures NodeAt(lists[l], p) < |links'| && l < |links'[NodeAt(lists[l], p)]| && links'[NodeAt(lists[l], p)][l] == NextIn(lists[l], p)
      {
        assert links'[NodeAt(lists[l], p)] == links[NodeAt(lists[l], p)];
      }
      assert forall i :: 0 <= i < |lists[l]| ==> keys'[lists[l][i]] == keys[lists[l][i]];
    }
  }

  lemma PrevLink(keys0: seq<Key>, keys: seq<Key>, links: Links, lists: seq<seq<nat>>, key: Key, i: nat, p: nat, prev: nat)
    requires Layers(keys, links, lists) && i < MAX_HEIGHT && LastBefore(keys0, lists[i], key, p, prev) && |keys0| > 0
    ensures p <= |lists[i]| && prev < |links| && prev < |keys0| && i < |links[prev]| && links[prev][i] == NextIn(lists[i], p)
  {
    LayerAt(keys, links, lists, i);
    hide Layers; hide Less;
    LinkAt(links, lists[i], i, p);
  }

  /** A store into a node that is not on the level yet. */
  lemma Unlinked(keys: seq<Key>, links: Links, lists: seq<seq<nat>>, x: nat, i: nat, v: Option<nat>)
    requires Layers(keys, links, lists) && 0 < x < |links| && i < |links[x]| && i < MAX_HEIGHT && x !in lists[i]
    ensures Layers(keys, links[x := links[x][i := v]], lists)
  {
    var links' := links[x := links[x][i := v]];
    hide Less;
    forall l | 0 <= l < MAX_HEIGHT
      ensures Linked(links', lists[l], l) && Increasing(keys, lists[l])
    {
      LayerAt(keys, links, lists, l);
      hide Layers; hide Increasing;
      StoreApart(links, lists[l], l, x, i, v);
    }
  }

  lemma StoreApart(links: Links, list: seq<nat>, l: nat, x: nat, i: nat, v: Option<nat>)
    requires Linked(links, list, l) && x < |links| && i < |links[x]| && (l == i ==> x > 0 && x !in list)
    ensures Linked(links[x := links[x][i := v]], list, l)
  {
    var links' := links[x := links[x][i := v]];
    forall p | 0 <= p <= |list|
      ensures NodeAt(list, p) < |links'| && l < |links'[NodeAt(list, p)]| && links'[NodeAt(list, p)][l] == NextIn(list, p)
    {
      LinkAt(links, list, l, p);
      hide Linked;
      assert p > 0 ==> NodeAt(list, p) in list;
    }
  }

  /** The store that makes x visible on level i. */
  lemma Publish(keys0: seq<Key>, keys: seq<Key>, links: Links, lists: seq<seq<nat>>, key: Key, i: nat, p: nat, prev: nat, x: nat)
    requires Layers(keys, links, lists) && i < MAX_HEIGHT && keys == keys0 + [key] && x == |keys0| && x < |links|
    requires LastBefore(keys0, lists[i], key, p, prev) && Without(keys0, lists[i], key)
    requires i < |links[x]| && p <= |lists[i]| && links[x][i] == NextIn(lists[i], p) && prev < x && i < |links[prev]|
    requires i > 0 ==> x in lists[i - 1]
    ensures Layers(keys, links[prev := links[prev][i := Some(x)]], lists[i := Inserted(lists[i], p, x)])
  {
    var links', list' := links[prev := links[prev][i := Some(x)]], Inserted(lists[i], p, x);
    var lists' := lists[i := list'];
    hide Less;
    forall l | 0 <= l < MAX_HEIGHT
      ensures Linked(links', lists'[l], l) && Increasing(keys, lists'[l]) && Sublist(lists', l)
    {
      LayerAt(keys, links, lists, l);
      LayerAt(keys, links, lists, i);
      hide Layers; hide LastBefore; hide Without;
      PublishedSublist(lists, i, p, x, l);
      hide Sublist; hide Increasing;
      if l == i {
        PublishedLink(keys0, links, lists[i], key, i, p, prev, x);
        PublishedOrder(keys0, lists[i], key, p, prev, x);
      } else {
        StoreApart(links, lists[l], l, prev, i, Some(x));
      }
    }
  }

  lemma PublishedSublist(lists: seq<seq<nat>>, i: nat, p: nat, x: nat, l: nat)
    requires i < |lists| && l < |lists| && p <= |lists[i]| && Sublist(lists, l) && (i > 0 ==> x in lists[i - 1])
    ensures Sublist(lists[i := Inserted(lists[i], p, x)], l)
  {
    assert forall n :: n in Inserted(lists[i], p, x) <==> n in lists[i] || n == x by {
      assert lists[i] == lists[i][..p] + lists[i][p..];
    }
  }

  lemma PublishedLink(keys0: seq<Key>, links: Links, list: seq<nat>, key: Key, i: nat, p: nat, prev: nat, x: nat)
    requires Linked(links, list, i) && LastBefore(keys0, list, key, p, prev) && x == |keys0| && x < |links| && prev < x
    requires i < |links[x]| && p <= |list| && links[x][i] == NextIn(list, p) && i < |links[prev]|
    ensures Linked(links[prev := links[prev][i := Some(x)]], Inserted(list, p, x), i)
  {
    var links', list' := links[prev := links[prev][i := Some(x)]], Inserted(list, p, x);
    forall q | 0 <= q <= |list'|
      ensures NodeAt(list', q) < |links'| && i < |links'[NodeAt(list', q)]| && links'[NodeAt(list', q)][i] == NextIn(list', q)
    {
      if q <= p {
        LinkAt(links, list, i, q);
        assert NodeAt(list', q) == NodeAt(list, q);
        OnlyPrev(keys0, list, key, p, prev, q);
      } else if q > p + 1 {
        LinkAt(links, list, i, q - 1);
        assert NodeAt(list', q) == NodeAt(list, q - 1);
        OnlyPrev(keys0, list, key, p, prev, q - 1);
      }
    }
  }

  /** prev occurs once in its list. */
  lemma OnlyPrev(keys0: seq<Key>, list: seq<nat>, key: Key, p: nat, prev: nat, q: nat)
    requires LastBefore(keys0, list, key, p, prev) && q <= |list|
    ensures NodeAt(list, q) == prev <==> q == p
  {
    if q > 0 && p > 0 && q != p {
      assert if q < p then Less(keys0[list[q - 1]], keys0[list[p - 1]]) else Less(keys0[list[p - 1]], keys0[list[q - 1]]);
    }
  }

  lemma PublishedOrder(keys0: seq<Key>, list: seq<nat>, key: Key, p: nat, prev: nat, x: nat)
    requires LastBefore(keys0, list, key, p, prev) && Without(keys0, list, key) && x == |keys0| > 0 && p <= |list|
    ensures Increasing(keys0 + [key], Inserted(list, p, x))
  {
    var keys, list' := keys0 + [key], Inserted(list, p, x);
    forall a, b | 0 <= a < b < |list'|
      ensures Less(keys[list'[a]], keys[list'[b]])
    {
      var a', b' := if a < p then a else a - 1, if b < p then b else b - 1;
      if a != p && b != p {
        assert Less(keys0[list[a']], keys0[list[b']]);
      } else if b == p {
        assert Less(keys0[list[a']], key);
      } else {
        assert !Less(keys0[list[b']], key) && keys0[list[b']] != key;
      }
    }
  }

  lemma InsertedKeys(keys0: seq<Key>, list: seq<nat>, p: nat, key: Key)
    requires Increasing(keys0, list) && p <= |list| && |keys0| > 0
    requires Increasing(keys0 + [key], Inserted(list, p, |keys0|))
    ensures KeysOf(keys0 + [key], Inserted(list, p, |keys0|)) == KeysOf(keys0, list)[..p] + [key] + KeysOf(keys0, list)[p..]
  {
    hide Less;
  }
}
