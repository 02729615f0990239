/** One filter per two kilobytes of table data (table/filter_block.cc). */
module FilterBlock {
  import opened Coding
  import opened Block
  import Bloom

  const BASE_LG: byte := 11
  const BASE: nat := 2048

  /** A filter policy: how filters are made and asked. */
  type Create = seq<Bytes> -> Bytes
  type Matches = (Bytes, Bytes) -> bool

  ghost predicate NeverMisses(create: Create, matches: Matches) {
    forall keys, key :: key in keys ==> matches(key, create(keys))
  }

  /** A filter index without keys takes no bytes. */
  function FilterOf(create: Create, keys: seq<Bytes>): Bytes {
    if keys == [] then [] else create(keys)
  }

  /** The filters of the first n groups of keys. */
  function Filters(create: Create, groups: seq<seq<Bytes>>, n: nat): Bytes
    requires n <= |groups|
  {
    if n == 0 then [] else Filters(create, groups, n - 1) + FilterOf(create, groups[n - 1])
  }

  lemma {:induction false} FiltersAppend(create: Create, groups: seq<seq<Bytes>>, g: seq<Bytes>, n: nat)
    requires n <= |groups|
    ensures Filters(create, groups + [g], n) == Filters(create, groups, n)
  {
    hide FilterOf;
    if n > 0 {
      FiltersAppend(create, groups, g, n - 1);
      assert (groups + [g])[n - 1] == groups[n - 1];
    }
  }

  lemma {:induction false} FiltersGrow(create: Create, groups: seq<seq<Bytes>>, m: nat, n: nat)
    requires m <= n <= |groups|
    ensures Filters(create, groups, m) <= Filters(create, groups, n)
    decreases n
  {
    hide FilterOf;
    if m < n {
      FiltersGrow(create, groups, m, n - 1);
    }
  }

  /** Where each filter starts, and where the last one ends. */
  function Starts(create: Create, groups: seq<seq<Bytes>>): (r: seq<nat>)
    ensures |r| == |groups| + 1
  {
    seq(|groups| + 1, i requires 0 <= i <= |groups| => |Filters(create, groups, i)|)
  }

  lemma StartsSmall(create: Create, groups: seq<seq<Bytes>>)
    requires |Filters(create, groups, |groups|)| < TWO32
    ensures forall i :: 0 <= i < |Starts(create, groups)| ==> Starts(create, groups)[i] < TWO32
  {
    forall i | 0 <= i < |Starts(create, groups)|
      ensures Starts(create, groups)[i] < TWO32
    {
      FiltersGrow(create, groups, i, |groups|);
    }
  }

  /** The finished filter block: the end of the filters is the last offset. */
  function FilterBytes(create: Create, groups: seq<seq<Bytes>>): Bytes
    requires |Filters(create, groups, |groups|)| < TWO32
  {
    StartsSmall(create, groups);
    Filters(create, groups, |groups|) + Fixeds(Starts(create, groups)) + [BASE_LG]
  }

  // ----- reading

  /** o >> lg. */
  function ShiftRight(o: nat, lg: nat): nat
    decreases lg
  {
    if lg == 0 then o else ShiftRight(o / 2, lg - 1)
  }

  lemma ShiftByBase(o: nat)
    ensures ShiftRight(o, 11) == o / BASE
  {
    var a := o / 2 / 2 / 2 / 2;
    var b := a / 2 / 2 / 2 / 2;
    assert ShiftRight(o, 11) == ShiftRight(a, 7) by {
      assert ShiftRight(o, 11) == ShiftRight(o / 2, 10) == ShiftRight(o / 2 / 2, 9) == ShiftRight(o / 2 / 2 / 2, 8);
    }
    assert ShiftRight(a, 7) == ShiftRight(b, 3) by {
      assert ShiftRight(a, 7) == ShiftRight(a / 2, 6) == ShiftRight(a / 2 / 2, 5) == ShiftRight(a / 2 / 2 / 2, 4);
    }
    assert ShiftRight(b, 3) == ShiftRight(b / 2, 2) == ShiftRight(b / 2 / 2, 1) == ShiftRight(b / 2 / 2 / 2, 0);
    assert a == o / 16 && b == a / 16;
  }

  /** FilterBlockReader::KeyMayMatch; whatever cannot be read may match. */
  predicate KeyMayMatch(contents: Bytes, o: nat, key: Bytes, matches: Matches) {
    var n := |contents|;
    if n < 5 then true
    else
      var last := GetFixed32(contents[n - 5..]);
      if last > n - 5 then true
      else
        var index, num := ShiftRight(o, contents[n - 1]), (n - 5 - last) / 4;
        if index >= num then true
        else
          var start, limit := GetFixed32(contents[last + 4 * index..]), GetFixed32(contents[last + 4 * index + 4..]);
          if start <= limit && limit <= last then matches(key, contents[start..limit])
          else start != limit
  }

  lemma OffsetsAt(create: Create, groups: seq<seq<Bytes>>, j: nat)
    requires |Filters(create, groups, |groups|)| < TWO32 && j <= |groups|
    ensures var block, last := FilterBytes(create, groups), |Filters(create, groups, |groups|)|;
            && |block| == last + 4 * (|groups| + 1) + 1
            && last + 4 * j + 4 <= |block| && GetFixed32(block[last + 4 * j..]) == |Filters(create, groups, j)|
            && block[|block| - 1] == BASE_LG
  {
    hide Filters; hide GetFixed32; hide Fixeds; hide Starts;
    StartsSmall(create, groups);
    StartsAt(create, groups, j);
    var starts := Starts(create, groups);
    FixedsSize(starts);
    FixedsAt(starts, j, [BASE_LG]);
    Inner(FilterBytes(create, groups), Filters(create, groups, |groups|), Fixeds(starts), [BASE_LG], 4 * j);
  }

  lemma StartsAt(create: Create, groups: seq<seq<Bytes>>, j: nat)
    requires j <= |groups|
    ensures |Starts(create, groups)| == |groups| + 1 && Starts(create, groups)[j] == |Filters(create, groups, j)|
  {
  }

  lemma Inner(block: Bytes, a: Bytes, b: Bytes, c: Bytes, k: nat)
    requires block == a + b + c && k <= |b|
    ensures block[|a| + k..] == (b + c)[k..]
  {
    assert block == a + (b + c);
  }

  lemma FixedsSize(starts: seq<nat>)
    requires forall i :: 0 <= i < |starts| ==> starts[i] < TWO32
    ensures |Fixeds(starts)| == 4 * |starts|
  {
  }

  /** The filter asked is that of the offset's two kilobytes, and it decides. */
  lemma FilterDecides(create: Create, matches: Matches, groups: seq<seq<Bytes>>, o: nat, key: Bytes)
    requires |Filters(create, groups, |groups|)| < TWO32
    ensures KeyMayMatch(FilterBytes(create, groups), o, key, matches) <==>
            o / 2048 >= |groups| || matches(key, if groups[o / 2048] == [] then [] else create(groups[o / 2048]))
  {
    hide FilterBytes; hide Filters; hide GetFixed32; hide ShiftRight; hide KeyMayMatch;
    var i, block, last := o / BASE, FilterBytes(create, groups), |Filters(create, groups, |groups|)|;
    OffsetsAt(create, groups, |groups|);
    ShiftByBase(o);
    if i < |groups| {
      OffsetsAt(create, groups, i);
      OffsetsAt(create, groups, i + 1);
      FilterAt(create, groups, i);
      AsksFilter(block, o, key, matches, last, |groups|, i, |Filters(create, groups, i)|, |Filters(create, groups, i + 1)|);
    } else {
      AsksNone(block, o, key, matches, last, |groups|);
    }
  }

  lemma AsksNone(contents: Bytes, o: nat, key: Bytes, matches: Matches, last: nat, num: nat)
    requires |contents| == last + 4 * num + 5 && ShiftRight(o, contents[|contents| - 1]) >= num && GetFixed32(contents[last + 4 * num..]) == last
    ensures KeyMayMatch(contents, o, key, matches)
  {
    hide GetFixed32; hide ShiftRight;
    var n := |contents|;
    assert n - 5 == last + 4 * num && (n - 5 - last) / 4 == num;
  }

  /** A block's filter answers for the keys it was made from. */
  lemma GroupMatches(create: Create, matches: Matches, groups: seq<seq<Bytes>>, o: nat, key: Bytes)
    requires NeverMisses(create, matches) && |Filters(create, groups, |groups|)| < TWO32
    requires o / BASE < |groups| && key in groups[o / BASE]
    ensures KeyMayMatch(FilterBytes(create, groups), o, key, matches)
  {
    hide FilterBytes; hide Filters; hide KeyMayMatch;
    FilterDecides(create, matches, groups, o, key);
  }

  lemma AsksFilter(contents: Bytes, o: nat, key: Bytes, matches: Matches, last: nat, num: nat, i: nat, start: nat, limit: nat)
    requires |contents| == last + 4 * num + 5 && i < num && start <= limit <= last
    requires GetFixed32(contents[last + 4 * num..]) == last && ShiftRight(o, contents[|contents| - 1]) == i
    requires GetFixed32(contents[last + 4 * i..]) == start && GetFixed32(contents[last + 4 * i + 4..]) == limit
    ensures KeyMayMatch(contents, o, key, matches) == matches(key, contents[start..limit])
  {
    hide GetFixed32; hide ShiftRight;
    var n := |contents|;
    assert n - 5 == last + 4 * num && (n - 5 - last) / 4 == num;
  }

  lemma FilterAt(create: Create, groups: seq<seq<Bytes>>, i: nat)
    requires |Filters(create, groups, |groups|)| < TWO32 && i < |groups|
    ensures var block := FilterBytes(create, groups);
            var a, b := |Filters(create, groups, i)|, |Filters(create, groups, i + 1)|;
            a <= b <= |Filters(create, groups, |groups|)| <= |block| && block[a..b] == FilterOf(create, groups[i])
  {
    FiltersGrow(create, groups, i, i + 1);
    FiltersGrow(create, groups, i + 1, |groups|);
    StartsSmall(create, groups);
    var all, part, front := Filters(create, groups, |groups|), Filters(create, groups, i + 1), Filters(create, groups, i);
    assert part == front + FilterOf(create, groups[i]);
    hide Filters; hide Starts; hide Fixeds;
    Middle(FilterBytes(create, groups), all, part, front, FilterOf(create, groups[i]));
  }

  lemma Middle(block: Bytes, all: Bytes, part: Bytes, front: Bytes, f: Bytes)
    requires all <= block && part <= all && part == front + f
    ensures block[|front|..|part|] == f
  {
    assert block[..|part|] == part;
  }

  // ----- building

  /** A key and the offset of the data block it was added under. */
  datatype Added = Added(key: Bytes, offset: nat)

  /** The filter that answers for a block offset. */
  function FilterIndex(offset: nat): nat {
    offset / BASE
  }

  /** The keys that filter i is made from, in the order they were added. */
  function KeysAt(added: seq<Added>, i: nat): seq<Bytes> {
    if added == [] then []
    else
      var a := added[|added| - 1];
      KeysAt(added[..|added| - 1], i) + if FilterIndex(a.offset) == i then [a.key] else []
  }

  lemma KeysAppend(added: seq<Added>, a: Added, i: nat)
    ensures KeysAt(added + [a], i) == KeysAt(added, i) + if FilterIndex(a.offset) == i then [a.key] else []
  {
    assert (added + [a])[..|added|] == added;
  }

  lemma {:induction false} NoKeys(added: seq<Added>, i: nat)
    requires forall a :: a in added ==> FilterIndex(a.offset) != i
    ensures KeysAt(added, i) == []
  {
    hide FilterIndex;
    if added != [] {
      NoKeys(added[..|added| - 1], i);
    }
  }

  lemma {:induction false} InKeys(added: seq<Added>, a: Added)
    requires a in added
    ensures a.key in KeysAt(added, FilterIndex(a.offset))
  {
    hide FilterIndex;
    if a != added[|added| - 1] {
      InKeys(added[..|added| - 1], a);
    }
  }

  /** Every added key is in the group of its block's offset, or still waiting. */
  ghost predicate Placed(added: seq<Added>, groups: seq<seq<Bytes>>, pending: seq<Bytes>) {
    && (forall i :: 0 <= i < |groups| ==> groups[i] == KeysAt(added, i))
    && pending == KeysAt(added, |groups|)
    && forall a :: a in added ==> FilterIndex(a.offset) <= |groups|
  }

  lemma PlacedNext(added: seq<Added>, groups: seq<seq<Bytes>>, pending: seq<Bytes>)
    requires Placed(added, groups, pending)
    ensures Placed(added, groups + [pending], [])
  {
    hide FilterIndex; hide KeysAt;
    NoKeys(added, |groups| + 1);
  }

  lemma PlacedAdd(added: seq<Added>, groups: seq<seq<Bytes>>, pending: seq<Bytes>, key: Bytes, current: nat)
    requires Placed(added, groups, pending) && FilterIndex(current) == |groups|
    ensures Placed(added + [Added(key, current)], groups, pending + [key])
  {
    hide FilterIndex; hide KeysAt;
    forall i: nat
      ensures KeysAt(added + [Added(key, current)], i) == KeysAt(added, i) + if i == |groups| then [key] else []
    {
      KeysAppend(added, Added(key, current), i);
    }
  }

  // ----- how large the filters get

  /** Size of the first n filters. */
  function FilterTotal(create: Create, added: seq<Added>, n: nat): nat {
    if n == 0 then 0 else FilterTotal(create, added, n - 1) + |FilterOf(create, KeysAt(added, n - 1))|
  }

  lemma {:induction false} FiltersSize(create: Create, added: seq<Added>, groups: seq<seq<Bytes>>, n: nat)
    requires n <= |groups| && forall i :: 0 <= i < |groups| ==> groups[i] == KeysAt(added, i)
    ensures |Filters(create, groups, n)| == FilterTotal(create, added, n)
  {
    hide FilterOf; hide KeysAt;
    if n > 0 {
      FiltersSize(create, added, groups, n - 1);
    }
  }

  /** A policy that spends at most this many bytes on a key. */
  ghost predicate Economical(create: Create, perKey: nat) {
    forall keys :: keys != [] ==> |create(keys)| <= perKey * |keys|
  }

  function KeyCount(added: seq<Added>, n: nat): nat {
    if n == 0 then 0 else KeyCount(added, n - 1) + |KeysAt(added, n - 1)|
  }

  lemma {:induction false} CountLast(added: seq<Added>, n: nat)
    requires added != []
    ensures KeyCount(added, n) <= KeyCount(added[..|added| - 1], n) + if FilterIndex(added[|added| - 1].offset) < n then 1 else 0
  {
    hide FilterIndex;
    if n > 0 {
      CountLast(added, n - 1);
    }
  }

  lemma {:induction false} CountAll(added: seq<Added>, n: nat)
    ensures KeyCount(added, n) <= |added|
    decreases |added|
  {
    hide FilterIndex;
    if added == [] {
      NothingCounted(added, n);
    } else {
      CountAll(added[..|added| - 1], n);
      CountLast(added, n);
    }
  }

  lemma {:induction false} NothingCounted(added: seq<Added>, n: nat)
    requires added == []
    ensures KeyCount(added, n) == 0
  {
    if n > 0 {
      NothingCounted(added, n - 1);
    }
  }

  lemma {:induction false} TotalByCount(create: Create, perKey: nat, added: seq<Added>, n: nat)
    requires Economical(create, perKey)
    ensures FilterTotal(create, added, n) <= perKey * KeyCount(added, n)
  {
    hide KeysAt;
    if n > 0 {
      TotalByCount(create, perKey, added, n - 1);
      var keys := KeysAt(added, n - 1);
      assert |FilterOf(create, keys)| <= perKey * |keys|;
      assert perKey * (KeyCount(added, n - 1) + |keys|) == perKey * KeyCount(added, n - 1) + perKey * |keys|;
    }
  }

  /** However the keys are spread over filters, they cost what they cost. */
  lemma TotalBound(create: Create, perKey: nat, added: seq<Added>, n: nat)
    requires Economical(create, perKey)
    ensures FilterTotal(create, added, n) <= perKey * |added|
  {
    hide FilterTotal; hide KeyCount; hide Economical;
    TotalByCount(create, perKey, added, n);
    CountAll(added, n);
    Multiply(perKey, KeyCount(added, n), |added|);
  }

  lemma Multiply(k: nat, a: nat, b: nat)
    requires a <= b
    ensures k * a <= k * b
  {
  }

  class FilterBlockBuilder {
    const create: Create
    var pending: seq<Bytes>
    var result: Bytes
    var offsets: seq<nat>
    ghost var groups: seq<seq<Bytes>>
    ghost var added: seq<Added>
    ghost var current: nat

    ghost predicate Valid()
      reads this
    {
      && result == Filters(create, groups, |groups|)
      && offsets == Starts(create, groups)[..|groups|]
      && FilterIndex(current) == |groups|
      && Placed(added, groups, pending)
    }

    /** Size of all filters once the waiting keys have theirs. */
    ghost function Weight(): nat
      reads this
    {
      |result| + |FilterOf(create, pending)|
    }

    /** The size is known from what was added. */
    lemma WeightIs()
      requires Valid()
      ensures Weight() == FilterTotal(create, added, FilterIndex(current) + 1)
    {
      hide FilterOf; hide KeysAt; hide FilterIndex; hide Starts;
      FiltersSize(create, added, groups, |groups|);
      hide Filters;
    }

    constructor (create: Create)
      ensures Valid() && this.create == create && added == [] && current == 0 && pending == [] && groups == []
    {
      this.create := create;
      pending, result, offsets, groups, added, current := [], [], [], [], [], 0;
    }

    /** One more filter, for the keys collected since the last. */
    method GenerateFilter()
      requires result == Filters(create, groups, |groups|) && offsets == Starts(create, groups)[..|groups|] && Placed(added, groups, pending)
      modifies this`pending, this`result, this`offsets, this`groups
      ensures result == Filters(create, groups, |groups|) && offsets == Starts(create, groups)[..|groups|] && Placed(added, groups, pending)
      ensures groups == old(groups) + [old(pending)] && pending == [] && Weight() == old(Weight())
    {
      StartsAppend(create, groups, pending);
      FiltersAppend(create, groups, pending, |groups|);
      PlacedNext(added, groups, pending);
      hide Starts; hide Placed;
      offsets := offsets + [|result|];
      if pending != [] {
        result := result + create(pending);
      }
      groups := groups + [pending];
      pending := [];
      assert groups[|groups| - 1] == old(pending);
    }

    /** Filters are generated up to the offset's index. */
    method StartBlock(offset: nat)
      requires Valid() && current <= offset
      modifies this
      ensures Valid() && current == offset && added == old(added) && Weight() == old(Weight())
      ensures FilterIndex(offset) == FilterIndex(old(current)) ==> groups == old(groups) && pending == old(pending)
      ensures FilterIndex(offset) > FilterIndex(old(current)) ==> old(groups) + [old(pending)] <= groups && pending == []
    {
      hide Filters; hide Starts; hide Placed;
      var index := offset / BASE;
      assert index >= |groups|;
      while index > |offsets|
        invariant |groups| == |offsets| <= index && added == old(added) && Weight() == old(Weight())
        invariant result == Filters(create, groups, |groups|) && offsets == Starts(create, groups)[..|groups|] && Placed(added, groups, pending)
        invariant if |groups| == |old(groups)| then groups == old(groups) && pending == old(pending)
                  else old(groups) + [old(pending)] <= groups && pending == []
      {
        GenerateFilter();
      }
      current := offset;
    }

    /** The key waits for its filter. */
    method AddKey(key: Bytes)
      requires Valid()
      modifies this
      ensures Valid() && added == old(added) + [Added(key, current)] && current == old(current)
      ensures pending == old(pending) + [key] && result == old(result) && groups == old(groups)
    {
      hide Filters; hide Starts; hide Placed;
      PlacedAdd(added, groups, pending, key, current);
      pending := pending + [key];
      added := added + [Added(key, current)];
    }

    /** The block, on which no added key is ever missed. */
    method Finish(ghost matches: Matches) returns (block: Bytes)
      requires Valid() && NeverMisses(create, matches)
      requires Weight() < TWO32
      modifies this
      ensures forall a :: a in old(added) ==> KeyMayMatch(block, a.offset, a.key, matches)
      ensures |block| <= old(Weight()) + 4 * (FilterIndex(old(current)) + 2) + 1
    {
      if pending != [] {
        FinalSize(create, groups, pending);
        GenerateFilter();
      }
      StartsSmall(create, groups);
      FinalOffsets(create, groups);
      hide Filters; hide Starts; hide Fixeds; hide NeverMisses; hide KeyMayMatch;
      var all := offsets + [|result|];
      block := PutFixeds(result, all);
      block := block + [BASE_LG];
      forall a | a in added
        ensures KeyMayMatch(block, a.offset, a.key, matches)
      {
        AddedGroup(added, groups, pending, a);
        GroupMatches(create, matches, groups, a.offset, a.key);
      }
    }
  }

  /** With nothing waiting every added key is in its group. */
  lemma AddedGroup(added: seq<Added>, groups: seq<seq<Bytes>>, pending: seq<Bytes>, a: Added)
    requires Placed(added, groups, pending) && pending == [] && a in added
    ensures a.offset / BASE < |groups| && a.key in groups[a.offset / BASE]
  {
    hide KeysAt;
    InKeys(added, a);
  }

  // ----- whole schedules

  /** What a table builder does to its filter block. */
  datatype Event = Block(offset: nat) | Key(key: Bytes)

  function OffsetAfter(events: seq<Event>): nat {
    if events == [] then 0
    else
      var e := events[|events| - 1];
      if e.Block? then e.offset else OffsetAfter(events[..|events| - 1])
  }

  function AddedBy(events: seq<Event>): seq<Added> {
    if events == [] then []
    else
      var e, before := events[|events| - 1], events[..|events| - 1];
      AddedBy(before) + if e.Key? then [Added(e.key, OffsetAfter(before))] else []
  }

  /** Block offsets do not decrease. */
  predicate Forward(events: seq<Event>) {
    events != [] ==>
      var e, before := events[|events| - 1], events[..|events| - 1];
      Forward(before) && (e.Block? ==> OffsetAfter(before) <= e.offset)
  }

  /** For every schedule whose filters stay below 2^32 bytes, a key added while
      a block was open may match at that block's offset. */
  method BuildFilter(create: Create, ghost matches: Matches, events: seq<Event>) returns (block: Bytes)
    requires NeverMisses(create, matches) && Forward(events)
    requires FilterTotal(create, AddedBy(events), FilterIndex(OffsetAfter(events)) + 1) < TWO32
    ensures forall a :: a in AddedBy(events) ==> KeyMayMatch(block, a.offset, a.key, matches)
  {
    hide FilterBlockBuilder.Valid; hide FilterBlockBuilder.Weight; hide NeverMisses; hide KeyMayMatch; hide FilterTotal; hide FilterIndex;
    var b := new FilterBlockBuilder(create);
    PrefixesForward(events);
    assert events[..0] == [];
    for i := 0 to |events|
      invariant fresh(b) && b.Valid() && b.create == create && b.added == AddedBy(events[..i]) && b.current == OffsetAfter(events[..i])
    {
      assert events[..i + 1][..i] == events[..i] && Forward(events[..i + 1]);
      match events[i] {
        case Block(offset) => b.StartBlock(offset);
        case Key(key) => b.AddKey(key);
      }
    }
    assert events[..|events|] == events;
    b.WeightIs();
    block := b.Finish(matches);
  }

  lemma {:induction false} PrefixesForward(events: seq<Event>)
    requires Forward(events)
    ensures forall i :: 0 <= i <= |events| ==> Forward(events[..i])
  {
    if events != [] {
      var before := events[..|events| - 1];
      PrefixesForward(before);
      forall i | 0 <= i <= |events|
        ensures Forward(events[..i])
      {
        if i < |events| {
          assert before[..i] == events[..i];
        } else {
          assert events[..i] == events;
        }
      }
    }
  }

  lemma FinalOffsets(create: Create, groups: seq<seq<Bytes>>)
    ensures Starts(create, groups)[..|groups|] + [|Filters(create, groups, |groups|)|] == Starts(create, groups)
  {
  }

  lemma FinalSize(create: Create, groups: seq<seq<Bytes>>, g: seq<Bytes>)
    ensures |Filters(create, groups + [g], |groups| + 1)| == |Filters(create, groups, |groups|)| + |FilterOf(create, g)|
  {
    FiltersAppend(create, groups, g, |groups|);
    assert (groups + [g])[|groups|] == g;
  }

  lemma StartsAppend(create: Create, groups: seq<seq<Bytes>>, g: seq<Bytes>)
    ensures Starts(create, groups + [g])[..|groups| + 1] == Starts(create, groups)[..|groups|] + [|Filters(create, groups, |groups|)|]
  {
    forall i | 0 <= i <= |groups|
      ensures Starts(create, groups + [g])[i] == Starts(create, groups)[i]
    {
      FiltersAppend(create, groups, g, i);
    }
  }

  /** Bloom filters are such a policy. */
  lemma BloomNeverMisses(hash: Bloom.Hash, bitsPerKey: nat, k: nat)
    requires k < 256
    ensures NeverMisses(keys => Bloom.Filter(hash, keys, bitsPerKey, k), (key, filter) => Bloom.MayMatch(hash, key, filter))
  {
    forall keys, key | key in keys
      ensures Bloom.MayMatch(hash, key, Bloom.Filter(hash, keys, bitsPerKey, k))
    {
      Bloom.NoFalseNegatives(hash, keys, bitsPerKey, k, key);
    }
  }
}
