/** The bytes nanopb writes, read by the rules of the Protocol Buffers encoding
    alone: without a schema, and with every number spelt out. */
module PbFormat {
  import opened Keys
  import opened Coding
  import opened Digits
  import opened PbWire

  // ----- the encoding rules

  datatype Payload = Number(n: nat) | EightBytes(bytes: Bytes) | Chunk(bytes: Bytes) | FourBytes(bytes: Bytes)

  /** A field on the wire: its number, wire type and payload. */
  datatype Item = Item(number: nat, wire: nat, payload: Payload)

  function TakePayload(wire: nat, s: Bytes): (r: Option<Taken<Payload>>)
    ensures r.Some? ==> |r.value.rest| < |s|
  {
    match wire
    case 0 => (match Base128(s) case None => None case Some(t) => Some(Taken(Number(t.value), t.rest)))
    case 1 => if |s| < 8 then None else Some(Taken(EightBytes(s[..8]), s[8..]))
    case 2 =>
      (match Base128(s)
       case None => None
       case Some(t) => if |t.rest| < t.value then None else Some(Taken(Chunk(t.rest[..t.value]), t.rest[t.value..])))
    case 5 => if |s| < 4 then None else Some(Taken(FourBytes(s[..4]), s[4..]))
    case _ => None
  }

  /** A message as a list of fields. */
  function Split(s: Bytes): Option<seq<Item>>
    decreases |s|
  {
    if s == [] then Some([])
    else
      match Base128(s)
      case None => None
      case Some(key) =>
        match TakePayload(key.value % 8, key.rest)
        case None => None
        case Some(t) => Before(Item(key.value / 8, key.value % 8, t.value), Split(t.rest))
  }

  function Before(item: Item, items: Option<seq<Item>>): Option<seq<Item>> {
    if items.None? then None else Some([item] + items.value)
  }

  // ----- what a value must look like

  /** Two's complement in 64 bits. */
  function Unsigned64(n: int): int {
    if n < 0 then n + 18446744073709551616 else n
  }

  /** 0, -1, 1, -2, 2, ... are numbered 0, 1, 2, 3, 4, ... */
  ghost predicate Numbered(n: int, z: nat) {
    n == if z % 2 == 0 then z / 2 else -(z + 1) / 2
  }

  ghost predicate NumberIs(t: Type, n: int, wire: nat, p: Payload) {
    match t
    case VarintT(_) => wire == 0 && p.Number? && p.n == Unsigned64(n)
    case UVarintT(_) => wire == 0 && p.Number? && p.n == n
    case SVarintT(_) => wire == 0 && p.Number? && Numbered(n, p.n)
    case Fixed32T => n >= 0 && wire == 5 && p.FourBytes? && IsFixed(p.bytes, n, 4)
    case Fixed64T => n >= 0 && wire == 1 && p.EightBytes? && IsFixed(p.bytes, n, 8)
    case _ => false
  }

  ghost predicate ValueIs(t: Type, v: Val, wire: nat, p: Payload)
    decreases t, 0
  {
    match v
    case Num(n) => NumberIs(t, n, wire, p)
    case Data(bytes) => !Packable(t) && !t.SubT? && wire == 2 && p == Chunk(bytes)
    case Message(slots) => t.SubT? && wire == 2 && p.Chunk? && Split(p.bytes).Some? && MessageIs(t.fields, slots, |t.fields|, Split(p.bytes).value)
  }

  /** The items of the first n fields, field by field. */
  ghost predicate MessageIs(fields: seq<Slot>, slots: seq<SlotVal>, n: nat, items: seq<Item>)
    decreases fields, n
  {
    if n == 0 then items == []
    else
      && n <= |fields| && n <= |slots|
      && exists k :: 0 <= k <= |items| && MessageIs(fields, slots, n - 1, items[..k]) && SlotIs(fields[n - 1], slots[n - 1], items[k..])
  }

  ghost predicate SlotIs(slot: Slot, sv: SlotVal, items: seq<Item>)
    decreases slot
  {
    match slot
    case Required(tag, t) => sv.One? && |items| == 1 && ItemIs(tag, t, sv.v, items[0])
    case Implicit(tag, t) => sv.One? && if IsZero(t, sv.v) then items == [] else |items| == 1 && ItemIs(tag, t, sv.v, items[0])
    case Optional(tag, t) => sv.Maybe? && if sv.o.None? then items == [] else |items| == 1 && ItemIs(tag, t, sv.o.value, items[0])
    case Repeated(tag, t, _) =>
      && sv.Many?
      && if sv.vs == [] then items == []
         else if Packable(t) then |items| == 1 && items[0].number == tag && items[0].wire == 2 && items[0].payload.Chunk? && PackedIs(t, sv.vs, items[0].payload.bytes)
         else |items| == |sv.vs| && forall i :: 0 <= i < |items| ==> ItemIs(tag, t, sv.vs[i], items[i])
    case OneOf(members) =>
      && sv.Which?
      && if sv.c.None? then items == []
         else |items| == 1 && sv.c.value.member < |members| && MemberIs(members[sv.c.value.member], sv.c.value.v, items[0])
  }

  ghost predicate MemberIs(m: Member, v: Val, item: Item)
    decreases m
  {
    item.number == m.tag && ValueIs(m.t, v, item.wire, item.payload)
  }

  ghost predicate ItemIs(number: nat, t: Type, v: Val, item: Item)
    decreases t, 1
  {
    item.number == number && ValueIs(t, v, item.wire, item.payload)
  }

  /** The items of a packed array, one after the other without keys. */
  ghost predicate PackedIs(t: Type, vs: seq<Val>, b: Bytes)
    decreases |vs|
  {
    if vs == [] then b == []
    else
      var wire := if t.Fixed32T? then 5 else if t.Fixed64T? then 1 else 0;
      var taken := TakePayload(wire, b);
      vs[0].Num? && taken.Some? && NumberIs(t, vs[0].n, wire, taken.value.value) && PackedIs(t, vs[1..], taken.value.rest)
  }

  // ----- what is written splits so

  function Join(items: seq<Item>, more: Option<seq<Item>>): Option<seq<Item>> {
    if more.None? then None else Some(items + more.value)
  }

  lemma KeySplits(number: nat, wire: nat, body: Bytes, p: Payload, tail: Bytes)
    requires wire < 8 && TakePayload(wire, body + tail) == Some(Taken(p, tail))
    ensures Split(TagBytes(number, wire) + body + tail) == Join([Item(number, wire, p)], Split(tail))
  {
    hide TakePayload; hide Base128; hide Varint;
    var s := TagBytes(number, wire) + body + tail;
    var key := number * 8 + wire;
    assert s == Varint(key) + (body + tail);
    VarintIs(key, body + tail);
    assert s != [] && key / 8 == number && key % 8 == wire;
  }

  lemma NumberTakes(t: Type, v: Val, tail: Bytes) returns (p: Payload)
    requires Packable(t) && Fits(t, v)
    ensures TakePayload(if t.Fixed32T? then 5 else if t.Fixed64T? then 1 else 0, Wire(t, v) + tail) == Some(Taken(p, tail))
    ensures NumberIs(t, v.n, if t.Fixed32T? then 5 else if t.Fixed64T? then 1 else 0, p)
  {
    hide Varint; hide Base128; hide Fixed32; hide Fixed64; hide IsFixed;
    match t
    case VarintT(_) => VarintIs(Bits64(v.n), tail); p := Number(Bits64(v.n));
    case UVarintT(_) => VarintIs(v.n, tail); p := Number(v.n);
    case SVarintT(_) => VarintIs(ZigZag(v.n), tail); p := Number(ZigZag(v.n));
    case Fixed32T =>
      Fixed32Is(v.n);
      p := FourBytes(Fixed32(v.n));
      FixedTakes(Fixed32(v.n), v.n, 4, tail);
    case Fixed64T =>
      Fixed64Is(v.n);
      p := EightBytes(Fixed64(v.n));
      FixedTakes(Fixed64(v.n), v.n, 8, tail);
  }

  lemma FixedTakes(s: Bytes, v: nat, n: nat, tail: Bytes)
    requires IsFixed(s, v, n)
    ensures |s| == n && (s + tail)[..n] == s && (s + tail)[n..] == tail
  {
  }

  lemma ChunkTakes(data: Bytes, tail: Bytes)
    ensures TakePayload(2, Slice(data) + tail) == Some(Taken(Chunk(data), tail))
  {
    hide Base128; hide Varint;
    assert Slice(data) + tail == Varint(|data|) + (data + tail);
    VarintIs(|data|, data + tail);
  }

  lemma {:induction false} ValueSplits(number: nat, t: Type, v: Val, tail: Bytes) returns (item: Item)
    requires Fits(t, v)
    ensures Split(TagBytes(number, WireType(t)) + Wire(t, v) + tail) == Join([item], Split(tail)) && ItemIs(number, t, v, item)
    decreases t, 0
  {
    hide Split; hide TakePayload; hide TagBytes; hide MessageIs; hide Slice; hide NumberIs;
    var wire := WireType(t);
    if Packable(t) {
      var p := NumberTakes(t, v, tail);
      KeySplits(number, wire, Wire(t, v), p, tail);
      item := Item(number, wire, p);
      hide Wire;
    } else if t.SubT? {
      var bytes := WireFields(t.fields, v.slots, |t.fields|);
      var items := MessageSplits(t.fields, v.slots, |t.fields|, []);
      NoItems();
      assert bytes + [] == bytes && items + [] == items;
      hide WireFields;
      ChunkTakes(bytes, tail);
      KeySplits(number, wire, Slice(bytes), Chunk(bytes), tail);
      item := Item(number, wire, Chunk(bytes));
    } else {
      ChunkTakes(v.bytes, tail);
      KeySplits(number, wire, Slice(v.bytes), Chunk(v.bytes), tail);
      item := Item(number, wire, Chunk(v.bytes));
    }
  }

  lemma NoItems()
    ensures Split([]) == Some([])
  {
  }

  lemma JoinTwice(a: seq<Item>, b: seq<Item>, more: Option<seq<Item>>)
    ensures Join(a, Join(b, more)) == Join(a + b, more)
  {
    if more.Some? {
      assert a + (b + more.value) == (a + b) + more.value;
    }
  }

  lemma JoinNone(tail: Bytes)
    ensures [] + tail == tail && Join([], Split(tail)) == Split(tail)
  {
    hide Split;
    if Split(tail).Some? {
      assert [] + Split(tail).value == Split(tail).value;
    }
  }

  lemma {:induction false} MessageSplits(fields: seq<Slot>, slots: seq<SlotVal>, n: nat, tail: Bytes) returns (items: seq<Item>)
    requires MessageFits(fields, slots) && n <= |fields|
    ensures Split(WireFields(fields, slots, n) + tail) == Join(items, Split(tail)) && MessageIs(fields, slots, n, items)
    decreases fields, n
  {
    hide Split; hide WireSlot; hide SlotIs; hide Join; hide SlotFits;
    if n == 0 {
      items := [];
      JoinNone(tail);
    } else {
      var last := WireSlot(fields[n - 1], slots[n - 1]);
      var a := MessageSplits(fields, slots, n - 1, last + tail);
      assert WireFields(fields, slots, n) + tail == WireFields(fields, slots, n - 1) + (last + tail);
      var b := SlotSplits(fields[n - 1], slots[n - 1], tail);
      items := a + b;
      JoinTwice(a, b, Split(tail));
      assert items[..|a|] == a && items[|a|..] == b;
    }
  }

  lemma {:induction false} SlotSplits(slot: Slot, sv: SlotVal, tail: Bytes) returns (items: seq<Item>)
    requires SlotFits(slot, sv)
    ensures Split(WireSlot(slot, sv) + tail) == Join(items, Split(tail)) && SlotIs(slot, sv, items)
    decreases slot, 1
  {
    hide Split; hide Join; hide ItemIs; hide IsZero; hide Wire; hide TagBytes; hide Fits; hide Packed; hide Unpacked; hide Slice;
    JoinNone(tail);
    items := [];
    match slot
    case Required(tag, t) =>
      var item := ValueSplits(tag, t, sv.v, tail);
      items := [item];
    case Implicit(tag, t) =>
      if !IsZero(t, sv.v) {
        var item := ValueSplits(tag, t, sv.v, tail);
        items := [item];
      }
    case Optional(tag, t) =>
      if sv.o.Some? {
        var item := ValueSplits(tag, t, sv.o.value, tail);
        items := [item];
      }
    case Repeated(tag, t, max) =>
      if sv.vs != [] {
        if Packable(t) {
          var bytes := Packed(t, sv.vs, |sv.vs|);
          ChunkTakes(bytes, tail);
          KeySplits(tag, WT_STRING, Slice(bytes), Chunk(bytes), tail);
          items := [Item(tag, WT_STRING, Chunk(bytes))];
          PackedSplits(t, sv.vs);
        } else {
          items := UnpackedSplits(tag, t, sv.vs, |sv.vs|, tail);
        }
      }
    case OneOf(members) =>
      if sv.c.Some? {
        var item := MemberSplits(members[sv.c.value.member], sv.c.value.v, tail);
        items := [item];
      }
  }

  lemma {:induction false} MemberSplits(m: Member, v: Val, tail: Bytes) returns (item: Item)
    requires MemberFits(m, v)
    ensures Split(WireMember(m, v) + tail) == Join([item], Split(tail)) && MemberIs(m, v, item)
    decreases m
  {
    item := ValueSplits(m.tag, m.t, v, tail);
    hide Split; hide Wire; hide ValueIs;
  }

  lemma {:induction false} UnpackedSplits(tag: nat, t: Type, vs: seq<Val>, n: nat, tail: Bytes) returns (items: seq<Item>)
    requires AllFit(t, vs) && n <= |vs|
    ensures Split(Unpacked(tag, t, vs, n) + tail) == Join(items, Split(tail))
    ensures |items| == n && forall i :: 0 <= i < n ==> ItemIs(tag, t, vs[i], items[i])
    decreases t, n + 1
  {
    hide Split; hide ItemIs; hide Join; hide Wire; hide TagBytes; hide Fits;
    if n == 0 {
      items := [];
      JoinNone(tail);
    } else {
      var last := TagBytes(tag, WireType(t)) + Wire(t, vs[n - 1]);
      var a := UnpackedSplits(tag, t, vs, n - 1, last + tail);
      assert Unpacked(tag, t, vs, n) + tail == Unpacked(tag, t, vs, n - 1) + (last + tail);
      var item := ValueSplits(tag, t, vs[n - 1], tail);
      items := a + [item];
      JoinTwice(a, [item], Split(tail));
    }
  }

  lemma PackedSplits(t: Type, vs: seq<Val>)
    requires Packable(t) && AllFit(t, vs)
    ensures PackedIs(t, vs, Packed(t, vs, |vs|))
  {
    hide Packed;
    PackedFront(t, vs, |vs|, [], []);
    assert vs[..|vs|] + [] == vs && Packed(t, vs, |vs|) + [] == Packed(t, vs, |vs|);
  }

  lemma {:induction false} PackedFront(t: Type, vs: seq<Val>, n: nat, more: seq<Val>, tail: Bytes)
    requires Packable(t) && AllFit(t, vs) && n <= |vs| && PackedIs(t, more, tail)
    ensures PackedIs(t, vs[..n] + more, Packed(t, vs, n) + tail)
    decreases n
  {
    hide Wire; hide TakePayload; hide NumberIs;
    if n == 0 {
      assert vs[..0] + more == more && Packed(t, vs, 0) + tail == tail;
    } else {
      var v, last := vs[n - 1], Wire(t, vs[n - 1]);
      OnePacked(t, v, more, tail);
      hide PackedIs;
      PackedFront(t, vs, n - 1, [v] + more, last + tail);
      assert vs[..n] + more == vs[..n - 1] + ([v] + more);
      assert Packed(t, vs, n) + tail == Packed(t, vs, n - 1) + (last + tail);
    }
  }

  lemma OnePacked(t: Type, v: Val, more: seq<Val>, tail: Bytes)
    requires Packable(t) && Fits(t, v) && PackedIs(t, more, tail)
    ensures PackedIs(t, [v] + more, Wire(t, v) + tail)
  {
    hide Wire; hide TakePayload; hide NumberIs;
    var p := NumberTakes(t, v, tail);
    assert ([v] + more)[1..] == more;
  }

  // ----- the main result

  /** Every message is written in the Protocol Buffers encoding: without the
      schema the bytes split into exactly the fields of the message, each under
      its own number and the wire type of its kind, with the payload the
      encoding prescribes, submessages and packed arrays likewise. */
  lemma WrittenInFormat(fields: seq<Slot>, slots: seq<SlotVal>)
    requires MessageFits(fields, slots)
    ensures var items := Split(WireFields(fields, slots, |fields|));
            items.Some? && MessageIs(fields, slots, |fields|, items.value)
  {
    hide Split; hide WireFields; hide MessageIs; hide MessageFits;
    var items := MessageSplits(fields, slots, |fields|, []);
    NoItems();
    var bytes := WireFields(fields, slots, |fields|);
    assert bytes + [] == bytes && items + [] == items;
  }
}
