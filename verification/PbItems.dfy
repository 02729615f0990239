/** Decoding the parts of an encoded message: numbers, bytes, tags, arrays. */
module PbItems {
  import opened Keys
  import opened Coding
  import opened PbWire
  import opened PbDecode

  // ----- numbers

  predicate Scale(scale: nat) {
    scale == 1 || scale == 0x80 || scale == 0x4000 || scale == 0x20_0000 || scale == BIT28
  }

  lemma LongStep(v: nat, scale: nat, result: nat)
    requires Scale(scale) && result < scale && Plus(result, v, scale) < TWO32 && v >= 128
    ensures Scale(128 * scale) && scale < BIT28
    ensures var sum := Plus(result, v % 128, scale);
            sum < 128 * scale && sum < TWO32 && Plus(sum, v / 128, 128 * scale) == Plus(result, v, scale)
  {
    Spread(v / 128, v % 128, scale);
    Smaller(v % 128, 127, scale);
    Smaller(128, v, scale);
  }

  lemma Spread(q: nat, r: nat, scale: nat)
    ensures (128 * q + r) * scale == q * (128 * scale) + r * scale
  {
  }

  lemma Smaller(a: nat, b: nat, scale: nat)
    requires a <= b
    ensures a * scale <= b * scale
  {
  }

  lemma LastByte(s: Bytes, scale: nat, result: nat)
    requires s != [] && s[0] < 128 && Scale(scale) && Plus(result, s[0], scale) < TWO32
    ensures Varint32From(s, scale, result) == Some(Parsed(Plus(result, s[0], scale), 1))
  {
    assert scale == BIT28 ==> s[0] < 16;
    hide Plus;
  }

  lemma MoreBytes(s: Bytes, scale: nat, result: nat)
    requires s != [] && s[0] >= 128 && Scale(scale) && Plus(result, s[0] - 128, scale) < TWO32
    ensures var r := Varint32From(s[1..], 128 * scale, Plus(result, s[0] - 128, scale));
            Varint32From(s, scale, result) == if r.None? then None else Some(Parsed(r.value.value, 1 + r.value.used))
  {
    hide Plus;
    var low: nat := s[0] % 128;
    assert low == s[0] - 128;
  }

  lemma {:induction false} Varint32Back(v: nat, scale: nat, result: nat, rest: Bytes)
    requires Scale(scale) && result < scale && Plus(result, v, scale) < TWO32
    ensures Varint32From(Varint(v) + rest, scale, result) == Some(Parsed(Plus(result, v, scale), |Varint(v)|))
    decreases v
  {
    hide Varint32From; hide Plus; hide Scale;
    var s := Varint(v) + rest;
    if v < 128 {
      LastByte(s, scale, result);
    } else {
      LongStep(v, scale, result);
      var w := v / 128;
      assert Varint(v) == [128 + v % 128] + Varint(w);
      hide Varint;
      assert s[1..] == Varint(w) + rest && s[0] == 128 + v % 128;
      Varint32Back(w, 128 * scale, Plus(result, v % 128, scale), rest);
      MoreBytes(s, scale, result);
    }
  }

  lemma Varint32RoundTrip(v: nat, rest: Bytes)
    requires v < TWO32
    ensures Varint32At(Varint(v) + rest) == Some(Parsed(v, |Varint(v)|))
  {
    Varint32Back(v, 1, 0, rest);
  }

  lemma Varint64RoundTrip(v: nat, rest: Bytes)
    requires v < TWO64
    ensures Varint64At(Varint(v) + rest) == Some(Parsed(v, |Varint(v)|))
  {
    Limits();
    VarintRoundTrip(v, 10, rest);
  }

  lemma DelimitedRoundTrip(data: Bytes, rest: Bytes)
    requires |data| < TWO32
    ensures Delimited(Slice(data) + rest) == Some(Cut(data, rest))
  {
    hide Varint; hide Varint32At;
    var head := Varint(|data|);
    Varint32RoundTrip(|data|, data + rest);
    var s := Slice(data) + rest;
    assert s == head + (data + rest);
    assert s[|head|..] == data + rest;
  }

  lemma VarintHead(v: nat, rest: Bytes)
    ensures (Varint(v) + rest)[|Varint(v)|..] == rest
  {
    hide Varint;
  }

  /** The number from -2^31 to 2^31 - 1 that agrees in the low 32 bits. */
  function Wrap32(n: int): int {
    (n + 0x8000_0000) % 0x1_0000_0000 - 0x8000_0000
  }

  /** Numbers may be read into a field of another width. */
  ghost predicate SameNumbers(t: Type, w: Type) {
    (t.VarintT? && w.VarintT?) || (t.UVarintT? && w.UVarintT?) || (t.SVarintT? && w.SVarintT?) || (t.Fixed32T? && t == w) || (t.Fixed64T? && t == w)
  }

  /** What becomes of a number: a plain varint is cut to 32 bits first, unless
      its field has 64. */
  ghost function NumPart(t: Type, n: int): int {
    if t.VarintT? && t.width != 64 then Wrap32(n) else n
  }

  ghost predicate NumRoom(t: Type, n: int) {
    match t
    case VarintT(width) => Signed(NumPart(t, n), width)
    case UVarintT(width) => Unsigned(n, width)
    case SVarintT(width) => Signed(n, width)
    case _ => true
  }

  lemma NumRoundTrip(t: Type, w: Type, v: Val, rest: Bytes)
    requires SameNumbers(t, w) && Fits(w, v)
    ensures DecodeNum(t, Wire(w, v) + rest) == if NumRoom(t, v.n) then Some(Step(Num(NumPart(t, v.n)), rest)) else None
  {
    hide Varint; hide Varint64At; hide Fixed32; hide GetFixed32; hide Fixed64; hide GetFixed64; hide Wrap32;
    match t
    case VarintT(_) =>
      SignedBits(v.n);
      Varint64RoundTrip(Bits64(v.n), rest);
      VarintHead(Bits64(v.n), rest);
    case UVarintT(_) =>
      Varint64RoundTrip(v.n, rest);
      VarintHead(v.n, rest);
    case SVarintT(_) =>
      UnZigZagZigZag(v.n);
      Varint64RoundTrip(ZigZag(v.n), rest);
      VarintHead(ZigZag(v.n), rest);
    case Fixed32T =>
      Fixed32RoundTrip(v.n, rest);
      Fixed32Size(v.n);
      assert (Fixed32(v.n) + rest)[4..] == rest;
    case Fixed64T =>
      Fixed64RoundTrip(v.n, rest);
      Fixed64Size(v.n);
      assert (Fixed64(v.n) + rest)[8..] == rest;
  }

  lemma NumFits(t: Type, v: Val)
    requires Packable(t) && Fits(t, v)
    ensures NumRoom(t, v.n) && NumPart(t, v.n) == v.n
  {
  }

  lemma Fixed32Size(v: nat)
    requires v < TWO32
    ensures |Fixed32(v)| == 4
  {
  }

  lemma Fixed64Size(v: nat)
    requires v < TWO64
    ensures |Fixed64(v)| == 8
  {
  }

  lemma SignedBits(n: int)
    requires 0 <= 2 * n + TWO64 && 2 * n < TWO64
    ensures ToSigned(Bits64(n), TWO64) == n && ToSigned(Bits64(n) % TWO32, TWO32) == Wrap32(n)
  {
    var u, q, low := Bits64(n), (n + 0x8000_0000) / TWO32, (n + 0x8000_0000) % TWO32;
    assert n == q * TWO32 + low - 0x8000_0000;
    var k := if n < 0 then q + TWO32 else q;
    assert u == k * TWO32 + low - 0x8000_0000;
    LowWord(u, k, low);
  }

  lemma LowWord(u: nat, k: int, low: nat)
    requires u == k * TWO32 + low - 0x8000_0000 && low < TWO32
    ensures u % TWO32 == if low >= 0x8000_0000 then low - 0x8000_0000 else low + 0x8000_0000
  {
    if low >= 0x8000_0000 {
      assert u == k * TWO32 + (low - 0x8000_0000);
    } else {
      assert u == (k - 1) * TWO32 + (low + 0x8000_0000);
    }
  }

  lemma {:induction false} CPartWhole(s: Bytes)
    requires forall i :: 0 <= i < |s| ==> s[i] != 0
    ensures CPart(s) == s
  {
    if s != [] {
      CPartWhole(s[1..]);
    }
  }

  lemma SliceLonger(data: Bytes)
    ensures |Slice(data)| > |data|
  {
  }

  /** Bytes and strings may be read into an array of another size. */
  ghost predicate SameKind(t: Type, w: Type) {
    (t.BytesT? && w.BytesT?) || (t.StringT? && w.StringT?) || (t.FixedBytesT? && t == w)
  }

  /** The array has room, for a string with its NUL. */
  ghost predicate RoomForData(t: Type, data: Bytes) {
    match t
    case BytesT(max) => |data| <= max
    case StringT(max) => |data| < max
    case _ => true
  }

  lemma DataRoundTrip(t: Type, w: Type, v: Val, rest: Bytes)
    requires SameKind(t, w) && Fits(w, v) && |v.bytes| < TWO32
    ensures DecodeData(t, Wire(w, v) + rest) == if RoomForData(t, v.bytes) then Some(Step(v, rest)) else None
  {
    hide Delimited; hide Slice;
    DelimitedRoundTrip(v.bytes, rest);
    if t.StringT? {
      CPartWhole(v.bytes);
    } else if t.FixedBytesT? && t.size == 0 {
      assert Zeros(0) == [];
    }
  }

  // ----- tags

  lemma TagRoundTrip(tag: nat, wire: nat, rest: Bytes)
    requires TagOk(tag) && wire < 8
    ensures var s := TagBytes(tag, wire) + rest;
            && s != [] && Varint32At(s) == Some(Parsed(tag * 8 + wire, |TagBytes(tag, wire)|))
            && (tag * 8 + wire) / 8 == tag && (tag * 8 + wire) % 8 == wire
            && s[|TagBytes(tag, wire)|..] == rest
  {
    hide Varint32At;
    Varint32RoundTrip(tag * 8 + wire, rest);
    VarintHead(tag * 8 + wire, rest);
  }

  lemma MemberFound(members: seq<Member>, j: nat)
    requires j < |members| && forall i, k :: 0 <= i < k < |members| ==> members[i].tag != members[k].tag
    ensures MemberOf(members, members[j].tag) == j
  {
    var i := MemberOf(members, members[j].tag);
    hide MemberOf;
  }

  // ----- one field of a message

  ghost function Marked(fields: seq<Slot>, k: nat, seen: set<nat>): set<nat>
    requires k < |fields|
  {
    if fields[k].Required? then seen + {k} else seen
  }

  function MemberAt(slot: Slot, tag: nat): nat {
    if slot.OneOf? then MemberOf(slot.members, tag) else 0
  }

  /** A tag of slot k followed by what its decoder accepts. */
  lemma OneField(fields: seq<Slot>, k: nat, tag: nat, wire: nat, s: Bytes, slots: seq<SlotVal>, seen: set<nat>, sv: SlotVal, rest: Bytes)
    requires SchemaOk(fields) && k < |fields| == |slots| && HasTag(fields[k], tag) && TagOk(tag) && wire < 8
    requires fields[k].OneOf? ==> MemberAt(fields[k], tag) < |fields[k].members|
    requires DecodeSlot(fields[k], MemberAt(fields[k], tag), wire, s, slots[k]) == Some(SlotStep(sv, rest))
    ensures DecodeFields(fields, TagBytes(tag, wire) + s, slots, seen) == DecodeFields(fields, rest, slots[k := sv], Marked(fields, k, seen))
  {
    hide SchemaOk; hide HasTag; hide DecodeSlot; hide TagBytes; hide Varint32At; hide Finish; hide Skip; hide SlotOf; hide TagOk;
    TagRoundTrip(tag, wire, s);
    TagPositive(tag);
    SlotFound(fields, k, tag);
  }

  /** A tag of slot k followed by what its decoder refuses. */
  lemma NoField(fields: seq<Slot>, k: nat, tag: nat, wire: nat, s: Bytes, slots: seq<SlotVal>, seen: set<nat>)
    requires SchemaOk(fields) && k < |fields| == |slots| && HasTag(fields[k], tag) && TagOk(tag) && wire < 8
    requires fields[k].OneOf? ==> MemberAt(fields[k], tag) < |fields[k].members|
    requires DecodeSlot(fields[k], MemberAt(fields[k], tag), wire, s, slots[k]) == None
    ensures DecodeFields(fields, TagBytes(tag, wire) + s, slots, seen) == None
  {
    hide SchemaOk; hide HasTag; hide DecodeSlot; hide TagBytes; hide Varint32At; hide Finish; hide Skip; hide SlotOf; hide TagOk;
    TagRoundTrip(tag, wire, s);
    TagPositive(tag);
    SlotFound(fields, k, tag);
  }

  lemma TagPositive(tag: nat)
    requires TagOk(tag)
    ensures tag >= 1
  {
  }

  /** A tag no field has: the value behind it is skipped, whatever its type. */
  lemma SkippedField(fields: seq<Slot>, tag: nat, w: Type, v: Val, tail: Bytes, slots: seq<SlotVal>, seen: set<nat>)
    requires |fields| == |slots| && SlotOf(fields, tag) == |fields| && TagOk(tag) && Fits(w, v) && |Wire(w, v)| < TWO32
    ensures DecodeFields(fields, TagBytes(tag, WireType(w)) + Wire(w, v) + tail, slots, seen) == DecodeFields(fields, tail, slots, seen)
  {
    var wire, body := WireType(w), Wire(w, v);
    SkippedValue(w, v, tail);
    SkippedBytes(fields, tag, wire, body, tail, slots, seen);
  }

  lemma SkippedBytes(fields: seq<Slot>, tag: nat, wire: nat, body: Bytes, tail: Bytes, slots: seq<SlotVal>, seen: set<nat>)
    requires |fields| == |slots| && SlotOf(fields, tag) == |fields| && TagOk(tag) && wire < 8 && Skip(wire, body + tail) == Some(tail)
    ensures DecodeFields(fields, TagBytes(tag, wire) + body + tail, slots, seen) == DecodeFields(fields, tail, slots, seen)
  {
    hide DecodeSlot; hide TagBytes; hide Varint32At; hide Finish; hide Skip; hide SlotOf; hide TagOk;
    TagRoundTrip(tag, wire, body + tail);
    TagPositive(tag);
    assert TagBytes(tag, wire) + body + tail == TagBytes(tag, wire) + (body + tail);
  }

  lemma {:induction false} SkippedVarint(v: nat, tail: Bytes)
    ensures SkipVarint(Varint(v) + tail) == Some(tail)
    decreases v
  {
    var s := Varint(v) + tail;
    if v >= 128 {
      SkippedVarint(v / 128, tail);
      assert s[1..] == Varint(v / 128) + tail;
    } else {
      assert s[1..] == tail;
    }
  }

  lemma SkippedValue(w: Type, v: Val, tail: Bytes)
    requires Fits(w, v) && |Wire(w, v)| < TWO32
    ensures Skip(WireType(w), Wire(w, v) + tail) == Some(tail)
  {
    hide Varint; hide SkipVarint; hide Delimited; hide WireFields; hide Fixed32; hide Fixed64;
    match w
    case VarintT(_) => SkippedVarint(Bits64(v.n), tail);
    case UVarintT(_) => SkippedVarint(v.n, tail);
    case SVarintT(_) => SkippedVarint(ZigZag(v.n), tail);
    case Fixed32T =>
      Fixed32Size(v.n);
      assert (Fixed32(v.n) + tail)[4..] == tail;
    case Fixed64T =>
      Fixed64Size(v.n);
      assert (Fixed64(v.n) + tail)[8..] == tail;
    case SubT(fields) =>
      SliceLonger(WireFields(fields, v.slots, |fields|));
      DelimitedRoundTrip(WireFields(fields, v.slots, |fields|), tail);
    case _ =>
      SliceLonger(v.bytes);
      DelimitedRoundTrip(v.bytes, tail);
  }

  // ----- packed arrays

  lemma NothingPacked(t: Type, vs: seq<Val>, max: nat)
    ensures DecodePacked(t, [], vs, max) == Some(vs)
  {
  }

  ghost function NumParts(t: Type, w: Type, vs: seq<Val>, n: nat): (r: seq<Val>)
    requires SameNumbers(t, w) && AllFit(w, vs) && n <= |vs|
    ensures |r| == n
  {
    seq(n, i requires 0 <= i < n => Num(NumPart(t, vs[i].n)))
  }

  ghost predicate NumRooms(t: Type, w: Type, vs: seq<Val>, n: nat)
    requires SameNumbers(t, w) && AllFit(w, vs) && n <= |vs|
  {
    forall i :: 0 <= i < n ==> NumRoom(t, vs[i].n)
  }

  /** A packed array decodes item by item onto an array, as long as that has
      room. */
  lemma {:induction false} PackedRoundTrip(t: Type, w: Type, was: seq<Val>, vs: seq<Val>, n: nat, tail: Bytes, max: nat)
    requires SameNumbers(t, w) && AllFit(w, vs) && n <= |vs|
    ensures DecodePacked(t, Packed(w, vs, n) + tail, was, max) ==
            if (n == 0 || |was| + n <= max) && NumRooms(t, w, vs, n) then DecodePacked(t, tail, was + NumParts(t, w, vs, n), max) else None
    decreases n
  {
    hide DecodePacked; hide Wire; hide DecodeNum; hide NumPart; hide NumRoom; hide Packable;
    if n == 0 {
      assert Packed(w, vs, 0) + tail == tail && was + [] == was;
    } else {
      var front, last := Packed(w, vs, n - 1), Wire(w, vs[n - 1]);
      assert Packed(w, vs, n) + tail == front + (last + tail);
      hide Packed;
      PackedRoundTrip(t, w, was, vs, n - 1, last + tail, max);
      NumRoundTrip(t, w, vs[n - 1], tail);
      NumNonempty(w, vs[n - 1]);
      PackedStep(t, last + tail, was + NumParts(t, w, vs, n - 1), max);
      assert was + NumParts(t, w, vs, n) == was + NumParts(t, w, vs, n - 1) + [Num(NumPart(t, vs[n - 1].n))];
    }
  }

  lemma NumNonempty(w: Type, v: Val)
    requires Fits(w, v) && SameNumbers(w, w)
    ensures Wire(w, v) != []
  {
    hide Fixed32; hide Fixed64;
    if w.Fixed32T? {
      Fixed32Size(v.n);
    } else if w.Fixed64T? {
      Fixed64Size(v.n);
    }
  }

  lemma PackedStep(t: Type, s: Bytes, vs: seq<Val>, max: nat)
    requires SameNumbers(t, t) && s != []
    ensures DecodePacked(t, s, vs, max) ==
            if |vs| < max && DecodeNum(t, s).Some? then DecodePacked(t, DecodeNum(t, s).value.rest, vs + [DecodeNum(t, s).value.v], max) else None
  {
    assert DecodeVal(t, s, ZeroOf(t)) == DecodeNum(t, s);
    hide DecodeNum;
  }
}
