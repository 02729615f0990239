/** Messages described by a field table, and their wire format (nanopb: pb.h,
    pb_encode.c).  Only static fields: every value sits inside the message. */
module PbWire {
  import opened Keys
  import opened Coding

  /** PB_LTYPE with the sizes of the destination; widths are in bits. */
  datatype Type =
    | VarintT(width: nat)
    | UVarintT(width: nat)
    | SVarintT(width: nat)
    | Fixed32T
    | Fixed64T
    | BytesT(max: nat)
    | StringT(max: nat)
    | FixedBytesT(size: nat)
    | SubT(fields: seq<Slot>)

  /** PB_HTYPE.  Optional has a has_ flag, Implicit (proto3) has none; the
      members of a oneof share one place and one which_ number. */
  datatype Slot =
    | Required(tag: nat, t: Type)
    | Optional(tag: nat, t: Type)
    | Implicit(tag: nat, t: Type)
    | Repeated(tag: nat, t: Type, max: nat)
    | OneOf(members: seq<Member>)

  datatype Member = Member(tag: nat, t: Type)

  datatype Val = Num(n: int) | Data(bytes: Bytes) | Message(slots: seq<SlotVal>)

  datatype Choice = Choice(member: nat, v: Val)

  datatype SlotVal = One(v: Val) | Maybe(o: Option<Val>) | Many(vs: seq<Val>) | Which(c: Option<Choice>)

  // ----- which values belong to a schema

  predicate WidthOk(width: nat) {
    width == 8 || width == 16 || width == 32 || width == 64
  }

  function Limit(width: nat): (n: nat)
    requires WidthOk(width)
    ensures 0x100 <= n <= TWO64
  {
    if width == 8 then 0x100 else if width == 16 then 0x1_0000 else if width == 32 then TWO32 else TWO64
  }

  predicate Signed(n: int, width: nat) {
    WidthOk(width) && 0 <= 2 * n + Limit(width) && 2 * n < Limit(width)
  }

  predicate Unsigned(n: int, width: nat) {
    WidthOk(width) && 0 <= n < Limit(width)
  }

  /** The characters of an array of max bytes: those before the first NUL, or
      all of them when there is none. */
  predicate CString(s: Bytes, max: nat) {
    |s| <= max && forall i :: 0 <= i < |s| ==> s[i] != 0
  }

  /** The part of a character array that is the string. */
  function CPart(s: Bytes): (r: Bytes)
    ensures CString(r, |s|)
  {
    if s == [] || s[0] == 0 then [] else [s[0]] + CPart(s[1..])
  }

  ghost predicate Fits(t: Type, v: Val)
    decreases t
  {
    match t
    case VarintT(w) => v.Num? && Signed(v.n, w)
    case UVarintT(w) => v.Num? && Unsigned(v.n, w)
    case SVarintT(w) => v.Num? && Signed(v.n, w)
    case Fixed32T => v.Num? && 0 <= v.n < TWO32
    case Fixed64T => v.Num? && 0 <= v.n < TWO64
    case BytesT(max) => v.Data? && |v.bytes| <= max
    case StringT(max) => v.Data? && CString(v.bytes, max)
    case FixedBytesT(size) => v.Data? && |v.bytes| == size
    case SubT(fields) => v.Message? && |v.slots| == |fields| && forall i :: 0 <= i < |fields| ==> SlotFits(fields[i], v.slots[i])
  }

  ghost predicate SlotFits(slot: Slot, sv: SlotVal)
    decreases slot
  {
    match slot
    case Required(_, t) => sv.One? && Fits(t, sv.v)
    case Implicit(_, t) => sv.One? && Fits(t, sv.v)
    case Optional(_, t) => sv.Maybe? && (sv.o.Some? ==> Fits(t, sv.o.value))
    case Repeated(_, t, max) => sv.Many? && |sv.vs| <= max && forall i :: 0 <= i < |sv.vs| ==> Fits(t, sv.vs[i])
    case OneOf(members) =>
      sv.Which? && (sv.c.Some? ==> sv.c.value.member < |members| && MemberFits(members[sv.c.value.member], sv.c.value.v))
  }

  ghost predicate MemberFits(m: Member, v: Val)
    decreases m
  {
    Fits(m.t, v)
  }

  ghost predicate MessageFits(fields: seq<Slot>, slots: seq<SlotVal>) {
    |slots| == |fields| && forall i :: 0 <= i < |fields| ==> SlotFits(fields[i], slots[i])
  }

  // ----- which values the message structs can hold

  /** As Fits, but counts and byte lengths, which the caller sets, may exceed
      what the field table allows. */
  ghost predicate Typed(t: Type, v: Val)
    decreases t
  {
    match t
    case BytesT(_) => v.Data?
    case SubT(fields) => v.Message? && |v.slots| == |fields| && forall i :: 0 <= i < |fields| ==> SlotTyped(fields[i], v.slots[i])
    case _ => Fits(t, v)
  }

  ghost predicate SlotTyped(slot: Slot, sv: SlotVal)
    decreases slot
  {
    match slot
    case Required(_, t) => sv.One? && Typed(t, sv.v)
    case Implicit(_, t) => sv.One? && Typed(t, sv.v)
    case Optional(_, t) => sv.Maybe? && (sv.o.Some? ==> Typed(t, sv.o.value))
    case Repeated(_, t, _) => sv.Many? && forall i :: 0 <= i < |sv.vs| ==> Typed(t, sv.vs[i])
    case OneOf(members) =>
      sv.Which? && (sv.c.Some? ==> sv.c.value.member < |members| && MemberTyped(members[sv.c.value.member], sv.c.value.v))
  }

  ghost predicate MemberTyped(m: Member, v: Val)
    decreases m
  {
    Typed(m.t, v)
  }

  ghost predicate MessageTyped(fields: seq<Slot>, slots: seq<SlotVal>) {
    |slots| == |fields| && forall i :: 0 <= i < |fields| ==> SlotTyped(fields[i], slots[i])
  }

  lemma {:induction false} FitsIsTyped(t: Type, v: Val)
    requires Fits(t, v)
    ensures Typed(t, v)
    decreases t
  {
    if t.SubT? {
      forall i | 0 <= i < |t.fields|
        ensures SlotTyped(t.fields[i], v.slots[i])
      {
        SlotFitsIsTyped(t.fields[i], v.slots[i]);
      }
    }
  }

  lemma {:induction false} SlotFitsIsTyped(slot: Slot, sv: SlotVal)
    requires SlotFits(slot, sv)
    ensures SlotTyped(slot, sv)
    decreases slot
  {
    match slot
    case Required(_, t) => FitsIsTyped(t, sv.v);
    case Implicit(_, t) => FitsIsTyped(t, sv.v);
    case Optional(_, t) =>
      if sv.o.Some? {
        FitsIsTyped(t, sv.o.value);
      }
    case Repeated(_, t, _) =>
      forall i | 0 <= i < |sv.vs|
        ensures Typed(t, sv.vs[i])
      {
        FitsIsTyped(t, sv.vs[i]);
      }
    case OneOf(members) =>
      if sv.c.Some? {
        MemberFitsIsTyped(members[sv.c.value.member], sv.c.value.v);
      }
  }

  lemma {:induction false} MemberFitsIsTyped(m: Member, v: Val)
    requires MemberFits(m, v)
    ensures MemberTyped(m, v)
    decreases m
  {
    FitsIsTyped(m.t, v);
  }

  lemma MessageFitsIsTyped(fields: seq<Slot>, slots: seq<SlotVal>)
    requires MessageFits(fields, slots)
    ensures MessageTyped(fields, slots)
  {
    forall i | 0 <= i < |fields|
      ensures SlotTyped(fields[i], slots[i])
    {
      SlotFitsIsTyped(fields[i], slots[i]);
    }
  }

  // ----- default values

  function Zeros(n: nat): (s: Bytes)
    ensures |s| == n
  {
    seq(n, i => 0)
  }

  function ZeroOf(t: Type): Val
    decreases t
  {
    match t
    case BytesT(_) => Data([])
    case StringT(_) => Data([])
    case FixedBytesT(size) => Data(Zeros(size))
    case SubT(fields) => Message(Defaults(fields))
    case _ => Num(0)
  }

  /** pb_message_set_to_defaults. */
  function Defaults(fields: seq<Slot>): (r: seq<SlotVal>)
    ensures |r| == |fields|
    decreases fields
  {
    seq(|fields|, i requires 0 <= i < |fields| => DefaultOf(fields[i]))
  }

  function DefaultOf(slot: Slot): SlotVal
    decreases slot
  {
    match slot
    case Required(_, t) => One(ZeroOf(t))
    case Implicit(_, t) => One(ZeroOf(t))
    case Optional(_, _) => Maybe(None)
    case Repeated(_, _, _) => Many([])
    case OneOf(_) => Which(None)
  }

  /** pb_check_proto3_default_value for the value of a singular field. */
  predicate IsZero(t: Type, v: Val)
    decreases t
  {
    match t
    case BytesT(_) => v.Data? && |v.bytes| == 0
    case StringT(_) => v.Data? && |v.bytes| == 0
    case FixedBytesT(size) => size == 0
    case SubT(fields) => v.Message? && |v.slots| == |fields| && forall i :: 0 <= i < |fields| ==> IsDefault(fields[i], v.slots[i])
    case _ => v == Num(0)
  }

  predicate IsDefault(slot: Slot, sv: SlotVal)
    decreases slot
  {
    match slot
    case Required(_, _) => false
    case Implicit(_, t) => sv.One? && IsZero(t, sv.v)
    case Optional(_, _) => sv == Maybe(None)
    case Repeated(_, _, _) => sv == Many([])
    case OneOf(_) => sv == Which(None)
  }

  // ----- which messages the decoder has room for

  /** Every string that is written leaves room for its NUL. */
  ghost predicate Terminated(t: Type, v: Val)
    requires Fits(t, v)
    decreases t
  {
    match t
    case StringT(max) => |v.bytes| < max
    case SubT(fields) => forall i :: 0 <= i < |fields| ==> SlotTerminated(fields[i], v.slots[i])
    case _ => true
  }

  ghost predicate SlotTerminated(slot: Slot, sv: SlotVal)
    requires SlotFits(slot, sv)
    decreases slot
  {
    match slot
    case Required(_, t) => Terminated(t, sv.v)
    case Implicit(_, t) => IsZero(t, sv.v) || Terminated(t, sv.v)
    case Optional(_, t) => sv.o.None? || Terminated(t, sv.o.value)
    case Repeated(_, t, _) => forall i :: 0 <= i < |sv.vs| ==> Terminated(t, sv.vs[i])
    case OneOf(members) => sv.c.None? || MemberTerminated(members[sv.c.value.member], sv.c.value.v)
  }

  ghost predicate MemberTerminated(m: Member, v: Val)
    requires MemberFits(m, v)
    decreases m
  {
    Terminated(m.t, v)
  }

  ghost predicate FirstTerminated(fields: seq<Slot>, slots: seq<SlotVal>, n: nat)
    requires MessageFits(fields, slots) && n <= |fields|
  {
    forall i :: 0 <= i < n ==> SlotTerminated(fields[i], slots[i])
  }

  ghost predicate MessageTerminated(fields: seq<Slot>, slots: seq<SlotVal>)
    requires MessageFits(fields, slots)
  {
    FirstTerminated(fields, slots, |fields|)
  }

  /** A value of this type can be left out: nothing in it is always written. */
  ghost predicate Omittable(t: Type)
    decreases t
  {
    match t
    case FixedBytesT(size) => size == 0
    case SubT(fields) => forall i :: 0 <= i < |fields| ==> SlotOmittable(fields[i])
    case _ => true
  }

  ghost predicate SlotOmittable(slot: Slot)
    decreases slot
  {
    !slot.Required? && (slot.Implicit? ==> Omittable(slot.t))
  }

  /** The encoder leaves out exactly what the decoder starts with, if the type
      allows it. */
  lemma {:induction false} ZeroIsDefault(t: Type, v: Val)
    requires Fits(t, v)
    ensures IsZero(t, v) <==> Omittable(t) && v == ZeroOf(t)
    decreases t
  {
    if t.SubT? {
      forall i | 0 <= i < |t.fields|
        ensures IsDefault(t.fields[i], v.slots[i]) <==> SlotOmittable(t.fields[i]) && v.slots[i] == DefaultOf(t.fields[i])
      {
        SlotIsDefault(t.fields[i], v.slots[i]);
      }
      hide IsDefault; hide SlotOmittable; hide DefaultOf;
      if Omittable(t) && v == ZeroOf(t) {
        assert v.slots == Defaults(t.fields);
      }
      if IsZero(t, v) {
        assert v.slots == Defaults(t.fields);
      }
    } else if t.FixedBytesT? && t.size == 0 {
      assert v.bytes == Zeros(0);
    }
  }

  lemma {:induction false} SlotIsDefault(slot: Slot, sv: SlotVal)
    requires SlotFits(slot, sv)
    ensures IsDefault(slot, sv) <==> SlotOmittable(slot) && sv == DefaultOf(slot)
    decreases slot
  {
    if slot.Implicit? {
      ZeroIsDefault(slot.t, sv.v);
    }
  }

  // ----- the wire format

  const WT_VARINT := 0
  const WT_64BIT := 1
  const WT_STRING := 2
  const WT_32BIT := 5

  function WireType(t: Type): nat {
    match t
    case Fixed32T => WT_32BIT
    case Fixed64T => WT_64BIT
    case BytesT(_) => WT_STRING
    case StringT(_) => WT_STRING
    case FixedBytesT(_) => WT_STRING
    case SubT(_) => WT_STRING
    case _ => WT_VARINT
  }

  /** PB_LTYPE_LAST_PACKABLE. */
  predicate Packable(t: Type) {
    t.VarintT? || t.UVarintT? || t.SVarintT? || t.Fixed32T? || t.Fixed64T?
  }

  function TagBytes(tag: nat, wire: nat): Bytes {
    Varint(tag * 8 + wire)
  }

  /** pb_encode_svarint. */
  function ZigZag(n: int): (z: nat) {
    if n < 0 then -2 * n - 1 else 2 * n
  }

  function UnZigZag(z: nat): int {
    if z % 2 == 1 then -(z / 2) - 1 else z / 2
  }

  lemma UnZigZagZigZag(n: int)
    ensures UnZigZag(ZigZag(n)) == n
  {
  }

  /** Two's complement in 64 bits. */
  function Bits64(n: int): (u: nat)
    requires 0 <= 2 * n + TWO64 && 2 * n < TWO64
    ensures u < TWO64
  {
    if n < 0 then n + TWO64 else n
  }

  function Wire(t: Type, v: Val): Bytes
    requires Fits(t, v)
    decreases t, 0
  {
    match t
    case VarintT(w) => Varint(Bits64(v.n))
    case UVarintT(w) => Varint(v.n)
    case SVarintT(w) => Varint(ZigZag(v.n))
    case Fixed32T => Fixed32(v.n)
    case Fixed64T => Fixed64(v.n)
    case BytesT(_) => Slice(v.bytes)
    case StringT(_) => Slice(v.bytes)
    case FixedBytesT(_) => Slice(v.bytes)
    case SubT(fields) => Slice(WireFields(fields, v.slots, |fields|))
  }

  /** The first n slots of a message. */
  function WireFields(fields: seq<Slot>, slots: seq<SlotVal>, n: nat): Bytes
    requires MessageFits(fields, slots) && n <= |fields|
    decreases fields, n
  {
    if n == 0 then [] else WireFields(fields, slots, n - 1) + WireSlot(fields[n - 1], slots[n - 1])
  }

  function WireSlot(slot: Slot, sv: SlotVal): Bytes
    requires SlotFits(slot, sv)
    decreases slot
  {
    match slot
    case Required(tag, t) => TagBytes(tag, WireType(t)) + Wire(t, sv.v)
    case Implicit(tag, t) => if IsZero(t, sv.v) then [] else TagBytes(tag, WireType(t)) + Wire(t, sv.v)
    case Optional(tag, t) => if sv.o.None? then [] else TagBytes(tag, WireType(t)) + Wire(t, sv.o.value)
    case Repeated(tag, t, _) =>
      if sv.vs == [] then []
      else if Packable(t) then TagBytes(tag, WT_STRING) + Slice(Packed(t, sv.vs, |sv.vs|))
      else Unpacked(tag, t, sv.vs, |sv.vs|)
    case OneOf(members) =>
      if sv.c.None? then [] else WireMember(members[sv.c.value.member], sv.c.value.v)
  }

  function WireMember(m: Member, v: Val): Bytes
    requires MemberFits(m, v)
    decreases m
  {
    TagBytes(m.tag, WireType(m.t)) + Wire(m.t, v)
  }

  ghost predicate AllFit(t: Type, vs: seq<Val>) {
    forall i :: 0 <= i < |vs| ==> Fits(t, vs[i])
  }

  ghost predicate AllTyped(t: Type, vs: seq<Val>) {
    forall i :: 0 <= i < |vs| ==> Typed(t, vs[i])
  }

  /** The first n items, one after the other. */
  function Packed(t: Type, vs: seq<Val>, n: nat): Bytes
    requires AllFit(t, vs) && n <= |vs|
    decreases t, n
  {
    if n == 0 then [] else Packed(t, vs, n - 1) + Wire(t, vs[n - 1])
  }

  /** The first n items, each with the field's tag. */
  function Unpacked(tag: nat, t: Type, vs: seq<Val>, n: nat): Bytes
    requires AllFit(t, vs) && n <= |vs|
    decreases t, n
  {
    if n == 0 then [] else Unpacked(tag, t, vs, n - 1) + (TagBytes(tag, WireType(t)) + Wire(t, vs[n - 1]))
  }
}
