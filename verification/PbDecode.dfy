/** Decoding driven by the field table (nanopb: pb_decode.c, pb_common.c). */
module PbDecode {
  import opened Keys
  import opened Coding
  import opened PbWire

  // ----- varints of 32 and 64 bits

  const BIT28: nat := 0x1000_0000
  const BIT31: nat := 0x8000_0000
  const BIT35: nat := 0x8_0000_0000
  const BIT63: nat := 0x8000_0000_0000_0000

  /** pb_decode_varint32 from the byte whose lowest bit has weight `scale`. */
  function Varint32From(s: Bytes, scale: nat, result: nat): (r: Option<Parsed>)
    ensures r.Some? ==> 1 <= r.value.used <= |s|
    decreases |s|
  {
    if s == [] then None
    else
      var low: nat := s[0] % 128;
      if scale >= BIT35 && low != 0 && (result < BIT31 || s[0] != if scale < BIT63 then 0xFF else 0x01) then None
      else
        var sum := if scale >= BIT35 then result else Plus(result, low, scale) % TWO32;
        if s[0] >= 128 then
          var r := Varint32From(s[1..], 128 * scale, sum);
          if r.None? then None else Some(Parsed(r.value.value, 1 + r.value.used))
        else if scale == BIT28 && low >= 16 then None
        else Some(Parsed(sum, 1))
  }

  function Varint32At(s: Bytes): (r: Option<Parsed>)
    ensures r.Some? ==> 1 <= r.value.used <= |s|
  {
    Varint32From(s, 1, 0)
  }

  /** pb_decode_varint. */
  function Varint64At(s: Bytes): (r: Option<Parsed>)
    ensures r.Some? ==> 1 <= r.value.used <= |s|
  {
    var r := VarintAt(s, 10);
    if r.None? then None else Some(Parsed(r.value.value % TWO64, r.value.used))
  }

  function ToSigned(u: nat, modulus: nat): int {
    if 2 * u < modulus then u else u - modulus
  }

  // ----- one value

  datatype Step = Step(v: Val, rest: Bytes)

  /** A length and that many bytes. */
  function Delimited(s: Bytes): (r: Option<Cut>)
    ensures r.Some? ==> |r.value.data| + |r.value.rest| < |s|
  {
    match Varint32At(s)
    case None => None
    case Some(p) =>
      var tail := s[p.used..];
      if |tail| < p.value then None else Some(Cut(tail[..p.value], tail[p.value..]))
  }

  function DecodeNum(t: Type, s: Bytes): (r: Option<Step>)
    requires Packable(t)
    ensures r.Some? ==> |r.value.rest| < |s|
  {
    if t.Fixed32T? then
      if |s| < 4 then None else Some(Step(Num(GetFixed32(s)), s[4..]))
    else if t.Fixed64T? then
      if |s| < 8 then None else Some(Step(Num(GetFixed64(s)), s[8..]))
    else
      match Varint64At(s)
      case None => None
      case Some(p) =>
        var rest := s[p.used..];
        match t
        case VarintT(w) =>
          var n := if w == 64 then ToSigned(p.value, TWO64) else ToSigned(p.value % TWO32, TWO32);
          if Signed(n, w) then Some(Step(Num(n), rest)) else None
        case UVarintT(w) => if Unsigned(p.value, w) then Some(Step(Num(p.value), rest)) else None
        case SVarintT(w) =>
          var n := UnZigZag(p.value);
          if Signed(n, w) then Some(Step(Num(n), rest)) else None
  }

  function DecodeData(t: Type, s: Bytes): (r: Option<Step>)
    requires t.BytesT? || t.StringT? || t.FixedBytesT?
    ensures r.Some? ==> |r.value.rest| < |s|
  {
    match Delimited(s)
    case None => None
    case Some(c) =>
      match t
      case BytesT(max) => if |c.data| > max then None else Some(Step(Data(c.data), c.rest))
      case StringT(max) => if |c.data| >= max then None else Some(Step(Data(CPart(c.data)), c.rest))
      case FixedBytesT(size) =>
        if |c.data| == 0 then Some(Step(Data(Zeros(size)), c.rest))
        else if |c.data| != size then None
        else Some(Step(Data(c.data), c.rest))
  }

  /** One value; a submessage is decoded into what `base` holds already. */
  function DecodeVal(t: Type, s: Bytes, base: Val): (r: Option<Step>)
    ensures r.Some? ==> |r.value.rest| < |s|
    decreases t, 0
  {
    if Packable(t) then DecodeNum(t, s)
    else if !t.SubT? then DecodeData(t, s)
    else
      match Delimited(s)
      case None => None
      case Some(c) =>
        var start := if base.Message? && |base.slots| == |t.fields| then base.slots else Defaults(t.fields);
        match DecodeFields(t.fields, c.data, start, {})
        case None => None
        case Some(slots) => Some(Step(Message(slots), c.rest))
  }

  function DecodePacked(t: Type, s: Bytes, vs: seq<Val>, max: nat): (r: Option<seq<Val>>)
    decreases t, |s|
  {
    if s == [] then Some(vs)
    else if |vs| >= max then None
    else
      match DecodeVal(t, s, ZeroOf(t))
      case None => None
      case Some(step) => DecodePacked(t, step.rest, vs + [step.v], max)
  }

  // ----- one field

  datatype SlotStep = SlotStep(sv: SlotVal, rest: Bytes)

  function DecodeMember(m: Member, j: nat, s: Bytes): (r: Option<SlotStep>)
    ensures r.Some? ==> |r.value.rest| < |s|
    decreases m
  {
    match DecodeVal(m.t, s, ZeroOf(m.t))
    case None => None
    case Some(step) => Some(SlotStep(Which(Some(Choice(j, step.v))), step.rest))
  }

  /** decode_static_field: j is the member of a oneof. */
  function DecodeSlot(slot: Slot, j: nat, wire: nat, s: Bytes, sv: SlotVal): (r: Option<SlotStep>)
    requires slot.OneOf? ==> j < |slot.members|
    ensures r.Some? ==> |r.value.rest| < |s|
    decreases slot
  {
    match slot
    case Required(_, t) => DecodeSingle(t, s, if sv.One? then sv.v else ZeroOf(t))
    case Implicit(_, t) => DecodeSingle(t, s, if sv.One? then sv.v else ZeroOf(t))
    case Optional(_, t) =>
      (match DecodeVal(t, s, if sv.Maybe? && sv.o.Some? then sv.o.value else ZeroOf(t))
       case None => None
       case Some(step) => Some(SlotStep(Maybe(Some(step.v)), step.rest)))
    case Repeated(_, t, max) => DecodeItem(t, max, wire, s, if sv.Many? then sv.vs else [])
    case OneOf(members) => DecodeMember(members[j], j, s)
  }

  /** One item of a repeated field, or a packed array of them. */
  function DecodeItem(t: Type, max: nat, wire: nat, s: Bytes, vs: seq<Val>): (r: Option<SlotStep>)
    ensures r.Some? ==> |r.value.rest| < |s|
    decreases t, |s| + 1
  {
    if wire == WT_STRING && Packable(t) then
      match Delimited(s)
      case None => None
      case Some(c) =>
        match DecodePacked(t, c.data, vs, max)
        case None => None
        case Some(vs') => Some(SlotStep(Many(vs'), c.rest))
    else if |vs| >= max then None
    else
      match DecodeVal(t, s, ZeroOf(t))
      case None => None
      case Some(step) => Some(SlotStep(Many(vs + [step.v]), step.rest))
  }

  function DecodeSingle(t: Type, s: Bytes, base: Val): (r: Option<SlotStep>)
    ensures r.Some? ==> |r.value.rest| < |s|
    decreases t, 1
  {
    match DecodeVal(t, s, base)
    case None => None
    case Some(step) => Some(SlotStep(One(step.v), step.rest))
  }

  // ----- finding the field

  function MemberOf(members: seq<Member>, tag: nat): (j: nat)
    ensures j <= |members| && (j < |members| ==> members[j].tag == tag)
    ensures forall i :: 0 <= i < j ==> members[i].tag != tag
  {
    if members == [] || members[0].tag == tag then 0
    else
      var j := MemberOf(members[1..], tag);
      assert forall i :: 1 <= i <= j && i < |members| ==> members[i] == members[1..][i - 1];
      1 + j
  }

  predicate HasTag(slot: Slot, tag: nat) {
    if slot.OneOf? then MemberOf(slot.members, tag) < |slot.members| else slot.tag == tag
  }

  /** pb_field_iter_find, as the position of the field's slot. */
  function SlotOf(fields: seq<Slot>, tag: nat): (i: nat)
    ensures i <= |fields| && (i < |fields| ==> HasTag(fields[i], tag))
    ensures forall k :: 0 <= k < i ==> !HasTag(fields[k], tag)
  {
    if fields == [] || HasTag(fields[0], tag) then 0
    else
      var i := SlotOf(fields[1..], tag);
      assert forall k :: 1 <= k <= i && k < |fields| ==> fields[k] == fields[1..][k - 1];
      1 + i
  }

  /** Field numbers are distinct, positive and fit the wire format; so are those
      of all submessages. */
  ghost predicate SchemaOk(fields: seq<Slot>)
    decreases fields
  {
    && (forall i :: 0 <= i < |fields| ==> SlotOk(fields[i]))
    && (forall i, j, tag :: 0 <= i < j < |fields| && HasTag(fields[i], tag) ==> !HasTag(fields[j], tag))
  }

  ghost predicate TagOk(tag: nat) {
    1 <= tag < 0x2000_0000
  }

  ghost predicate SlotOk(slot: Slot)
    decreases slot
  {
    match slot
    case OneOf(members) =>
      && (forall i :: 0 <= i < |members| ==> MemberOk(members[i]))
      && (forall i, j :: 0 <= i < j < |members| ==> members[i].tag != members[j].tag)
    case _ => TagOk(slot.tag) && TypeOk(slot.t)
  }

  ghost predicate MemberOk(m: Member)
    decreases m
  {
    TagOk(m.tag) && TypeOk(m.t)
  }

  ghost predicate TypeOk(t: Type)
    decreases t
  {
    t.SubT? ==> SchemaOk(t.fields)
  }

  lemma SlotFound(fields: seq<Slot>, k: nat, tag: nat)
    requires SchemaOk(fields) && k < |fields| && HasTag(fields[k], tag)
    ensures SlotOf(fields, tag) == k
  {
    hide HasTag; hide SlotOk;
    var i := SlotOf(fields, tag);
    hide SlotOf;
  }

  /** pb_skip_field. */
  function Skip(wire: nat, s: Bytes): (r: Option<Bytes>)
    ensures r.Some? ==> |r.value| <= |s|
  {
    if wire == WT_VARINT then SkipVarint(s)
    else if wire == WT_64BIT then if |s| < 8 then None else Some(s[8..])
    else if wire == WT_STRING then (match Delimited(s) case None => None case Some(c) => Some(c.rest))
    else if wire == WT_32BIT then if |s| < 4 then None else Some(s[4..])
    else None
  }

  function SkipVarint(s: Bytes): (r: Option<Bytes>)
    ensures r.Some? ==> |r.value| <= |s|
  {
    if s == [] then None else if s[0] < 128 then Some(s[1..]) else SkipVarint(s[1..])
  }

  // ----- the message

  const MAX_REQUIRED: nat := 64

  /** How many of the first n fields are required. */
  function RequiredBefore(fields: seq<Slot>, n: nat): nat
    requires n <= |fields|
  {
    if n == 0 then 0 else RequiredBefore(fields, n - 1) + if fields[n - 1].Required? then 1 else 0
  }

  predicate AllSeen(fields: seq<Slot>, seen: set<nat>) {
    forall i :: 0 <= i < |fields| && fields[i].Required? && RequiredBefore(fields, i) < MAX_REQUIRED ==> i in seen
  }

  function Finish(fields: seq<Slot>, slots: seq<SlotVal>, seen: set<nat>): Option<seq<SlotVal>> {
    if AllSeen(fields, seen) then Some(slots) else None
  }

  /** pb_decode_noinit: `seen` are the required fields met so far.  In an empty
      table field number 0 is that of the terminator, which nothing decodes. */
  function DecodeFields(fields: seq<Slot>, s: Bytes, slots: seq<SlotVal>, seen: set<nat>): (r: Option<seq<SlotVal>>)
    requires |slots| == |fields|
    ensures r.Some? ==> |r.value| == |fields|
    decreases fields, |s|
  {
    if s == [] then Finish(fields, slots, seen)
    else
      match Varint32At(s)
      case None => None
      case Some(p) =>
        if p.value == 0 then Finish(fields, slots, seen)
        else
          var tag, wire, rest := p.value / 8, p.value % 8, s[p.used..];
          var i := SlotOf(fields, tag);
          if fields == [] && tag == 0 then None
          else if i == |fields| then
            match Skip(wire, rest)
            case None => None
            case Some(rest') => DecodeFields(fields, rest', slots, seen)
          else
            match DecodeSlot(fields[i], if fields[i].OneOf? then MemberOf(fields[i].members, tag) else 0, wire, rest, slots[i])
            case None => None
            case Some(step) =>
              DecodeFields(fields, step.rest, slots[i := step.sv], if fields[i].Required? then seen + {i} else seen)
  }

  /** pb_decode. */
  function Decode(fields: seq<Slot>, s: Bytes): Option<seq<SlotVal>> {
    DecodeFields(fields, s, Defaults(fields), {})
  }
}
