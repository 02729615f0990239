/** A message written under one schema and read under another (nanopb): fields
    the reader does not know are skipped, fields the writer does not know keep
    their defaults or, if required, make the reader refuse. */
module PbEvolution {
  import opened Keys
  import opened Coding
  import opened PbWire
  import opened PbDecode
  import opened PbItems

  // ----- which schemas understand each other

  ghost predicate Shares(a: Slot, b: Slot) {
    exists tag :: HasTag(a, tag) && HasTag(b, tag)
  }

  predicate Single(slot: Slot) {
    slot.Required? || slot.Implicit? || slot.Optional?
  }

  /** Sizes of numbers and arrays may differ, and submessages may have evolved
      too. */
  ghost predicate TypeReads(t: Type, w: Type)
    decreases t
  {
    match t
    case BytesT(_) => w.BytesT?
    case StringT(_) => w.StringT?
    case SubT(fields) => w.SubT? && Reads(fields, w.fields)
    case FixedBytesT(_) => w == t
    case _ => SameNumbers(t, w)
  }

  /** So may the label of a single field, or it may have become an array. */
  ghost predicate SlotReads(a: Slot, b: Slot)
    decreases a
  {
    match a
    case Repeated(_, t, _) => !b.OneOf? && TypeReads(t, b.t)
    case OneOf(ms) =>
      b.OneOf? && forall j, k :: 0 <= j < |ms| && 0 <= k < |b.members| && ms[j].tag == b.members[k].tag ==> MemberReads(ms[j], b.members[k])
    case _ => Single(b) && TypeReads(a.t, b.t)
  }

  ghost predicate MemberReads(a: Member, b: Member)
    decreases a
  {
    TypeReads(a.t, b.t)
  }

  /** Fields that share a number agree, one with one; all others are free. */
  ghost predicate Reads(fields: seq<Slot>, big: seq<Slot>)
    decreases fields
  {
    && (forall i, j :: 0 <= i < |fields| && 0 <= j < |big| && Shares(fields[i], big[j]) ==> SlotReads(fields[i], big[j]))
    && (forall i, k, j :: 0 <= i < |fields| && 0 <= k < |fields| && 0 <= j < |big| && Shares(fields[i], big[j]) && Shares(fields[k], big[j]) ==> i == k)
    && (forall i, j, k :: 0 <= i < |fields| && 0 <= j < |big| && 0 <= k < |big| && Shares(fields[i], big[j]) && Shares(fields[i], big[k]) ==> j == k)
  }

  /** The writer's field that shares a number with the reader's. */
  ghost function Source(slot: Slot, big: seq<Slot>): (j: nat)
    ensures j <= |big| && (j < |big| ==> Shares(slot, big[j]))
    ensures forall k :: 0 <= k < j ==> !Shares(slot, big[k])
  {
    if big == [] || Shares(slot, big[0]) then 0
    else
      var j := Source(slot, big[1..]);
      assert forall k :: 1 <= k <= j && k < |big| ==> big[k] == big[1..][k - 1];
      1 + j
  }

  // ----- what the reader must find

  /** The value a single field is written with, if it is. */
  ghost function Written(b: Slot, sv: SlotVal): Option<Val>
    requires Single(b) && SlotFits(b, sv)
  {
    match b
    case Required(_, _) => Some(sv.v)
    case Implicit(_, t) => if IsZero(t, sv.v) then None else Some(sv.v)
    case Optional(_, _) => sv.o
  }

  function SingleVal(slot: Slot, v: Val): SlotVal {
    if slot.Optional? then Maybe(Some(v)) else One(v)
  }

  /** Each number the reader knows leads to at most one field that agrees. */
  ghost predicate SlotReadsAll(slot: Slot, big: seq<Slot>) {
    forall j :: 0 <= j < |big| && Shares(slot, big[j]) ==> SlotReads(slot, big[j])
  }

  // ----- what the reader holds already

  ghost predicate Shaped(t: Type, v: Val)
    decreases t
  {
    t.SubT? ==> v.Message? && MessageShaped(t.fields, v.slots)
  }

  /** A message struct of the schema, whatever its values. */
  ghost predicate MessageShaped(fields: seq<Slot>, slots: seq<SlotVal>)
    decreases fields
  {
    |slots| == |fields| && forall i :: 0 <= i < |fields| ==> SlotShaped(fields[i], slots[i])
  }

  ghost predicate SlotShaped(slot: Slot, sv: SlotVal)
    decreases slot
  {
    match slot
    case Required(_, t) => sv.One? && Shaped(t, sv.v)
    case Implicit(_, t) => sv.One? && Shaped(t, sv.v)
    case Optional(_, t) => sv.Maybe? && (sv.o.Some? ==> Shaped(t, sv.o.value))
    case Repeated(_, _, _) => sv.Many?
    case OneOf(_) => sv.Which?
  }

  lemma {:induction false} ZeroShaped(t: Type)
    ensures Shaped(t, ZeroOf(t))
    decreases t
  {
    if t.SubT? {
      DefaultsShaped(t.fields);
    }
  }

  lemma {:induction false} DefaultsShaped(fields: seq<Slot>)
    ensures MessageShaped(fields, Defaults(fields))
    decreases fields
  {
    forall i | 0 <= i < |fields|
      ensures SlotShaped(fields[i], DefaultOf(fields[i]))
    {
      DefaultShaped(fields[i]);
    }
  }

  lemma {:induction false} DefaultShaped(slot: Slot)
    ensures SlotShaped(slot, DefaultOf(slot))
    decreases slot
  {
    if slot.Required? || slot.Implicit? {
      ZeroShaped(slot.t);
    }
  }

  /** What the value of a single field is decoded into. */
  ghost function BaseOf(slot: Slot, was: SlotVal): (v: Val)
    requires Single(slot) && SlotShaped(slot, was)
    ensures Shaped(slot.t, v)
  {
    ZeroShaped(slot.t);
    if slot.Optional? then if was.o.Some? then was.o.value else ZeroOf(slot.t) else was.v
  }

  // ----- what the reader must hold afterwards

  ghost function ValPart(t: Type, base: Val, w: Type, v: Val): Val
    requires Shaped(t, base) && TypeReads(t, w) && Fits(w, v)
    decreases t
  {
    if t.SubT? then Message(MessagePart(t.fields, base.slots, w.fields, v.slots))
    else if Packable(t) then Num(NumPart(t, v.n))
    else v
  }

  /** The part of a message the reader knows, field by field, on top of what it
      holds. */
  ghost function MessagePart(fields: seq<Slot>, base: seq<SlotVal>, big: seq<Slot>, m: seq<SlotVal>): (r: seq<SlotVal>)
    requires MessageShaped(fields, base) && Reads(fields, big) && MessageFits(big, m)
    ensures |r| == |fields|
    decreases fields
  {
    seq(|fields|, i requires 0 <= i < |fields| => Part(fields[i], base[i], big, m))
  }

  ghost function Part(slot: Slot, was: SlotVal, big: seq<Slot>, m: seq<SlotVal>): SlotVal
    requires SlotShaped(slot, was) && SlotReadsAll(slot, big) && MessageFits(big, m)
    decreases slot, 1
  {
    var j := Source(slot, big);
    if j == |big| then was else SlotPart(slot, was, big[j], m[j])
  }

  /** The last of several single values counts, submessages are merged, arrays
      are appended to, and the last choice of a oneof replaces the one before. */
  ghost function SlotPart(a: Slot, was: SlotVal, b: Slot, sv: SlotVal): SlotVal
    requires SlotShaped(a, was) && SlotReads(a, b) && SlotFits(b, sv)
    decreases a, 0
  {
    match a
    case Repeated(_, t, _) =>
      ZeroShaped(t);
      var vs := ValuesOf(b, sv);
      Many(was.vs + seq(|vs|, i requires 0 <= i < |vs| => ValPart(t, ZeroOf(t), b.t, vs[i])))
    case OneOf(ms) =>
      if sv.c.None? then was
      else
        var m := b.members[sv.c.value.member];
        var k := MemberOf(ms, m.tag);
        if k == |ms| then was else Which(Some(Choice(k, MemberPart(ms[k], m, sv.c.value.v))))
    case _ =>
      var o := Written(b, sv);
      if o.None? then was else SingleVal(a, ValPart(a.t, BaseOf(a, was), b.t, o.value))
  }

  /** The values an array or a single field is written with. */
  ghost function ValuesOf(b: Slot, sv: SlotVal): (vs: seq<Val>)
    requires !b.OneOf? && SlotFits(b, sv)
    ensures AllFit(b.t, vs)
  {
    if b.Repeated? then sv.vs else if Written(b, sv).Some? then [Written(b, sv).value] else []
  }

  ghost function MemberPart(a: Member, b: Member, v: Val): Val
    requires MemberReads(a, b) && MemberFits(b, v)
    decreases a
  {
    ZeroShaped(a.t);
    ValPart(a.t, ZeroOf(a.t), b.t, v)
  }

  // ----- whether the reader has room for it

  ghost predicate ValRoom(t: Type, base: Val, w: Type, v: Val)
    requires Shaped(t, base) && TypeReads(t, w) && Fits(w, v)
    decreases t
  {
    match t
    case BytesT(max) => |v.bytes| <= max
    case StringT(max) => |v.bytes| < max
    case SubT(fields) => MessageRoom(fields, base.slots, w.fields, v.slots) && AllPresent(fields, w.fields, v.slots)
    case FixedBytesT(_) => true
    case _ => NumRoom(t, v.n)
  }

  /** Every field the reader knows fits. */
  ghost predicate MessageRoom(fields: seq<Slot>, base: seq<SlotVal>, big: seq<Slot>, m: seq<SlotVal>)
    requires MessageShaped(fields, base) && Reads(fields, big) && MessageFits(big, m)
    decreases fields
  {
    forall i :: 0 <= i < |fields| ==> PartRoom(fields[i], base[i], big, m)
  }

  /** Every required field is there, as far as the decoder checks it: the first
      64. */
  ghost predicate AllPresent(fields: seq<Slot>, big: seq<Slot>, m: seq<SlotVal>)
    requires Reads(fields, big) && MessageFits(big, m)
  {
    forall i :: 0 <= i < |fields| && fields[i].Required? && RequiredBefore(fields, i) < 64 ==> Present(fields[i], big, m)
  }

  ghost predicate Present(slot: Slot, big: seq<Slot>, m: seq<SlotVal>)
    requires SlotReadsAll(slot, big) && MessageFits(big, m) && slot.Required?
  {
    var j := Source(slot, big);
    j < |big| && Written(big[j], m[j]).Some?
  }

  ghost predicate PartRoom(slot: Slot, was: SlotVal, big: seq<Slot>, m: seq<SlotVal>)
    requires SlotShaped(slot, was) && SlotReadsAll(slot, big) && MessageFits(big, m)
    decreases slot, 1
  {
    var j := Source(slot, big);
    j < |big| ==> SlotRoom(slot, was, big[j], m[j])
  }

  ghost predicate SlotRoom(a: Slot, was: SlotVal, b: Slot, sv: SlotVal)
    requires SlotShaped(a, was) && SlotReads(a, b) && SlotFits(b, sv)
    decreases a, 0
  {
    match a
    case Repeated(_, t, max) =>
      ZeroShaped(t);
      var vs := ValuesOf(b, sv);
      && (vs == [] || |was.vs| + |vs| <= max)
      && forall i :: 0 <= i < |vs| ==> ValRoom(t, ZeroOf(t), b.t, vs[i])
    case OneOf(ms) =>
      sv.c.Some? ==>
        var m := b.members[sv.c.value.member];
        var k := MemberOf(ms, m.tag);
        k < |ms| ==> MemberRoom(ms[k], m, sv.c.value.v)
    case _ => Written(b, sv).Some? ==> ValRoom(a.t, BaseOf(a, was), b.t, Written(b, sv).value)
  }

  ghost predicate MemberRoom(a: Member, b: Member, v: Val)
    requires MemberReads(a, b) && MemberFits(b, v)
    decreases a
  {
    ZeroShaped(a.t);
    ValRoom(a.t, ZeroOf(a.t), b.t, v)
  }

  // ----- fields the reader does not know

  ghost predicate Unknown(fields: seq<Slot>, b: Slot) {
    forall tag :: HasTag(b, tag) ==> SlotOf(fields, tag) == |fields|
  }

  /** Whatever its type, an unknown field leaves no trace. */
  lemma SlotSkipped(fields: seq<Slot>, b: Slot, sv: SlotVal, state: seq<SlotVal>, seen: set<nat>, tail: Bytes)
    requires |state| == |fields| && Unknown(fields, b) && SlotOk(b) && SlotFits(b, sv) && |WireSlot(b, sv)| < TWO32
    ensures DecodeFields(fields, WireSlot(b, sv) + tail, state, seen) == DecodeFields(fields, tail, state, seen)
  {
    hide DecodeFields; hide Wire; hide TagBytes; hide Fits; hide TypeOk; hide SlotOf; hide IsZero; hide TagOk; hide WireType;
    assert [] + tail == tail;
    if Single(b) {
      assert HasTag(b, b.tag);
      hide Unknown;
      var o := Written(b, sv);
      if o.Some? {
        SkippedField(fields, b.tag, b.t, o.value, tail, state, seen);
      }
    } else if b.Repeated? {
      assert HasTag(b, b.tag);
      hide Unknown;
      if sv.vs != [] {
        if Packable(b.t) {
          hide Packed;
          PackedSkipped(fields, b.tag, Packed(b.t, sv.vs, |sv.vs|), state, seen, tail);
        } else {
          hide Unpacked;
          UnpackedSkipped(fields, b.tag, b.t, sv.vs, |sv.vs|, state, seen, tail);
        }
      }
    } else if sv.c.Some? {
      var m := b.members[sv.c.value.member];
      MemberFound(b.members, sv.c.value.member);
      assert HasTag(b, m.tag) && MemberOk(m);
      hide Unknown;
      SkippedField(fields, m.tag, m.t, sv.c.value.v, tail, state, seen);
    }
  }

  lemma PackedSkipped(fields: seq<Slot>, tag: nat, items: Bytes, state: seq<SlotVal>, seen: set<nat>, tail: Bytes)
    requires |state| == |fields| && SlotOf(fields, tag) == |fields| && TagOk(tag) && |TagBytes(tag, WT_STRING) + Slice(items)| < TWO32
    ensures DecodeFields(fields, TagBytes(tag, WT_STRING) + Slice(items) + tail, state, seen) == DecodeFields(fields, tail, state, seen)
  {
    hide DecodeFields; hide TagBytes; hide SlotOf; hide TagOk; hide Slice; hide Delimited;
    SliceLonger(items);
    DelimitedRoundTrip(items, tail);
    SkippedBytes(fields, tag, WT_STRING, Slice(items), tail, state, seen);
  }

  lemma {:induction false} UnpackedSkipped(fields: seq<Slot>, tag: nat, t: Type, vs: seq<Val>, n: nat, state: seq<SlotVal>, seen: set<nat>, tail: Bytes)
    requires |state| == |fields| && SlotOf(fields, tag) == |fields| && TagOk(tag) && AllFit(t, vs) && n <= |vs| && |Unpacked(tag, t, vs, n)| < TWO32
    ensures DecodeFields(fields, Unpacked(tag, t, vs, n) + tail, state, seen) == DecodeFields(fields, tail, state, seen)
    decreases n
  {
    hide DecodeFields; hide Wire; hide TagBytes; hide Fits; hide SlotOf; hide TagOk; hide WireType;
    if n == 0 {
      assert Unpacked(tag, t, vs, 0) + tail == tail;
    } else {
      var front, head, body := Unpacked(tag, t, vs, n - 1), TagBytes(tag, WireType(t)), Wire(t, vs[n - 1]);
      assert Unpacked(tag, t, vs, n) == front + (head + body);
      hide Unpacked;
      assert front + (head + body) + tail == front + (head + body + tail);
      UnpackedSkipped(fields, tag, t, vs, n - 1, state, seen, head + body + tail);
      SkippedField(fields, tag, t, vs[n - 1], tail, state, seen);
    }
  }

  // ----- values and fields the reader knows

  lemma {:induction false} ValReads(t: Type, base: Val, w: Type, v: Val, rest: Bytes)
    requires Shaped(t, base) && TypeReads(t, w) && TypeOk(t) && TypeOk(w) && Fits(w, v) && |Wire(w, v)| < TWO32
    ensures DecodeVal(t, Wire(w, v) + rest, base) == if ValRoom(t, base, w, v) then Some(Step(ValPart(t, base, w, v), rest)) else None
    decreases t, 0
  {
    if Packable(t) {
      NumRoundTrip(t, w, v, rest);
    } else if !t.SubT? {
      SliceLonger(v.bytes);
      DataRoundTrip(t, w, v, rest);
    } else {
      SubFits(w, v);
      var bytes := WireFields(w.fields, v.slots, |w.fields|);
      SliceLonger(bytes);
      hide WireFields; hide DecodeFields; hide SchemaOk; hide MessageFits; hide MessageRoom; hide MessagePart; hide Reads; hide Delimited; hide Slice;
      DelimitedRoundTrip(bytes, rest);
      SubShaped(t, base);
      hide MessageShaped; hide AllPresent;
      FieldsRead(t.fields, base.slots, w.fields, v.slots);
    }
  }

  lemma SubFits(w: Type, v: Val)
    requires w.SubT? && Fits(w, v)
    ensures v.Message? && MessageFits(w.fields, v.slots)
  {
  }

  lemma SubShaped(t: Type, v: Val)
    requires t.SubT? && Shaped(t, v)
    ensures v.Message? && |v.slots| == |t.fields| && MessageShaped(t.fields, v.slots)
  {
  }

  /** A known single field: tag, then value. */
  lemma {:induction false} SingleRead(fields: seq<Slot>, k: nat, w: Type, v: Val, state: seq<SlotVal>, seen: set<nat>, tail: Bytes)
    requires SchemaOk(fields) && k < |fields| == |state| && SlotOk(fields[k]) && SlotShaped(fields[k], state[k]) && Single(fields[k])
    requires TypeReads(fields[k].t, w) && TypeOk(w) && Fits(w, v) && |TagBytes(fields[k].tag, WireType(w)) + Wire(w, v)| < TWO32
    ensures var base, t := BaseOf(fields[k], state[k]), fields[k].t;
            DecodeFields(fields, TagBytes(fields[k].tag, WireType(w)) + Wire(w, v) + tail, state, seen) ==
            if ValRoom(t, base, w, v) then DecodeFields(fields, tail, state[k := SingleVal(fields[k], ValPart(t, base, w, v))], Marked(fields, k, seen))
            else None
    decreases fields[k], 1
  {
    hide DecodeFields; hide SchemaOk; hide Wire; hide TagBytes; hide DecodeVal; hide Fits; hide TypeOk; hide ValRoom; hide ValPart; hide TypeReads;
    hide Shaped;
    var tag, t, base := fields[k].tag, fields[k].t, BaseOf(fields[k], state[k]);
    var head, body := TagBytes(tag, WireType(w)), Wire(w, v);
    assert head + body + tail == head + (body + tail);
    ValReads(t, base, w, v, tail);
    if ValRoom(t, base, w, v) {
      OneField(fields, k, tag, WireType(w), body + tail, state, seen, SingleVal(fields[k], ValPart(t, base, w, v)), tail);
    } else {
      NoField(fields, k, tag, WireType(w), body + tail, state, seen);
    }
  }

  /** A single value joins an array the reader knows. */
  lemma {:induction false} ItemRead(fields: seq<Slot>, k: nat, w: Type, v: Val, state: seq<SlotVal>, seen: set<nat>, tail: Bytes)
    requires SchemaOk(fields) && k < |fields| == |state| && SlotOk(fields[k]) && fields[k].Repeated? && state[k].Many?
    requires TypeReads(fields[k].t, w) && TypeOk(w) && Fits(w, v) && |TagBytes(fields[k].tag, WireType(w)) + Wire(w, v)| < TWO32
    ensures Shaped(fields[k].t, ZeroOf(fields[k].t))
    ensures var base, t, vs := ZeroOf(fields[k].t), fields[k].t, state[k].vs;
            DecodeFields(fields, TagBytes(fields[k].tag, WireType(w)) + Wire(w, v) + tail, state, seen) ==
            if |vs| < fields[k].max && ValRoom(t, base, w, v) then DecodeFields(fields, tail, state[k := Many(vs + [ValPart(t, base, w, v)])], seen)
            else None
    decreases fields[k].t, 1
  {
    var tag, t, vs, base := fields[k].tag, fields[k].t, state[k].vs, ZeroOf(fields[k].t);
    ZeroShaped(t);
    ItemPath(t, w);
    hide DecodeFields; hide SchemaOk; hide Wire; hide TagBytes; hide DecodeVal; hide Fits; hide TypeOk; hide ValRoom; hide ValPart; hide TypeReads;
    hide Shaped; hide ZeroOf; hide WireType; hide Packable;
    var head, body := TagBytes(tag, WireType(w)), Wire(w, v);
    assert head + body + tail == head + (body + tail);
    ValReads(t, base, w, v, tail);
    if |vs| < fields[k].max && ValRoom(t, base, w, v) {
      OneField(fields, k, tag, WireType(w), body + tail, state, seen, Many(vs + [ValPart(t, base, w, v)]), tail);
    } else {
      NoField(fields, k, tag, WireType(w), body + tail, state, seen);
    }
  }

  lemma ItemPath(t: Type, w: Type)
    requires TypeReads(t, w)
    ensures WireType(w) < 8 && !(WireType(w) == WT_STRING && Packable(t))
  {
  }

  /** The chosen member of a known oneof. */
  lemma {:induction false} ChoiceRead(fields: seq<Slot>, k: nat, j: nat, b: Member, v: Val, state: seq<SlotVal>, seen: set<nat>, tail: Bytes)
    requires SchemaOk(fields) && k < |fields| == |state| && fields[k].OneOf? && SlotOk(fields[k]) && j < |fields[k].members|
    requires fields[k].members[j].tag == b.tag && MemberReads(fields[k].members[j], b) && MemberOk(b)
    requires MemberFits(b, v) && |WireMember(b, v)| < TWO32
    ensures var a := fields[k].members[j];
            DecodeFields(fields, WireMember(b, v) + tail, state, seen) ==
            if MemberRoom(a, b, v) then DecodeFields(fields, tail, state[k := Which(Some(Choice(j, MemberPart(a, b, v))))], seen) else None
    decreases fields[k], 0
  {
    var a := fields[k].members[j];
    MemberFound(fields[k].members, j);
    assert MemberOk(a);
    ZeroShaped(a.t);
    hide DecodeFields; hide SchemaOk; hide Wire; hide TagBytes; hide DecodeVal; hide Fits; hide TypeOk; hide SlotOk; hide MemberOf;
    hide ValRoom; hide ValPart; hide TypeReads; hide Shaped; hide ZeroOf;
    var head, body := TagBytes(b.tag, WireType(b.t)), Wire(b.t, v);
    assert head + body + tail == head + (body + tail);
    ValReads(a.t, ZeroOf(a.t), b.t, v, tail);
    if ValRoom(a.t, ZeroOf(a.t), b.t, v) {
      OneField(fields, k, b.tag, WireType(b.t), body + tail, state, seen, Which(Some(Choice(j, ValPart(a.t, ZeroOf(a.t), b.t, v)))), tail);
    } else {
      NoField(fields, k, b.tag, WireType(b.t), body + tail, state, seen);
    }
  }

  ghost predicate AllReadable(t: Type, w: Type, vs: seq<Val>) {
    Shaped(t, ZeroOf(t)) && TypeReads(t, w) && AllFit(w, vs)
  }

  ghost function Parts(t: Type, w: Type, vs: seq<Val>, n: nat): (r: seq<Val>)
    requires AllReadable(t, w, vs) && n <= |vs|
    ensures |r| == n
  {
    seq(n, i requires 0 <= i < n => ValPart(t, ZeroOf(t), w, vs[i]))
  }

  ghost predicate AllRoom(t: Type, w: Type, vs: seq<Val>, n: nat)
    requires AllReadable(t, w, vs) && n <= |vs|
  {
    forall i :: 0 <= i < n ==> ValRoom(t, ZeroOf(t), w, vs[i])
  }

  lemma {:induction false} UnpackedRead(fields: seq<Slot>, k: nat, w: Type, vs: seq<Val>, n: nat, state: seq<SlotVal>, seen: set<nat>, tail: Bytes)
    requires SchemaOk(fields) && k < |fields| == |state| && fields[k].Repeated? && SlotOk(fields[k]) && state[k].Many?
    requires AllReadable(fields[k].t, w, vs) && TypeOk(w) && n <= |vs| && |Unpacked(fields[k].tag, w, vs, n)| < TWO32
    ensures var a, was := fields[k], state[k].vs;
            DecodeFields(fields, Unpacked(a.tag, w, vs, n) + tail, state, seen) ==
            if (n == 0 || |was| + n <= a.max) && AllRoom(a.t, w, vs, n) then DecodeFields(fields, tail, state[k := Many(was + Parts(a.t, w, vs, n))], seen)
            else None
    decreases fields[k].t, 2, n
  {
    hide DecodeFields; hide SchemaOk; hide Wire; hide TagBytes; hide Fits; hide TypeOk; hide ValRoom; hide ValPart; hide TypeReads; hide Shaped;
    var a, was := fields[k], state[k].vs;
    if n == 0 {
      assert Unpacked(a.tag, w, vs, 0) + tail == tail && was + [] == was && state[k := Many(was)] == state;
    } else {
      var front, last := Unpacked(a.tag, w, vs, n - 1), TagBytes(a.tag, WireType(w)) + Wire(w, vs[n - 1]);
      assert Unpacked(a.tag, w, vs, n) == front + last;
      hide Unpacked;
      assert front + last + tail == front + (last + tail);
      UnpackedRead(fields, k, w, vs, n - 1, state, seen, last + tail);
      var more := was + Parts(a.t, w, vs, n - 1);
      var state' := state[k := Many(more)];
      ItemRead(fields, k, w, vs[n - 1], state', seen, tail);
      assert was + Parts(a.t, w, vs, n) == more + [ValPart(a.t, ZeroOf(a.t), w, vs[n - 1])];
      assert state'[k := Many(was + Parts(a.t, w, vs, n))] == state[k := Many(was + Parts(a.t, w, vs, n))];
    }
  }

  lemma {:induction false} RepeatedRead(fields: seq<Slot>, k: nat, b: Slot, vs: seq<Val>, state: seq<SlotVal>, seen: set<nat>, tail: Bytes)
    requires SchemaOk(fields) && k < |fields| == |state| && fields[k].Repeated? && SlotOk(fields[k]) && SlotShaped(fields[k], state[k])
    requires b.Repeated? && b.tag == fields[k].tag && SlotReads(fields[k], b) && SlotOk(b)
    requires SlotFits(b, Many(vs)) && vs != [] && |WireSlot(b, Many(vs))| < TWO32
    ensures DecodeFields(fields, WireSlot(b, Many(vs)) + tail, state, seen) ==
            if SlotRoom(fields[k], state[k], b, Many(vs)) then DecodeFields(fields, tail, state[k := SlotPart(fields[k], state[k], b, Many(vs))], seen) else None
    decreases fields[k], 1, 0
  {
    var a, was := fields[k], state[k].vs;
    var tag, t, w := a.tag, a.t, b.t;
    ZeroShaped(t);
    assert AllReadable(t, w, vs);
    assert SlotPart(a, state[k], b, Many(vs)) == Many(was + Parts(t, w, vs, |vs|));
    assert SlotRoom(a, state[k], b, Many(vs)) <==> |was| + |vs| <= a.max && AllRoom(t, w, vs, |vs|);
    hide SlotPart; hide SlotRoom;
    if Packable(t) {
      assert WireSlot(b, Many(vs)) == TagBytes(tag, WT_STRING) + Slice(Packed(w, vs, |vs|));
      assert Parts(t, w, vs, |vs|) == NumParts(t, w, vs, |vs|) && (AllRoom(t, w, vs, |vs|) <==> NumRooms(t, w, vs, |vs|));
      hide WireSlot; hide Parts; hide AllRoom; hide NumParts; hide NumRooms;
      PackedRead(fields, k, w, vs, state, seen, tail);
    } else {
      assert WireSlot(b, Many(vs)) == Unpacked(tag, w, vs, |vs|);
      hide WireSlot; hide Parts; hide AllRoom; hide AllReadable; hide DecodeFields; hide SchemaOk; hide TypeReads; hide SlotReads;
      UnpackedRead(fields, k, w, vs, |vs|, state, seen, tail);
    }
  }

  lemma PackedRead(fields: seq<Slot>, k: nat, w: Type, vs: seq<Val>, state: seq<SlotVal>, seen: set<nat>, tail: Bytes)
    requires SchemaOk(fields) && k < |fields| == |state| && fields[k].Repeated? && SameNumbers(fields[k].t, w) && SlotOk(fields[k]) && state[k].Many?
    requires vs != [] && AllFit(w, vs) && |TagBytes(fields[k].tag, WT_STRING) + Slice(Packed(w, vs, |vs|))| < TWO32
    ensures var t, was := fields[k].t, state[k].vs;
            DecodeFields(fields, TagBytes(fields[k].tag, WT_STRING) + Slice(Packed(w, vs, |vs|)) + tail, state, seen) ==
            if |was| + |vs| <= fields[k].max && NumRooms(t, w, vs, |vs|) then
              DecodeFields(fields, tail, state[k := Many(was + NumParts(t, w, vs, |vs|))], seen)
            else None
  {
    hide DecodeFields; hide SchemaOk; hide TagBytes; hide TypeOk; hide Delimited; hide DecodePacked; hide Slice; hide Packed; hide AllFit;
    hide NumParts; hide NumRooms;
    var tag, t, max, was := fields[k].tag, fields[k].t, fields[k].max, state[k].vs;
    var head, items, all := TagBytes(tag, WT_STRING), Packed(w, vs, |vs|), was + NumParts(t, w, vs, |vs|);
    SliceLonger(items);
    assert head + Slice(items) + tail == head + (Slice(items) + tail);
    DelimitedRoundTrip(items, tail);
    PackedRoundTrip(t, w, was, vs, |vs|, [], max);
    assert items + [] == items;
    NothingPacked(t, all, max);
    if |was| + |vs| <= max && NumRooms(t, w, vs, |vs|) {
      OneField(fields, k, tag, WT_STRING, Slice(items) + tail, state, seen, Many(all), tail);
    } else {
      NoField(fields, k, tag, WT_STRING, Slice(items) + tail, state, seen);
    }
  }

  ghost function MarkedIf(fields: seq<Slot>, k: nat, b: Slot, sv: SlotVal, seen: set<nat>): set<nat>
    requires k < |fields| && SlotReads(fields[k], b) && SlotFits(b, sv)
  {
    if fields[k].Required? && Written(b, sv).Some? then seen + {k} else seen
  }

  /** The numbers of b are those of the reader's slot k, or unknown. */
  ghost predicate OnlyAt(fields: seq<Slot>, k: nat, b: Slot)
    requires k < |fields|
  {
    Shares(fields[k], b) && forall tag :: HasTag(b, tag) ==> HasTag(fields[k], tag) || SlotOf(fields, tag) == |fields|
  }

  lemma SameTag(a: Slot, b: Slot)
    requires Shares(a, b) && !a.OneOf? && !b.OneOf?
    ensures a.tag == b.tag
  {
  }

  /** The bytes of a field the reader knows turn what it holds into its part. */
  lemma {:induction false} SlotRead(fields: seq<Slot>, k: nat, b: Slot, sv: SlotVal, state: seq<SlotVal>, seen: set<nat>, tail: Bytes)
    requires SchemaOk(fields) && k < |fields| == |state| && SlotOk(fields[k]) && SlotShaped(fields[k], state[k])
    requires OnlyAt(fields, k, b) && SlotReads(fields[k], b) && SlotOk(b) && SlotFits(b, sv) && |WireSlot(b, sv)| < TWO32
    ensures DecodeFields(fields, WireSlot(b, sv) + tail, state, seen) ==
            if SlotRoom(fields[k], state[k], b, sv) then
              DecodeFields(fields, tail, state[k := SlotPart(fields[k], state[k], b, sv)], MarkedIf(fields, k, b, sv, seen))
            else None
    decreases fields[k], 2
  {
    var a := fields[k];
    assert [] + tail == tail && state[k := state[k]] == state;
    if Single(a) {
      SameTag(a, b);
      hide DecodeFields; hide SchemaOk; hide OnlyAt; hide Wire; hide TagBytes; hide Fits; hide TypeOk; hide ValRoom; hide ValPart; hide TypeReads; hide IsZero;
      hide BaseOf;
      var o := Written(b, sv);
      if o.Some? {
        SingleRead(fields, k, b.t, o.value, state, seen, tail);
      }
    } else if a.Repeated? {
      SameTag(a, b);
      hide DecodeFields; hide SchemaOk; hide OnlyAt;
      ArrayRead(fields, k, b, sv, state, seen, tail);
    } else if sv.c.Some? {
      OneOfRead(fields, k, b, sv.c.value, state, seen, tail);
    }
  }

  lemma {:induction false} ArrayRead(fields: seq<Slot>, k: nat, b: Slot, sv: SlotVal, state: seq<SlotVal>, seen: set<nat>, tail: Bytes)
    requires SchemaOk(fields) && k < |fields| == |state| && fields[k].Repeated? && SlotOk(fields[k]) && SlotShaped(fields[k], state[k])
    requires !b.OneOf? && b.tag == fields[k].tag && SlotReads(fields[k], b) && SlotOk(b) && SlotFits(b, sv) && |WireSlot(b, sv)| < TWO32
    ensures DecodeFields(fields, WireSlot(b, sv) + tail, state, seen) ==
            if SlotRoom(fields[k], state[k], b, sv) then DecodeFields(fields, tail, state[k := SlotPart(fields[k], state[k], b, sv)], seen) else None
    decreases fields[k], 1, 1
  {
    hide DecodeFields; hide SchemaOk;
    var a, was := fields[k], state[k].vs;
    if ValuesOf(b, sv) == [] {
      assert WireSlot(b, sv) + tail == tail;
      assert was + [] == was;
      assert SlotPart(a, state[k], b, sv) == state[k] && state[k := state[k]] == state;
    } else if b.Repeated? {
      hide WireSlot; hide SlotPart; hide SlotRoom; hide SlotFits; hide SlotReads; hide SlotOk; hide SlotShaped;
      RepeatedRead(fields, k, b, sv.vs, state, seen, tail);
    } else {
      var v := Written(b, sv).value;
      assert WireSlot(b, sv) == TagBytes(a.tag, WireType(b.t)) + Wire(b.t, v);
      ItemRead(fields, k, b.t, v, state, seen, tail);
      hide WireSlot; hide Wire; hide TagBytes; hide ValRoom; hide ValPart; hide TypeReads; hide IsZero; hide Fits; hide Shaped; hide TypeOk;
      OneValue(a, state[k], b, sv, v);
      hide SlotPart; hide SlotRoom;
    }
  }

  lemma OneValue(a: Slot, was: SlotVal, b: Slot, sv: SlotVal, v: Val)
    requires a.Repeated? && Single(b) && SlotShaped(a, was) && SlotReads(a, b) && SlotFits(b, sv) && Written(b, sv) == Some(v)
    requires Shaped(a.t, ZeroOf(a.t)) && Fits(b.t, v)
    ensures SlotPart(a, was, b, sv) == Many(was.vs + [ValPart(a.t, ZeroOf(a.t), b.t, v)])
    ensures SlotRoom(a, was, b, sv) <==> |was.vs| < a.max && ValRoom(a.t, ZeroOf(a.t), b.t, v)
  {
    hide ValRoom; hide ValPart; hide TypeReads; hide Fits; hide Shaped; hide ZeroOf; hide IsZero;
    var vs := ValuesOf(b, sv);
    assert vs == [v];
    assert vs[0] == v;
  }

  lemma {:induction false} OneOfRead(fields: seq<Slot>, k: nat, b: Slot, c: Choice, state: seq<SlotVal>, seen: set<nat>, tail: Bytes)
    requires SchemaOk(fields) && k < |fields| == |state| && SlotOk(fields[k]) && fields[k].OneOf? && SlotShaped(fields[k], state[k])
    requires OnlyAt(fields, k, b) && SlotReads(fields[k], b) && SlotOk(b) && SlotFits(b, Which(Some(c))) && |WireSlot(b, Which(Some(c)))| < TWO32
    ensures var sv := Which(Some(c));
            DecodeFields(fields, WireSlot(b, sv) + tail, state, seen) ==
            if SlotRoom(fields[k], state[k], b, sv) then DecodeFields(fields, tail, state[k := SlotPart(fields[k], state[k], b, sv)], seen) else None
    decreases fields[k], 1
  {
    var a := fields[k];
    var m := b.members[c.member];
    var j := MemberOf(a.members, m.tag);
    MemberFound(b.members, c.member);
    assert HasTag(b, m.tag) && MemberOk(m);
    assert WireSlot(b, Which(Some(c))) == WireMember(m, c.v);
    if j < |a.members| {
      assert MemberReads(a.members[j], m);
      hide DecodeFields; hide SchemaOk; hide OnlyAt; hide SlotOk; hide MemberOk; hide MemberReads; hide MemberFits; hide WireMember;
      ChoiceRead(fields, k, j, m, c.v, state, seen, tail);
    } else {
      assert SlotOf(fields, m.tag) == |fields|;
      hide DecodeFields; hide SchemaOk; hide OnlyAt; hide SlotOk; hide Wire; hide TagBytes; hide Fits; hide SlotOf;
      SkippedField(fields, m.tag, m.t, c.v, tail, state, seen);
      assert state[k := state[k]] == state;
    }
  }

  // ----- the whole message

  /** What the reader knows after n of the writer's fields. */
  ghost function PartUpTo(fields: seq<Slot>, base: seq<SlotVal>, big: seq<Slot>, m: seq<SlotVal>, n: nat): (r: seq<SlotVal>)
    requires MessageShaped(fields, base) && Reads(fields, big) && MessageFits(big, m)
    ensures |r| == |fields|
  {
    seq(|fields|, i requires 0 <= i < |fields| => if Source(fields[i], big) < n then Part(fields[i], base[i], big, m) else base[i])
  }

  ghost function SeenUpTo(fields: seq<Slot>, big: seq<Slot>, m: seq<SlotVal>, n: nat): set<nat>
    requires Reads(fields, big) && MessageFits(big, m)
  {
    set i: nat | i < |fields| && fields[i].Required? && Source(fields[i], big) < n && Present(fields[i], big, m)
  }

  ghost predicate RoomUpTo(fields: seq<Slot>, base: seq<SlotVal>, big: seq<Slot>, m: seq<SlotVal>, n: nat)
    requires MessageShaped(fields, base) && Reads(fields, big) && MessageFits(big, m)
  {
    forall i :: 0 <= i < |fields| && Source(fields[i], big) < n ==> PartRoom(fields[i], base[i], big, m)
  }

  lemma SourceIs(fields: seq<Slot>, big: seq<Slot>, i: nat, j: nat)
    requires Reads(fields, big) && i < |fields| && j < |big| && Shares(fields[i], big[j])
    ensures Source(fields[i], big) == j
  {
    hide Shares; hide SlotReads;
    var k := Source(fields[i], big);
    assert k <= j;
  }

  lemma NoPartner(fields: seq<Slot>, big: seq<Slot>, j: nat)
    requires Reads(fields, big) && j < |big| && forall i :: 0 <= i < |fields| ==> Source(fields[i], big) != j
    ensures Unknown(fields, big[j])
  {
    hide HasTag; hide Reads;
    forall tag | HasTag(big[j], tag)
      ensures SlotOf(fields, tag) == |fields|
    {
      var i := SlotOf(fields, tag);
      if i < |fields| {
        assert Shares(fields[i], big[j]);
        SourceIs(fields, big, i, j);
      }
    }
  }

  lemma OnePartner(fields: seq<Slot>, big: seq<Slot>, k: nat, j: nat)
    requires Reads(fields, big) && j < |big| && k < |fields| && Source(fields[k], big) == j
    ensures OnlyAt(fields, k, big[j]) && SlotReads(fields[k], big[j])
    ensures forall i :: 0 <= i < |fields| && i != k ==> Source(fields[i], big) != j
  {
    hide HasTag; hide SlotReads;
    assert Shares(fields[k], big[j]);
    forall tag | HasTag(big[j], tag)
      ensures HasTag(fields[k], tag) || SlotOf(fields, tag) == |fields|
    {
      var i := SlotOf(fields, tag);
      if i < |fields| {
        assert Shares(fields[i], big[j]);
      }
    }
  }

  lemma StepUnknown(fields: seq<Slot>, base: seq<SlotVal>, big: seq<Slot>, m: seq<SlotVal>, j: nat)
    requires MessageShaped(fields, base) && Reads(fields, big) && MessageFits(big, m) && j < |big| && forall i :: 0 <= i < |fields| ==> Source(fields[i], big) != j
    ensures PartUpTo(fields, base, big, m, j + 1) == PartUpTo(fields, base, big, m, j)
    ensures SeenUpTo(fields, big, m, j + 1) == SeenUpTo(fields, big, m, j)
    ensures RoomUpTo(fields, base, big, m, j + 1) <==> RoomUpTo(fields, base, big, m, j)
  {
    hide Reads; hide MessageFits; hide Source; hide Part; hide PartRoom; hide Present;
  }

  lemma StepKnown(fields: seq<Slot>, base: seq<SlotVal>, big: seq<Slot>, m: seq<SlotVal>, k: nat, j: nat)
    requires MessageShaped(fields, base) && Reads(fields, big) && MessageFits(big, m) && j < |big| && k < |fields| && Source(fields[k], big) == j
    requires forall i :: 0 <= i < |fields| && i != k ==> Source(fields[i], big) != j
    requires SlotReads(fields[k], big[j]) && SlotFits(big[j], m[j])
    ensures SlotShaped(fields[k], base[k]) && PartUpTo(fields, base, big, m, j)[k] == base[k]
    ensures PartUpTo(fields, base, big, m, j + 1) == PartUpTo(fields, base, big, m, j)[k := SlotPart(fields[k], base[k], big[j], m[j])]
    ensures SeenUpTo(fields, big, m, j + 1) == MarkedIf(fields, k, big[j], m[j], SeenUpTo(fields, big, m, j))
    ensures RoomUpTo(fields, base, big, m, j + 1) <==> RoomUpTo(fields, base, big, m, j) && SlotRoom(fields[k], base[k], big[j], m[j])
  {
    assert SlotReadsAll(fields[k], big) && SlotShaped(fields[k], base[k]);
    hide Reads; hide MessageFits; hide Source; hide SlotPart; hide SlotRoom; hide Written; hide SlotReads; hide SlotFits; hide SlotShaped;
  }

  lemma NextRead(fields: seq<Slot>, base: seq<SlotVal>, seen: set<nat>, big: seq<Slot>, m: seq<SlotVal>, j: nat, tail: Bytes)
    requires SchemaOk(fields) && SchemaOk(big) && MessageShaped(fields, base) && Reads(fields, big) && MessageFits(big, m) && j < |big| && |WireSlot(big[j], m[j])| < TWO32
    requires RoomUpTo(fields, base, big, m, j)
    ensures DecodeFields(fields, WireSlot(big[j], m[j]) + tail, PartUpTo(fields, base, big, m, j), seen + SeenUpTo(fields, big, m, j)) ==
            if RoomUpTo(fields, base, big, m, j + 1) then
              DecodeFields(fields, tail, PartUpTo(fields, base, big, m, j + 1), seen + SeenUpTo(fields, big, m, j + 1))
            else None
    decreases fields, 0, 0
  {
    var state, now := PartUpTo(fields, base, big, m, j), SeenUpTo(fields, big, m, j);
    WrittenSlot(big, m, j);
    hide SchemaOk; hide Reads; hide MessageFits; hide PartUpTo; hide SeenUpTo; hide RoomUpTo; hide DecodeFields; hide WireSlot;
    hide SlotOk; hide SlotFits; hide SlotReads; hide SlotRoom; hide SlotPart; hide OnlyAt; hide Unknown; hide SlotShaped; hide MessageShaped;
    if k: nat :| k < |fields| && Source(fields[k], big) == j {
      OnePartner(fields, big, k, j);
      StepKnown(fields, base, big, m, k, j);
      KnownSlot(fields, k);
      SlotRead(fields, k, big[j], m[j], state, seen + now, tail);
      assert MarkedIf(fields, k, big[j], m[j], seen + now) == seen + MarkedIf(fields, k, big[j], m[j], now);
    } else {
      NoPartner(fields, big, j);
      StepUnknown(fields, base, big, m, j);
      SlotSkipped(fields, big[j], m[j], state, seen + now, tail);
    }
  }

  lemma KnownSlot(fields: seq<Slot>, k: nat)
    requires SchemaOk(fields) && k < |fields|
    ensures SlotOk(fields[k])
  {
  }

  lemma WrittenSlot(big: seq<Slot>, m: seq<SlotVal>, j: nat)
    requires SchemaOk(big) && MessageFits(big, m) && j < |big|
    ensures |m| == |big| && SlotOk(big[j]) && SlotFits(big[j], m[j])
  {
    hide SlotOk; hide SlotFits; hide HasTag;
  }

  lemma RoomShrinks(fields: seq<Slot>, base: seq<SlotVal>, big: seq<Slot>, m: seq<SlotVal>, n: nat)
    requires MessageShaped(fields, base) && Reads(fields, big) && MessageFits(big, m) && RoomUpTo(fields, base, big, m, n + 1)
    ensures RoomUpTo(fields, base, big, m, n)
  {
    hide Reads; hide MessageFits; hide PartRoom; hide Source;
  }

  /** After the bytes of the writer's first n fields, the reader knows its part
      of them, unless it had no room. */
  lemma {:induction false} FirstRead(fields: seq<Slot>, base: seq<SlotVal>, seen: set<nat>, big: seq<Slot>, m: seq<SlotVal>, n: nat, tail: Bytes)
    requires SchemaOk(fields) && SchemaOk(big) && MessageShaped(fields, base) && Reads(fields, big) && MessageFits(big, m)
    requires n <= |big| && |base| == |fields| && |WireFields(big, m, n)| < TWO32
    ensures DecodeFields(fields, WireFields(big, m, n) + tail, base, seen) ==
            if RoomUpTo(fields, base, big, m, n) then DecodeFields(fields, tail, PartUpTo(fields, base, big, m, n), seen + SeenUpTo(fields, big, m, n))
            else None
    decreases fields, n, 1
  {
    hide SchemaOk; hide Reads; hide DecodeFields; hide WireSlot; hide RoomUpTo; hide PartUpTo; hide SeenUpTo; hide MessageShaped;
    if n == 0 {
      assert WireFields(big, m, 0) + tail == tail && seen + {} == seen;
      NothingRead(fields, base, big, m);
    } else {
      WrittenSlot(big, m, n - 1);
      var front, last := WireFields(big, m, n - 1), WireSlot(big[n - 1], m[n - 1]);
      assert WireFields(big, m, n) == front + last;
      hide WireFields; hide MessageFits;
      FirstRead(fields, base, seen, big, m, n - 1, last + tail);
      assert front + last + tail == front + (last + tail);
      if RoomUpTo(fields, base, big, m, n - 1) {
        NextRead(fields, base, seen, big, m, n - 1, tail);
      } else if RoomUpTo(fields, base, big, m, n) {
        RoomShrinks(fields, base, big, m, n - 1);
      }
    }
  }

  lemma NothingRead(fields: seq<Slot>, base: seq<SlotVal>, big: seq<Slot>, m: seq<SlotVal>)
    requires MessageShaped(fields, base) && Reads(fields, big) && MessageFits(big, m)
    ensures PartUpTo(fields, base, big, m, 0) == base && SeenUpTo(fields, big, m, 0) == {} && RoomUpTo(fields, base, big, m, 0)
  {
    hide Reads; hide MessageFits; hide Part; hide SlotShaped;
  }

  /** The required fields of the reader that are written. */
  ghost function Presence(fields: seq<Slot>, big: seq<Slot>, m: seq<SlotVal>): set<nat>
    requires Reads(fields, big) && MessageFits(big, m)
  {
    set i: nat | i < |fields| && fields[i].Required? && Present(fields[i], big, m)
  }

  lemma EverythingRead(fields: seq<Slot>, base: seq<SlotVal>, big: seq<Slot>, m: seq<SlotVal>)
    requires MessageShaped(fields, base) && Reads(fields, big) && MessageFits(big, m)
    ensures PartUpTo(fields, base, big, m, |big|) == MessagePart(fields, base, big, m)
    ensures RoomUpTo(fields, base, big, m, |big|) <==> MessageRoom(fields, base, big, m)
    ensures SeenUpTo(fields, big, m, |big|) == Presence(fields, big, m)
  {
    assert forall i :: 0 <= i < |fields| ==> SlotReadsAll(fields[i], big);
    hide Reads; hide MessageFits; hide SlotPart; hide SlotRoom; hide Written; hide SlotReadsAll; hide SlotShaped;
  }

  lemma PresenceMeans(fields: seq<Slot>, big: seq<Slot>, m: seq<SlotVal>)
    requires Reads(fields, big) && MessageFits(big, m)
    ensures AllSeen(fields, Presence(fields, big, m)) <==> AllPresent(fields, big, m)
  {
    assert forall i :: 0 <= i < |fields| ==> SlotReadsAll(fields[i], big);
    hide Reads; hide MessageFits; hide RequiredBefore; hide SlotReadsAll; hide Present;
  }

  lemma ShapedLength(fields: seq<Slot>, base: seq<SlotVal>)
    requires MessageShaped(fields, base)
    ensures |base| == |fields|
  {
  }

  /** A whole message, on top of what the reader holds and before more. */
  lemma {:induction false} MessageRead(fields: seq<Slot>, base: seq<SlotVal>, seen: set<nat>, big: seq<Slot>, m: seq<SlotVal>, tail: Bytes)
    requires SchemaOk(fields) && SchemaOk(big) && MessageShaped(fields, base) && Reads(fields, big) && MessageFits(big, m)
    requires |WireFields(big, m, |big|)| < TWO32
    ensures |base| == |fields|
    ensures DecodeFields(fields, WireFields(big, m, |big|) + tail, base, seen) ==
            if MessageRoom(fields, base, big, m) then DecodeFields(fields, tail, MessagePart(fields, base, big, m), seen + Presence(fields, big, m))
            else None
    decreases fields, |big| + 1, 0
  {
    ShapedLength(fields, base);
    hide SchemaOk; hide MessageFits; hide Reads; hide PartUpTo; hide SeenUpTo; hide RoomUpTo; hide MessageRoom; hide MessagePart; hide WireFields;
    hide MessageShaped; hide Presence; hide DecodeFields;
    FirstRead(fields, base, seen, big, m, |big|, tail);
    EverythingRead(fields, base, big, m);
  }

  lemma {:induction false} FieldsRead(fields: seq<Slot>, base: seq<SlotVal>, big: seq<Slot>, m: seq<SlotVal>)
    requires SchemaOk(fields) && SchemaOk(big) && MessageShaped(fields, base) && Reads(fields, big) && MessageFits(big, m)
    requires |base| == |fields| && |WireFields(big, m, |big|)| < TWO32
    ensures DecodeFields(fields, WireFields(big, m, |big|), base, {}) ==
            if MessageRoom(fields, base, big, m) && AllPresent(fields, big, m) then Some(MessagePart(fields, base, big, m)) else None
    decreases fields, |big| + 1, 1
  {
    hide SchemaOk; hide MessageFits; hide Reads; hide MessageRoom; hide MessagePart; hide WireFields; hide MessageShaped; hide Presence; hide AllSeen;
    hide AllPresent;
    MessageRead(fields, base, {}, big, m, []);
    assert WireFields(big, m, |big|) + [] == WireFields(big, m, |big|);
    assert {} + Presence(fields, big, m) == Presence(fields, big, m);
    PresenceMeans(fields, big, m);
  }

  /** Reader and writer need not have the same schema.  Where their fields share
      a number they agree; then decoding gives exactly the reader's part of the
      message, with defaults for what was not written, and it is refused exactly
      when that part does not fit or a required field is missing.  Nothing of
      the fields the reader does not know matters. */
  lemma SchemasEvolve(fields: seq<Slot>, big: seq<Slot>, m: seq<SlotVal>)
    requires SchemaOk(fields) && SchemaOk(big) && Reads(fields, big) && MessageFits(big, m) && |WireFields(big, m, |big|)| < TWO32
    ensures MessageShaped(fields, Defaults(fields))
    ensures Decode(fields, WireFields(big, m, |big|)) ==
            if MessageRoom(fields, Defaults(fields), big, m) && AllPresent(fields, big, m) then Some(MessagePart(fields, Defaults(fields), big, m)) else None
  {
    hide SchemaOk; hide MessageFits; hide Reads; hide MessageRoom; hide MessagePart; hide WireFields; hide MessageShaped; hide AllPresent; hide DecodeFields;
    DefaultsShaped(fields);
    FieldsRead(fields, Defaults(fields), big, m);
  }

  // ----- several messages one after the other

  lemma {:induction false} PartShaped(slot: Slot, was: SlotVal, big: seq<Slot>, m: seq<SlotVal>)
    requires SlotShaped(slot, was) && SlotReadsAll(slot, big) && MessageFits(big, m)
    ensures SlotShaped(slot, Part(slot, was, big, m))
    decreases slot, 1
  {
    var j := Source(slot, big);
    if j < |big| && Single(slot) && Written(big[j], m[j]).Some? {
      ValShaped(slot.t, BaseOf(slot, was), big[j].t, Written(big[j], m[j]).value);
      hide ValPart; hide TypeReads; hide Fits; hide Shaped; hide IsZero; hide BaseOf;
    }
  }

  lemma {:induction false} ValShaped(t: Type, base: Val, w: Type, v: Val)
    requires Shaped(t, base) && TypeReads(t, w) && Fits(w, v)
    ensures Shaped(t, ValPart(t, base, w, v))
    decreases t
  {
    if t.SubT? {
      SubFits(w, v);
      MessagePartShaped(t.fields, base.slots, w.fields, v.slots);
    }
  }

  lemma {:induction false} MessagePartShaped(fields: seq<Slot>, base: seq<SlotVal>, big: seq<Slot>, m: seq<SlotVal>)
    requires MessageShaped(fields, base) && Reads(fields, big) && MessageFits(big, m)
    ensures MessageShaped(fields, MessagePart(fields, base, big, m))
    decreases fields
  {
    forall i | 0 <= i < |fields|
      ensures SlotShaped(fields[i], MessagePart(fields, base, big, m)[i])
    {
      PartShaped(fields[i], base[i], big, m);
    }
  }

  datatype Sent = Sent(schema: seq<Slot>, slots: seq<SlotVal>)

  ghost predicate Understood(fields: seq<Slot>, x: Sent) {
    SchemaOk(x.schema) && Reads(fields, x.schema) && MessageFits(x.schema, x.slots) && |WireFields(x.schema, x.slots, |x.schema|)| < TWO32
  }

  ghost predicate AllUnderstood(fields: seq<Slot>, sent: seq<Sent>) {
    forall i :: 0 <= i < |sent| ==> Understood(fields, sent[i])
  }

  ghost function WireAll(fields: seq<Slot>, sent: seq<Sent>): Bytes
    requires AllUnderstood(fields, sent)
  {
    if sent == [] then [] else WireFields(sent[0].schema, sent[0].slots, |sent[0].schema|) + WireAll(fields, sent[1..])
  }

  /** Each message on top of those before it. */
  ghost function Merged(fields: seq<Slot>, base: seq<SlotVal>, sent: seq<Sent>): Option<seq<SlotVal>>
    requires MessageShaped(fields, base) && AllUnderstood(fields, sent)
    decreases |sent|
  {
    if sent == [] then Some(base)
    else
      var x := sent[0];
      assert Understood(fields, x);
      if !MessageRoom(fields, base, x.schema, x.slots) then None
      else
        MessagePartShaped(fields, base, x.schema, x.slots);
        Merged(fields, MessagePart(fields, base, x.schema, x.slots), sent[1..])
  }

  ghost predicate PresentIn(fields: seq<Slot>, i: nat, x: Sent)
    requires i < |fields| && fields[i].Required?
  {
    Understood(fields, x) && Present(fields[i], x.schema, x.slots)
  }

  /** The required fields that any of them has. */
  ghost predicate Somewhere(fields: seq<Slot>, sent: seq<Sent>, i: nat)
    requires AllUnderstood(fields, sent) && i < |fields| && fields[i].Required?
  {
    exists k :: 0 <= k < |sent| && PresentIn(fields, i, sent[k])
  }

  ghost predicate AllSomewhere(fields: seq<Slot>, seen: set<nat>, sent: seq<Sent>)
    requires AllUnderstood(fields, sent)
  {
    forall i :: 0 <= i < |fields| && fields[i].Required? && RequiredBefore(fields, i) < 64 ==> i in seen || Somewhere(fields, sent, i)
  }

  lemma SomewhereNext(fields: seq<Slot>, seen: set<nat>, sent: seq<Sent>)
    requires AllUnderstood(fields, sent) && sent != [] && Understood(fields, sent[0])
    ensures AllUnderstood(fields, sent[1..])
    ensures AllSomewhere(fields, seen, sent) <==> AllSomewhere(fields, seen + Presence(fields, sent[0].schema, sent[0].slots), sent[1..])
  {
    var rest, now := sent[1..], Presence(fields, sent[0].schema, sent[0].slots);
    assert forall k :: 0 <= k < |rest| ==> rest[k] == sent[k + 1];
    assert AllUnderstood(fields, rest);
    hide Understood; hide RequiredBefore;
    forall i: nat | i < |fields| && fields[i].Required?
      ensures Somewhere(fields, sent, i) <==> i in now || Somewhere(fields, rest, i)
    {
      OneSomewhere(fields, sent, i);
    }
    hide Somewhere; hide Presence;
  }

  lemma OneSomewhere(fields: seq<Slot>, sent: seq<Sent>, i: nat)
    requires AllUnderstood(fields, sent) && sent != [] && Understood(fields, sent[0]) && AllUnderstood(fields, sent[1..])
    requires i < |fields| && fields[i].Required?
    ensures Somewhere(fields, sent, i) <==> i in Presence(fields, sent[0].schema, sent[0].slots) || Somewhere(fields, sent[1..], i)
  {
    hide *;
    InPresence(fields, i, sent[0]);
    SomewhereIs(fields, sent, i);
    SomewhereIs(fields, sent[1..], i);
    FirstOrLater(fields, sent, i);
  }

  lemma InPresence(fields: seq<Slot>, i: nat, x: Sent)
    requires Understood(fields, x) && i < |fields| && fields[i].Required?
    ensures i in Presence(fields, x.schema, x.slots) <==> PresentIn(fields, i, x)
  {
    hide SchemaOk; hide Reads; hide MessageFits; hide WireFields; hide Present;
  }

  lemma SomewhereIs(fields: seq<Slot>, sent: seq<Sent>, i: nat)
    requires AllUnderstood(fields, sent) && i < |fields| && fields[i].Required?
    ensures Somewhere(fields, sent, i) <==> exists k :: 0 <= k < |sent| && PresentIn(fields, i, sent[k])
  {
    hide PresentIn; hide AllUnderstood;
  }

  lemma FirstOrLater(fields: seq<Slot>, sent: seq<Sent>, i: nat)
    requires sent != [] && i < |fields| && fields[i].Required?
    ensures (exists k :: 0 <= k < |sent| && PresentIn(fields, i, sent[k])) <==>
            PresentIn(fields, i, sent[0]) || exists k :: 0 <= k < |sent[1..]| && PresentIn(fields, i, sent[1..][k])
  {
    hide PresentIn;
    var rest := sent[1..];
    if k :| 0 <= k < |sent| && PresentIn(fields, i, sent[k]) && k > 0 {
      assert rest[k - 1] == sent[k];
    }
    if k :| 0 <= k < |rest| && PresentIn(fields, i, rest[k]) {
      assert sent[k + 1] == rest[k];
    }
  }

  lemma {:induction false} MergesOnto(fields: seq<Slot>, base: seq<SlotVal>, seen: set<nat>, sent: seq<Sent>)
    requires SchemaOk(fields) && MessageShaped(fields, base) && AllUnderstood(fields, sent)
    ensures |base| == |fields|
    ensures DecodeFields(fields, WireAll(fields, sent), base, seen) == if AllSomewhere(fields, seen, sent) then Merged(fields, base, sent) else None
    decreases |sent|
  {
    ShapedLength(fields, base);
    hide SchemaOk; hide MessageShaped; hide MessageRoom; hide MessagePart; hide WireFields; hide Presence; hide Reads; hide MessageFits; hide AllSomewhere;
    if sent == [] {
      NoneSomewhere(fields, seen);
    } else {
      var x, rest := sent[0], sent[1..];
      assert Understood(fields, x);
      SomewhereNext(fields, seen, sent);
      hide DecodeFields; hide AllUnderstood;
      MessageRead(fields, base, seen, x.schema, x.slots, WireAll(fields, rest));
      MessagePartShaped(fields, base, x.schema, x.slots);
      if MessageRoom(fields, base, x.schema, x.slots) {
        MergesOnto(fields, MessagePart(fields, base, x.schema, x.slots), seen + Presence(fields, x.schema, x.slots), rest);
      }
    }
  }

  lemma NoneSomewhere(fields: seq<Slot>, seen: set<nat>)
    ensures AllSomewhere(fields, seen, []) <==> AllSeen(fields, seen)
  {
    hide RequiredBefore;
  }

  /** Messages written one after the other, by whatever schemas the reader
      understands, decode as one: single fields as last written, submessages
      merged, arrays joined, required fields found in any of them. */
  lemma MessagesMerge(fields: seq<Slot>, sent: seq<Sent>)
    requires SchemaOk(fields) && AllUnderstood(fields, sent)
    ensures MessageShaped(fields, Defaults(fields))
    ensures Decode(fields, WireAll(fields, sent)) == if AllSomewhere(fields, {}, sent) then Merged(fields, Defaults(fields), sent) else None
  {
    hide SchemaOk; hide MessageShaped; hide Merged; hide AllSomewhere; hide DecodeFields; hide AllUnderstood;
    DefaultsShaped(fields);
    MergesOnto(fields, Defaults(fields), {}, sent);
  }

  /** A zero where a tag is due ends the message, whatever follows. */
  lemma ZeroEnds(fields: seq<Slot>, big: seq<Slot>, m: seq<SlotVal>, junk: Bytes)
    requires SchemaOk(fields) && SchemaOk(big) && Reads(fields, big) && MessageFits(big, m) && |WireFields(big, m, |big|)| < TWO32
    ensures Decode(fields, WireFields(big, m, |big|) + ([0] + junk)) == Decode(fields, WireFields(big, m, |big|))
  {
    hide SchemaOk; hide MessageFits; hide Reads; hide MessageRoom; hide MessagePart; hide WireFields; hide MessageShaped; hide Presence;
    DefaultsShaped(fields);
    var base := Defaults(fields);
    MessageRead(fields, base, {}, big, m, [0] + junk);
    MessageRead(fields, base, {}, big, m, []);
    assert WireFields(big, m, |big|) + [] == WireFields(big, m, |big|);
    if MessageRoom(fields, base, big, m) {
      ZeroTag(fields, MessagePart(fields, base, big, m), Presence(fields, big, m), junk);
      assert {} + Presence(fields, big, m) == Presence(fields, big, m);
    }
  }

  lemma ZeroTag(fields: seq<Slot>, slots: seq<SlotVal>, seen: set<nat>, junk: Bytes)
    requires |slots| == |fields|
    ensures DecodeFields(fields, [0] + junk, slots, seen) == DecodeFields(fields, [], slots, seen)
  {
    hide AllSeen;
    Varint32RoundTrip(0, junk);
    assert Varint(0) == [0];
  }
}
