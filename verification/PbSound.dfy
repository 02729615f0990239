/** Decoding arbitrary bytes (nanopb): whatever comes in, what is decoded fits
    the message struct, and unknown fields are skipped as the encoding rules
    say. */
module PbSound {
  import opened Keys
  import opened Coding
  import opened Digits
  import opened Tokens
  import opened PbWire
  import opened PbDecode
  import opened PbItems
  import opened PbFormat

  // ----- schemas whose numbers have one of the four widths

  ghost predicate Sized(t: Type)
    decreases t
  {
    match t
    case VarintT(w) => WidthOk(w)
    case UVarintT(w) => WidthOk(w)
    case SVarintT(w) => WidthOk(w)
    case SubT(fields) => AllSized(fields)
    case _ => true
  }

  ghost predicate SlotSized(slot: Slot)
    decreases slot
  {
    match slot
    case OneOf(members) => forall i :: 0 <= i < |members| ==> MemberSized(members[i])
    case _ => Sized(slot.t)
  }

  ghost predicate MemberSized(m: Member)
    decreases m
  {
    Sized(m.t)
  }

  ghost predicate AllSized(fields: seq<Slot>)
    decreases fields
  {
    forall i :: 0 <= i < |fields| ==> SlotSized(fields[i])
  }

  lemma {:induction false} ZeroFits(t: Type)
    requires Sized(t)
    ensures Fits(t, ZeroOf(t))
    decreases t
  {
    if t.SubT? {
      DefaultsFit(t.fields);
    }
  }

  lemma {:induction false} DefaultFits(slot: Slot)
    requires SlotSized(slot)
    ensures SlotFits(slot, DefaultOf(slot))
    decreases slot
  {
    if slot.Required? || slot.Implicit? {
      ZeroFits(slot.t);
    }
  }

  lemma {:induction false} DefaultsFit(fields: seq<Slot>)
    requires AllSized(fields)
    ensures MessageFits(fields, Defaults(fields))
    decreases fields
  {
    forall i | 0 <= i < |fields|
      ensures SlotFits(fields[i], DefaultOf(fields[i]))
    {
      DefaultFits(fields[i]);
    }
  }

  // ----- every step keeps the message within its struct

  lemma NumDecoded(t: Type, s: Bytes)
    requires Packable(t)
    ensures DecodeNum(t, s).Some? ==> Fits(t, DecodeNum(t, s).value.v)
  {
    hide Varint64At; hide GetFixed32; hide GetFixed64;
    if |s| >= 4 {
      FixedBound(s);
    }
  }

  lemma FixedBound(s: Bytes)
    requires |s| >= 4
    ensures 0 <= GetFixed32(s) < TWO32 && (|s| >= 8 ==> 0 <= GetFixed64(s) < TWO64)
  {
  }

  lemma DataDecoded(t: Type, s: Bytes)
    requires t.BytesT? || t.StringT? || t.FixedBytesT?
    ensures DecodeData(t, s).Some? ==> Fits(t, DecodeData(t, s).value.v)
  {
    hide Delimited;
  }

  lemma {:induction false} ValDecoded(t: Type, s: Bytes, base: Val)
    requires Sized(t) && Fits(t, base)
    ensures DecodeVal(t, s, base).Some? ==> Fits(t, DecodeVal(t, s, base).value.v)
    decreases t, 0
  {
    if Packable(t) {
      NumDecoded(t, s);
    } else if !t.SubT? {
      DataDecoded(t, s);
    } else if Delimited(s).Some? {
      var c := Delimited(s).value;
      assert MessageFits(t.fields, base.slots);
      FieldsDecoded(t.fields, c.data, base.slots, {});
      hide DecodeFields; hide Delimited;
    }
  }

  lemma {:induction false} PackedDecoded(t: Type, s: Bytes, vs: seq<Val>, max: nat)
    requires Packable(t) && AllFit(t, vs) && |vs| <= max
    ensures DecodePacked(t, s, vs, max).Some? ==> AllFit(t, DecodePacked(t, s, vs, max).value) && |DecodePacked(t, s, vs, max).value| <= max
    decreases |s|
  {
    if s != [] && |vs| < max && DecodeVal(t, s, ZeroOf(t)).Some? {
      NumDecoded(t, s);
      hide DecodeNum; hide Fits;
      var step := DecodeVal(t, s, ZeroOf(t)).value;
      PackedDecoded(t, step.rest, vs + [step.v], max);
    }
  }

  lemma {:induction false} SlotDecoded(slot: Slot, j: nat, wire: nat, s: Bytes, sv: SlotVal)
    requires SlotSized(slot) && SlotFits(slot, sv) && (slot.OneOf? ==> j < |slot.members|)
    ensures var r := DecodeSlot(slot, j, wire, s, sv); r.Some? ==> SlotFits(slot, r.value.sv)
    decreases slot
  {
    match slot
    case Required(_, t) =>
      ValDecoded(t, s, sv.v);
      hide DecodeVal; hide Fits;
    case Implicit(_, t) =>
      ValDecoded(t, s, sv.v);
      hide DecodeVal; hide Fits;
    case Optional(_, t) =>
      ZeroFits(t);
      ValDecoded(t, s, if sv.o.Some? then sv.o.value else ZeroOf(t));
      hide DecodeVal; hide Fits;
    case Repeated(_, t, max) =>
      ItemDecoded(t, max, wire, s, sv.vs);
      hide DecodeItem; hide Fits;
    case OneOf(members) =>
      assert MemberSized(members[j]);
      MemberDecoded(members[j], j, s);
      hide DecodeMember; hide Fits;
  }

  lemma {:induction false} ItemDecoded(t: Type, max: nat, wire: nat, s: Bytes, vs: seq<Val>)
    requires Sized(t) && AllFit(t, vs) && |vs| <= max
    ensures var r := DecodeItem(t, max, wire, s, vs);
            r.Some? ==> r.value.sv.Many? && AllFit(t, r.value.sv.vs) && |r.value.sv.vs| <= max
    decreases t, 1
  {
    if wire == WT_STRING && Packable(t) {
      if Delimited(s).Some? {
        PackedDecoded(t, Delimited(s).value.data, vs, max);
        hide DecodePacked; hide Delimited;
      }
    } else {
      ZeroFits(t);
      ValDecoded(t, s, ZeroOf(t));
      hide DecodeVal; hide Fits;
    }
  }

  lemma {:induction false} MemberDecoded(m: Member, j: nat, s: Bytes)
    requires MemberSized(m)
    ensures var r := DecodeMember(m, j, s);
            r.Some? ==> r.value.sv.Which? && r.value.sv.c.Some? && r.value.sv.c.value.member == j && MemberFits(m, r.value.sv.c.value.v)
    decreases m
  {
    ZeroFits(m.t);
    ValDecoded(m.t, s, ZeroOf(m.t));
    hide DecodeVal; hide Fits;
  }

  lemma {:induction false} FieldsDecoded(fields: seq<Slot>, s: Bytes, slots: seq<SlotVal>, seen: set<nat>)
    requires AllSized(fields) && MessageFits(fields, slots)
    ensures |slots| == |fields|
    ensures var r := DecodeFields(fields, s, slots, seen); r.Some? ==> MessageFits(fields, r.value)
    decreases fields, |s|
  {
    hide Varint32At; hide SlotOf; hide Skip; hide MemberOf; hide AllSeen;
    if s != [] && Varint32At(s).Some? && Varint32At(s).value.value != 0 {
      var p := Varint32At(s).value;
      var tag, wire, rest := p.value / 8, p.value % 8, s[p.used..];
      FoundAt(fields, tag, s);
      var i := SlotOf(fields, tag);
      if i < |fields| {
        var j := if fields[i].OneOf? then MemberOf(fields[i].members, tag) else 0;
        var r := DecodeSlot(fields[i], j, wire, rest, slots[i]);
        assert SlotSized(fields[i]) && SlotFits(fields[i], slots[i]);
        SlotDecoded(fields[i], j, wire, rest, slots[i]);
        hide SlotSized;
        if r.Some? {
          Replaced(fields, slots, i, r.value.sv);
          hide MessageFits; hide DecodeSlot;
          FieldsDecoded(fields, r.value.rest, slots[i := r.value.sv], if fields[i].Required? then seen + {i} else seen);
        }
      } else if !(fields == [] && tag == 0) && Skip(wire, rest).Some? {
        SkipShorter(wire, rest);
        hide MessageFits;
        FieldsDecoded(fields, Skip(wire, rest).value, slots, seen);
      }
    }
  }

  lemma FoundAt(fields: seq<Slot>, tag: nat, s: Bytes)
    ensures SlotOf(fields, tag) <= |fields|
    ensures var i := SlotOf(fields, tag); i < |fields| && fields[i].OneOf? ==> MemberOf(fields[i].members, tag) < |fields[i].members|
    ensures Varint32At(s).Some? ==> 1 <= Varint32At(s).value.used <= |s|
  {
  }

  lemma SkipShorter(wire: nat, s: Bytes)
    ensures Skip(wire, s).Some? ==> |Skip(wire, s).value| <= |s|
  {
  }

  lemma Replaced(fields: seq<Slot>, slots: seq<SlotVal>, i: nat, sv: SlotVal)
    requires MessageFits(fields, slots) && i < |fields| == |slots| && SlotFits(fields[i], sv)
    ensures MessageFits(fields, slots[i := sv])
  {
    hide SlotFits;
  }

  /** Whatever the bytes, a message that is decoded at all fits its struct:
      numbers their width, arrays and strings their size, at every depth. */
  lemma DecodedFits(fields: seq<Slot>, s: Bytes)
    requires AllSized(fields)
    ensures Decode(fields, s).Some? ==> MessageFits(fields, Decode(fields, s).value)
  {
    hide DecodeFields; hide MessageFits;
    DefaultsFit(fields);
    FieldsDecoded(fields, s, Defaults(fields), {});
  }

  // ----- skipping

  lemma {:induction false} SkipVarintIs(s: Bytes)
    ensures SkipVarint(s) == if Base128(s).None? then None else Some(Base128(s).value.rest)
  {
    if s != [] && s[0] >= 128 {
      SkipVarintIs(s[1..]);
    }
  }

  lemma {:induction false} NoVarint(s: Bytes, scale: nat, result: nat)
    requires Base128(s).None?
    ensures Varint32From(s, scale, result).None?
    decreases |s|
  {
    if s != [] {
      var low: nat := s[0] % 128;
      var sum := if scale >= BIT35 then result else Plus(result, low, scale) % TWO32;
      hide Plus;
      NoVarint(s[1..], 128 * scale, sum);
    }
  }

  /** The length in front of a chunk takes at most four bytes. */
  ghost predicate ShortLength(s: Bytes) {
    Base128(s).Some? ==> |s| - |Base128(s).value.rest| <= 4
  }

  ghost predicate Small(scale: nat, left: nat) {
    (left == 4 && scale == 1) || (left == 3 && scale == 0x80) || (left == 2 && scale == 0x4000) || (left == 1 && scale == 0x20_0000)
  }

  lemma {:induction false} SmallVarint(s: Bytes, left: nat, scale: nat, result: nat)
    requires Small(scale, left) && result < scale && Base128(s).Some? && |s| - |Base128(s).value.rest| <= left
    ensures var t := Base128(s).value;
            Varint32From(s, scale, result) == Some(Parsed(Plus(result, t.value, scale), |s| - |t.rest|))
    decreases |s|
  {
    hide Plus; hide Varint32From; hide Small; hide Scale;
    var low: nat := if s[0] >= 128 then s[0] - 128 else s[0];
    SmallStep(scale, left, result, low);
    if s[0] >= 128 {
      var t := Base128(s[1..]).value;
      Shorter(s[1..]);
      SmallVarint(s[1..], left - 1, 128 * scale, Plus(result, low, scale));
      Rescale(result, low, t.value, scale);
      MoreBytes(s, scale, result);
    } else {
      LastByte(s, scale, result);
    }
  }

  lemma SmallStep(scale: nat, left: nat, result: nat, low: nat)
    requires Small(scale, left) && result < scale && low < 128
    ensures Scale(scale) && Plus(result, low, scale) < 128 * scale && Plus(result, low, scale) < TWO32
    ensures left > 1 ==> Small(128 * scale, left - 1)
  {
  }

  lemma Rescale(result: nat, low: nat, v: nat, scale: nat)
    ensures Plus(Plus(result, low, scale), v, 128 * scale) == Plus(result, low + 128 * v, scale)
  {
    assert v * (128 * scale) == (128 * v) * scale;
    assert (low + 128 * v) * scale == low * scale + (128 * v) * scale;
  }

  /** On every input a number is decoded from exactly the payload the encoding
      rules take for its type, and to its value there, cut to 64 bits. */
  lemma NumIsTake(t: Type, s: Bytes)
    requires Packable(t) && DecodeNum(t, s).Some?
    ensures var p := TakePayload(if t.Fixed32T? then 5 else if t.Fixed64T? then 1 else 0, s);
            var v := DecodeNum(t, s).value;
            && p.Some? && v.rest == p.value.rest && v.v.Num?
            && match t
               case Fixed32T => p.value.value.FourBytes? && 0 <= v.v.n && IsFixed(p.value.value.bytes, v.v.n, 4)
               case Fixed64T => p.value.value.EightBytes? && 0 <= v.v.n && IsFixed(p.value.value.bytes, v.v.n, 8)
               case UVarintT(_) => p.value.value.Number? && v.v.n == p.value.value.n % TWO64
               case SVarintT(_) => p.value.value.Number? && Numbered(v.v.n, p.value.value.n % TWO64)
               case VarintT(width) =>
                 p.value.value.Number? && v.v.n == if width == 64 then ToSigned(p.value.value.n % TWO64, TWO64) else Wrap32(p.value.value.n % TWO64)
  {
    hide VarintAt; hide Base128; hide GetFixed32; hide GetFixed64; hide IsFixed; hide Wrap32; hide TakeNumber;
    if t.Fixed32T? {
      FixedBound(s);
      Fixed32Means(s, GetFixed32(s));
    } else if t.Fixed64T? {
      FixedBound(s);
      Fixed64Means(s, GetFixed64(s));
    } else {
      VarintAtIs(s, 10);
      var b := Base128(s).value;
      RestIs(s);
      Wrapped(b.value % TWO64);
    }
  }

  lemma Wrapped(u: nat)
    requires u < TWO64
    ensures ToSigned(u % TWO32, TWO32) == Wrap32(u)
  {
    var q, low := u / TWO32, u % TWO32;
    assert u == q * TWO32 + low;
    if low < 0x8000_0000 {
      assert u + 0x8000_0000 == q * 0x1_0000_0000 + (low + 0x8000_0000);
    } else {
      assert u + 0x8000_0000 == (q + 1) * 0x1_0000_0000 + (low - 0x8000_0000);
    }
  }

  /** On every input an unknown field ends where the encoding rules say, and one
      of a wire type they do not have is refused. */
  lemma SkipIsTake(wire: nat, s: Bytes)
    requires wire == 2 ==> ShortLength(s)
    ensures Skip(wire, s) == if TakePayload(wire, s).None? then None else Some(TakePayload(wire, s).value.rest)
  {
    hide Base128; hide SkipVarint; hide Varint32From;
    if wire == 0 {
      SkipVarintIs(s);
    } else if wire == 2 {
      if Base128(s).None? {
        NoVarint(s, 1, 0);
      } else {
        SmallVarint(s, 4, 1, 0);
        RestIs(s);
      }
    }
  }

  // ----- numbers that do not fit

  /** Groups of seven bits, each all zeros or all ones, and a one on top. */
  predicate Extends(v: nat, groups: nat) {
    if groups == 0 then v == 1 else (v % 128 == 0 || v % 128 == 127) && Extends(v / 128, groups - 1)
  }

  lemma {:induction false} NothingExtends(groups: nat)
    ensures !Extends(0, groups)
  {
    if groups > 0 {
      NothingExtends(groups - 1);
    }
  }

  /** The weight of the byte before the last `groups` ones of a 64-bit number. */
  function HighScale(groups: nat): nat
    requires groups <= 4
  {
    if groups == 4 then BIT35 else if groups == 3 then 0x400_0000_0000 else if groups == 2 then 0x2_0000_0000_0000
    else if groups == 1 then 0x100_0000_0000_0000 else BIT63
  }

  function Most(groups: nat): nat
    requires groups <= 4
  {
    if groups == 4 then 0x2000_0000 else if groups == 3 then 0x40_0000 else if groups == 2 then 0x8000 else if groups == 1 then 0x100 else 2
  }

  lemma ScaleUp(groups: nat)
    requires 0 < groups <= 4
    ensures 128 * HighScale(groups) == HighScale(groups - 1) && HighScale(groups) < BIT63 && Most(groups) == 128 * Most(groups - 1)
  {
  }

  lemma HighByte(s: Bytes, groups: nat, result: nat)
    requires s != [] && groups <= 4
    ensures var low, mark := s[0] % 128, if groups > 0 then 0xFF else 0x01;
            Varint32From(s, HighScale(groups), result) ==
            if low != 0 && (result < BIT31 || s[0] != mark) then None
            else if s[0] < 128 then Some(Parsed(result, 1))
            else
              var r := Varint32From(s[1..], 128 * HighScale(groups), result);
              if r.None? then None else Some(Parsed(r.value.value, 1 + r.value.used))
  {
    assert HighScale(groups) >= BIT35 && HighScale(groups) != BIT28 && (HighScale(groups) < BIT63 <==> groups > 0);
    hide HighScale;
  }

  lemma {:induction false} HighBytes(v: nat, groups: nat, result: nat, rest: Bytes)
    requires groups <= 4 && 1 <= v < Most(groups)
    ensures Varint32From(Varint(v) + rest, HighScale(groups), result) ==
            if result >= BIT31 && Extends(v, groups) then Some(Parsed(result, |Varint(v)|)) else None
    decreases v
  {
    hide Varint32From; hide HighScale; hide Most;
    var s := Varint(v) + rest;
    HighByte(s, groups, result);
    if groups == 0 {
      assert v == 1 by { LastMost(v); }
    } else {
      ScaleUp(groups);
      if v < 128 {
        NothingExtends(groups - 1);
      } else {
        var w := v / 128;
        assert Varint(v) == [128 + v % 128] + Varint(w);
        assert s[1..] == Varint(w) + rest && s[0] == 128 + v % 128;
        hide Varint;
        HighBytes(w, groups - 1, result, rest);
      }
    }
  }

  lemma LastMost(v: nat)
    requires v < Most(0)
    ensures v < 2
  {
  }

  /** What the 32-bit decoder makes of a number. */
  function Cut32(n: nat, used: nat): Option<Parsed> {
    if n < 0x1_0000_0000 then Some(Parsed(n, used))
    else if n % 0x1_0000_0000 >= 0x8000_0000 && Extends(n / 0x8_0000_0000, 4) then Some(Parsed(n % 0x1_0000_0000, used))
    else None
  }

  lemma FifthByte(v: nat, result: nat, rest: Bytes)
    requires result < BIT28 && v < 0x10_0000_0000
    ensures Varint32From(Varint(v) + rest, BIT28, result) == Cut32(result + v * BIT28, |Varint(v)|)
  {
    hide Varint32From; hide Extends; hide Plus; hide Scale;
    var s := Varint(v) + rest;
    if v < 16 {
      FifthFits(v, result);
      LastByte(s, BIT28, result);
    } else if v < 128 {
      FifthLast(s, result);
      TooSmall(v, result);
    } else {
      var w, r := v / 128, v % 128;
      assert Varint(v) == [128 + r] + Varint(w);
      assert s[1..] == Varint(w) + rest && s[0] == 128 + r;
      hide Varint;
      FifthMore(s, result);
      var low := (result + r * BIT28) % TWO32;
      HighBytes(w, 4, low, rest);
      FifthParts(v, w, r, result);
    }
  }

  lemma FifthFits(v: nat, result: nat)
    requires result < BIT28 && v < 16
    ensures Plus(result, v, BIT28) < TWO32 && Scale(BIT28) && Plus(result, v, BIT28) == result + v * BIT28
  {
  }

  lemma FifthLast(s: Bytes, result: nat)
    requires s != [] && 16 <= s[0] < 128
    ensures Varint32From(s, BIT28, result) == None
  {
    hide Plus;
  }

  lemma FifthMore(s: Bytes, result: nat)
    requires s != [] && s[0] >= 128
    ensures var r := Varint32From(s[1..], BIT35, (result + (s[0] - 128) * BIT28) % TWO32);
            Varint32From(s, BIT28, result) == if r.None? then None else Some(Parsed(r.value.value, 1 + r.value.used))
  {
    var low: nat := s[0] % 128;
    assert low == s[0] - 128 && Plus(result, low, BIT28) == result + low * BIT28;
    hide Plus;
  }

  lemma TooSmall(v: nat, result: nat)
    requires result < BIT28 && 16 <= v < 128
    ensures Cut32(result + v * BIT28, 1) == None
  {
    var n := result + v * BIT28;
    assert n / 0x8_0000_0000 == 0;
    NothingExtends(4);
    hide Extends;
  }

  lemma FifthParts(v: nat, w: nat, r: nat, result: nat)
    requires v == 128 * w + r && r < 128 && w >= 1 && result < BIT28
    ensures var n, low := result + v * BIT28, result + r * BIT28;
            n >= 0x1_0000_0000 && n / 0x8_0000_0000 == w && n % 0x1_0000_0000 == low % 0x1_0000_0000
  {
    var n, low := result + v * BIT28, result + r * BIT28;
    assert n == w * 0x8_0000_0000 + low && low < 0x8_0000_0000;
    HighPart(n, w, low);
    LowPart(n, 8 * w, low);
  }

  lemma HighPart(n: nat, w: nat, low: nat)
    requires n == w * 0x8_0000_0000 + low && low < 0x8_0000_0000
    ensures n / 0x8_0000_0000 == w
  {
  }

  lemma LowPart(n: nat, k: nat, low: nat)
    requires n == k * 0x1_0000_0000 + low
    ensures n % 0x1_0000_0000 == low % 0x1_0000_0000
  {
    var q, r := low / 0x1_0000_0000, low % 0x1_0000_0000;
    assert n == (k + q) * 0x1_0000_0000 + r;
  }

  lemma {:induction false} FrontBytes(v: nat, left: nat, scale: nat, result: nat, rest: Bytes)
    requires Small(scale, left) && result < scale && result + v * scale < TWO64
    ensures Varint32From(Varint(v) + rest, scale, result) == Cut32(result + v * scale, |Varint(v)|)
    decreases left
  {
    hide Varint32From; hide Cut32; hide Plus;
    var s := Varint(v) + rest;
    var low: nat := v % 128;
    SmallStep(scale, left, result, low);
    PlusIs(result, low, scale);
    if v < 128 {
      LastByte(s, scale, result);
      SmallFits(v, left, scale, result);
    } else {
      var w := v / 128;
      assert Varint(v) == [128 + low] + Varint(w);
      assert s[1..] == Varint(w) + rest && s[0] == 128 + low;
      hide Varint;
      MoreBytes(s, scale, result);
      Regroup(result, low, w, scale);
      if left > 1 {
        FrontBytes(w, left - 1, 128 * scale, result + low * scale, rest);
      } else {
        LastSmall(scale, w, result + low * scale);
        FifthByte(w, result + low * scale, rest);
      }
      CutLonger(result + v * scale, |Varint(w)|);
    }
  }

  lemma PlusIs(result: nat, low: nat, scale: nat)
    ensures Plus(result, low, scale) == result + low * scale
  {
  }

  lemma SmallFits(v: nat, left: nat, scale: nat, result: nat)
    requires Small(scale, left) && result < scale && v < 128
    ensures Cut32(result + v * scale, 1) == Some(Parsed(result + v * scale, 1))
  {
  }

  lemma Regroup(result: nat, low: nat, w: nat, scale: nat)
    ensures result + (128 * w + low) * scale == result + low * scale + w * (128 * scale)
  {
  }

  lemma LastSmall(scale: nat, w: nat, sum: nat)
    requires Small(scale, 1) && sum < 128 * scale && sum + w * (128 * scale) < TWO64
    ensures 128 * scale == BIT28 && w < 0x10_0000_0000
  {
  }

  lemma CutLonger(n: nat, used: nat)
    ensures var a, b := Cut32(n, used), Cut32(n, 1 + used);
            b == if a.None? then None else Some(Parsed(a.value.value, 1 + a.value.used))
  {
  }

  /** The 32-bit decoder keeps what fits 32 bits, cuts what only extends the sign
      beyond them, and refuses every other 64-bit number. */
  lemma Varint32Iff(v: nat, rest: Bytes)
    requires v < TWO64
    ensures Varint32At(Varint(v) + rest) == Cut32(v, |Varint(v)|)
  {
    FrontBytes(v, 4, 1, 0, rest);
  }

  /** On every input the 64-bit decoder takes at most ten digits and cuts them to
      64 bits. */
  lemma Varint64Iff(s: Bytes)
    ensures Varint64At(s).Some? ==> Varint64At(s).value.used <= |s|
    ensures TakeNumber(s, 10, 18446744073709551616) ==
            match Varint64At(s)
            case None => None
            case Some(p) => Some(Taken(p.value, s[p.used..]))
  {
    hide VarintAt; hide TakeNumber;
    Tokens.NumberIs(s, 10, 18446744073709551616);
  }
}
