/** The decoder as it runs over an input stream (nanopb: pb_decode.c,
    pb_common.c): every operation consumes what the decoding functions say. */
module PbStream {
  import opened Keys
  import opened Coding
  import opened PbWire
  import opened PbDecode

  /** pb_istream_t over a memory buffer. */
  class IStream {
    const buf: Bytes
    var at: nat
    var left: nat

    ghost predicate Valid()
      reads this
    {
      at + left <= |buf|
    }

    ghost function Rest(): (s: Bytes)
      requires Valid()
      reads this
      ensures |s| == left
    {
      buf[at..at + left]
    }

    /** Where the stream ends in the buffer; reading does not move it. */
    ghost function End(): nat
      reads this
    {
      at + left
    }

    constructor (buf: Bytes, at: nat, left: nat)
      requires at + left <= |buf|
      ensures Valid() && this.buf == buf && this.at == at && this.left == left
    {
      this.buf, this.at, this.left := buf, at, left;
    }

    /** pb_readbyte. */
    method ReadByte() returns (ok: bool, b: byte)
      requires Valid()
      modifies this
      ensures Valid() && End() == old(End()) && ok == (old(left) > 0)
      ensures ok ==> b == old(Rest())[0] && Rest() == old(Rest())[1..]
      ensures !ok ==> at == old(at) && left == old(left)
    {
      if left == 0 {
        return false, 0;
      }
      b := buf[at];
      at, left := at + 1, left - 1;
      ok := true;
    }

    /** pb_read. */
    method Read(count: nat) returns (ok: bool, data: Bytes)
      requires Valid()
      modifies this
      ensures Valid() && End() == old(End()) && ok == (count <= old(left))
      ensures ok ==> data == old(Rest())[..count] && Rest() == old(Rest())[count..] && at == old(at) + count
    {
      if left < count {
        return false, [];
      }
      data := buf[at..at + count];
      at, left := at + count, left - count;
      ok := true;
    }
  }

  function Later(i: nat, r: Option<Parsed>): Option<Parsed> {
    if r.None? then None else Some(Parsed(r.value.value, i + r.value.used))
  }

  ghost predicate Consumed(before: Bytes, after: Bytes, p: Parsed) {
    p.used <= |before| && after == before[p.used..]
  }

  /** pb_decode_varint32. */
  method DecodeVarint32(s: IStream) returns (ok: bool, value: nat)
    requires s.Valid()
    modifies s
    ensures s.Valid() && s.End() == old(s.End()) && ok == Varint32At(old(s.Rest())).Some?
    ensures ok ==> value == Varint32At(old(s.Rest())).value.value && Consumed(old(s.Rest()), s.Rest(), Varint32At(old(s.Rest())).value)
  {
    hide Plus; hide Varint32From;
    ghost var start := s.Rest();
    var result: nat, scale: nat := 0, 1;
    ghost var i: nat := 0;
    LaterNone(Varint32From(start, 1, 0));
    while true
      invariant s.Valid() && s.End() == old(s.End()) && i <= |start| && s.Rest() == start[i..]
      invariant Varint32At(start) == Later(i, Varint32From(s.Rest(), scale, result))
      decreases s.left
    {
      ghost var here := s.Rest();
      Varint32Step(here, scale, result);
      var more, b := s.ReadByte();
      if !more {
        return false, 0;
      }
      var low: nat := b % 128;
      if scale >= BIT35 {
        if low != 0 && (result < BIT31 || b != if scale < BIT63 then 0xFF else 0x01) {
          return false, 0;
        }
      } else {
        result := Plus(result, low, scale) % TWO32;
      }
      if b < 128 {
        if scale == BIT28 && low >= 16 {
          return false, 0;
        }
        return true, result;
      }
      scale := 128 * scale;
      i := i + 1;
    }
  }

  lemma LaterNone(r: Option<Parsed>)
    ensures Later(0, r) == r
  {
  }

  lemma Varint32Step(s: Bytes, scale: nat, result: nat)
    ensures Varint32From(s, scale, result) ==
              if s == [] then None
              else
                var low: nat := s[0] % 128;
                if scale >= BIT35 && low != 0 && (result < BIT31 || s[0] != if scale < BIT63 then 0xFF else 0x01) then None
                else
                  var sum := if scale >= BIT35 then result else Plus(result, low, scale) % TWO32;
                  if s[0] >= 128 then Later(1, Varint32From(s[1..], 128 * scale, sum))
                  else if scale == BIT28 && low >= 16 then None
                  else Some(Parsed(sum, 1))
  {
    hide Plus;
  }

  /** pb_decode_varint. */
  method DecodeVarint(s: IStream) returns (ok: bool, value: nat)
    requires s.Valid()
    modifies s
    ensures s.Valid() && s.End() == old(s.End()) && ok == Varint64At(old(s.Rest())).Some?
    ensures ok ==> value == Varint64At(old(s.Rest())).value.value && Consumed(old(s.Rest()), s.Rest(), Varint64At(old(s.Rest())).value)
  {
    hide Plus; hide Shifted;
    ghost var start := s.Rest();
    var result: nat, scale: nat, count: nat := 0, 1, 0;
    StartShifted(VarintAt(start, 10));
    while true
      invariant s.Valid() && s.End() == old(s.End()) && count <= 10 && count <= |start| && s.Rest() == start[count..]
      invariant VarintAt(start, 10) == Shifted(result, scale, count, VarintAt(s.Rest(), 10 - count))
      decreases s.left
    {
      if count >= 10 {
        Failed(result, scale, count);
        return false, 0;
      }
      ghost var here := s.Rest();
      if s.left > 0 {
        VarintStep(here, 10 - count);
      }
      var more, b := s.ReadByte();
      if !more {
        Failed(result, scale, count);
        return false, 0;
      }
      if b < 128 {
        ShiftLast(result, scale, count, b);
        return true, Plus(result, b, scale) % TWO64;
      }
      hide VarintAt;
      ShiftStep(result, scale, count, b, VarintAt(here[1..], 10 - count - 1));
      result := Plus(result, b - 128, scale);
      scale := 128 * scale;
      count := count + 1;
    }
  }

  lemma Failed(result: nat, scale: nat, i: nat)
    ensures Shifted(result, scale, i, None) == None
  {
  }

  // ----- length-delimited parts

  /** pb_make_string_substream. */
  method MakeSubstream(s: IStream) returns (ok: bool, sub: IStream)
    requires s.Valid()
    modifies s
    ensures s.Valid() && fresh(sub) && sub.Valid() && ok == Delimited(old(s.Rest())).Some?
    ensures ok ==> sub.End() + s.left == old(s.End())
    ensures !ok ==> s.End() == old(s.End())
    ensures ok ==> sub.buf == s.buf && sub.at == s.at && sub.Rest() == Delimited(old(s.Rest())).value.data
    ensures ok ==> sub.at + sub.left + s.left <= |s.buf| && s.buf[sub.at + sub.left..sub.at + sub.left + s.left] == Delimited(old(s.Rest())).value.rest
  {
    hide Varint32At;
    ghost var start := s.Rest();
    var fine, size := DecodeVarint32(s);
    if !fine || s.left < size {
      sub := new IStream([], 0, 0);
      return false, sub;
    }
    sub := new IStream(s.buf, s.at, size);
    ghost var tail := s.Rest();
    assert tail[..size] == sub.Rest();
    assert tail[size..] == s.buf[s.at + size..s.at + s.left];
    s.left := s.left - size;
    ok := true;
  }

  /** pb_close_string_substream. */
  method CloseSubstream(s: IStream, sub: IStream, ghost end: nat)
    requires s != sub && s.Valid() && sub.Valid() && sub.buf == s.buf && sub.at + sub.left == end && end + s.left <= |s.buf|
    modifies s, sub
    ensures s.Valid() && s.Rest() == s.buf[end..end + old(s.left)] && s.End() == end + old(s.left)
  {
    if sub.left > 0 {
      var _, _ := sub.Read(sub.left);
    }
    s.at := sub.at;
  }

  // ----- values and fields

  ghost predicate StepDone(s: IStream, r: Option<Step>, ok: bool, v: Val)
    requires s.Valid()
    reads s
  {
    ok == r.Some? && (ok ==> v == r.value.v && s.Rest() == r.value.rest)
  }

  ghost predicate SlotDone(s: IStream, r: Option<SlotStep>, ok: bool, sv: SlotVal)
    requires s.Valid()
    reads s
  {
    ok == r.Some? && (ok ==> sv == r.value.sv && s.Rest() == r.value.rest)
  }

  method DecodeScalar(s: IStream, t: Type) returns (ok: bool, v: Val)
    requires s.Valid() && Packable(t)
    modifies s
    ensures s.Valid() && s.End() == old(s.End()) && StepDone(s, DecodeNum(t, old(s.Rest())), ok, v)
  {
    hide Varint64At; hide GetFixed32; hide GetFixed64;
    v := Num(0);
    if t.Fixed32T? {
      var fine, data := s.Read(4);
      if !fine {
        return false, v;
      }
      SameFixed(old(s.Rest()), data);
      return true, Num(GetFixed32(data));
    }
    if t.Fixed64T? {
      var fine, data := s.Read(8);
      if !fine {
        return false, v;
      }
      SameFixed(old(s.Rest()), data);
      return true, Num(GetFixed64(data));
    }
    var fine, value := DecodeVarint(s);
    if !fine {
      return false, v;
    }
    var n: int := value;
    match t {
      case VarintT(w) =>
        n := if w == 64 then ToSigned(value, TWO64) else ToSigned(value % TWO32, TWO32);
        ok := Signed(n, w);
      case UVarintT(w) =>
        ok := Unsigned(n, w);
      case SVarintT(w) =>
        n := UnZigZag(value);
        ok := Signed(n, w);
    }
    v := Num(n);
  }

  lemma SameFixed(s: Bytes, data: Bytes)
    ensures |data| == 4 && 4 <= |s| && data == s[..4] ==> GetFixed32(data) == GetFixed32(s)
    ensures |data| == 8 && 8 <= |s| && data == s[..8] ==> GetFixed64(data) == GetFixed64(s)
  {
    if |data| == 8 && 8 <= |s| && data == s[..8] {
      assert data[4..] == s[4..8];
    }
  }

  /** Bytes, strings and fixed-length bytes. */
  method DecodeBlob(s: IStream, t: Type) returns (ok: bool, v: Val)
    requires s.Valid() && (t.BytesT? || t.StringT? || t.FixedBytesT?)
    modifies s
    ensures s.Valid() && s.End() == old(s.End()) && StepDone(s, DecodeData(t, old(s.Rest())), ok, v)
  {
    hide Varint32At;
    v := Num(0);
    ghost var start := s.Rest();
    var fine, size := DecodeVarint32(s);
    if !fine {
      return false, v;
    }
    var got, data := s.Read(size);
    if !got {
      return false, v;
    }
    match t {
      case BytesT(max) =>
        return size <= max, Data(data);
      case StringT(max) =>
        return size < max, Data(CPart(data));
      case FixedBytesT(n) =>
        if size == 0 {
          return true, Data(Zeros(n));
        }
        return size == n, Data(data);
    }
  }

  method DecodeValue(s: IStream, t: Type, base: Val) returns (ok: bool, v: Val)
    requires s.Valid() && TypeOk(t)
    modifies s
    ensures s.Valid() && s.End() == old(s.End()) && StepDone(s, DecodeVal(t, old(s.Rest()), base), ok, v)
    decreases t, 0
  {
    if Packable(t) {
      ok, v := DecodeScalar(s, t);
    } else if !t.SubT? {
      ok, v := DecodeBlob(s, t);
    } else {
      hide SchemaOk;
      DefaultsLength(t.fields);
      hide DecodeFields; hide Defaults;
      var slots;
      ok, slots := DecodeSubmessage(s, t.fields, if base.Message? && |base.slots| == |t.fields| then base.slots else Defaults(t.fields));
      v := Message(slots);
    }
  }

  /** pb_dec_submessage: the message is decoded from a substream of its length. */
  method DecodeSubmessage(s: IStream, fields: seq<Slot>, start: seq<SlotVal>) returns (ok: bool, slots: seq<SlotVal>)
    requires s.Valid() && SchemaOk(fields) && |start| == |fields|
    modifies s
    ensures s.Valid() && s.End() == old(s.End())
    ensures var c := Delimited(old(s.Rest()));
            && ok == (c.Some? && DecodeFields(fields, c.value.data, start, {}).Some?)
            && (ok ==> slots == DecodeFields(fields, c.value.data, start, {}).value && s.Rest() == c.value.rest)
    decreases fields, 1
  {
    hide Delimited; hide SchemaOk; hide DecodeFields;
    slots := start;
    var sub;
    ok, sub := MakeSubstream(s);
    if ok {
      ghost var end := sub.at + sub.left;
      ok, slots := DecodeMessage(sub, fields, start);
      CloseSubstream(s, sub, end);
    }
  }

  /** The items of a packed array. */
  method DecodeItems(s: IStream, t: Type, vs0: seq<Val>, max: nat) returns (ok: bool, vs: seq<Val>)
    requires s.Valid() && Packable(t)
    modifies s
    ensures s.Valid() && s.End() == old(s.End())
    ensures ok == DecodePacked(t, old(s.Rest()), vs0, max).Some?
    ensures ok ==> vs == DecodePacked(t, old(s.Rest()), vs0, max).value
  {
    hide DecodeNum;
    ghost var start := s.Rest();
    vs := vs0;
    while s.left > 0 && |vs| < max
      invariant s.Valid() && s.End() == old(s.End())
      invariant DecodePacked(t, start, vs0, max) == DecodePacked(t, s.Rest(), vs, max)
      decreases s.left
    {
      var fine, v := DecodeScalar(s, t);
      if !fine {
        return false, vs;
      }
      vs := vs + [v];
    }
    ok := s.left == 0;
  }

  /** decode_static_field. */
  method DecodeField(s: IStream, slot: Slot, j: nat, wire: nat, was: SlotVal) returns (ok: bool, sv: SlotVal)
    requires s.Valid() && SlotOk(slot) && (slot.OneOf? ==> j < |slot.members|)
    modifies s
    ensures s.Valid() && s.End() == old(s.End()) && SlotDone(s, DecodeSlot(slot, j, wire, old(s.Rest()), was), ok, sv)
    decreases slot
  {
    hide DecodeVal; hide TypeOk; hide DecodeItem;
    sv := was;
    var v;
    match slot {
      case Required(_, t) =>
        ok, v := DecodeValue(s, t, if was.One? then was.v else ZeroOf(t));
        sv := One(v);
      case Implicit(_, t) =>
        ok, v := DecodeValue(s, t, if was.One? then was.v else ZeroOf(t));
        sv := One(v);
      case Optional(_, t) =>
        ok, v := DecodeValue(s, t, if was.Maybe? && was.o.Some? then was.o.value else ZeroOf(t));
        sv := Maybe(Some(v));
      case Repeated(_, t, max) =>
        ok, sv := DecodeRepeated(s, t, max, wire, if was.Many? then was.vs else []);
      case OneOf(members) =>
        ok, sv := DecodeUnion(s, members[j], j);
    }
  }

  method DecodeUnion(s: IStream, m: Member, j: nat) returns (ok: bool, sv: SlotVal)
    requires s.Valid() && MemberOk(m)
    modifies s
    ensures s.Valid() && s.End() == old(s.End()) && SlotDone(s, DecodeMember(m, j, old(s.Rest())), ok, sv)
    decreases m
  {
    hide DecodeVal; hide TypeOk;
    var v;
    ok, v := DecodeValue(s, m.t, ZeroOf(m.t));
    sv := Which(Some(Choice(j, v)));
  }

  method DecodeRepeated(s: IStream, t: Type, max: nat, wire: nat, vs: seq<Val>) returns (ok: bool, sv: SlotVal)
    requires s.Valid() && TypeOk(t)
    modifies s
    ensures s.Valid() && s.End() == old(s.End()) && SlotDone(s, DecodeItem(t, max, wire, old(s.Rest()), vs), ok, sv)
    decreases t, 1
  {
    hide DecodeVal; hide TypeOk; hide Delimited; hide DecodePacked;
    sv := Many(vs);
    if wire == WT_STRING && Packable(t) {
      var sub;
      ok, sub := MakeSubstream(s);
      if ok {
        ghost var end := sub.at + sub.left;
        var fine, more := DecodeItems(sub, t, vs, max);
        CloseSubstream(s, sub, end);
        return fine, Many(more);
      }
    } else if |vs| >= max {
      ok := false;
    } else {
      var v;
      ok, v := DecodeValue(s, t, ZeroOf(t));
      sv := Many(vs + [v]);
    }
  }

  /** pb_field_iter_find: around the table once, starting where the last field
      was found; an empty table consists of its terminator, numbered 0. */
  method FindField(fields: seq<Slot>, pos: nat, tag: nat) returns (found: bool, i: nat)
    requires SchemaOk(fields) && (fields == [] || pos < |fields|)
    ensures i == SlotOf(fields, tag) && found == if fields == [] then tag == 0 else i < |fields|
  {
    hide HasTag; hide SlotOk;
    if fields == [] {
      return tag == 0, 0;
    }
    found := true;
    i := pos;
    var steps := 0;
    while steps < |fields|
      invariant i < |fields| && steps <= |fields|
      invariant i == if pos + steps < |fields| then pos + steps else pos + steps - |fields|
      invariant forall x :: 0 <= x < |fields| && (pos <= x < pos + steps || x + |fields| < pos + steps) ==> !HasTag(fields[x], tag)
    {
      if HasTag(fields[i], tag) {
        SlotFound(fields, i, tag);
        return;
      }
      i := i + 1;
      if i == |fields| {
        i := 0;
      }
      steps := steps + 1;
    }
    NoField(fields, tag);
    return false, |fields|;
  }

  lemma NoField(fields: seq<Slot>, tag: nat)
    requires forall x :: 0 <= x < |fields| ==> !HasTag(fields[x], tag)
    ensures SlotOf(fields, tag) == |fields|
  {
    hide HasTag;
  }

  /** pb_skip_field. */
  method SkipField(s: IStream, wire: nat) returns (ok: bool)
    requires s.Valid()
    modifies s
    ensures s.Valid() && s.End() == old(s.End()) && ok == Skip(wire, old(s.Rest())).Some? && (ok ==> s.Rest() == Skip(wire, old(s.Rest())).value)
  {
    hide Varint32At;
    if wire == WT_VARINT {
      ghost var start := s.Rest();
      while true
        invariant s.Valid() && s.End() == old(s.End()) && SkipVarint(start) == SkipVarint(s.Rest())
        decreases s.left
      {
        var more, b := s.ReadByte();
        if !more {
          return false;
        }
        if b < 128 {
          return true;
        }
      }
    } else if wire == WT_64BIT {
      var skipped;
      ok, skipped := s.Read(8);
    } else if wire == WT_STRING {
      var size;
      ok, size := DecodeVarint32(s);
      if ok {
        var skipped;
        ok, skipped := s.Read(size);
      }
    } else if wire == WT_32BIT {
      var skipped;
      ok, skipped := s.Read(4);
    } else {
      ok := false;
    }
  }

  /** The check of the fields_seen bits. */
  method CheckRequired(fields: seq<Slot>, seen: set<nat>) returns (ok: bool)
    ensures ok == AllSeen(fields, seen)
  {
    var count := 0;
    for i := 0 to |fields|
      invariant count == RequiredBefore(fields, i)
      invariant forall k :: 0 <= k < i && fields[k].Required? && RequiredBefore(fields, k) < MAX_REQUIRED ==> k in seen
    {
      if fields[i].Required? {
        if count < MAX_REQUIRED && i !in seen {
          return false;
        }
        count := count + 1;
      }
    }
    return true;
  }

  /** pb_decode_noinit. */
  method DecodeMessage(s: IStream, fields: seq<Slot>, slots0: seq<SlotVal>) returns (ok: bool, slots: seq<SlotVal>)
    requires s.Valid() && SchemaOk(fields) && |slots0| == |fields|
    modifies s
    ensures s.Valid() && s.End() == old(s.End())
    ensures ok == DecodeFields(fields, old(s.Rest()), slots0, {}).Some?
    ensures ok ==> slots == DecodeFields(fields, old(s.Rest()), slots0, {}).value
    decreases fields, 0
  {
    hide SchemaOk; hide Varint32At; hide DecodeSlot; hide Skip; hide SlotOf; hide AllSeen; hide HasTag;
    ghost var start := s.Rest();
    slots := slots0;
    var pos: nat, seen: set<nat> := 0, {};
    while s.left > 0
      invariant s.Valid() && s.End() == old(s.End()) && |slots| == |fields| && (fields == [] || pos < |fields|)
      invariant DecodeFields(fields, start, slots0, {}) == DecodeFields(fields, s.Rest(), slots, seen)
      decreases s.left
    {
      ghost var here := s.Rest();
      var fine, key := DecodeVarint32(s);
      if !fine {
        return false, slots;
      }
      if key == 0 {
        break;
      }
      var tag: nat, wire: nat := key / 8, key % 8;
      var found, i := FindField(fields, pos, tag);
      FoundInside(fields, tag);
      if !found {
        fine := SkipField(s, wire);
        if !fine {
          return false, slots;
        }
      } else if fields == [] {
        var value;
        fine, value := DecodeVarint(s);
        return false, slots;
      } else {
        pos := i;
        if fields[i].Required? {
          seen := seen + {i};
        }
        var sv;
        SlotIn(fields, i);
        fine, sv := DecodeField(s, fields[i], if fields[i].OneOf? then MemberOf(fields[i].members, tag) else 0, wire, slots[i]);
        if !fine {
          return false, slots;
        }
        slots := slots[i := sv];
      }
    }
    ok := CheckRequired(fields, seen);
  }

  lemma FoundInside(fields: seq<Slot>, tag: nat)
    ensures var i := SlotOf(fields, tag);
            i <= |fields| && (i < |fields| && fields[i].OneOf? ==> MemberOf(fields[i].members, tag) < |fields[i].members|)
  {
  }

  lemma SlotIn(fields: seq<Slot>, i: nat)
    requires SchemaOk(fields) && i < |fields|
    ensures SlotOk(fields[i])
  {
    hide SlotOk; hide HasTag;
  }

  /** pb_decode: the destination is set to its defaults first. */
  method DecodeInto(s: IStream, fields: seq<Slot>) returns (ok: bool, slots: seq<SlotVal>)
    requires s.Valid() && SchemaOk(fields)
    modifies s
    ensures ok == Decode(fields, old(s.Rest())).Some? && (ok ==> slots == Decode(fields, old(s.Rest())).value)
  {
    hide DecodeFields; hide SchemaOk; hide Defaults;
    DefaultsLength(fields);
    ok, slots := DecodeMessage(s, fields, Defaults(fields));
  }

  lemma DefaultsLength(fields: seq<Slot>)
    ensures |Defaults(fields)| == |fields|
  {
  }
}
