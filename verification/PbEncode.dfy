/** Encoding into a stream (nanopb: pb_encode.c).  Lengths are found by a first
    pass over a stream that only counts. */
module PbEncode {
  import opened Keys
  import opened Coding
  import opened PbWire

  /** pb_ostream_t: without a callback it only counts. */
  class OStream {
    const sizing: bool
    const max: nat
    var written: nat
    var out: Bytes

    constructor (sizing: bool, max: nat, out: Bytes)
      ensures this.sizing == sizing && this.max == max && written == 0 && this.out == out
    {
      this.sizing, this.max, this.out := sizing, max, out;
      written := 0;
    }

    predicate Valid()
      reads this
    {
      sizing || written <= max
    }

    /** n more bytes are accepted when `before` are written. */
    predicate Accepts(before: nat, n: nat) {
      sizing || before + n <= max
    }

    /** The stream took exactly these bytes. */
    ghost predicate Took(before: nat, outBefore: Bytes, bytes: Bytes)
      reads this
    {
      written == before + |bytes| && out == if sizing then outBefore else outBefore + bytes
    }

    /** pb_write. */
    method Write(buf: Bytes) returns (ok: bool)
      modifies this
      ensures ok == Accepts(old(written), |buf|)
      ensures ok ==> Took(old(written), old(out), buf)
    {
      if !sizing {
        if written + |buf| > max {
          return false;
        }
        out := out + buf;
      }
      written := written + |buf|;
      return true;
    }

    /** pb_write of a null buffer: only the count matters. */
    method WriteSize(ghost bytes: Bytes, size: nat) returns (ok: bool)
      requires sizing && size == |bytes|
      modifies this
      ensures ok && Took(old(written), old(out), bytes)
    {
      written := written + size;
      return true;
    }
  }

  /** pb_encode_varint. */
  method EncodeVarint(stream: OStream, value: nat) returns (ok: bool)
    requires stream.Valid()
    modifies stream
    ensures ok == stream.Accepts(old(stream.written), |Varint(value)|)
    ensures ok ==> stream.Took(old(stream.written), old(stream.out), Varint(value))
  {
    if value <= 0x7F {
      ok := stream.Write([value]);
      return;
    }
    var buffer: Bytes, v := [], value;
    while v >= 128
      invariant Varint(value) == buffer + Varint(v)
    {
      buffer := buffer + [128 + v % 128];
      v := v / 128;
    }
    ok := stream.Write(buffer + [v]);
  }

  method EncodeTag(stream: OStream, tag: nat, wire: nat) returns (ok: bool)
    requires stream.Valid()
    modifies stream
    ensures ok == stream.Accepts(old(stream.written), |TagBytes(tag, wire)|)
    ensures ok ==> stream.Took(old(stream.written), old(stream.out), TagBytes(tag, wire))
  {
    ok := EncodeVarint(stream, tag * 8 + wire);
  }

  /** pb_encode_string. */
  method EncodeString(stream: OStream, data: Bytes) returns (ok: bool)
    requires stream.Valid()
    modifies stream
    ensures ok == stream.Accepts(old(stream.written), |Slice(data)|)
    ensures ok ==> stream.Took(old(stream.written), old(stream.out), Slice(data))
  {
    hide Varint;
    ok := EncodeVarint(stream, |data|);
    if ok {
      ok := stream.Write(data);
    }
    assert old(stream.out) + (Varint(|data|) + data) == old(stream.out) + Varint(|data|) + data;
  }

  /** pb_enc_string: src is the whole array, which need not hold a NUL. */
  method EncodeChars(stream: OStream, src: Bytes) returns (ok: bool)
    requires stream.Valid()
    modifies stream
    ensures ok == stream.Accepts(old(stream.written), |Slice(CPart(src))|)
    ensures ok ==> stream.Took(old(stream.written), old(stream.out), Slice(CPart(src)))
  {
    hide Slice;
    var size := 0;
    while size < |src| && src[size] != 0
      invariant size <= |src| && CPart(src) == src[..size] + CPart(src[size..])
      modifies {}
    {
      CharsNext(src, size);
      size := size + 1;
    }
    assert CPart(src) == src[..size];
    ok := EncodeString(stream, src[..size]);
  }

  lemma CharsNext(src: Bytes, size: nat)
    requires size < |src| && src[size] != 0
    ensures src[..size] + CPart(src[size..]) == src[..size + 1] + CPart(src[size + 1..])
  {
    assert src[size..][1..] == src[size + 1..];
    assert src[..size + 1] == src[..size] + [src[size]];
  }

  /** Behind the characters of a string its array holds a NUL, if it has room. */
  lemma {:induction false} CharsOf(s: Bytes, max: nat)
    requires CString(s, max)
    ensures CPart(s + Zeros(max - |s|)) == s
  {
    var src := s + Zeros(max - |s|);
    if s != [] {
      assert src[1..] == s[1..] + Zeros(max - |s|);
      CharsOf(s[1..], max - 1);
    }
  }

  /** One scalar value. */
  method EncodeNum(stream: OStream, t: Type, v: Val) returns (ok: bool)
    requires stream.Valid()
    requires Packable(t) && Fits(t, v)
    modifies stream
    ensures ok == stream.Accepts(old(stream.written), |Wire(t, v)|)
    ensures ok ==> stream.Took(old(stream.written), old(stream.out), Wire(t, v))
  {
    hide Varint; hide Fixed32; hide Fixed64;
    match t
    case VarintT(_) => ok := EncodeVarint(stream, Bits64(v.n));
    case UVarintT(_) => ok := EncodeVarint(stream, v.n);
    case SVarintT(_) => ok := EncodeVarint(stream, ZigZag(v.n));
    case Fixed32T => ok := stream.Write(Fixed32(v.n));
    case Fixed64T => ok := stream.Write(Fixed64(v.n));
  }

  /** One value; bytes that exceed their array are refused. */
  method EncodeVal(stream: OStream, t: Type, v: Val) returns (ok: bool)
    requires stream.Valid()
    requires Typed(t, v)
    modifies stream
    ensures ok == (Fits(t, v) && stream.Accepts(old(stream.written), |Wire(t, v)|))
    ensures ok ==> stream.Took(old(stream.written), old(stream.out), Wire(t, v))
    decreases t, 0
  {
    if Packable(t) {
      ok := EncodeNum(stream, t, v);
    } else if t.SubT? {
      MessageOf(t, v);
      hide Fits; hide Typed; hide WireFields; hide Slice; hide Wire;
      ok := EncodeSubmessage(stream, t.fields, v.slots);
    } else if t.BytesT? && |v.bytes| > t.max {
      ok := false;
    } else if t.StringT? {
      hide Slice;
      CharsOf(v.bytes, t.max);
      ok := EncodeChars(stream, v.bytes + Zeros(t.max - |v.bytes|));
    } else {
      hide Slice;
      ok := EncodeString(stream, v.bytes);
    }
  }

  lemma MessageOf(t: Type, v: Val)
    requires t.SubT? && Typed(t, v)
    ensures v.Message? && MessageTyped(t.fields, v.slots) && (Fits(t, v) <==> MessageFits(t.fields, v.slots))
    ensures Fits(t, v) ==> Wire(t, v) == Slice(WireFields(t.fields, v.slots, |t.fields|))
  {
    hide WireFields; hide Slice;
  }

  /** pb_encode_submessage: count first, then the length and the message, into
      a substream that has exactly that room. */
  method EncodeSubmessage(stream: OStream, fields: seq<Slot>, slots: seq<SlotVal>) returns (ok: bool)
    requires stream.Valid()
    requires MessageTyped(fields, slots)
    modifies stream
    ensures ok == (MessageFits(fields, slots) && stream.Accepts(old(stream.written), |Slice(WireFields(fields, slots, |fields|))|))
    ensures ok ==> stream.Took(old(stream.written), old(stream.out), Slice(WireFields(fields, slots, |fields|)))
    decreases fields, |fields| + 1
  {
    hide MessageFits; hide MessageTyped; hide WireFields; hide Varint;
    var counter := new OStream(true, 0, []);
    ok := EncodeMessage(counter, fields, slots);
    if !ok {
      return;
    }
    ghost var bytes := WireFields(fields, slots, |fields|);
    var size := counter.written;
    ok := EncodeVarint(stream, size);
    if !ok {
      return;
    }
    assert old(stream.out) + (Varint(|bytes|) + bytes) == old(stream.out) + Varint(|bytes|) + bytes;
    if stream.sizing {
      ok := stream.WriteSize(bytes, size);
      return;
    }
    if stream.written + size > stream.max {
      return false;
    }
    var sub := new OStream(false, size, stream.out);
    ok := EncodeMessage(sub, fields, slots);
    stream.written := stream.written + sub.written;
    stream.out := sub.out;
  }

  /** pb_encode: succeeds exactly when the message is within its bounds and
      its bytes fit the stream. */
  method EncodeMessage(stream: OStream, fields: seq<Slot>, slots: seq<SlotVal>) returns (ok: bool)
    requires stream.Valid()
    requires MessageTyped(fields, slots)
    modifies stream
    ensures ok == (MessageFits(fields, slots) && stream.Accepts(old(stream.written), |WireFields(fields, slots, |fields|)|))
    ensures ok ==> stream.Took(old(stream.written), old(stream.out), WireFields(fields, slots, |fields|))
    decreases fields, |fields|
  {
    hide WireSlot; hide WireFields; hide MessageFits; hide MessageTyped;
    ghost var w0, o0 := stream.written, stream.out;
    StartChain(stream);
    StartFields(fields, slots);
    hide OStream.Accepts; hide OStream.Valid;
    for i := 0 to |fields|
      invariant stream.Valid() && |slots| == |fields| && (forall j :: 0 <= j < i ==> SlotFits(fields[j], slots[j]))
      invariant MessageFits(fields, slots) ==>
                  && stream.Accepts(old(stream.written), |WireFields(fields, slots, i)|)
                  && stream.Took(old(stream.written), old(stream.out), WireFields(fields, slots, i))
    {
      ghost var w, o := stream.written, stream.out;
      TypedSlot(fields, slots, i);
      var fine := EncodeSlot(stream, fields[i], slots[i]);
      if MessageFits(fields, slots) {
        FieldsNext(fields, slots, i);
        Chain(stream, w0, o0, WireFields(fields, slots, i), w, o, WireSlot(fields[i], slots[i]), fine);
        FieldsGrow(fields, slots, i + 1, |fields|);
        LessRoom(stream, w0, |WireFields(fields, slots, i + 1)|, |WireFields(fields, slots, |fields|)|);
      }
      if !fine {
        return false;
      }
      StillValid(stream, w, o, WireSlot(fields[i], slots[i]));
    }
    AllSlots(fields, slots);
    return true;
  }

  lemma StartFields(fields: seq<Slot>, slots: seq<SlotVal>)
    requires MessageTyped(fields, slots)
    ensures |slots| == |fields| && (MessageFits(fields, slots) ==> WireFields(fields, slots, 0) == [])
  {
  }

  lemma TypedSlot(fields: seq<Slot>, slots: seq<SlotVal>, i: nat)
    requires MessageTyped(fields, slots) && i < |fields|
    ensures i < |slots| && SlotTyped(fields[i], slots[i]) && (MessageFits(fields, slots) ==> SlotFits(fields[i], slots[i]))
  {
    hide SlotTyped; hide SlotFits;
  }

  lemma AllSlots(fields: seq<Slot>, slots: seq<SlotVal>)
    requires |slots| == |fields| && forall j :: 0 <= j < |fields| ==> SlotFits(fields[j], slots[j])
    ensures MessageFits(fields, slots)
  {
    hide SlotFits;
  }

  lemma LessRoom(stream: OStream, before: nat, m: nat, n: nat)
    requires m <= n
    ensures stream.Accepts(before, n) ==> stream.Accepts(before, m)
  {
  }

  lemma StillValid(stream: OStream, w: nat, o: Bytes, more: Bytes)
    requires stream.Accepts(w, |more|) && stream.Took(w, o, more)
    ensures stream.Valid()
  {
  }

  lemma FieldsNext(fields: seq<Slot>, slots: seq<SlotVal>, i: nat)
    requires MessageFits(fields, slots) && i < |fields|
    ensures SlotFits(fields[i], slots[i]) && WireFields(fields, slots, i + 1) == WireFields(fields, slots, i) + WireSlot(fields[i], slots[i])
  {
    hide WireSlot;
  }

  lemma {:induction false} FieldsGrow(fields: seq<Slot>, slots: seq<SlotVal>, m: nat, n: nat)
    requires MessageFits(fields, slots) && m <= n <= |fields|
    ensures |WireFields(fields, slots, m)| <= |WireFields(fields, slots, n)|
    decreases n
  {
    hide WireSlot;
    if m < n {
      FieldsGrow(fields, slots, m, n - 1);
    }
  }

  /** encode_basic_field; an array that exceeds its bound is refused. */
  method EncodeSlot(stream: OStream, slot: Slot, sv: SlotVal) returns (ok: bool)
    requires stream.Valid()
    requires SlotTyped(slot, sv)
    modifies stream
    ensures ok == (SlotFits(slot, sv) && stream.Accepts(old(stream.written), |WireSlot(slot, sv)|))
    ensures ok ==> stream.Took(old(stream.written), old(stream.out), WireSlot(slot, sv))
    decreases slot
  {
    hide Wire; hide Fits; hide Typed; hide TagBytes; hide Slice; hide IsZero; hide Packed; hide Unpacked;
    match slot
    case Required(tag, t) =>
      ok := EncodeTagged(stream, tag, t, sv.v);
    case Implicit(tag, t) =>
      if IsZero(t, sv.v) {
        ZeroFits(t, sv.v);
        return true;
      }
      ok := EncodeTagged(stream, tag, t, sv.v);
    case Optional(tag, t) =>
      if sv.o.None? {
        return true;
      }
      ok := EncodeTagged(stream, tag, t, sv.o.value);
    case Repeated(tag, t, max) =>
      if sv.vs == [] {
        return true;
      }
      if |sv.vs| > max {
        return false;
      }
      if Packable(t) {
        PackableFit(t, sv.vs);
        ok := EncodePacked(stream, tag, t, sv.vs);
      } else {
        ok := EncodeUnpacked(stream, tag, t, sv.vs);
      }
    case OneOf(members) =>
      if sv.c.None? {
        return true;
      }
      ok := EncodeMember(stream, members[sv.c.value.member], sv.c.value.v);
  }

  /** Values without a value byte are always within their bounds. */
  lemma {:induction false} ZeroFits(t: Type, v: Val)
    requires Typed(t, v) && IsZero(t, v)
    ensures Fits(t, v)
    decreases t
  {
    if t.SubT? {
      forall i | 0 <= i < |t.fields|
        ensures SlotFits(t.fields[i], v.slots[i])
      {
        var slot := t.fields[i];
        if slot.Implicit? {
          ZeroFits(slot.t, v.slots[i].v);
        }
      }
    }
  }

  lemma PackableFit(t: Type, vs: seq<Val>)
    requires Packable(t) && AllTyped(t, vs)
    ensures AllFit(t, vs)
  {
    forall i | 0 <= i < |vs|
      ensures Fits(t, vs[i])
    {
      assert Typed(t, vs[i]);
    }
  }

  method EncodeMember(stream: OStream, m: Member, v: Val) returns (ok: bool)
    requires stream.Valid()
    requires MemberTyped(m, v)
    modifies stream
    ensures ok == (MemberFits(m, v) && stream.Accepts(old(stream.written), |WireMember(m, v)|))
    ensures ok ==> stream.Took(old(stream.written), old(stream.out), WireMember(m, v))
    decreases m
  {
    ok := EncodeTagged(stream, m.tag, m.t, v);
  }

  method EncodeTagged(stream: OStream, tag: nat, t: Type, v: Val) returns (ok: bool)
    requires stream.Valid()
    requires Typed(t, v)
    modifies stream
    ensures ok == (Fits(t, v) && stream.Accepts(old(stream.written), |TagBytes(tag, WireType(t)) + Wire(t, v)|))
    ensures ok ==> stream.Took(old(stream.written), old(stream.out), TagBytes(tag, WireType(t)) + Wire(t, v))
    decreases t, 1
  {
    hide Wire; hide Fits; hide Typed; hide TagBytes;
    ok := EncodeTag(stream, tag, WireType(t));
    if ok {
      ok := EncodeVal(stream, t, v);
    }
    if ok {
      Regroup(old(stream.out), TagBytes(tag, WireType(t)), Wire(t, v));
    }
  }

  /** encode_array, packed: a counting pass unless the width is fixed. */
  method EncodePacked(stream: OStream, tag: nat, t: Type, vs: seq<Val>) returns (ok: bool)
    requires stream.Valid()
    requires Packable(t) && AllFit(t, vs)
    modifies stream
    ensures var bytes := TagBytes(tag, WT_STRING) + Slice(Packed(t, vs, |vs|));
            ok == stream.Accepts(old(stream.written), |bytes|) && (ok ==> stream.Took(old(stream.written), old(stream.out), bytes))
    decreases t, 2
  {
    hide Wire; hide Fits; hide TagBytes; hide Varint; hide Packed; hide AllFit;
    ghost var a, items := TagBytes(tag, WT_STRING), Packed(t, vs, |vs|);
    ghost var b := Varint(|items|);
    assert a + Slice(items) == a + b + items;
    assert old(stream.out) + (a + b + items) == old(stream.out) + a + b + items;
    ok := EncodeTag(stream, tag, WT_STRING);
    if !ok {
      return;
    }
    var size := PackedSize(t, vs);
    ok := EncodeVarint(stream, size);
    if !ok {
      return;
    }
    if stream.sizing {
      ok := stream.WriteSize(items, size);
      return;
    }
    ok := EncodeItems(stream, t, vs);
  }

  method PackedSize(t: Type, vs: seq<Val>) returns (size: nat)
    requires Packable(t) && AllFit(t, vs)
    ensures size == |Packed(t, vs, |vs|)|
  {
    if t.Fixed32T? {
      FixedWidth(t, vs, |vs|, 4);
      return 4 * |vs|;
    } else if t.Fixed64T? {
      FixedWidth(t, vs, |vs|, 8);
      return 8 * |vs|;
    }
    hide Packed; hide AllFit;
    var counter := new OStream(true, 0, []);
    var ok := EncodeItems(counter, t, vs);
    size := counter.written;
  }

  lemma {:induction false} FixedWidth(t: Type, vs: seq<Val>, n: nat, w: nat)
    requires AllFit(t, vs) && n <= |vs| && ((t.Fixed32T? && w == 4) || (t.Fixed64T? && w == 8))
    ensures |Packed(t, vs, n)| == w * n
  {
    if n > 0 {
      FixedWidth(t, vs, n - 1, w);
      hide Fixed32; hide Fixed64;
      assert |Wire(t, vs[n - 1])| == w by { ItemWidth(t, vs[n - 1]); }
    }
  }

  lemma ItemWidth(t: Type, v: Val)
    requires (t.Fixed32T? || t.Fixed64T?) && Fits(t, v)
    ensures |Wire(t, v)| == if t.Fixed32T? then 4 else 8
  {
  }

  method EncodeItems(stream: OStream, t: Type, vs: seq<Val>) returns (ok: bool)
    requires stream.Valid()
    requires Packable(t) && AllFit(t, vs)
    modifies stream
    ensures ok == stream.Accepts(old(stream.written), |Packed(t, vs, |vs|)|)
    ensures ok ==> stream.Took(old(stream.written), old(stream.out), Packed(t, vs, |vs|))
  {
    hide Wire; hide Fits; hide Packed; hide AllFit;
    NoItems(t, vs);
    ghost var w0, o0 := stream.written, stream.out;
    StartChain(stream);
    hide OStream.Accepts; hide OStream.Valid;
    for i := 0 to |vs|
      invariant stream.Valid()
      invariant stream.Accepts(old(stream.written), |Packed(t, vs, i)|)
      invariant stream.Took(old(stream.written), old(stream.out), Packed(t, vs, i))
    {
      ItemsNext(t, vs, i);
      ghost var front, more := Packed(t, vs, i), Wire(t, vs[i]);
      ghost var w, o := stream.written, stream.out;
      var fine := EncodeNum(stream, t, vs[i]);
      Chain(stream, w0, o0, front, w, o, more, fine);
      if !fine {
        ItemsGrow(t, vs, i + 1, |vs|);
        return false;
      }
    }
    return true;
  }

  lemma NoItems(t: Type, vs: seq<Val>)
    requires AllFit(t, vs)
    ensures Packed(t, vs, 0) == []
  {
  }

  lemma ItemsNext(t: Type, vs: seq<Val>, i: nat)
    requires AllFit(t, vs) && i < |vs|
    ensures Fits(t, vs[i]) && Packed(t, vs, i + 1) == Packed(t, vs, i) + Wire(t, vs[i])
  {
    hide Wire; hide Fits;
  }

  lemma {:induction false} ItemsGrow(t: Type, vs: seq<Val>, m: nat, n: nat)
    requires AllFit(t, vs) && m <= n <= |vs|
    ensures |Packed(t, vs, m)| <= |Packed(t, vs, n)|
    decreases n
  {
    hide Wire; hide Fits;
    if m < n {
      ItemsGrow(t, vs, m, n - 1);
    }
  }

  /** encode_array, one tag per item. */
  method EncodeUnpacked(stream: OStream, tag: nat, t: Type, vs: seq<Val>) returns (ok: bool)
    requires stream.Valid()
    requires AllTyped(t, vs)
    modifies stream
    ensures ok == (AllFit(t, vs) && stream.Accepts(old(stream.written), |Unpacked(tag, t, vs, |vs|)|))
    ensures ok ==> stream.Took(old(stream.written), old(stream.out), Unpacked(tag, t, vs, |vs|))
    decreases t, 2
  {
    hide Wire; hide Fits; hide Typed; hide TagBytes; hide WireType; hide Unpacked; hide AllFit;
    ghost var w0, o0 := stream.written, stream.out;
    StartChain(stream);
    if AllFit(t, vs) {
      NoUnpacked(tag, t, vs);
    }
    hide OStream.Accepts; hide OStream.Valid;
    for i := 0 to |vs|
      invariant stream.Valid() && (forall j :: 0 <= j < i ==> Fits(t, vs[j]))
      invariant AllFit(t, vs) ==>
                  && stream.Accepts(old(stream.written), |Unpacked(tag, t, vs, i)|)
                  && stream.Took(old(stream.written), old(stream.out), Unpacked(tag, t, vs, i))
    {
      ghost var w, o := stream.written, stream.out;
      var fine := EncodeTagged(stream, tag, t, vs[i]);
      if AllFit(t, vs) {
        UnpackedNext(tag, t, vs, i);
        Chain(stream, w0, o0, Unpacked(tag, t, vs, i), w, o, TagBytes(tag, WireType(t)) + Wire(t, vs[i]), fine);
        UnpackedGrow(tag, t, vs, i + 1, |vs|);
        LessRoom(stream, w0, |Unpacked(tag, t, vs, i + 1)|, |Unpacked(tag, t, vs, |vs|)|);
      }
      if !fine {
        return false;
      }
      StillValid(stream, w, o, TagBytes(tag, WireType(t)) + Wire(t, vs[i]));
    }
    AllItems(t, vs);
    return true;
  }

  lemma AllItems(t: Type, vs: seq<Val>)
    requires forall j :: 0 <= j < |vs| ==> Fits(t, vs[j])
    ensures AllFit(t, vs)
  {
    hide Fits;
  }

  lemma NoUnpacked(tag: nat, t: Type, vs: seq<Val>)
    requires AllFit(t, vs)
    ensures Unpacked(tag, t, vs, 0) == []
  {
  }

  lemma UnpackedNext(tag: nat, t: Type, vs: seq<Val>, i: nat)
    requires AllFit(t, vs) && i < |vs|
    ensures Fits(t, vs[i])
    ensures Unpacked(tag, t, vs, i + 1) == Unpacked(tag, t, vs, i) + (TagBytes(tag, WireType(t)) + Wire(t, vs[i]))
  {
    hide Wire; hide Fits; hide TagBytes;
  }

  lemma {:induction false} UnpackedGrow(tag: nat, t: Type, vs: seq<Val>, m: nat, n: nat)
    requires AllFit(t, vs) && m <= n <= |vs|
    ensures |Unpacked(tag, t, vs, m)| <= |Unpacked(tag, t, vs, n)|
    decreases n
  {
    hide Wire; hide Fits; hide TagBytes;
    if m < n {
      UnpackedGrow(tag, t, vs, m, n - 1);
    }
  }

  lemma StartChain(stream: OStream)
    requires stream.Valid()
    ensures stream.Took(stream.written, stream.out, []) && stream.Accepts(stream.written, 0)
  {
  }

  /** What two parts do one after the other. */
  lemma Chain(stream: OStream, w0: nat, o0: Bytes, front: Bytes, w: nat, o: Bytes, more: Bytes, ok: bool)
    requires w == w0 + |front| && o == (if stream.sizing then o0 else o0 + front) && ok == stream.Accepts(w, |more|)
    requires ok ==> stream.Took(w, o, more)
    ensures ok == stream.Accepts(w0, |front + more|)
    ensures ok ==> stream.Took(w0, o0, front + more) && stream.Valid()
  {
    Regroup(o0, front, more);
  }

  lemma Regroup(a: Bytes, b: Bytes, c: Bytes)
    ensures a + (b + c) == a + b + c
  {
  }

  /** pb_get_encoded_size: fails exactly on messages that exceed their bounds. */
  method GetEncodedSize(fields: seq<Slot>, slots: seq<SlotVal>) returns (ok: bool, size: nat)
    requires MessageTyped(fields, slots)
    ensures ok == MessageFits(fields, slots) && (ok ==> size == |WireFields(fields, slots, |fields|)|)
  {
    hide MessageFits; hide MessageTyped; hide WireFields;
    var counter := new OStream(true, 0, []);
    ok := EncodeMessage(counter, fields, slots);
    size := counter.written;
  }
}
