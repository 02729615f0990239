/** Byte-level encodings (util/coding.cc, util/crc32c.h). */
module Coding {
  import opened Keys

  type byte = b: int | 0 <= b < 256

  type Bytes = seq<byte>

  const TWO32: nat := 0x1_0000_0000
  const TWO64: nat := 0x1_0000_0000_0000_0000

  // ----- fixed width

  /** Least significant byte first. */
  function Fixed32(v: nat): (s: Bytes)
    requires v < TWO32
    ensures |s| == 4
  {
    [v % 0x100, v / 0x100 % 0x100, v / 0x1_0000 % 0x100, v / 0x100_0000]
  }

  function GetFixed32(s: Bytes): (v: nat)
    requires |s| >= 4
    ensures v < TWO32
  {
    var a: nat, b: nat, c: nat, d: nat := s[0], s[1], s[2], s[3];
    a + 0x100 * b + 0x1_0000 * c + 0x100_0000 * d
  }

  lemma Fixed32RoundTrip(v: nat, rest: Bytes)
    requires v < TWO32
    ensures GetFixed32(Fixed32(v) + rest) == v
  {
    var s := Fixed32(v) + rest;
    assert s[0] == v % 0x100 && s[1] == v / 0x100 % 0x100 && s[2] == v / 0x1_0000 % 0x100 && s[3] == v / 0x100_0000;
    assert v / 0x100 == v / 0x1_0000 * 0x100 + v / 0x100 % 0x100;
    assert v / 0x1_0000 == v / 0x100_0000 * 0x100 + v / 0x1_0000 % 0x100;
  }

  function Fixed64(v: nat): (s: Bytes)
    requires v < TWO64
    ensures |s| == 8
  {
    Fixed32(v % TWO32) + Fixed32(v / TWO32)
  }

  function GetFixed64(s: Bytes): (v: nat)
    requires |s| >= 8
    ensures v < TWO64
  {
    GetFixed32(s) + TWO32 * GetFixed32(s[4..])
  }

  lemma Fixed64RoundTrip(v: nat, rest: Bytes)
    requires v < TWO64
    ensures GetFixed64(Fixed64(v) + rest) == v
  {
    var a, b := Fixed32(v % TWO32), Fixed32(v / TWO32);
    var s := Fixed64(v) + rest;
    assert s == a + (b + rest) && s[4..] == b + rest;
    hide Fixed32; hide GetFixed32;
    Fixed32RoundTrip(v % TWO32, b + rest);
    Fixed32RoundTrip(v / TWO32, rest);
  }

  // ----- varints

  /** Seven bits a byte, the top bit on all but the last. */
  function Varint(v: nat): (s: Bytes)
    ensures |s| >= 1
  {
    if v < 128 then [v] else [128 + v % 128] + Varint(v / 128)
  }

  /** A number and how many bytes it took. */
  datatype Parsed = Parsed(value: nat, used: nat)

  /** At most `most` bytes are looked at. */
  function VarintAt(s: Bytes, most: nat): (r: Option<Parsed>)
    ensures r.Some? ==> 1 <= r.value.used <= |s|
  {
    if most == 0 || s == [] then None
    else if s[0] < 128 then Some(Parsed(s[0], 1))
    else
      var r := VarintAt(s[1..], most - 1);
      if r.None? then None else Some(Parsed(s[0] - 128 + 128 * r.value.value, 1 + r.value.used))
  }

  function Power128(n: nat): (p: nat)
    ensures p >= 1
  {
    if n == 0 then 1 else 128 * Power128(n - 1)
  }

  lemma {:induction false} VarintRoundTrip(v: nat, most: nat, rest: Bytes)
    requires most > 0 && v < Power128(most)
    ensures VarintAt(Varint(v) + rest, most) == Some(Parsed(v, |Varint(v)|))
  {
    var s := Varint(v) + rest;
    if v >= 128 {
      assert Power128(1) == 128 * Power128(0);
      assert most >= 2;
      assert v / 128 < Power128(most - 1);
      var w := v / 128;
      assert Varint(v) == [128 + v % 128] + Varint(w);
      hide Varint; hide Power128;
      VarintRoundTrip(w, most - 1, rest);
      assert s[1..] == Varint(w) + rest;
    }
  }

  lemma {:induction false} VarintLength(v: nat, most: nat)
    requires most > 0
    ensures |Varint(v)| <= most <==> v < Power128(most)
  {
    assert Power128(most) == 128 * Power128(most - 1);
    if v >= 128 {
      if most > 1 {
        VarintLength(v / 128, most - 1);
      } else {
        assert Power128(0) == 1;
      }
    }
  }

  lemma Limits()
    ensures TWO32 <= Power128(5) && TWO64 <= Power128(10)
  {
    assert Power128(2) == 128 * Power128(1) == 0x4000;
    assert Power128(4) == 128 * Power128(3) == 0x1000_0000;
    assert Power128(5) == 128 * Power128(4);
    assert Power128(7) == 128 * (128 * Power128(5));
    assert Power128(10) == 128 * (128 * (128 * Power128(7)));
  }

  /** GetVarint32Ptr and GetVarint64Ptr: shift by shift, then cut to width. */
  method GetVarint(s: Bytes, most: nat, width: nat) returns (r: Option<Parsed>)
    requires width > 0
    ensures r == Narrow(VarintAt(s, most), width)
  {
    hide Shifted; hide Narrow; hide Plus;
    var result: nat, scale: nat, i: nat := 0, 1, 0;
    assert s[0..] == s;
    StartShifted(VarintAt(s, most));
    while i < most && i < |s|
      invariant i <= most && i <= |s|
      invariant VarintAt(s, most) == Shifted(result, scale, i, VarintAt(s[i..], most - i))
    {
      var b: nat := s[i];
      VarintStep(s[i..], most - i);
      assert s[i..][1..] == s[i + 1..];
      if b < 128 {
        ShiftLast(result, scale, i, b);
        return Narrow(Some(Parsed(Plus(result, b, scale), i + 1)), width);
      }
      hide VarintAt;
      ShiftStep(result, scale, i, b, VarintAt(s[i + 1..], most - i - 1));
      result := Plus(result, b - 128, scale);
      scale := 128 * scale;
      i := i + 1;
    }
    NoneShifted(result, scale, i, width);
    return None;
  }

  lemma StartShifted(r: Option<Parsed>)
    ensures Shifted(0, 1, 0, r) == r
  {
  }

  lemma NoneShifted(result: nat, scale: nat, i: nat, width: nat)
    requires width > 0
    ensures Narrow(Shifted(result, scale, i, None), width) == None
  {
  }

  function Narrow(r: Option<Parsed>, width: nat): Option<Parsed>
    requires width > 0
  {
    if r.None? then None else Some(Parsed(r.value.value % width, r.value.used))
  }

  function Plus(result: nat, b: nat, scale: nat): nat {
    result + b * scale
  }

  lemma VarintStep(s: Bytes, most: nat)
    requires most > 0 && s != []
    ensures VarintAt(s, most) ==
            if s[0] < 128 then Some(Parsed(s[0], 1))
            else Longer(s[0], VarintAt(s[1..], most - 1))
  {
  }

  function Longer(b: nat, r: Option<Parsed>): Option<Parsed>
    requires b >= 128
  {
    if r.None? then None else Some(Parsed(b - 128 + 128 * r.value.value, 1 + r.value.used))
  }

  lemma ShiftLast(result: nat, scale: nat, i: nat, b: nat)
    ensures Shifted(result, scale, i, Some(Parsed(b, 1))) == Some(Parsed(Plus(result, b, scale), i + 1))
  {
  }

  function Shifted(result: nat, scale: nat, i: nat, r: Option<Parsed>): Option<Parsed> {
    if r.None? then None else Some(Parsed(result + r.value.value * scale, i + r.value.used))
  }

  lemma ShiftStep(result: nat, scale: nat, i: nat, b: nat, r: Option<Parsed>)
    requires b >= 128
    ensures Shifted(result, scale, i, Longer(b, r)) == Shifted(Plus(result, b - 128, scale), 128 * scale, i + 1, r)
  {
    if r.Some? {
      assert (b - 128 + 128 * r.value.value) * scale == (b - 128) * scale + r.value.value * (128 * scale);
    }
  }

  /** EncodeVarint64. */
  method PutVarint(v: nat) returns (s: Bytes)
    ensures s == Varint(v)
  {
    s := [];
    var w := v;
    while w >= 128
      invariant Varint(v) == s + Varint(w)
    {
      s := s + [128 + w % 128];
      w := w / 128;
    }
    s := s + [w];
  }

  // ----- length-prefixed slices

  function Slice(data: Bytes): Bytes {
    Varint(|data|) + data
  }

  datatype Cut = Cut(data: Bytes, rest: Bytes)

  /** GetLengthPrefixedSlice. */
  function GetSlice(s: Bytes): Option<Cut> {
    match VarintAt(s, 5)
    case None => None
    case Some(p) =>
      var n, tail := p.value % TWO32, s[p.used..];
      if n <= |tail| then Some(Cut(tail[..n], tail[n..])) else None
  }

  lemma SliceRoundTrip(data: Bytes, rest: Bytes)
    requires |data| < TWO32
    ensures GetSlice(Slice(data) + rest) == Some(Cut(data, rest))
  {
    hide Varint; hide VarintAt; hide Power128;
    Limits();
    VarintRoundTrip(|data|, 5, data + rest);
    assert Slice(data) + rest == Varint(|data|) + (data + rest);
    var tail := (Slice(data) + rest)[|Varint(|data|)|..];
    assert tail == data + rest;
    assert tail[..|data|] == data && tail[|data|..] == rest;
  }

  // ----- checksums

  /** crc32c::Mask: rotate right by 15 bits and add a constant. */
  const MASK_DELTA: nat := 0xa282_ead8

  function Mask(crc: nat): (m: nat)
    requires crc < TWO32
    ensures m < TWO32
  {
    (crc / 0x8000 + crc % 0x8000 * 0x2_0000 + MASK_DELTA) % TWO32
  }

  function Unmask(masked: nat): (crc: nat)
    requires masked < TWO32
    ensures crc < TWO32
  {
    var rot := (masked + TWO32 - MASK_DELTA) % TWO32;
    rot / 0x2_0000 + rot % 0x2_0000 * 0x8000
  }

  /** Masking is a bijection of the 32-bit words, and Unmask is its inverse. */
  lemma MaskBijective(x: nat)
    requires x < TWO32
    ensures Unmask(Mask(x)) == x && Mask(Unmask(x)) == x
  {
    hide Mask; hide Unmask;
    UnmaskMask(x);
    MaskUnmask(x);
  }

  lemma MaskUnmask(m: nat)
    requires m < TWO32
    ensures Mask(Unmask(m)) == m
  {
    var rot := (m + TWO32 - MASK_DELTA) % TWO32;
    var crc := Unmask(m);
    assert crc / 0x8000 == rot % 0x2_0000 && crc % 0x8000 == rot / 0x2_0000;
    assert crc / 0x8000 + crc % 0x8000 * 0x2_0000 == rot;
  }

  lemma UnmaskMask(crc: nat)
    requires crc < TWO32
    ensures Unmask(Mask(crc)) == crc
  {
    var rot := crc / 0x8000 + crc % 0x8000 * 0x2_0000;
    assert rot < TWO32;
    assert Mask(crc) == if rot + MASK_DELTA < TWO32 then rot + MASK_DELTA else rot + MASK_DELTA - TWO32;
    assert (Mask(crc) + TWO32 - MASK_DELTA) % TWO32 == rot;
    assert rot / 0x2_0000 == crc % 0x8000 && rot % 0x2_0000 == crc / 0x8000;
  }

  /** One bit of CRC-32C: the reflected Castagnoli polynomial. */
  function CrcBits(l: bv32, n: nat): bv32
    decreases n
  {
    if n == 0 then l
    else CrcBits(if l & 1 == 1 then (l >> 1) ^ 0x82F6_3B78 else l >> 1, n - 1)
  }

  function CrcByte(l: bv32, b: byte): bv32 {
    CrcBits(l ^ (b as bv32), 8)
  }

  function CrcBytes(l: bv32, s: Bytes): bv32
    decreases |s|
  {
    if s == [] then l else CrcBytes(CrcByte(l, s[0]), s[1..])
  }

  function Flip(x: bv32): bv32 {
    x ^ 0xFFFF_FFFF
  }

  /** crc32c::Extend. */
  function Extend(crc: bv32, s: Bytes): bv32 {
    Flip(CrcBytes(Flip(crc), s))
  }

  lemma {:induction false} CrcConcat(l: bv32, a: Bytes, b: Bytes)
    ensures CrcBytes(l, a + b) == CrcBytes(CrcBytes(l, a), b)
    decreases |a|
  {
    hide CrcByte;
    if a == [] {
      assert a + b == b;
    } else {
      CrcConcat(CrcByte(l, a[0]), a[1..], b);
      assert (a + b)[1..] == a[1..] + b;
    }
  }

  lemma FlipTwice(x: bv32)
    ensures Flip(Flip(x)) == x
  {
  }

  lemma ExtendConcat(crc: bv32, a: Bytes, b: Bytes)
    ensures Extend(Extend(crc, a), b) == Extend(crc, a + b)
  {
    hide CrcBytes; hide Flip;
    CrcConcat(Flip(crc), a, b);
    FlipTwice(CrcBytes(Flip(crc), a));
  }
}
