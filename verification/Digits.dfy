/** Numbers as bytes, digit by digit. */
module Digits {
  import opened Keys
  import opened Coding

  datatype Taken<+T> = Taken(value: T, rest: Bytes)

  /** Base-128 digits, the lowest first, with 128 added to all but the last. */
  function Base128(s: Bytes): (r: Option<Taken<nat>>)
    ensures r.Some? ==> |r.value.rest| < |s|
  {
    if s == [] then None
    else if s[0] < 128 then Some(Taken(s[0], s[1..]))
    else
      match Base128(s[1..])
      case None => None
      case Some(t) => Some(Taken(s[0] - 128 + 128 * t.value, t.rest))
  }

  function Power256(i: nat): nat {
    if i == 0 then 1 else 256 * Power256(i - 1)
  }

  /** A number in n bytes: byte i has weight 256 to the i. */
  ghost predicate IsFixed(bytes: Bytes, v: nat, n: nat) {
    |bytes| == n && forall i :: 0 <= i < n ==> Power256(i) > 0 && bytes[i] == v / Power256(i) % 256
  }

  lemma {:induction false} VarintIs(v: nat, rest: Bytes)
    ensures Base128(Varint(v) + rest) == Some(Taken(v, rest))
    decreases v
  {
    var s := Varint(v) + rest;
    if v >= 128 {
      VarintIs(v / 128, rest);
      assert s[1..] == Varint(v / 128) + rest;
    } else {
      assert s[1..] == rest;
    }
  }

  lemma Powers()
    ensures Power256(0) == 1 && Power256(1) == 0x100 && Power256(2) == 0x1_0000 && Power256(3) == 0x100_0000
    ensures Power256(4) == 0x1_0000_0000 && Power256(5) == 0x100_0000_0000
    ensures Power256(6) == 0x1_0000_0000_0000 && Power256(7) == 0x100_0000_0000_0000
  {
    assert Power256(2) == 256 * Power256(1);
    assert Power256(4) == 256 * Power256(3);
    assert Power256(6) == 256 * Power256(5);
  }

  lemma Fixed32Is(v: nat)
    requires v < TWO32
    ensures IsFixed(Fixed32(v), v, 4)
  {
    Powers();
    var s := Fixed32(v);
    forall i | 0 <= i < 4
      ensures Power256(i) > 0 && s[i] == v / Power256(i) % 256
    {
      assert i == 0 || i == 1 || i == 2 || i == 3;
    }
  }

  lemma Fixed64Is(v: nat)
    requires v < TWO64
    ensures IsFixed(Fixed64(v), v, 8)
  {
    Powers();
    var a, b := v % TWO32, v / TWO32;
    var s := Fixed64(v);
    assert s[0] == a % 256 && s[1] == a / 0x100 % 256 && s[2] == a / 0x1_0000 % 256 && s[3] == a / 0x100_0000;
    assert s[4] == b % 256 && s[5] == b / 0x100 % 256 && s[6] == b / 0x1_0000 % 256 && s[7] == b / 0x100_0000;
    hide Fixed64; hide Fixed32;
    LowDigits(v, a, b);
    HighDigits(v, b);
    forall i | 0 <= i < 8
      ensures Power256(i) > 0 && s[i] == v / Power256(i) % 256
    {
      assert i == 0 || i == 1 || i == 2 || i == 3 || i == 4 || i == 5 || i == 6 || i == 7;
    }
  }

  lemma SameByte(b: nat, q: nat)
    ensures (256 * b + q) % 256 == q % 256
  {
    assert 256 * b + q == 256 * (b + q / 256) + q % 256;
  }

  lemma Digit1(v: nat, a: nat, b: nat)
    requires v == b * 0x1_0000_0000 + a
    ensures a / 0x100 % 256 == v / 0x100 % 256
  {
    var q := a / 0x100;
    assert v == 0x100 * (b * 0x100_0000 + q) + a % 0x100;
    assert v / 0x100 == b * 0x100_0000 + q;
    SameByte(b * 0x10000, q);
  }

  lemma Digit2(v: nat, a: nat, b: nat)
    requires v == b * 0x1_0000_0000 + a
    ensures a / 0x1_0000 % 256 == v / 0x1_0000 % 256
  {
    var q := a / 0x1_0000;
    assert v == 0x1_0000 * (b * 0x1_0000 + q) + a % 0x1_0000;
    assert v / 0x1_0000 == b * 0x1_0000 + q;
    SameByte(b * 0x100, q);
  }

  lemma Digit3(v: nat, a: nat, b: nat)
    requires v == b * 0x1_0000_0000 + a
    ensures a / 0x100_0000 % 256 == v / 0x100_0000 % 256
  {
    var q := a / 0x100_0000;
    assert v == 0x100_0000 * (b * 0x100 + q) + a % 0x100_0000;
    assert v / 0x100_0000 == b * 0x100 + q;
    SameByte(b, q);
  }

  lemma LowDigits(v: nat, a: nat, b: nat)
    requires v == b * 0x1_0000_0000 + a && a < 0x1_0000_0000
    ensures a % 256 == v % 256 && a / 0x100 % 256 == v / 0x100 % 256 && a / 0x1_0000 % 256 == v / 0x1_0000 % 256
    ensures a / 0x100_0000 == v / 0x100_0000 % 256
  {
    Digit1(v, a, b);
    Digit2(v, a, b);
    Digit3(v, a, b);
    SameByte(b * 0x100_0000, a);
    assert a / 0x100_0000 < 256;
  }

  lemma HighDigits(v: nat, b: nat)
    requires b == v / 0x1_0000_0000 && b < 0x1_0000_0000
    ensures b / 0x100 == v / 0x100_0000_0000 && b / 0x1_0000 == v / 0x1_0000_0000_0000 && b / 0x100_0000 == v / 0x100_0000_0000_0000
    ensures b / 0x100_0000 < 256
  {
  }

  lemma FixedBack(s: Bytes)
    requires |s| >= 4
    ensures Fixed32(GetFixed32(s)) == s[..4]
  {
    var a: nat, b: nat, c: nat, d: nat := s[0], s[1], s[2], s[3];
    var v := GetFixed32(s);
    assert v / 0x100 == b + 0x100 * c + 0x1_0000 * d;
    assert v / 0x1_0000 == c + 0x100 * d;
    assert v / 0x100_0000 == d;
  }

  /** Four bytes give the number whose digits they are. */
  lemma Fixed32Means(s: Bytes, v: nat)
    requires |s| >= 4 && v < TWO32
    ensures GetFixed32(s) == v <==> IsFixed(s[..4], v, 4)
  {
    FixedBack(s);
    Fixed32Is(GetFixed32(s));
    if IsFixed(s[..4], v, 4) {
      Fixed32Is(v);
      SameDigits(s[..4], Fixed32(v), v, 4);
      Fixed32RoundTrip(v, []);
      assert Fixed32(v) + [] == Fixed32(v);
      assert GetFixed32(s[..4]) == GetFixed32(s);
    }
  }

  lemma SameDigits(a: Bytes, b: Bytes, v: nat, n: nat)
    requires IsFixed(a, v, n) && IsFixed(b, v, n)
    ensures a == b
  {
  }

  lemma Fixed64Back(s: Bytes)
    requires |s| >= 8
    ensures GetFixed64(s) < TWO64 && Fixed64(GetFixed64(s)) == s[..8]
  {
    FixedBack(s);
    FixedBack(s[4..]);
    var a, b := GetFixed32(s), GetFixed32(s[4..]);
    hide Fixed32; hide GetFixed32;
    assert (a + TWO32 * b) % TWO32 == a && (a + TWO32 * b) / TWO32 == b;
    assert s[..8] == s[..4] + s[4..][..4];
  }

  lemma Fixed64Means(s: Bytes, v: nat)
    requires |s| >= 8 && v == GetFixed64(s)
    ensures v < TWO64 && IsFixed(s[..8], v, 8)
  {
    hide Fixed64; hide GetFixed64;
    Fixed64Back(s);
    Fixed64Is(v);
  }
}
