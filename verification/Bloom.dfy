/** Bloom filters (util/bloom.cc).  The hash function is a parameter: any
    function from keys to 32-bit numbers will do. */
module Bloom {
  import opened Coding
  import B = Block

  // ----- bits of a byte array

  function Weight(i: nat): (w: nat)
    requires i < 8
    ensures 1 <= w <= 128
  {
    if i == 0 then 1 else if i == 1 then 2 else if i == 2 then 4 else if i == 3 then 8
    else if i == 4 then 16 else if i == 5 then 32 else if i == 6 then 64 else 128
  }

  predicate ByteBit(b: byte, i: nat)
    requires i < 8
  {
    b / Weight(i) % 2 == 1
  }

  lemma RoomForBit(b: byte, i: nat)
    requires i < 8 && !ByteBit(b, i)
    ensures b + Weight(i) < 256
  {
  }

  /** b | (1 << i). */
  function WithBit(b: byte, i: nat): byte
    requires i < 8
  {
    if ByteBit(b, i) then b else RoomForBit(b, i); b + Weight(i)
  }

  lemma WithBitBits(b: byte, i: nat, j: nat)
    requires i < 8 && j < 8
    ensures ByteBit(WithBit(b, i), j) <==> ByteBit(b, j) || i == j
  {
    if !ByteBit(b, i) {
      RoomForBit(b, i);
      AddedBit(b, Weight(i), Weight(j), i, j);
    }
  }

  lemma WeightRatio(i: nat, j: nat)
    requires j < i < 8
    ensures Weight(i) == Weight(j) * (2 * Weight(i - j - 1))
  {
  }

  /** Adding a multiple of 2u leaves the parity of the u-th place. */
  lemma AddHigher(b: nat, u: nat, c: nat)
    requires u > 0
    ensures (b + u * (2 * c)) / u == b / u + 2 * c
  {
    assert b + u * (2 * c) == (b / u + 2 * c) * u + b % u;
    B.DivUnique(b + u * (2 * c), u, b / u + 2 * c, b % u);
  }

  /** Filling an empty place does not carry into the higher ones. */
  lemma AddLower(b: nat, w: nat, m: nat)
    requires w > 0 && m > 0 && b / w % 2 == 0
    ensures (b + w) / (w * (2 * m)) == b / (w * (2 * m))
  {
    var k, u := 2 * m, w * (2 * m);
    Positive(w, k);
    Divided(b, u);
    NoCarry(b, w, k, u, b / u, b % u);
  }

  lemma Positive(a: nat, b: nat)
    requires a > 0 && b > 0
    ensures a * b > 0
  {
  }

  lemma Divided(b: nat, u: nat)
    requires u > 0
    ensures b == b / u * u + b % u && b % u < u
  {
  }

  lemma EvenProduct(q: nat, m: nat)
    ensures q * (2 * m) % 2 == 0
  {
    assert q * (2 * m) == 2 * (q * m);
  }

  lemma NoCarry(b: nat, w: nat, k: nat, u: nat, q: nat, s: nat)
    requires w > 0 && k % 2 == 0 && u == w * k && b == q * u + s && s < u && b / w % 2 == 0
    ensures (b + w) / u == q
  {
    Quotient(b, w, k, q, s);
    EvenProduct(q, k / 2);
    var e := s / w;
    Divided(s, w);
    EvenDifference(b / w, q * k, e);
    Under(e, k, w, s);
    B.DivUnique(b + w, u, q, s + w);
  }

  lemma EvenDifference(x: nat, y: nat, e: nat)
    requires x == y + e && x % 2 == 0 && y % 2 == 0
    ensures e % 2 == 0
  {
  }

  lemma Quotient(b: nat, w: nat, k: nat, q: nat, s: nat)
    requires w > 0 && b == q * (w * k) + s
    ensures b / w == q * k + s / w
  {
    assert b == (q * k + s / w) * w + s % w;
    B.DivUnique(b, w, q * k + s / w, s % w);
  }

  lemma Under(e: nat, k: nat, w: nat, s: nat)
    requires w > 0 && e % 2 == 0 && k % 2 == 0 && s == e * w + s % w && s < w * k
    ensures s + w < w * k
  {
    if e >= k {
      B.MultipleGrows(k, e, w);
    }
    assert e + 2 <= k;
    B.MultipleGrows(e + 2, k, w);
    assert (e + 2) * w == e * w + 2 * w;
  }

  lemma AddedBit(b: nat, w: nat, u: nat, i: nat, j: nat)
    requires i < 8 && j < 8 && w == Weight(i) && u == Weight(j) && b / w % 2 == 0
    ensures (b + w) / u % 2 == 1 <==> b / u % 2 == 1 || i == j
  {
    if i == j {
      B.AddModulus(b, w);
    } else if j < i {
      WeightRatio(i, j);
      AddHigher(b, u, Weight(i - j - 1));
    } else {
      WeightRatio(j, i);
      AddLower(b, w, Weight(j - i - 1));
    }
  }

  predicate BitSet(bits: Bytes, pos: nat)
    requires pos < 8 * |bits|
  {
    ByteBit(bits[pos / 8], pos % 8)
  }

  function SetBit(bits: Bytes, pos: nat): (r: Bytes)
    requires pos < 8 * |bits|
    ensures |r| == |bits|
  {
    bits[pos / 8 := WithBit(bits[pos / 8], pos % 8)]
  }

  /** Setting a bit sets that bit and no other. */
  lemma SetBitBits(bits: Bytes, pos: nat, q: nat)
    requires pos < 8 * |bits| && q < 8 * |bits|
    ensures BitSet(SetBit(bits, pos), q) <==> BitSet(bits, q) || q == pos
  {
    hide WithBit; hide ByteBit;
    if pos / 8 == q / 8 {
      WithBitBits(bits[pos / 8], pos % 8, q % 8);
    }
  }

  // ----- probing

  type Word = h: int | 0 <= h < 0x1_0000_0000

  type Hash = Bytes -> Word

  /** (h >> 17) | (h << 15) for a 32-bit h. */
  function Delta(h: nat): nat {
    h / 0x2_0000 + h % 0x2_0000 * 0x8000
  }

  function NextProbe(h: nat, delta: nat): nat {
    (h + delta) % TWO32
  }

  /** k probes starting with h all find their bit set. */
  predicate AllSet(bits: Bytes, h: nat, delta: nat, k: nat)
    requires |bits| > 0
    decreases k
  {
    k == 0 || (BitSet(bits, h % (8 * |bits|)) && AllSet(bits, NextProbe(h, delta), delta, k - 1))
  }

  /** BloomFilterPolicy::KeyMayMatch; the last byte is the number of probes. */
  predicate MayMatch(hash: Hash, key: Bytes, filter: Bytes) {
    if |filter| < 2 then false
    else
      var bits, k := filter[..|filter| - 1], filter[|filter| - 1];
      k > 30 || AllSet(bits, hash(key), Delta(hash(key)), k)
  }

  /** Every bit set in a is set in b. */
  ghost predicate Within(a: Bytes, b: Bytes) {
    |a| == |b| && forall q :: 0 <= q < 8 * |a| && BitSet(a, q) ==> BitSet(b, q)
  }

  lemma SetWithin(a: Bytes, pos: nat)
    requires pos < 8 * |a|
    ensures Within(a, SetBit(a, pos)) && BitSet(SetBit(a, pos), pos)
  {
    hide SetBit; hide BitSet;
    SetBitSize(a, pos);
    SetBitBits(a, pos, pos);
    forall q | 0 <= q < 8 * |a| && BitSet(a, q)
      ensures BitSet(SetBit(a, pos), q)
    {
      SetBitBits(a, pos, q);
    }
  }

  lemma SetBitSize(a: Bytes, pos: nat)
    requires pos < 8 * |a|
    ensures |SetBit(a, pos)| == |a|
  {
  }

  lemma {:induction false} MoreBits(a: Bytes, b: Bytes, h: nat, delta: nat, k: nat)
    requires |a| > 0 && Within(a, b) && AllSet(a, h, delta, k)
    ensures AllSet(b, h, delta, k)
    decreases k
  {
    hide BitSet;
    if k > 0 {
      assert BitSet(a, h % (8 * |a|));
      MoreBits(a, b, NextProbe(h, delta), delta, k - 1);
    }
  }

  ghost predicate AllMatch(hash: Hash, keys: seq<Bytes>, bits: Bytes, k: nat)
    requires |bits| > 0
  {
    forall i :: 0 <= i < |keys| ==> AllSet(bits, hash(keys[i]), Delta(hash(keys[i])), k)
  }

  lemma StillMatch(hash: Hash, keys: seq<Bytes>, a: Bytes, b: Bytes, k: nat)
    requires |a| > 0 && Within(a, b) && AllMatch(hash, keys, a, k)
    ensures AllMatch(hash, keys, b, k)
  {
    hide AllSet; hide Within;
    WithinSize(a, b);
    forall i | 0 <= i < |keys|
      ensures AllSet(b, hash(keys[i]), Delta(hash(keys[i])), k)
    {
      MoreBits(a, b, hash(keys[i]), Delta(hash(keys[i])), k);
    }
  }

  lemma WithinSize(a: Bytes, b: Bytes)
    requires Within(a, b)
    ensures |a| == |b|
  {
  }

  lemma WithinChain(a: Bytes, b: Bytes, c: Bytes)
    requires Within(a, b) && Within(b, c)
    ensures Within(a, c)
  {
    hide BitSet;
  }

  lemma SelfWithin(bits: Bytes)
    ensures Within(bits, bits)
  {
  }

  /** k probes starting with h, each setting its bit. */
  function SetProbes(bits: Bytes, h: nat, delta: nat, k: nat): (r: Bytes)
    requires |bits| > 0
    ensures |r| == |bits|
    decreases k
  {
    if k == 0 then bits else SetProbes(SetBit(bits, h % (8 * |bits|)), NextProbe(h, delta), delta, k - 1)
  }

  lemma {:induction false} ProbesSet(bits: Bytes, h: nat, delta: nat, k: nat)
    requires |bits| > 0
    ensures Within(bits, SetProbes(bits, h, delta, k)) && AllSet(SetProbes(bits, h, delta, k), h, delta, k)
    decreases k
  {
    SelfWithin(bits);
    if k > 0 {
      var pos := h % (8 * |bits|);
      var next := SetBit(bits, pos);
      var r := SetProbes(bits, h, delta, k);
      assert r == SetProbes(next, NextProbe(h, delta), delta, k - 1);
      hide SetBit; hide BitSet; hide NextProbe; hide SetProbes;
      SetBitSize(bits, pos);
      SetWithin(bits, pos);
      ProbesSet(next, NextProbe(h, delta), delta, k - 1);
      WithinChain(bits, next, r);
      WithinSize(next, r);
      assert BitSet(r, pos);
    }
  }

  /** The bits of all the keys. */
  function KeyBits(hash: Hash, keys: seq<Bytes>, k: nat, bits: Bytes): (r: Bytes)
    requires |bits| > 0
    ensures |r| == |bits|
  {
    if keys == [] then bits
    else
      var key := keys[|keys| - 1];
      SetProbes(KeyBits(hash, keys[..|keys| - 1], k, bits), hash(key), Delta(hash(key)), k)
  }

  lemma {:induction false} KeysMatch(hash: Hash, keys: seq<Bytes>, k: nat, bits: Bytes)
    requires |bits| > 0
    ensures AllMatch(hash, keys, KeyBits(hash, keys, k, bits), k)
  {
    hide SetProbes; hide AllSet; hide Delta; hide Within;
    if keys != [] {
      var n := |keys| - 1;
      var was := KeyBits(hash, keys[..n], k, bits);
      KeysMatch(hash, keys[..n], k, bits);
      ProbesSet(was, hash(keys[n]), Delta(hash(keys[n])), k);
      WithinSize(was, KeyBits(hash, keys, k, bits));
      StillMatch(hash, keys[..n], was, KeyBits(hash, keys, k, bits), k);
      assert forall i :: 0 <= i < n ==> keys[..n][i] == keys[i];
    }
  }

  function BitCount(n: nat, bitsPerKey: nat): nat {
    if n * bitsPerKey < 64 then 64 else n * bitsPerKey
  }

  function NoBits(n: nat, bitsPerKey: nat): (r: Bytes)
    ensures |r| > 0
  {
    seq((BitCount(n, bitsPerKey) + 7) / 8, i => 0)
  }

  /** BloomFilterPolicy::CreateFilter. */
  function Filter(hash: Hash, keys: seq<Bytes>, bitsPerKey: nat, k: nat): Bytes
    requires k < 256
  {
    KeyBits(hash, keys, k, NoBits(|keys|, bitsPerKey)) + [k]
  }

  /** What a filter costs. */
  lemma FilterLength(hash: Hash, keys: seq<Bytes>, bitsPerKey: nat, k: nat)
    requires k < 256 && keys != []
    ensures |Filter(hash, keys, bitsPerKey, k)| <= (bitsPerKey + 9) * |keys|
  {
    hide KeyBits; hide NoBits;
    BitsLength(|keys|, bitsPerKey);
    KeepsLength(hash, keys, k, NoBits(|keys|, bitsPerKey));
  }

  lemma KeepsLength(hash: Hash, keys: seq<Bytes>, k: nat, bits: Bytes)
    requires |bits| > 0
    ensures |KeyBits(hash, keys, k, bits)| == |bits|
  {
  }

  lemma BitsLength(n: nat, bitsPerKey: nat)
    requires n > 0
    ensures 0 < |NoBits(n, bitsPerKey)| && |NoBits(n, bitsPerKey)| + 1 <= (bitsPerKey + 9) * n
  {
    assert (bitsPerKey + 9) * n == bitsPerKey * n + 9 * n;
  }

  /** Every key a filter was made from matches it. */
  lemma NoFalseNegatives(hash: Hash, keys: seq<Bytes>, bitsPerKey: nat, k: nat, key: Bytes)
    requires k < 256 && key in keys
    ensures MayMatch(hash, key, Filter(hash, keys, bitsPerKey, k))
  {
    hide AllSet; hide KeyBits; hide Delta; hide NoBits;
    SomeBits(|keys|, bitsPerKey);
    var bits := KeyBits(hash, keys, k, NoBits(|keys|, bitsPerKey));
    KeysMatch(hash, keys, k, NoBits(|keys|, bitsPerKey));
    KeyBitsSize(hash, keys, k, NoBits(|keys|, bitsPerKey));
    var f := Filter(hash, keys, bitsPerKey, k);
    assert f[..|f| - 1] == bits;
    var i :| 0 <= i < |keys| && keys[i] == key;
    assert AllSet(bits, hash(keys[i]), Delta(hash(keys[i])), k);
  }

  lemma SomeBits(n: nat, bitsPerKey: nat)
    ensures |NoBits(n, bitsPerKey)| > 0
  {
  }

  lemma KeyBitsSize(hash: Hash, keys: seq<Bytes>, k: nat, bits: Bytes)
    requires |bits| > 0
    ensures |KeyBits(hash, keys, k, bits)| == |bits|
  {
  }

  // ----- exactly which keys match

  /** Double hashing: the bit of the j-th probe of a hash among n bits. */
  function ProbeAt(h: nat, j: nat, n: nat): (pos: nat)
    requires n > 0
    ensures pos < n
  {
    (h + j * (h / 0x2_0000 + h % 0x2_0000 * 0x8000)) % 0x1_0000_0000 % n
  }

  /** j steps of the loop. */
  function Walk(h: nat, delta: nat, j: nat): nat
    decreases j
  {
    if j == 0 then h else Walk(NextProbe(h, delta), delta, j - 1)
  }

  function WalkPos(h: nat, delta: nat, j: nat, n: nat): (pos: nat)
    requires n > 0
    ensures pos < n
  {
    Walk(h, delta, j) % n
  }

  lemma {:induction false} WalkIs(h: nat, delta: nat, j: nat)
    requires h < TWO32
    ensures Walk(h, delta, j) == (h + j * delta) % TWO32
    decreases j
  {
    if j > 0 {
      WalkIs(NextProbe(h, delta), delta, j - 1);
      AddReduced(h + delta, (j - 1) * delta);
      assert j * delta == delta + (j - 1) * delta;
    }
  }

  lemma AddReduced(a: nat, b: nat)
    ensures (a % TWO32 + b) % TWO32 == (a + b) % TWO32
  {
    assert a + b == a / TWO32 * TWO32 + (a % TWO32 + b);
  }

  lemma ProbeIs(h: Word, j: nat, n: nat)
    requires n > 0
    ensures WalkPos(h, Delta(h), j, n) == ProbeAt(h, j, n)
  {
    WalkIs(h, Delta(h), j);
  }

  /** Bit q is one of k probes. */
  ghost predicate Hits(h: nat, delta: nat, k: nat, n: nat, q: nat)
    requires n > 0
  {
    exists j: nat :: j < k && WalkPos(h, delta, j, n) == q
  }

  lemma HitsNext(h: nat, delta: nat, k: nat, n: nat, q: nat)
    requires n > 0 && k > 0
    ensures Hits(h, delta, k, n, q) <==> q == h % n || Hits(NextProbe(h, delta), delta, k - 1, n, q)
  {
    hide NextProbe;
    var next := NextProbe(h, delta);
    assert WalkPos(h, delta, 0, n) == h % n;
    if Hits(h, delta, k, n, q) {
      var j: nat :| j < k && WalkPos(h, delta, j, n) == q;
      if j > 0 {
        assert WalkPos(next, delta, j - 1, n) == q;
      }
    }
    if Hits(next, delta, k - 1, n, q) {
      var j: nat :| j < k - 1 && WalkPos(next, delta, j, n) == q;
      assert WalkPos(h, delta, j + 1, n) == q;
    }
  }

  lemma {:induction false} SetProbesIs(bits: Bytes, h: nat, delta: nat, k: nat, q: nat)
    requires |bits| > 0 && q < 8 * |bits|
    ensures |SetProbes(bits, h, delta, k)| == |bits|
    ensures BitSet(SetProbes(bits, h, delta, k), q) <==> BitSet(bits, q) || Hits(h, delta, k, 8 * |bits|, q)
    decreases k
  {
    if k > 0 {
      var n, next := 8 * |bits|, NextProbe(h, delta);
      var more := SetBit(bits, h % n);
      assert SetProbes(bits, h, delta, k) == SetProbes(more, next, delta, k - 1);
      SetBitSize(bits, h % n);
      hide SetBit; hide BitSet; hide NextProbe; hide SetProbes; hide Hits;
      SetBitBits(bits, h % n, q);
      SetProbesIs(more, next, delta, k - 1, q);
      HitsNext(h, delta, k, n, q);
    }
  }

  lemma {:induction false} AllSetIs(bits: Bytes, h: nat, delta: nat, k: nat)
    requires |bits| > 0
    ensures AllSet(bits, h, delta, k) <==> forall q :: 0 <= q < 8 * |bits| && Hits(h, delta, k, 8 * |bits|, q) ==> BitSet(bits, q)
    decreases k
  {
    hide BitSet;
    if k > 0 {
      var n, next := 8 * |bits|, NextProbe(h, delta);
      AllSetIs(bits, next, delta, k - 1);
      hide Hits; hide NextProbe;
      forall q | 0 <= q < n
        ensures Hits(h, delta, k, n, q) <==> q == h % n || Hits(next, delta, k - 1, n, q)
      {
        HitsNext(h, delta, k, n, q);
      }
    }
  }

  /** Bit q is one of k probes of the hash. */
  ghost predicate ProbeOf(h: Word, k: nat, n: nat, q: nat)
    requires n > 0
  {
    exists j: nat :: j < k && ProbeAt(h, j, n) == q
  }

  lemma HitsIs(h: Word, k: nat, n: nat, q: nat)
    requires n > 0
    ensures Hits(h, Delta(h), k, n, q) <==> ProbeOf(h, k, n, q)
  {
    hide ProbeAt; hide WalkPos; hide Delta;
    forall j: nat
      ensures WalkPos(h, Delta(h), j, n) == ProbeAt(h, j, n)
    {
      ProbeIs(h, j, n);
    }
  }

  /** Bit q is a probe of one of the keys. */
  ghost predicate Probed(hash: Hash, keys: seq<Bytes>, k: nat, n: nat, q: nat)
    requires n > 0
  {
    exists i :: 0 <= i < |keys| && ProbeOf(hash(keys[i]), k, n, q)
  }

  lemma {:induction false} KeyBitsIs(hash: Hash, keys: seq<Bytes>, k: nat, bits: Bytes, q: nat)
    requires |bits| > 0 && q < 8 * |bits|
    ensures |KeyBits(hash, keys, k, bits)| == |bits|
    ensures BitSet(KeyBits(hash, keys, k, bits), q) <==> BitSet(bits, q) || Probed(hash, keys, k, 8 * |bits|, q)
  {
    hide SetProbes; hide BitSet; hide Delta; hide Hits; hide ProbeOf;
    if keys != [] {
      var m, n := |keys| - 1, 8 * |bits|;
      var was, h := KeyBits(hash, keys[..m], k, bits), hash(keys[m]);
      KeyBitsIs(hash, keys[..m], k, bits, q);
      SetProbesIs(was, h, Delta(h), k, q);
      HitsIs(h, k, n, q);
      LastKey(hash, keys, keys[..m], keys[m], k, n, q);
    }
  }

  lemma LastKey(hash: Hash, keys: seq<Bytes>, front: seq<Bytes>, last: Bytes, k: nat, n: nat, q: nat)
    requires keys == front + [last] && n > 0
    ensures Probed(hash, keys, k, n, q) <==> Probed(hash, front, k, n, q) || ProbeOf(hash(last), k, n, q)
  {
    hide ProbeOf;
    assert keys[|front|] == last && forall i :: 0 <= i < |front| ==> keys[i] == front[i];
    if Probed(hash, keys, k, n, q) {
      var i :| 0 <= i < |keys| && ProbeOf(hash(keys[i]), k, n, q);
      if i < |front| {
        assert ProbeOf(hash(front[i]), k, n, q);
      }
    }
  }

  lemma NoneSet(n: nat, bitsPerKey: nat, q: nat)
    requires q < 8 * |NoBits(n, bitsPerKey)|
    ensures !BitSet(NoBits(n, bitsPerKey), q)
  {
  }

  /** Bit b of byte i is set exactly if 8 * i + b is a probe; the number of
      probes stands in the last byte. */
  lemma FilterBits(hash: Hash, keys: seq<Bytes>, bitsPerKey: nat, k: nat, i: nat, b: nat)
    requires k < 256 && i + 1 < |Filter(hash, keys, bitsPerKey, k)| && b < 8
    ensures var f := Filter(hash, keys, bitsPerKey, k);
            && f[|f| - 1] == k
            && (f[i] / [1, 2, 4, 8, 16, 32, 64, 128][b] % 2 == 1 <==> Probed(hash, keys, k, 8 * (|f| - 1), 8 * i + b))
  {
    hide KeyBits; hide NoBits; hide Probed;
    SomeBits(|keys|, bitsPerKey);
    var none := NoBits(|keys|, bitsPerKey);
    KeyBitsSize(hash, keys, k, none);
    var bits, q := KeyBits(hash, keys, k, none), 8 * i + b;
    assert q / 8 == i && q % 8 == b;
    assert Filter(hash, keys, bitsPerKey, k)[i] == bits[i];
    BitIs(bits, i, b);
    hide BitSet;
    KeyBitsIs(hash, keys, k, none, q);
    NoneSet(|keys|, bitsPerKey, q);
  }

  lemma BitIs(bits: Bytes, i: nat, b: nat)
    requires i < |bits| && b < 8
    ensures BitSet(bits, 8 * i + b) <==> bits[i] / [1, 2, 4, 8, 16, 32, 64, 128][b] % 2 == 1
  {
    assert (8 * i + b) / 8 == i && (8 * i + b) % 8 == b;
    assert Weight(b) == [1, 2, 4, 8, 16, 32, 64, 128][b];
  }

  /** The smallest number of whole bytes with enough bits. */
  lemma FilterSize(hash: Hash, keys: seq<Bytes>, bitsPerKey: nat, k: nat)
    requires k < 256
    ensures var n, want := 8 * (|Filter(hash, keys, bitsPerKey, k)| - 1), |keys| * bitsPerKey;
            n >= 64 && n >= want && (n - 8 < 64 || n - 8 < want)
  {
    hide KeyBits;
    SomeBits(|keys|, bitsPerKey);
    KeepsLength(hash, keys, k, NoBits(|keys|, bitsPerKey));
  }

  /** A filter lets exactly those keys through each of whose probes is a probe of
      some key it was made from. */
  lemma MatchesExactly(hash: Hash, keys: seq<Bytes>, bitsPerKey: nat, k: nat, key: Bytes)
    requires k < 256
    ensures var f := Filter(hash, keys, bitsPerKey, k);
            var n := 8 * (|f| - 1);
            && n > 0
            && (MayMatch(hash, key, f) <==> k > 30 || forall q :: 0 <= q < n && ProbeOf(hash(key), k, n, q) ==> Probed(hash, keys, k, n, q))
  {
    hide AllSet; hide KeyBits; hide Delta; hide NoBits; hide BitSet; hide Probed; hide ProbeOf; hide Hits;
    SomeBits(|keys|, bitsPerKey);
    var none := NoBits(|keys|, bitsPerKey);
    var bits, h, n := KeyBits(hash, keys, k, none), hash(key), 8 * |none|;
    KeyBitsSize(hash, keys, k, none);
    var f := Filter(hash, keys, bitsPerKey, k);
    assert f[..|f| - 1] == bits;
    AllSetIs(bits, h, Delta(h), k);
    forall q | 0 <= q < n
      ensures Hits(h, Delta(h), k, n, q) <==> ProbeOf(h, k, n, q)
      ensures BitSet(bits, q) <==> Probed(hash, keys, k, n, q)
    {
      HitsIs(h, k, n, q);
      KeyBitsIs(hash, keys, k, none, q);
      NoneSet(|keys|, bitsPerKey, q);
    }
  }

  /** BloomFilterPolicy::KeyMayMatch, probe by probe. */
  method KeyMayMatch(hash: Hash, key: Bytes, filter: Bytes) returns (found: bool)
    ensures found == MayMatch(hash, key, filter)
  {
    hide BitSet; hide NextProbe; hide Delta;
    if |filter| < 2 {
      return false;
    }
    var bits, k := filter[..|filter| - 1], filter[|filter| - 1];
    if k > 30 {
      return true;
    }
    var h: nat := hash(key);
    var delta := Delta(h);
    for j := 0 to k
      invariant AllSet(bits, hash(key), delta, k) == AllSet(bits, h, delta, k - j)
    {
      if !BitSet(bits, h % (8 * |bits|)) {
        return false;
      }
      h := NextProbe(h, delta);
    }
    return true;
  }

  /** The loops of CreateFilter. */
  method CreateFilter(hash: Hash, keys: seq<Bytes>, bitsPerKey: nat, k: nat) returns (filter: Bytes)
    requires k < 256
    ensures filter == Filter(hash, keys, bitsPerKey, k)
  {
    hide SetBit; hide NextProbe; hide Delta; hide NoBits;
    SomeBits(|keys|, bitsPerKey);
    var bits := NoBits(|keys|, bitsPerKey);
    ghost var empty := bits;
    for i := 0 to |keys|
      invariant |bits| == |empty| > 0 && bits == KeyBits(hash, keys[..i], k, empty)
    {
      assert keys[..i + 1][..i] == keys[..i] && keys[..i + 1][i] == keys[i];
      var h: nat := hash(keys[i]);
      var delta := Delta(h);
      ghost var goal := SetProbes(bits, h, delta, k);
      for j := 0 to k
        invariant |bits| == |empty| && goal == SetProbes(bits, h, delta, k - j)
      {
        SetBitSize(bits, h % (8 * |bits|));
        bits := SetBit(bits, h % (8 * |bits|));
        h := NextProbe(h, delta);
      }
    }
    assert keys[..|keys|] == keys;
    filter := bits + [k];
  }
}
