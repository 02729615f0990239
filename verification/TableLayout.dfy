/** Tables, blocks, keys and log records byte by byte (table/format.cc,
    table/block_builder.cc, table/filter_block.cc, db/dbformat.cc,
    db/log_writer.cc). */
module TableLayout {
  import opened Keys
  import opened Coding
  import opened Digits
  import opened Tokens
  import opened TableFormat
  import opened Block
  import L = Log
  import IK = InternalKeys
  import FB = FilterBlock

  // ----- stored blocks

  lemma CrcWhole(contents: Bytes)
    ensures BlockCrc(contents) == Extend(0, contents + [0]) as nat
  {
    hide Extend;
    ExtendConcat(0, contents, [0]);
  }

  lemma RawIs(contents: Bytes)
    ensures RawBlock(contents) == contents + [0] + Fixed32(Mask(BlockCrc(contents)))
  {
    hide BlockCrc; hide Mask; hide Fixed32;
  }

  /** Behind the contents: a zero for "not compressed", then the masked checksum
      of both. */
  lemma RawLayout(contents: Bytes)
    ensures var r, n := RawBlock(contents), |contents|;
            && |r| == n + 5 && r[..n] == contents && r[n] == 0
            && IsFixed(r[n + 1..], Mask(Extend(0, contents + [0]) as nat), 4)
  {
    hide Extend; hide BlockCrc; hide Mask; hide Fixed32; hide IsFixed; hide RawBlock;
    CrcWhole(contents);
    CrcBound(contents);
    RawIs(contents);
    RawSize(contents);
    var crc := Fixed32(Mask(BlockCrc(contents)));
    Fixed32Is(Mask(BlockCrc(contents)));
    assert RawBlock(contents)[|contents| + 1..] == crc;
  }

  lemma RawSize(contents: Bytes)
    ensures |RawBlock(contents)| == |contents| + 5
  {
  }

  lemma GoodTrailer(data: Bytes, n: nat)
    requires |data| == n + 5 && data[n] == 0 && Extend(0, data[..n + 1]) as nat == Unmask(GetFixed32(data[n + 1..]))
    ensures data == RawBlock(data[..n])
  {
    hide Extend; hide BlockCrc; hide Mask; hide Unmask; hide Fixed32; hide GetFixed32; hide RawBlock;
    var contents, tail := data[..n], data[n + 1..];
    assert data[..n + 1] == contents + [0];
    CrcWhole(contents);
    MaskBijective(GetFixed32(tail));
    FixedBack(tail);
    RawIs(contents);
    assert tail[..4] == tail;
    assert data == contents + [0] + tail;
  }

  /** A block is read exactly where one was stored: any damage to contents, type
      or checksum that is not again a stored block is refused. */
  lemma StoredIff(file: Bytes, h: Handle, contents: Bytes)
    ensures ReadBlock(file, h) == Some(contents) <==>
            && |contents| == h.size && h.offset + h.size + 5 <= |file|
            && file[h.offset..h.offset + h.size + 5] == RawBlock(contents)
  {
    hide Extend; hide Unmask; hide GetFixed32; hide RawBlock;
    if h.offset + h.size + 5 <= |file| {
      var data := file[h.offset..h.offset + h.size + 5];
      if ReadBlock(file, h) == Some(contents) {
        GoodTrailer(data, h.size);
      }
      if |contents| == h.size && data == RawBlock(contents) {
        StoredRoundTrip(file[..h.offset], contents, file[h.offset + h.size + 5..]);
        RawSize(contents);
        assert file[..h.offset] + RawBlock(contents) + file[h.offset + h.size + 5..] == file;
        hide ReadBlock;
      }
    }
  }

  // ----- handles and the footer

  lemma HandleIff(s: Bytes, h: Handle, rest: Bytes)
    ensures DecodeHandle(s) == Some(HandleRest(h, rest)) <==> Spells(s, [Number64(h.offset)] + [Number64(h.size)], rest)
  {
    hide Spells; hide VarintAt; hide TakeNumber;
    NumberIs(s, 10, 18446744073709551616);
    MoreTokens(s, Number64(h.offset), [Number64(h.size)], rest);
    var a := VarintAt(s, 10);
    if a.Some? {
      var t := s[a.value.used..];
      NumberIs(t, 10, 18446744073709551616);
      OneToken(t, Number64(h.size), rest);
      var b := VarintAt(t, 10);
      if b.Some? {
        assert t[b.value.used..] == s[a.value.used + b.value.used..];
      }
    }
  }

  lemma MagicMeans(s: Bytes)
    requires |s| == 8
    ensures GetFixed32(s) == MAGIC_LOW && GetFixed32(s[4..]) == MAGIC_HIGH <==> IsFixed(s, 0xdb47_7524_8b80_fb57, 8)
  {
    var a, b := Fixed32(MAGIC_LOW), Fixed32(MAGIC_HIGH);
    MagicDigits();
    FixedBack(s);
    FixedBack(s[4..]);
    assert s == s[..4] + s[4..][..4];
    if IsFixed(s, 0xdb47_7524_8b80_fb57, 8) {
      SameDigits(s, a + b, 0xdb47_7524_8b80_fb57, 8);
      assert s[..4] == a && s[4..] == b;
      Fixed32RoundTrip(MAGIC_LOW, b);
      Fixed32RoundTrip(MAGIC_HIGH, []);
      assert b + [] == b;
    }
  }

  lemma MagicDigits()
    ensures IsFixed(Fixed32(MAGIC_LOW) + Fixed32(MAGIC_HIGH), 0xdb47_7524_8b80_fb57, 8)
  {
    Fixed64Is(0xdb47_7524_8b80_fb57);
    assert 0xdb47_7524_8b80_fb57 % TWO32 == MAGIC_LOW && 0xdb47_7524_8b80_fb57 / TWO32 == MAGIC_HIGH;
  }

  /** A footer is accepted exactly if it begins with two handles and ends with
      the magic number. */
  lemma FooterIff(s: Bytes, meta: Handle, index: Handle)
    requires |s| == 48
    ensures DecodeFooter(s) == Some(BothHandles(meta, index)) <==>
            IsFixed(s[40..], 0xdb47_7524_8b80_fb57, 8) && exists mid, rest :: SpellsHandle(s, meta, mid) && SpellsHandle(mid, index, rest)
  {
    hide IsFixed; hide GetFixed32; hide DecodeHandle; hide SpellsHandle;
    MagicMeans(s[40..]);
    assert s[40..][4..] == s[44..];
    forall t, h, rest
      ensures DecodeHandle(t) == Some(HandleRest(h, rest)) <==> SpellsHandle(t, h, rest)
    {
      HandleIs(t, h, rest);
    }
    if DecodeFooter(s) == Some(BothHandles(meta, index)) {
      var a := DecodeHandle(s).value;
      var b := DecodeHandle(a.rest).value;
      assert SpellsHandle(s, meta, a.rest) && SpellsHandle(a.rest, index, b.rest);
    }
  }

  ghost predicate SpellsHandle(s: Bytes, h: Handle, rest: Bytes) {
    Spells(s, [Number64(h.offset)] + [Number64(h.size)], rest)
  }

  lemma HandleIs(s: Bytes, h: Handle, rest: Bytes)
    ensures DecodeHandle(s) == Some(HandleRest(h, rest)) <==> SpellsHandle(s, h, rest)
  {
    hide Spells; hide DecodeHandle;
    HandleIff(s, h, rest);
  }

  // ----- blocks

  /** An entry: three numbers, the part of the key that is not shared, the
      value. */
  lemma EntryLayout(shared: nat, kv: KV, rest: Bytes)
    requires shared <= |kv.key| < TWO32 && |kv.value| < TWO32
    ensures Spells(EntryBytes(shared, kv) + rest, [Number32(shared)] + ([Number32(|kv.key| - shared)] + [Number32(|kv.value|)]),
                   kv.key[shared..] + kv.value + rest)
  {
    hide Spells; hide Varint; hide TakeNumber;
    var a, b, c, tail := Varint(shared), Varint(|kv.key| - shared), Varint(|kv.value|), kv.key[shared..] + kv.value + rest;
    assert EntryBytes(shared, kv) + rest == a + (b + (c + tail));
    WrittenNumber(shared, 5, 4294967296, b + (c + tail));
    WrittenNumber(|kv.key| - shared, 5, 4294967296, c + tail);
    WrittenNumber(|kv.value|, 5, 4294967296, tail);
    MoreTokens(a + (b + (c + tail)), Number32(shared), [Number32(|kv.key| - shared)] + [Number32(|kv.value|)], tail);
    MoreTokens(b + (c + tail), Number32(|kv.key| - shared), [Number32(|kv.value|)], tail);
    OneToken(c + tail, Number32(|kv.value|), tail);
  }

  /** As much of a key is shared with the one before as the two have in common,
      except at the restart points, where nothing is. */
  lemma SharedMost(kvs: seq<KV>, interval: nat, i: nat)
    requires i < |kvs| && interval > 0
    ensures i % interval == 0 ==> SharedAt(kvs, interval, i) == 0
    ensures i > 0 && i % interval != 0 ==>
              var a, b, n := kvs[i - 1].key, kvs[i].key, SharedAt(kvs, interval, i);
              n <= |a| && n <= |b| && a[..n] == b[..n] && (n == |a| || n == |b| || a[n] != b[n])
  {
  }

  lemma {:induction false} FixedsLayout(offsets: seq<nat>, j: nat)
    requires (forall i :: 0 <= i < |offsets| ==> offsets[i] < TWO32) && j < |offsets|
    ensures |Fixeds(offsets)| == 4 * |offsets| && IsFixed(Fixeds(offsets)[4 * j..4 * j + 4], offsets[j], 4)
  {
    hide Fixed32; hide IsFixed;
    var n := |offsets| - 1;
    var front, last := Fixeds(offsets[..n]), Fixed32(offsets[n]);
    FixedsSize(offsets[..n]);
    Fixed32Is(offsets[n]);
    FourLong(offsets[n]);
    if j < n {
      FixedsLayout(offsets[..n], j);
      assert (front + last)[4 * j..4 * j + 4] == front[4 * j..4 * j + 4];
    } else {
      assert (front + last)[4 * n..4 * n + 4] == last;
    }
  }

  lemma FixedsSize(offsets: seq<nat>)
    requires forall i :: 0 <= i < |offsets| ==> offsets[i] < TWO32
    ensures |Fixeds(offsets)| == 4 * |offsets|
  {
  }

  lemma FourLong(v: nat)
    requires v < TWO32
    ensures |Fixed32(v)| == 4
  {
  }

  /** Behind the entries: where every interval-th of them starts, four bytes
      each, and how many those are. */
  lemma BlockLayout(kvs: seq<KV>, interval: nat, j: nat)
    requires interval > 0 && Small(kvs, interval) && j < RestartCount(|kvs|, interval)
    ensures var s, data, n := BlockBytes(kvs, interval), Data(kvs, interval, |kvs|), RestartCount(|kvs|, interval);
            && |s| == |data| + 4 * n + 4 && data <= s
            && IsFixed(s[|s| - 4..], n, 4)
            && IsFixed(s[|data| + 4 * j..|data| + 4 * j + 4], RestartOffsets(kvs, interval)[j], 4)
  {
    hide *;
    BlockIs(kvs, interval);
    var offsets, data := RestartOffsets(kvs, interval), Data(kvs, interval, |kvs|);
    FixedsLayout(offsets, j);
    Fixed32Is(|offsets|);
    FourLong(|offsets|);
    Sandwich(BlockBytes(kvs, interval), data, Fixeds(offsets), Fixed32(|offsets|), 4 * j, offsets[j]);
  }

  lemma BlockIs(kvs: seq<KV>, interval: nat)
    requires interval > 0 && Small(kvs, interval)
    ensures var offsets := RestartOffsets(kvs, interval);
            && |offsets| == RestartCount(|kvs|, interval) < TWO32 && (forall i :: 0 <= i < |offsets| ==> offsets[i] < TWO32)
            && BlockBytes(kvs, interval) == Data(kvs, interval, |kvs|) + Fixeds(offsets) + Fixed32(|offsets|)
  {
    SmallOffsets(kvs, interval);
    CountSmall(kvs, interval);
    hide Data; hide Fixeds; hide Fixed32; hide Small;
  }

  /** Restart point j is at the start of entry j * interval. */
  lemma RestartIs(kvs: seq<KV>, interval: nat, j: nat, start: nat)
    requires interval > 0 && j < RestartCount(|kvs|, interval) && start == j * interval
    ensures start <= |kvs| && RestartOffsets(kvs, interval)[j] == |Data(kvs, interval, start)|
  {
    RestartInside(|kvs|, interval, j);
    hide Data;
  }

  lemma Sandwich(s: Bytes, a: Bytes, b: Bytes, c: Bytes, k: nat, v: nat)
    requires s == a + b + c && k + 4 <= |b| && IsFixed(b[k..k + 4], v, 4)
    ensures |s| == |a| + |b| + |c| && a <= s && s[|s| - |c|..] == c && IsFixed(s[|a| + k..|a| + k + 4], v, 4)
  {
    assert s[|a| + k..|a| + k + 4] == b[k..k + 4];
    hide IsFixed;
  }

  lemma CountSmall(kvs: seq<KV>, interval: nat)
    requires interval > 0 && Small(kvs, interval)
    ensures RestartCount(|kvs|, interval) < TWO32
  {
    SmallOffsets(kvs, interval);
  }

  // ----- filter blocks

  lemma FilterBytesAre(create: FB.Create, groups: seq<seq<Bytes>>)
    requires |FB.Filters(create, groups, |groups|)| < TWO32
    ensures var starts := FB.Starts(create, groups);
            && (forall i :: 0 <= i < |starts| ==> starts[i] < TWO32)
            && FB.FilterBytes(create, groups) == FB.Filters(create, groups, |groups|) + Fixeds(starts) + [11]
  {
    FB.StartsSmall(create, groups);
    hide FB.Filters; hide Fixeds;
  }

  /** Behind the filters: where each starts, where the last ends, and the
      logarithm of how many bytes of the file share one. */
  lemma FilterLayout(create: FB.Create, groups: seq<seq<Bytes>>, j: nat)
    requires |FB.Filters(create, groups, |groups|)| < TWO32 && j <= |groups|
    ensures var s, all, n := FB.FilterBytes(create, groups), FB.Filters(create, groups, |groups|), |groups|;
            && |s| == |all| + 4 * n + 5 && all <= s && s[|s| - 1] == 11
            && IsFixed(s[|all| + 4 * j..|all| + 4 * j + 4], |FB.Filters(create, groups, j)|, 4)
            && IsFixed(s[|all| + 4 * n..|all| + 4 * n + 4], |all|, 4)
  {
    hide *;
    FilterBytesAre(create, groups);
    FB.StartsAt(create, groups, j);
    FB.StartsAt(create, groups, |groups|);
    var starts, all, n := FB.Starts(create, groups), FB.Filters(create, groups, |groups|), |groups|;
    FixedsLayout(starts, j);
    FixedsLayout(starts, n);
    var s := FB.FilterBytes(create, groups);
    Sandwich(s, all, Fixeds(starts), [11], 4 * j, starts[j]);
    Sandwich(s, all, Fixeds(starts), [11], 4 * n, starts[n]);
  }

  // ----- internal keys and log records

  /** Behind the user key: eight bytes of sequence number times 256, plus one for
      a value. */
  lemma KeyLayout(user: Bytes, seqno: nat, kind: Keys.Kind)
    requires seqno <= MAX_SEQUENCE
    ensures var k := IK.Encode(user, seqno, kind);
            |k| == |user| + 8 && k[..|user|] == user && IsFixed(k[|user|..], seqno * 256 + if kind.Put? then 1 else 0, 8)
  {
    hide Fixed64; hide IsFixed;
    var tag := IK.Pack(seqno, kind);
    Fixed64Is(tag);
    IK.TailLength(tag);
    assert IK.Encode(user, seqno, kind)[|user|..] == Fixed64(tag);
  }

  /** Masked checksum of type and data, length, type, data. */
  lemma RecordLayout(kind: byte, data: Bytes)
    requires |data| <= 0xFFFF
    ensures var r := L.Emit(kind, data);
            && |r| == 7 + |data| && r[6] == kind && r[7..] == data
            && IsFixed(r[..4], Mask(Extend(0, [kind] + data) as nat), 4) && IsFixed(r[4..6], |data|, 2)
  {
    hide Extend; hide Mask; hide Fixed32;
    L.ChecksumFits(kind, data);
    ExtendConcat(0, [kind], data);
    var crc := Mask(L.Checksum(kind, data));
    Fixed32Is(crc);
    FourLong(crc);
    var r := L.Emit(kind, data);
    assert r == Fixed32(crc) + [|data| % 0x100, |data| / 0x100, kind] + data;
    assert r[..4] == Fixed32(crc) && r[4..6] == [|data| % 0x100, |data| / 0x100];
    TwoDigits(|data|);
  }

  lemma TwoDigits(n: nat)
    requires n <= 0xFFFF
    ensures IsFixed([n % 0x100, n / 0x100], n, 2)
  {
    Powers();
    var s: Bytes := [n % 0x100, n / 0x100];
    forall i | 0 <= i < 2
      ensures Power256(i) > 0 && s[i] == n / Power256(i) % 256
    {
      assert i == 0 || i == 1;
    }
  }

  /** Records stay inside blocks of 32768 bytes. */
  lemma BlockRule(pos: nat, size: nat)
    ensures 1 <= L.Leftover(pos) <= 32768 && (pos + L.Leftover(pos)) % 32768 == 0
    ensures L.Pad(pos) == if L.Leftover(pos) < 7 then L.Leftover(pos) else 0
    ensures 7 + L.Fit(pos, size) <= L.Leftover(pos + L.Pad(pos))
    ensures L.Fit(pos, size) < size ==> 7 + L.Fit(pos, size) == L.Leftover(pos + L.Pad(pos))
  {
    L.PadRoom(pos);
  }
}
