/** Block handles, stored blocks and the footer (table/format.cc). */
module TableFormat {
  import opened Keys
  import opened Coding

  datatype Handle = Handle(offset: nat, size: nat)

  ghost predicate HandleOk(h: Handle) {
    h.offset < TWO64 && h.size < TWO64
  }

  function EncodeHandle(h: Handle): Bytes {
    Varint(h.offset) + Varint(h.size)
  }

  datatype HandleRest = HandleRest(handle: Handle, rest: Bytes)

  /** BlockHandle::DecodeFrom. */
  function DecodeHandle(s: Bytes): Option<HandleRest> {
    match VarintAt(s, 10)
    case None => None
    case Some(a) =>
      match VarintAt(s[a.used..], 10)
      case None => None
      case Some(b) => Some(HandleRest(Handle(a.value % TWO64, b.value % TWO64), s[a.used + b.used..]))
  }

  lemma HandleRoundTrip(h: Handle, rest: Bytes)
    requires HandleOk(h)
    ensures DecodeHandle(EncodeHandle(h) + rest) == Some(HandleRest(h, rest))
  {
    hide Varint; hide VarintAt; hide Power128;
    var a, b := Varint(h.offset), Varint(h.size);
    var s := EncodeHandle(h) + rest;
    Limits();
    VarintRoundTrip(h.offset, 10, b + rest);
    VarintRoundTrip(h.size, 10, rest);
    assert s == a + (b + rest);
    assert s[|a|..] == b + rest && s[|a| + |b|..] == rest;
  }

  lemma HandleLength(h: Handle)
    requires HandleOk(h)
    ensures |EncodeHandle(h)| <= 20
  {
    hide Varint; hide Power128;
    Limits();
    VarintLength(h.offset, 10);
    VarintLength(h.size, 10);
  }

  // ----- stored blocks

  const TRAILER: nat := 5

  /** Checksum of the contents and the type byte for "not compressed". */
  function BlockCrc(contents: Bytes): (c: nat)
    ensures c < TWO32
  {
    Extend(Extend(0, contents), [0]) as nat
  }

  /** WriteRawBlock without compression. */
  function RawBlock(contents: Bytes): (r: Bytes)
    ensures |r| == |contents| + TRAILER
  {
    contents + ([0] + Fixed32(Mask(BlockCrc(contents))))
  }

  /** ReadBlock, checksums verified. */
  function ReadBlock(file: Bytes, h: Handle): Option<Bytes> {
    if h.offset + h.size + TRAILER > |file| then None
    else
      var data := file[h.offset..h.offset + h.size + TRAILER];
      if Extend(0, data[..h.size + 1]) as nat != Unmask(GetFixed32(data[h.size + 1..])) then None
      else if data[h.size] != 0 then None
      else Some(data[..h.size])
  }

  lemma RawParts(contents: Bytes)
    ensures var data, n := RawBlock(contents), |contents|;
            && data[..n] == contents && data[n] == 0 && data[..n + 1] == contents + [0]
            && GetFixed32(data[n + 1..]) == Mask(BlockCrc(contents))
  {
    hide BlockCrc; hide Mask; hide Fixed32; hide GetFixed32;
    CrcBound(contents);
    var crc := Fixed32(Mask(BlockCrc(contents)));
    var data, n := RawBlock(contents), |contents|;
    Fixed32RoundTrip(Mask(BlockCrc(contents)), []);
    assert crc + [] == crc;
    assert data[n + 1..] == crc;
  }

  lemma CrcBound(contents: Bytes)
    ensures BlockCrc(contents) < TWO32 && Mask(BlockCrc(contents)) < TWO32
  {
  }

  /** A stored block is found again wherever it is in the file. */
  lemma StoredRoundTrip(before: Bytes, contents: Bytes, after: Bytes)
    ensures ReadBlock(before + RawBlock(contents) + after, Handle(|before|, |contents|)) == Some(contents)
  {
    var file := before + RawBlock(contents) + after;
    assert file[|before|..|before| + |contents| + TRAILER] == RawBlock(contents);
    RawParts(contents);
    hide RawBlock;
    CrcBound(contents);
    UnmaskMask(BlockCrc(contents));
    ExtendConcat(0, contents, [0]);
    hide Extend; hide Mask; hide Unmask; hide GetFixed32;
  }

  /** Appending to a file changes no stored block. */
  lemma StoredStays(file: Bytes, h: Handle, more: Bytes)
    requires ReadBlock(file, h).Some?
    ensures ReadBlock(file + more, h) == ReadBlock(file, h)
  {
    assert (file + more)[h.offset..h.offset + h.size + TRAILER] == file[h.offset..h.offset + h.size + TRAILER];
    hide Extend; hide Unmask; hide GetFixed32;
  }

  // ----- the footer

  const FOOTER: nat := 48
  const MAGIC_LOW: nat := 0x8b80_fb57
  const MAGIC_HIGH: nat := 0xdb47_7524

  function Handles(meta: Handle, index: Handle): Bytes {
    EncodeHandle(meta) + EncodeHandle(index)
  }

  function Padding(n: nat): (s: Bytes)
    ensures |s| == n
  {
    seq(n, i => 0)
  }

  /** Both handles, zeros up to 40 bytes, the magic number. */
  function Footer(meta: Handle, index: Handle): (s: Bytes)
    requires |Handles(meta, index)| <= FOOTER - 8
    ensures |s| == FOOTER
  {
    Handles(meta, index) + Padding(FOOTER - 8 - |Handles(meta, index)|) + (Fixed32(MAGIC_LOW) + Fixed32(MAGIC_HIGH))
  }

  datatype BothHandles = BothHandles(meta: Handle, index: Handle)

  function DecodeFooter(s: Bytes): Option<BothHandles>
    requires |s| == FOOTER
  {
    if GetFixed32(s[FOOTER - 8..]) != MAGIC_LOW || GetFixed32(s[FOOTER - 4..]) != MAGIC_HIGH then None
    else
      match DecodeHandle(s)
      case None => None
      case Some(a) =>
        match DecodeHandle(a.rest)
        case None => None
        case Some(b) => Some(BothHandles(a.handle, b.handle))
  }

  lemma HandlesLength(meta: Handle, index: Handle)
    requires HandleOk(meta) && HandleOk(index)
    ensures |Handles(meta, index)| <= FOOTER - 8
  {
    HandleLength(meta);
    HandleLength(index);
    hide EncodeHandle;
  }

  lemma MagicAt(front: Bytes, s: Bytes)
    requires |front| == FOOTER - 8 && s == front + (Fixed32(MAGIC_LOW) + Fixed32(MAGIC_HIGH))
    ensures GetFixed32(s[FOOTER - 8..]) == MAGIC_LOW && GetFixed32(s[FOOTER - 4..]) == MAGIC_HIGH
  {
    var a, b := Fixed32(MAGIC_LOW), Fixed32(MAGIC_HIGH);
    assert |a| == 4 && |b| == 4;
    hide Fixed32; hide GetFixed32;
    Fixed32RoundTrip(MAGIC_LOW, b);
    Fixed32RoundTrip(MAGIC_HIGH, []);
    assert b + [] == b;
    assert s[FOOTER - 8..] == a + b && s[FOOTER - 4..] == b;
  }

  lemma FooterRoundTrip(meta: Handle, index: Handle)
    requires HandleOk(meta) && HandleOk(index)
    ensures |Handles(meta, index)| <= FOOTER - 8
    ensures DecodeFooter(Footer(meta, index)) == Some(BothHandles(meta, index))
  {
    HandlesLength(meta, index);
    var pad := Padding(FOOTER - 8 - |Handles(meta, index)|);
    var magic := Fixed32(MAGIC_LOW) + Fixed32(MAGIC_HIGH);
    var s := Footer(meta, index);
    assert s == Handles(meta, index) + pad + magic && |Handles(meta, index) + pad| == FOOTER - 8;
    hide DecodeHandle; hide Fixed32; hide GetFixed32; hide EncodeHandle; hide Footer; hide Padding;
    MagicAt(Handles(meta, index) + pad, s);
    Regroup(EncodeHandle(meta), EncodeHandle(index), pad, magic);
    HandleRoundTrip(meta, EncodeHandle(index) + (pad + magic));
    HandleRoundTrip(index, pad + magic);
  }

  lemma Regroup(a: Bytes, b: Bytes, c: Bytes, d: Bytes)
    ensures a + b + c + d == a + (b + (c + d))
  {
  }
}
