/** The log file format (db/log_writer.cc, db/log_reader.cc): records cut into
    fragments that never cross a block, and a reader that survives a file cut
    off anywhere. */
module Log {
  import opened Coding

  const BLOCK: nat := 32768
  const HEADER: nat := 7

  const FULL: byte := 1
  const FIRST: byte := 2
  const MIDDLE: byte := 3
  const LAST: byte := 4

  // ----- physical records

  function Checksum(kind: byte, data: Bytes): (c: nat)
    ensures c < TWO32
  {
    Extend(Extend(0, [kind]), data) as nat
  }

  function HeaderOf(crc: nat, length: nat, kind: byte): (h: Bytes)
    requires crc < TWO32 && length <= 0xFFFF
    ensures |h| == HEADER
  {
    Fixed32(crc) + [length % 0x100, length / 0x100, kind]
  }

  function Header(kind: byte, data: Bytes): (h: Bytes)
    requires |data| <= 0xFFFF
    ensures |h| == HEADER
  {
    HeaderOf(Mask(Checksum(kind, data)), |data|, kind)
  }

  /** EmitPhysicalRecord. */
  function Emit(kind: byte, data: Bytes): (r: Bytes)
    requires |data| <= 0xFFFF
    ensures |r| == HEADER + |data|
  {
    Header(kind, data) + data
  }

  function Zeros(n: nat): (r: Bytes)
    ensures |r| == n
  {
    seq(n, i => 0)
  }

  /** Bytes left in the block that contains file position pos. */
  function Leftover(pos: nat): (n: nat)
    ensures 1 <= n <= BLOCK
  {
    BLOCK - pos % BLOCK
  }

  /** Bytes skipped because no header fits any more. */
  function Pad(pos: nat): (n: nat)
    ensures n < HEADER
  {
    if Leftover(pos) < HEADER then Leftover(pos) else 0
  }

  lemma PadRoom(pos: nat)
    ensures Leftover(pos + Pad(pos)) >= HEADER
  {
  }

  function KindOf(begin: bool, end: bool): byte {
    if begin && end then FULL else if begin then FIRST else if end then LAST else MIDDLE
  }

  function Room(pos: nat): (n: nat)
    ensures n <= BLOCK - HEADER
  {
    PadRoom(pos);
    Leftover(pos + Pad(pos)) - HEADER
  }

  /** How much of the data goes into the fragment that starts at pos. */
  function Fit(pos: nat, size: nat): nat {
    if size < Room(pos) then size else Room(pos)
  }

  function Piece(pos: nat, kind: byte, data: Bytes): (r: Bytes)
    requires |data| <= Room(pos)
    ensures |r| == Pad(pos) + HEADER + |data|
  {
    Zeros(Pad(pos)) + Emit(kind, data)
  }

  lemma NextRoom(pos: nat, size: nat)
    requires Fit(pos, size) == 0 && size > 0
    ensures Room(pos + Pad(pos) + HEADER) > 0
  {
  }

  /** The bytes of (the rest of) one record written at position pos. */
  function Frames(pos: nat, data: Bytes, begin: bool): (r: Bytes)
    ensures |r| >= HEADER
    decreases |data|, if Fit(pos, |data|) == 0 then 1 else 0
  {
    var n := Fit(pos, |data|);
    var end := n == |data|;
    var piece := Piece(pos, KindOf(begin, end), data[..n]);
    if end then piece
    else
      assert n == 0 ==> Room(pos + |piece|) > 0 by { if n == 0 { NextRoom(pos, |data|); } }
      piece + Frames(pos + |piece|, data[n..], false)
  }

  /** Everything a fresh writer produces for a list of records. */
  function File(records: seq<Bytes>): Bytes {
    if records == [] then []
    else
      var front := File(records[..|records| - 1]);
      front + Frames(|front|, records[|records| - 1], true)
  }

  // ----- the writer

  class Writer {
    var dest: Bytes
    var blockOffset: nat
    ghost var records: seq<Bytes>

    ghost predicate Aligned()
      reads this
    {
      blockOffset <= BLOCK && blockOffset % BLOCK == |dest| % BLOCK
    }

    /** The destination holds exactly the records added. */
    ghost predicate Valid()
      reads this
    {
      Aligned() && dest == File(records)
    }

    constructor ()
      ensures Valid() && dest == [] && records == []
    {
      dest, blockOffset, records := [], 0, [];
    }

    method EmitPhysicalRecord(kind: byte, data: Bytes)
      requires Aligned() && blockOffset + HEADER + |data| <= BLOCK
      modifies this`dest, this`blockOffset
      ensures Aligned() && dest == old(dest) + Emit(kind, data)
    {
      hide Checksum; hide Mask; hide HeaderOf;
      ChecksumFits(kind, data);
      OffsetMoves(blockOffset, |dest|, HEADER + |data|);
      var crc := Mask(Checksum(kind, data));
      dest := dest + (HeaderOf(crc, |data|, kind) + data);
      blockOffset := blockOffset + HEADER + |data|;
    }

    /** Switches to a new block when no header fits into this one. */
    method FillTrailer()
      requires Aligned()
      modifies this`dest, this`blockOffset
      ensures Aligned() && dest == old(dest) + Zeros(Pad(|old(dest)|))
      ensures HEADER <= BLOCK - blockOffset == Leftover(|dest|)
    {
      var leftover := BLOCK - blockOffset;
      if leftover < HEADER {
        if leftover > 0 {
          dest := dest + Zeros(leftover);
        }
        blockOffset := 0;
      }
    }

    method AddRecord(record: Bytes)
      requires Valid()
      modifies this
      ensures Valid() && records == old(records) + [record] && dest == old(dest) + Frames(|old(dest)|, record, true)
    {
      OneMoreRecord(records, record);
      hide File; hide Frames; hide Room; hide Leftover; hide Pad; hide Emit; hide Zeros; hide Fit;
      var left, begin := record, true;
      ghost var start := dest;
      while true
        invariant Aligned() && start + Frames(|start|, record, true) == dest + Frames(|dest|, left, begin)
        invariant records == old(records)
        decreases |left|, if Fit(|dest|, |left|) == 0 then 1 else 0
      {
        ghost var before := dest;
        FillTrailer();
        var avail := BLOCK - blockOffset - HEADER;
        var n := if |left| < avail then |left| else avail;
        var end := |left| == n;
        FitIs(|before|, |left|, avail);
        EmitPhysicalRecord(KindOf(begin, end), left[..n]);
        ghost var piece := Piece(|before|, KindOf(begin, end), left[..n]);
        assert dest == before + piece;
        FramesStep(|before|, left, begin);
        if end {
          records := records + [record];
          return;
        }
        JoinPieces(start + Frames(|start|, record, true), before, piece, Frames(|dest|, left[n..], false));
        left, begin := left[n..], false;
      }
    }
  }

  lemma OneMoreRecord(records: seq<Bytes>, record: Bytes)
    ensures File(records + [record]) == File(records) + Frames(|File(records)|, record, true)
  {
    hide Frames;
    assert (records + [record])[..|records|] == records;
  }

  lemma ChecksumFits(kind: byte, data: Bytes)
    ensures Checksum(kind, data) < TWO32 && Mask(Checksum(kind, data)) < TWO32
    ensures |data| <= 0xFFFF ==> |HeaderOf(Mask(Checksum(kind, data)), |data|, kind)| == HEADER
  {
    hide Extend;
  }

  lemma OffsetMoves(offset: nat, length: nat, n: nat)
    requires offset % BLOCK == length % BLOCK
    ensures (offset + n) % BLOCK == (length + n) % BLOCK
  {
  }

  lemma FitIs(pos: nat, size: nat, avail: nat)
    requires avail + HEADER == Leftover(pos + Pad(pos))
    ensures Fit(pos, size) == if size < avail then size else avail
    ensures Room(pos) == avail
  {
    hide Leftover; hide Pad;
  }

  lemma JoinPieces(whole: Bytes, before: Bytes, piece: Bytes, rest: Bytes)
    requires whole == before + (piece + rest)
    ensures whole == before + piece + rest
  {
  }

  /** One turn of the writer's loop. */
  lemma FramesStep(pos: nat, data: Bytes, begin: bool)
    ensures var n := Fit(pos, |data|);
            n <= |data| && n <= Room(pos) &&
            var piece := Piece(pos, KindOf(begin, n == |data|), data[..n]);
            && |piece| == Pad(pos) + HEADER + n
            && (n == |data| ==> Frames(pos, data, begin) == piece)
            && (n < |data| ==> Frames(pos, data, begin) == piece + Frames(pos + |piece|, data[n..], false)
                               && (n == 0 ==> Fit(pos + |piece|, |data|) > 0))
  {
    hide Piece;
    if Fit(pos, |data|) == 0 && |data| > 0 {
      NextRoom(pos, |data|);
    }
  }
}
