/** On every file, damaged ones included, the log reader returns exactly what a
    writer could have written there, and accounts for the rest
    (db/log_reader.cc). */
module LogSound {
  import opened Keys
  import opened Coding
  import opened Digits
  import opened Log
  import opened LogReader
  import opened LogCrash

  // ----- one header: the checksum holds exactly of what a writer emits

  lemma LengthBack(s: Bytes)
    requires |s| >= HEADER
    ensures LengthOf(s) <= 0xFFFF && LengthOf(s) % 0x100 == s[4] && LengthOf(s) / 0x100 == s[5]
  {
  }

  ghost predicate Complete(b: Bytes) {
    |b| >= HEADER && HEADER + LengthOf(b) <= |b|
  }

  ghost function Payload(b: Bytes): Bytes
    requires Complete(b)
  {
    b[HEADER..HEADER + LengthOf(b)]
  }

  lemma ChecksumWhole(kind: byte, data: Bytes)
    ensures Extend(0, [kind] + data) as nat == Checksum(kind, data)
  {
    hide Extend;
    ExtendConcat(0, [kind], data);
  }

  lemma ContentIs(b: Bytes)
    requires Complete(b)
    ensures |Payload(b)| == LengthOf(b) <= 0xFFFF
    ensures b[6..HEADER + LengthOf(b)] == [b[6]] + Payload(b)
  {
    LengthBack(b);
    hide LengthOf;
  }

  lemma GoodWord(b: Bytes, kind: byte, data: Bytes)
    requires |b| >= 4 && |data| <= 0xFFFF && Extend(0, [kind] + data) as nat == Unmask(GetFixed32(b))
    ensures Fixed32(Mask(Checksum(kind, data))) == b[..4]
  {
    hide Extend; hide Checksum; hide Mask; hide Unmask; hide Fixed32; hide GetFixed32;
    FixedBack(b);
    ChecksumWhole(kind, data);
    MaskBijective(GetFixed32(b));
  }

  lemma EmitIs(kind: byte, data: Bytes)
    requires |data| <= 0xFFFF
    ensures Emit(kind, data) == Fixed32(Mask(Checksum(kind, data))) + [|data| % 0x100, |data| / 0x100, kind] + data
  {
    hide Checksum; hide Mask; hide Fixed32;
  }

  lemma GoodChecksum(b: Bytes)
    requires Complete(b) && ChecksumOk(b)
    ensures |Payload(b)| <= 0xFFFF && b[..HEADER + LengthOf(b)] == Emit(b[6], Payload(b))
  {
    ContentIs(b);
    LengthBack(b);
    hide LengthOf; hide Extend; hide Checksum; hide Mask; hide Unmask; hide Fixed32; hide GetFixed32; hide Emit;
    GoodWord(b, b[6], Payload(b));
    hide ChecksumOk;
    Composed(b, LengthOf(b), Payload(b));
  }

  lemma Composed(b: Bytes, n: nat, data: Bytes)
    requires HEADER + n <= |b| && |data| == n <= 0xFFFF && data == b[HEADER..HEADER + n] && n % 0x100 == b[4] && n / 0x100 == b[5]
    requires Fixed32(Mask(Checksum(b[6], data))) == b[..4]
    ensures b[..HEADER + n] == Emit(b[6], data)
  {
    hide Checksum; hide Mask; hide Fixed32; hide Emit;
    EmitIs(b[6], data);
    assert b[..HEADER + n] == b[..4] + [b[4], b[5], b[6]] + b[HEADER..HEADER + n];
  }

  /** A complete record passes the checksum exactly if a writer emits it. */
  lemma ChecksumMeans(b: Bytes)
    requires Complete(b)
    ensures |Payload(b)| <= 0xFFFF && (ChecksumOk(b) <==> b[..HEADER + LengthOf(b)] == Emit(b[6], Payload(b)))
  {
    ContentIs(b);
    hide LengthOf; hide Emit;
    if b[..HEADER + LengthOf(b)] == Emit(b[6], Payload(b)) {
      EmittedChecksum(b, Payload(b));
    } else if ChecksumOk(b) {
      hide ChecksumOk;
      GoodChecksum(b);
    }
  }

  lemma EmittedChecksum(b: Bytes, data: Bytes)
    requires Complete(b) && |data| == LengthOf(b) <= 0xFFFF && b[..HEADER + |data|] == Emit(b[6], data) && b[6..HEADER + |data|] == [b[6]] + data
    ensures ChecksumOk(b)
  {
    var kind := b[6];
    hide Extend; hide Checksum; hide Mask; hide Unmask; hide GetFixed32; hide LengthOf; hide Emit; hide Header;
    EmitParts(b, kind, data);
    HeaderFields(kind, data, b);
    ChecksumWhole(kind, data);
    UnmaskMask(Checksum(kind, data));
  }

  // ----- one physical record

  /** Where the next header is looked for: too small a rest of a block is
      skipped. */
  function Spot(c: Cursor, pos: nat): nat {
    if |c.buffer| < HEADER && !c.eof then c.next else pos
  }

  /** The rest of the block around a place in the file. */
  function Rest(file: Bytes, at: nat): Bytes
    requires at <= |file|
  {
    if at + Leftover(at) <= |file| then file[at..at + Leftover(at)] else file[at..]
  }

  /** A writer has put this record here. */
  ghost predicate Written(rest: Bytes, kind: byte, data: Bytes) {
    |data| <= 0xFFFF && Emit(kind, data) <= rest
  }

  /** A header with a type or a length, and the bytes it announces, that no
      writer has put here. */
  ghost predicate Damaged(rest: Bytes) {
    && Complete(rest) && (rest[6] != 0 || LengthOf(rest) != 0)
    && forall kind: byte, data: Bytes :: !Written(rest, kind, data)
  }

  /** What reading one physical record must give, by the rest of the block
      alone; `cut` tells that the file ends before the block does. */
  ghost predicate Gives(rest: Bytes, cut: bool, p: Physical, dropped: seq<nat>, used: nat) {
    if |rest| < HEADER then p == Eof && dropped == [] && used <= |rest|
    else if !Complete(rest) then (if cut then p == Eof && dropped == [] else p == Bad && dropped == [|rest|]) && used == |rest|
    else if rest[6] == 0 && LengthOf(rest) == 0 then p == Bad && dropped == [] && used == |rest|
    else if Damaged(rest) then p == Bad && dropped == [|rest|] && used == |rest|
    else
      exists kind: byte, data: Bytes :: Written(rest, kind, data) && dropped == [] && used == HEADER + |data|
                                        && p == if kind == 5 then Eof else if kind == 6 then Bad else Fragment(kind, data)
  }

  lemma WrittenIs(rest: Bytes, kind: byte, data: Bytes)
    requires Written(rest, kind, data)
    ensures Complete(rest) && kind == rest[6] && data == Payload(rest)
    ensures rest[..HEADER + LengthOf(rest)] == Emit(kind, data)
  {
    hide Checksum; hide Mask; hide Emit; hide Header; hide GetFixed32; hide LengthOf;
    assert |Emit(kind, data)| == HEADER + |data|;
    EmitParts(rest, kind, data);
    HeaderFields(kind, data, rest);
  }

  lemma GoodGives(b: Bytes, cut: bool)
    requires Complete(b) && ChecksumOk(b) && (b[6] != 0 || LengthOf(b) != 0)
    ensures Gives(b, cut, OfType(b[6], Payload(b)), [], HEADER + LengthOf(b))
  {
    hide LengthOf; hide Emit;
    ChecksumMeans(b);
    hide ChecksumOk;
    assert Written(b, b[6], Payload(b));
  }

  lemma BrokenGives(b: Bytes, cut: bool)
    requires Complete(b) && !ChecksumOk(b) && (b[6] != 0 || LengthOf(b) != 0)
    ensures Gives(b, cut, Bad, [|b|], |b|)
  {
    hide LengthOf; hide Emit;
    ChecksumMeans(b);
    hide ChecksumOk;
    forall k: byte, d: Bytes | Written(b, k, d)
      ensures false
    {
      WrittenIs(b, k, d);
    }
  }

  /** A cursor that went on in the same block. */
  ghost predicate Went(c: Cursor, c': Cursor) {
    && c'.next == c.next && c'.eof == c.eof && c.drops <= c'.drops && |c'.buffer| <= |c.buffer|
    && c'.buffer == c.buffer[|c.buffer| - |c'.buffer|..]
  }

  /** The reader's decisions, by what it looks at. */
  lemma ParseCases(c: Cursor)
    requires |c.buffer| >= HEADER
    ensures var b, n := c.buffer, LengthOf(c.buffer);
            Parse(c) == if !Complete(b) then (if c.eof then (c.(buffer := []), Eof) else (Drop(c, |b|), Bad))
                        else if b[6] == 0 && n == 0 then (c.(buffer := []), Bad)
                        else if !ChecksumOk(b) then (Drop(c, |b|), Bad)
                        else (c.(buffer := b[HEADER + n..]), OfType(b[6], Payload(b)))
  {
    hide LengthOf; hide ChecksumOk; hide OfType;
  }

  lemma UselessGives(b: Bytes, cut: bool)
    requires |b| >= HEADER
    ensures !Complete(b) ==> if cut then Gives(b, cut, Eof, [], |b|) else Gives(b, cut, Bad, [|b|], |b|)
    ensures Complete(b) && b[6] == 0 && LengthOf(b) == 0 ==> Gives(b, cut, Bad, [], |b|)
  {
    hide LengthOf; hide Damaged; hide Written;
  }

  lemma ParseGives(c: Cursor)
    requires |c.buffer| >= HEADER
    ensures var (c', p) := Parse(c);
            Went(c, c') && Gives(c.buffer, c.eof, p, c'.drops[|c.drops|..], |c.buffer| - |c'.buffer|)
  {
    hide Parse; hide LengthOf; hide ChecksumOk; hide Gives; hide OfType; hide Payload;
    var b := c.buffer;
    ParseCases(c);
    UselessGives(b, c.eof);
    assert (c.drops + [|b|])[|c.drops|..] == [|b|] && c.drops[|c.drops|..] == [] && b[|b|..] == [];
    if Complete(b) && (b[6] != 0 || LengthOf(b) != 0) {
      if ChecksumOk(b) {
        GoodGives(b, c.eof);
      } else {
        BrokenGives(b, c.eof);
      }
    }
  }

  lemma RestIs(file: Bytes, c: Cursor, pos: nat)
    requires Ready(file, c, pos) && (|c.buffer| > 0 || c.eof)
    ensures Rest(file, pos) == c.buffer && (c.eof <==> pos + Leftover(pos) > |file|)
  {
    ReadyLeftover(file, c, pos);
    hide Leftover;
  }

  lemma RefillReady(file: Bytes, c: Cursor, pos: nat)
    requires Ready(file, c, pos) && !c.eof
    ensures var c' := Refill(file, c); Ready(file, c', c.next) && (|c'.buffer| > 0 || c'.eof) && c'.drops == c.drops
  {
    var n := if c.next + BLOCK <= |file| then BLOCK else |file| - c.next;
    if n < BLOCK {
      ModUp(c.next, n);
    } else {
      ModUp(c.next, 0);
    }
  }

  lemma ModUp(n: nat, k: nat)
    requires n % BLOCK == 0 && k < BLOCK
    ensures (n + k) % BLOCK == k && (n + BLOCK) % BLOCK == 0
  {
    assert n == n / BLOCK * BLOCK;
    assert n + k == n / BLOCK * BLOCK + k;
    assert n + BLOCK == (n / BLOCK + 1) * BLOCK;
  }

  lemma WentReady(file: Bytes, c: Cursor, pos: nat, c': Cursor)
    requires Ready(file, c, pos) && Went(c, c')
    ensures Ready(file, c', pos + |c.buffer| - |c'.buffer|)
  {
  }

  /** A reader that has its block in the buffer. */
  function FromBuffer(r: Cursor): (Cursor, Physical) {
    if |r.buffer| < HEADER then (r.(buffer := []), Eof) else Parse(r)
  }

  lemma BufferGives(file: Bytes, r: Cursor, at: nat)
    requires Ready(file, r, at) && (|r.buffer| > 0 || r.eof)
    ensures var (c', p) := FromBuffer(r);
            && at <= |file| && r.drops <= c'.drops && |c'.buffer| <= c'.next && at <= c'.next - |c'.buffer|
            && Ready(file, c', c'.next - |c'.buffer|)
            && Gives(Rest(file, at), at + Leftover(at) > |file|, p, c'.drops[|r.drops|..], c'.next - |c'.buffer| - at)
  {
    hide Ready; hide Rest; hide Leftover; hide Parse; hide Gives; hide Went;
    ReadyBound(file, r, at);
    RestIs(file, r, at);
    if |r.buffer| < HEADER {
      assert r.drops[|r.drops|..] == [];
      ShortGives(r.buffer, at + Leftover(at) > |file|);
      WentOff(r);
      WentReady(file, r, at, r.(buffer := []));
    } else {
      ParseGives(r);
      WentReady(file, r, at, Parse(r).0);
      WentParts(r, Parse(r).0);
    }
  }

  lemma ReadIsBuffer(file: Bytes, c: Cursor, pos: nat)
    requires Ready(file, c, pos)
    ensures c.next <= |file|
    ensures ReadPhysical(file, c) == FromBuffer(if |c.buffer| < HEADER && !c.eof then Refill(file, c) else c)
  {
    hide Parse;
  }

  /** Every call, on every file: what is returned is what the bytes at that
      place call for, and the reader goes on right behind them. */
  lemma PhysicalSound(file: Bytes, c: Cursor, pos: nat)
    requires Ready(file, c, pos)
    ensures var (c', p) := ReadPhysical(file, c);
            var at := Spot(c, pos);
            && at <= |file| && c.drops <= c'.drops && |c'.buffer| <= c'.next && at <= c'.next - |c'.buffer|
            && Ready(file, c', c'.next - |c'.buffer|)
            && Gives(Rest(file, at), at + Leftover(at) > |file|, p, c'.drops[|c.drops|..], c'.next - |c'.buffer| - at)
  {
    hide Ready; hide Rest; hide Leftover; hide ReadPhysical; hide FromBuffer; hide Gives; hide Refill;
    ReadIsBuffer(file, c, pos);
    if |c.buffer| < HEADER && !c.eof {
      RefillReady(file, c, pos);
      BufferGives(file, Refill(file, c), c.next);
    } else {
      BufferGives(file, c, pos);
    }
  }

  lemma ReadyBound(file: Bytes, c: Cursor, pos: nat)
    requires Ready(file, c, pos)
    ensures pos <= c.next <= |file| && |c.buffer| == c.next - pos
  {
  }

  lemma ShortGives(b: Bytes, cut: bool)
    requires |b| < HEADER
    ensures Gives(b, cut, Eof, [], |b|)
  {
  }

  lemma WentOff(c: Cursor)
    ensures Went(c, c.(buffer := []))
  {
  }

  lemma WentParts(c: Cursor, c': Cursor)
    requires Went(c, c')
    ensures c'.next == c.next && c.drops <= c'.drops && |c'.buffer| <= |c.buffer|
  {
  }
}
