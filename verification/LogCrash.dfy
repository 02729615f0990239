/** A log file cut off at any byte reads back exactly the records that are
    wholly in it. */
module LogCrash {
  import opened Keys
  import opened Coding
  import opened Log
  import opened LogReader

  // ----- one header

  lemma HeaderFields(kind: byte, data: Bytes, buffer: Bytes)
    requires |data| <= 0xFFFF && |buffer| >= HEADER && buffer[..HEADER] == Header(kind, data)
    ensures LengthOf(buffer) == |data| && buffer[6] == kind
    ensures GetFixed32(buffer) == Mask(Checksum(kind, data))
  {
    hide Checksum; hide Mask;
    var h := Header(kind, data);
    var crc := Fixed32(Mask(Checksum(kind, data)));
    assert buffer[4] == h[4] && buffer[5] == h[5] && buffer[6] == h[6];
    assert forall i :: 0 <= i < 4 ==> buffer[i] == buffer[..HEADER][i] == h[i] == crc[i];
    Fixed32RoundTrip(Mask(Checksum(kind, data)), []);
    assert crc + [] == crc;
    hide Fixed32;
    SameFixed32(buffer, crc);
  }

  lemma SameFixed32(a: Bytes, b: Bytes)
    requires |a| >= 4 && |b| >= 4 && forall i :: 0 <= i < 4 ==> a[i] == b[i]
    ensures GetFixed32(a) == GetFixed32(b)
  {
  }

  lemma ParseWhole(c: Cursor, kind: byte, data: Bytes)
    requires |data| <= 0xFFFF && 0 < kind <= LAST && |c.buffer| >= HEADER + |data| && c.buffer[..HEADER + |data|] == Emit(kind, data)
    ensures Parse(c) == (c.(buffer := c.buffer[HEADER + |data|..]), Fragment(kind, data))
  {
    var b, n := c.buffer, HEADER + |data|;
    EmitParts(b, kind, data);
    HeaderFields(kind, data, b);
    hide LengthOf; hide GetFixed32; hide Header; hide Emit;
    UnmaskMask(Checksum(kind, data));
    ExtendConcat(0, [kind], data);
    hide Mask; hide Unmask; hide Extend;
  }

  lemma EmitParts(b: Bytes, kind: byte, data: Bytes)
    requires |data| <= 0xFFFF && |b| >= HEADER + |data| && b[..HEADER + |data|] == Emit(kind, data)
    ensures b[..HEADER] == Header(kind, data) && b[HEADER..HEADER + |data|] == data && b[6..HEADER + |data|] == [kind] + data
  {
    hide Checksum; hide Mask;
    var e, n := Emit(kind, data), HEADER + |data|;
    var h := Header(kind, data);
    assert h[6] == kind;
    hide Header;
    assert forall i :: 0 <= i < n ==> b[i] == b[..n][i] == e[i];
    assert e[..HEADER] == h && e[HEADER..] == data;
    assert b[6..n] == [b[6]] + b[HEADER..n];
  }

  lemma ParseTorn(c: Cursor, kind: byte, data: Bytes)
    requires |data| <= 0xFFFF && c.eof && HEADER <= |c.buffer| < HEADER + |data| && c.buffer[..HEADER] == Header(kind, data)
    ensures Parse(c) == (c.(buffer := []), Eof)
  {
    HeaderFields(kind, data, c.buffer);
    hide LengthOf; hide Header;
  }

  // ----- where the reader stands

  /** The reader has consumed the file up to pos. */
  ghost predicate Ready(file: Bytes, c: Cursor, pos: nat) {
    && pos <= c.next <= |file| && c.buffer == file[pos..c.next] && |c.buffer| <= BLOCK
    && if c.eof then c.next == |file| && |c.buffer| <= |file| % BLOCK else c.next % BLOCK == 0
  }

  lemma ReadyLeftover(file: Bytes, c: Cursor, pos: nat)
    requires Ready(file, c, pos)
    ensures c.eof ==> |c.buffer| < Leftover(pos) && |file| == pos + |c.buffer|
    ensures !c.eof && |c.buffer| > 0 ==> Leftover(pos) == |c.buffer|
    ensures !c.eof && |c.buffer| == 0 ==> Leftover(pos) == BLOCK
    ensures |c.buffer| == c.next - pos
  {
    if c.eof {
      ModDown(|file|, |c.buffer|);
    } else {
      ModBack(c.next, |c.buffer|);
    }
  }

  lemma ModDown(n: nat, k: nat)
    requires k <= n % BLOCK
    ensures n >= k && (n - k) % BLOCK == n % BLOCK - k
  {
    assert n == n / BLOCK * BLOCK + n % BLOCK;
    assert (n - k) / BLOCK == n / BLOCK;
  }

  lemma ModBack(n: nat, k: nat)
    requires n % BLOCK == 0 && k <= BLOCK && k <= n
    ensures 0 < k < BLOCK ==> (n - k) % BLOCK == BLOCK - k
    ensures k == 0 || k == BLOCK ==> (n - k) % BLOCK == 0
  {
    assert n == n / BLOCK * BLOCK;
    if 0 < k < BLOCK {
      assert n - k == (n / BLOCK - 1) * BLOCK + (BLOCK - k);
    }
  }

  lemma StartReady(file: Bytes)
    ensures Ready(file, START, 0)
  {
  }

  /** As far as the file goes, it holds these bytes at pos. */
  ghost predicate Agrees(file: Bytes, pos: nat, bytes: Bytes) {
    pos <= |file| && forall i :: 0 <= i < |bytes| && pos + i < |file| ==> file[pos + i] == bytes[i]
  }

  lemma AgreesSplit(file: Bytes, pos: nat, a: Bytes, b: Bytes)
    requires Agrees(file, pos, a + b)
    ensures Agrees(file, pos, a)
    ensures pos + |a| <= |file| ==> Agrees(file, pos + |a|, b)
  {
    var ab := a + b;
    assert forall i :: 0 <= i < |a| ==> ab[i] == a[i];
    forall i | 0 <= i < |b| && pos + |a| + i < |file|
      ensures file[pos + |a| + i] == b[i]
    {
      assert ab[|a| + i] == b[i] && file[pos + (|a| + i)] == ab[|a| + i];
    }
  }

  lemma AgreesSlice(file: Bytes, pos: nat, bytes: Bytes, n: nat)
    requires Agrees(file, pos, bytes) && n <= |bytes| && pos + n <= |file|
    ensures file[pos..pos + n] == bytes[..n]
  {
  }

  // ----- one physical record

  lemma BufferedWhole(file: Bytes, c: Cursor, pos: nat, kind: byte, data: Bytes)
    requires Ready(file, c, pos) && 0 < kind <= LAST && HEADER + |data| <= |c.buffer| && |data| <= 0xFFFF
    requires Agrees(file, pos, Emit(kind, data))
    ensures var (c', p) := Parse(c);
            c'.drops == c.drops && p == Fragment(kind, data) && Ready(file, c', pos + HEADER + |data|)
  {
    hide Emit; hide Header; hide Parse; hide Leftover;
    var b, n := c.buffer, HEADER + |data|;
    AgreesSlice(file, pos, Emit(kind, data), n);
    assert b[..n] == file[pos..pos + n];
    assert Emit(kind, data)[..n] == Emit(kind, data);
    hide Agrees;
    ParseWhole(c, kind, data);
    assert b[n..] == file[pos + n..c.next];
  }

  lemma EmitHead(kind: byte, data: Bytes)
    requires |data| <= 0xFFFF
    ensures |Emit(kind, data)| == HEADER + |data| && Emit(kind, data)[..HEADER] == Header(kind, data)
  {
    hide HeaderOf; hide Checksum; hide Mask;
  }

  lemma BufferedTorn(file: Bytes, c: Cursor, pos: nat, kind: byte, data: Bytes)
    requires Ready(file, c, pos) && c.eof && HEADER <= |c.buffer| < HEADER + |data| && |data| <= 0xFFFF
    requires Agrees(file, pos, Emit(kind, data))
    ensures var (c', p) := Parse(c); c'.drops == c.drops && p == Eof && Ready(file, c', |file|) && c'.eof
  {
    hide Emit; hide Header; hide Parse; hide Leftover;
    EmitHead(kind, data);
    AgreesSlice(file, pos, Emit(kind, data), HEADER);
    assert c.buffer[..HEADER] == file[pos..pos + HEADER];
    hide Agrees;
    ParseTorn(c, kind, data);
  }

  /** The header is in the buffer already. */
  lemma BufferedRead(file: Bytes, c: Cursor, pos: nat, kind: byte, data: Bytes)
    requires Ready(file, c, pos) && |c.buffer| >= HEADER && 0 < kind <= LAST && HEADER + |data| <= Leftover(pos)
    requires Agrees(file, pos, Emit(kind, data))
    ensures Outcome(file, c, pos, HEADER + |data|, kind, data, Parse(c))
  {
    hide Emit; hide Header; hide Parse; hide Leftover; hide Ready; hide Agrees;
    ReadyLeftover(file, c, pos);
    ReadyNext(file, c, pos);
    if HEADER + |data| <= |c.buffer| {
      BufferedWhole(file, c, pos, kind, data);
    } else {
      BufferedTorn(file, c, pos, kind, data);
    }
  }

  lemma ReadyNext(file: Bytes, c: Cursor, pos: nat)
    requires Ready(file, c, pos)
    ensures pos + |c.buffer| == c.next <= |file|
  {
  }

  /** What reading a record of n bytes at pos comes to. */
  ghost predicate Outcome(file: Bytes, c: Cursor, pos: nat, n: nat, kind: byte, data: Bytes, r: (Cursor, Physical)) {
    && r.0.drops == c.drops
    && (pos + n <= |file| ==> r.1 == Fragment(kind, data) && Ready(file, r.0, pos + n))
    && (pos + n > |file| ==> r.1 == Eof && Ready(file, r.0, |file|) && r.0.eof)
  }

  lemma Refilled(file: Bytes, c: Cursor, pos: nat)
    requires Ready(file, c, pos) && !c.eof && |c.buffer| < HEADER
    ensures pos + Pad(pos) == c.next
    ensures Ready(file, Refill(file, c), c.next) && Refill(file, c).drops == c.drops
    ensures |Refill(file, c).buffer| < HEADER ==> Refill(file, c).eof && |file| < c.next + HEADER
  {
    ReadyLeftover(file, c, pos);
    hide Leftover;
    var r := Refill(file, c);
    if r.eof {
      assert |file| % BLOCK == |file| - c.next by {
        assert c.next == c.next / BLOCK * BLOCK;
      }
    }
  }

  /** Reading at pos yields the physical record written at pos, or the end of
      the file when the record is not wholly there. */
  lemma PhysicalRead(file: Bytes, c: Cursor, pos: nat, kind: byte, data: Bytes)
    requires Ready(file, c, pos) && c.next <= |file| && 0 < kind <= LAST && |data| <= Room(pos) && Agrees(file, pos, Piece(pos, kind, data))
    ensures Outcome(file, c, pos, |Piece(pos, kind, data)|, kind, data, ReadPhysical(file, c))
  {
    PieceIs(pos, kind, data);
    hide Parse; hide Emit; hide Refill; hide Ready; hide Agrees; hide Leftover; hide Outcome; hide Piece; hide Pad; hide Room;
    if |c.buffer| >= HEADER {
      DirectRead(file, c, pos, kind, data);
    } else if !c.eof {
      RefillRead(file, c, pos, kind, data);
    } else {
      NothingLeft(file, c, pos);
      AtEnd(file, c, pos, |Piece(pos, kind, data)|, kind, data);
    }
  }

  lemma PieceIs(pos: nat, kind: byte, data: Bytes)
    requires |data| <= Room(pos)
    ensures |data| <= 0xFFFF
    ensures Piece(pos, kind, data) == Zeros(Pad(pos)) + Emit(kind, data) && |Piece(pos, kind, data)| == Pad(pos) + HEADER + |data|
    ensures HEADER + |data| <= Leftover(pos + Pad(pos))
    ensures Pad(pos) == 0 ==> Piece(pos, kind, data) == Emit(kind, data)
    ensures Leftover(pos) >= HEADER ==> Pad(pos) == 0
  {
    hide Emit; hide Leftover;
  }

  lemma AtEnd(file: Bytes, c: Cursor, pos: nat, n: nat, kind: byte, data: Bytes)
    requires Ready(file, c.(buffer := []), |file|) && c.eof && pos + n > |file|
    ensures Outcome(file, c, pos, n, kind, data, (c.(buffer := []), Eof))
  {
    hide Ready;
  }

  lemma ReadRefilled(file: Bytes, c: Cursor)
    requires c.next <= |file| && |c.buffer| < HEADER && !c.eof
    ensures var r := Refill(file, c);
            ReadPhysical(file, c) == if |r.buffer| < HEADER then (r.(buffer := []), Eof) else Parse(r)
  {
    hide Parse; hide Refill;
  }

  lemma OutcomeLater(file: Bytes, r: Cursor, at: nat, n: nat, kind: byte, data: Bytes, o: (Cursor, Physical), c: Cursor, pos: nat, n': nat)
    requires Outcome(file, r, at, n, kind, data, o) && r.drops == c.drops && at + n == pos + n'
    ensures Outcome(file, c, pos, n', kind, data, o)
  {
    hide Ready;
  }

  lemma DirectRead(file: Bytes, c: Cursor, pos: nat, kind: byte, data: Bytes)
    requires Ready(file, c, pos) && c.next <= |file| && 0 < kind <= LAST && |data| <= Room(pos) && Agrees(file, pos, Piece(pos, kind, data))
    requires |c.buffer| >= HEADER
    ensures Outcome(file, c, pos, |Piece(pos, kind, data)|, kind, data, Parse(c))
  {
    hide *;
    ReadyLeftover(file, c, pos);
    PieceIs(pos, kind, data);
    BufferedRead(file, c, pos, kind, data);
  }

  lemma RefillRead(file: Bytes, c: Cursor, pos: nat, kind: byte, data: Bytes)
    requires Ready(file, c, pos) && c.next <= |file| && 0 < kind <= LAST && |data| <= Room(pos) && Agrees(file, pos, Piece(pos, kind, data))
    requires |c.buffer| < HEADER && !c.eof
    ensures Outcome(file, c, pos, |Piece(pos, kind, data)|, kind, data, ReadPhysical(file, c))
  {
    hide *;
    ReadRefilled(file, c);
    PieceIs(pos, kind, data);
    Refilled(file, c, pos);
    var r := Refill(file, c);
    var n := |Piece(pos, kind, data)|;
    if |r.buffer| >= HEADER {
      AgreesSplit(file, pos, Zeros(Pad(pos)), Emit(kind, data));
      ReadyNext(file, r, c.next);
      BufferedRead(file, r, c.next, kind, data);
      OutcomeLater(file, r, c.next, HEADER + |data|, kind, data, Parse(r), c, pos, n);
    } else {
      NothingLeft(file, r, c.next);
      AtEnd(file, r, c.next, HEADER + |data|, kind, data);
      OutcomeLater(file, r, c.next, HEADER + |data|, kind, data, (r.(buffer := []), Eof), c, pos, n);
    }
  }

  lemma NothingLeft(file: Bytes, c: Cursor, pos: nat)
    requires Ready(file, c, pos) && c.eof
    ensures Ready(file, c.(buffer := []), |file|) && pos + |c.buffer| == |file|
  {
  }

  // ----- one logical record

  /** Reading the rest of a record written at pos. */
  lemma {:induction false} FramesRead(file: Bytes, c: Cursor, pos: nat, data: Bytes, begin: bool, scratch: Bytes)
    requires Ready(file, c, pos) && c.next <= |file| && Agrees(file, pos, Frames(pos, data, begin)) && (begin ==> scratch == [])
    ensures var n := |Frames(pos, data, begin)|;
            var (c', r) := ReadFrom(file, c, !begin, scratch);
            && c'.drops == c.drops
            && (pos + n <= |file| ==> r == Some(scratch + data) && Ready(file, c', pos + n))
            && (pos + n > |file| ==> r == None && Ready(file, c', |file|) && c'.eof)
    decreases |data|, if Fit(pos, |data|) == 0 then 1 else 0
  {
    hide Ready; hide Agrees; hide Frames; hide Fit; hide ReadPhysical; hide Piece; hide Room;
    FramesStep(pos, data, begin);
    var n := Fit(pos, |data|);
    var kind := KindOf(begin, n == |data|);
    var piece := Piece(pos, kind, data[..n]);
    if n == |data| {
      assert data[..n] == data;
      PhysicalRead(file, c, pos, kind, data[..n]);
      assert begin ==> scratch + data == data;
    } else {
      var rest := Frames(pos + |piece|, data[n..], false);
      AgreesSplit(file, pos, piece, rest);
      PhysicalRead(file, c, pos, kind, data[..n]);
      if pos + |piece| <= |file| {
        ReadProgress(file, c);
        var c1 := ReadPhysical(file, c).0;
        var scratch1 := if begin then data[..n] else scratch + data[..n];
        FramesRead(file, c1, pos + |piece|, data[n..], false, scratch1);
        assert scratch1 + data[n..] == scratch + data;
      }
    }
  }

  // ----- the whole file

  lemma {:induction false} RecordProgress(file: Bytes, c: Cursor, inside: bool, scratch: Bytes)
    requires c.next <= |file|
    ensures ReadFrom(file, c, inside, scratch).0.next <= |file|
    ensures ReadFrom(file, c, inside, scratch).1.Some? ==> Left(file, ReadFrom(file, c, inside, scratch).0) < Left(file, c)
    decreases Left(file, c)
  {
    hide ReadPhysical;
    ReadProgress(file, c);
    var (c', p) := ReadPhysical(file, c);
    match p
    case Eof =>
    case Bad =>
      if inside {
        RecordProgress(file, Report(c', |scratch|), false, []);
      } else {
        RecordProgress(file, c', false, scratch);
      }
    case Fragment(kind, data) =>
      if kind == FIRST {
        RecordProgress(file, Partial(c', inside, scratch), true, data);
      } else if kind == MIDDLE {
        if inside {
          RecordProgress(file, c', true, scratch + data);
        } else {
          RecordProgress(file, Report(c', |data|), false, scratch);
        }
      } else if kind == LAST {
        if !inside {
          RecordProgress(file, Report(c', |data|), false, scratch);
        }
      } else if kind != FULL {
        RecordProgress(file, Report(c', |data| + if inside then |scratch| else 0), false, []);
      }
  }

  /** All the records, read one after the other until there is none. */
  function ReadAll(file: Bytes, c: Cursor): (seq<Bytes>, Cursor)
    requires c.next <= |file|
    decreases Left(file, c)
  {
    RecordProgress(file, c, false, []);
    var (c', r) := ReadFrom(file, c, false, []);
    if r.None? then ([], c')
    else
      var (rs, c2) := ReadAll(file, c');
      ([r.value] + rs, c2)
  }

  method ReadLog(file: Bytes) returns (records: seq<Bytes>, drops: seq<nat>)
    ensures records == ReadAll(file, START).0 && drops == ReadAll(file, START).1.drops
  {
    hide ReadFrom;
    var reader := new Reader(file);
    records := [];
    assert records + ReadAll(file, START).0 == ReadAll(file, START).0;
    while true
      invariant reader.Valid() && reader.file == file && fresh(reader)
      invariant ReadAll(file, START) == (records + ReadAll(file, reader.State()).0, ReadAll(file, reader.State()).1)
      decreases Left(file, reader.State())
    {
      RecordProgress(file, reader.State(), false, []);
      ghost var all := ReadAll(file, reader.State());
      var r := reader.ReadRecord();
      if r.None? {
        assert records + [] == records;
        return records, reader.drops;
      }
      ghost var rest := ReadAll(file, reader.State()).0;
      assert all.0 == [r.value] + rest;
      assert records + ([r.value] + rest) == (records + [r.value]) + rest;
      records := records + [r.value];
    }
  }

  /** How many records lie wholly in the first n bytes. */
  function Whole(records: seq<Bytes>, n: nat): (k: nat)
    ensures k <= |records|
  {
    if records == [] || |Log.File(records)| <= n then |records| else Whole(records[..|records| - 1], n)
  }

  lemma {:induction false} FileGrows(records: seq<Bytes>, j: nat, k: nat)
    requires j <= k <= |records|
    ensures Log.File(records[..j]) <= Log.File(records[..k])
    ensures j < k ==> |Log.File(records[..j])| < |Log.File(records[..k])|
    decreases k
  {
    hide Log.File; hide Frames;
    if j < k {
      FileNext(records, k - 1);
      FramesLong(|Log.File(records[..k - 1])|, records[k - 1]);
      FileGrows(records, j, k - 1);
      Appended(Log.File(records[..j]), Log.File(records[..k - 1]), Frames(|Log.File(records[..k - 1])|, records[k - 1], true));
    }
  }

  lemma Appended(a: Bytes, b: Bytes, c: Bytes)
    requires a <= b && |c| > 0
    ensures a <= b + c && |a| < |b + c|
  {
  }

  lemma FramesLong(pos: nat, data: Bytes)
    ensures |Frames(pos, data, true)| > 0
  {
  }

  lemma {:induction false} WholeIs(records: seq<Bytes>, n: nat, k: nat)
    requires k <= |records| && |Log.File(records[..k])| <= n
    requires k < |records| ==> |Log.File(records[..k + 1])| > n
    ensures Whole(records, n) == k
    decreases |records|
  {
    hide Log.File;
    assert records[..|records|] == records;
    if k < |records| {
      FileGrows(records, k + 1, |records|);
      var front := records[..|records| - 1];
      assert front[..k] == records[..k];
      if k < |front| {
        assert front[..k + 1] == records[..k + 1];
      }
      WholeIs(front, n, k);
    }
  }

  lemma FileNext(records: seq<Bytes>, k: nat)
    requires k < |records|
    ensures Log.File(records[..k + 1]) == Log.File(records[..k]) + Frames(|Log.File(records[..k])|, records[k], true)
  {
    assert records[..k + 1][..k] == records[..k];
    hide Frames;
  }

  lemma FileAgrees(records: seq<Bytes>, n: nat, k: nat)
    requires k < |records| && |Log.File(records[..k])| <= n <= |Log.File(records)|
    ensures var pos := |Log.File(records[..k])|;
            Agrees(Log.File(records)[..n], pos, Frames(pos, records[k], true))
  {
    hide Log.File; hide Frames; hide Agrees;
    FileNext(records, k);
    FileGrows(records, k + 1, |records|);
    assert records[..|records|] == records;
    PartAgrees(Log.File(records), Log.File(records[..k + 1]), Log.File(records[..k]), Frames(|Log.File(records[..k])|, records[k], true), n);
  }

  lemma PartAgrees(whole: Bytes, upto: Bytes, front: Bytes, frames: Bytes, n: nat)
    requires upto <= whole && upto == front + frames && |front| <= n <= |whole|
    ensures Agrees(whole[..n], |front|, frames)
  {
    forall i | 0 <= i < |frames| && |front| + i < n
      ensures whole[..n][|front| + i] == frames[i]
    {
      assert upto[|front| + i] == frames[i];
    }
  }

  lemma {:induction false} ReadRest(records: seq<Bytes>, n: nat, k: nat, c: Cursor)
    requires k <= |records| && |Log.File(records[..k])| <= n <= |Log.File(records)|
    requires Ready(Log.File(records)[..n], c, |Log.File(records[..k])|) && c.next <= n
    ensures var (rs, c') := ReadAll(Log.File(records)[..n], c);
            c'.drops == c.drops && k <= Whole(records, n) && rs == records[k..Whole(records, n)]
    decreases |records| - k
  {
    hide Ready; hide Agrees; hide Frames; hide ReadFrom; hide Log.File; hide Whole;
    var file, pos := Log.File(records)[..n], |Log.File(records[..k])|;
    var data := if k < |records| then records[k] else [];
    if k < |records| {
      FileAgrees(records, n, k);
      FileNext(records, k);
    } else {
      assert records[..k] == records;
      EndAgrees(file, Frames(pos, data, true));
    }
    FramesRead(file, c, pos, data, true, []);
    RecordProgress(file, c, false, []);
    if pos + |Frames(pos, data, true)| <= n {
      var c' := ReadFrom(file, c, false, []).0;
      assert [] + data == data;
      ReadRest(records, n, k + 1, c');
      assert records[k..Whole(records, n)] == [records[k]] + records[k + 1..Whole(records, n)];
    } else {
      WholeIs(records, n, k);
    }
  }

  lemma EndAgrees(file: Bytes, bytes: Bytes)
    ensures Agrees(file, |file|, bytes)
  {
  }

  /** Whatever byte the file was cut off at: the records wholly in it come
      back, in order, and nothing is reported as corrupt. */
  lemma CrashPrefix(records: seq<Bytes>, n: nat)
    requires n <= |Log.File(records)|
    ensures var (rs, c) := ReadAll(Log.File(records)[..n], START);
            rs == records[..Whole(records, n)] && c.drops == []
  {
    StartReady(Log.File(records)[..n]);
    assert records[..0] == [] && Log.File([]) == [];
    ReadRest(records, n, 0, START);
  }

  /** The uncut file gives all records back. */
  lemma LogRoundTrip(records: seq<Bytes>)
    ensures var (rs, c) := ReadAll(Log.File(records), START);
            rs == records && c.drops == []
  {
    var n := |Log.File(records)|;
    assert Log.File(records)[..n] == Log.File(records);
    CrashPrefix(records, n);
  }
}
