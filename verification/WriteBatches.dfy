/** Write batches as byte strings (db/write_batch.cc), which are also the
    records of the log. */
module WriteBatches {
  import opened Keys
  import opened Coding
  import opened Log
  import opened LogReader
  import opened LogCrash

  datatype Write = Put(key: Bytes, value: Bytes) | Delete(key: Bytes)

  const BATCH_HEADER: nat := 12

  ghost predicate WriteOk(w: Write) {
    |w.key| < TWO32 && (w.Put? ==> |w.value| < TWO32)
  }

  ghost predicate WritesOk(ws: seq<Write>) {
    |ws| < TWO32 && forall i :: 0 <= i < |ws| ==> WriteOk(ws[i])
  }

  function WriteBytes(w: Write): (s: Bytes)
    ensures s != []
  {
    if w.Put? then [1] + (Slice(w.key) + Slice(w.value)) else [0] + Slice(w.key)
  }

  function Records(ws: seq<Write>): Bytes {
    if ws == [] then [] else Records(ws[..|ws| - 1]) + WriteBytes(ws[|ws| - 1])
  }

  /** Sequence number, count, records. */
  function Rep(first: nat, ws: seq<Write>): (r: Bytes)
    requires first < TWO64 && |ws| < TWO32
    ensures |r| >= BATCH_HEADER
  {
    Fixed64(first) + Fixed32(|ws|) + Records(ws)
  }

  // ----- reading

  datatype One = One(w: Write, rest: Bytes)

  function GetWrite(s: Bytes): (r: Option<One>)
    ensures r.Some? ==> |r.value.rest| < |s|
  {
    if s == [] then None
    else
      SliceShorter(s[1..]);
      match GetSlice(s[1..])
      case None => None
      case Some(k) =>
        if s[0] == 0 then Some(One(Delete(k.data), k.rest))
        else if s[0] != 1 then None
        else
          SliceShorter(k.rest);
          match GetSlice(k.rest)
          case None => None
          case Some(v) => Some(One(Write.Put(k.data, v.data), v.rest))
  }

  lemma SliceShorter(s: Bytes)
    ensures GetSlice(s).Some? ==> |GetSlice(s).value.rest| < |s|
  {
  }

  lemma WriteRoundTrip(w: Write, rest: Bytes)
    requires WriteOk(w)
    ensures GetWrite(WriteBytes(w) + rest) == Some(One(w, rest))
  {
    hide GetSlice; hide Slice;
    var s := WriteBytes(w) + rest;
    if w.Put? {
      assert s[1..] == Slice(w.key) + (Slice(w.value) + rest);
      SliceRoundTrip(w.key, Slice(w.value) + rest);
      SliceRoundTrip(w.value, rest);
    } else {
      assert s[1..] == Slice(w.key) + rest;
      SliceRoundTrip(w.key, rest);
    }
  }

  /** The loop of Iterate: all the writes of the input, none on bad input. */
  function GetWrites(s: Bytes): (r: Option<seq<Write>>)
    decreases |s|
  {
    if s == [] then Some([])
    else
      match GetWrite(s)
      case None => None
      case Some(one) =>
        match GetWrites(one.rest)
        case None => None
        case Some(ws) => Some([one.w] + ws)
  }

  function Iterate(rep: Bytes): Option<seq<Write>> {
    if |rep| < BATCH_HEADER then None
    else
      var ws := GetWrites(rep[BATCH_HEADER..]);
      if ws.Some? && |ws.value| != GetFixed32(rep[8..]) then None else ws
  }

  lemma {:induction false} RecordsFirst(ws: seq<Write>)
    requires ws != []
    ensures Records(ws) == WriteBytes(ws[0]) + Records(ws[1..])
  {
    hide WriteBytes;
    var n := |ws| - 1;
    if n == 0 {
      assert ws[..0] == [] && ws[1..] == [];
    } else {
      var front, tail := ws[..n], ws[1..];
      assert tail[..n - 1] == front[1..] && tail[n - 1] == ws[n] && front[0] == ws[0];
      assert Records(ws) == Records(front) + WriteBytes(ws[n]) && Records(tail) == Records(front[1..]) + WriteBytes(ws[n]);
      hide Records;
      RecordsFirst(front);
    }
  }

  lemma {:induction false} RecordsRoundTrip(ws: seq<Write>)
    requires forall i :: 0 <= i < |ws| ==> WriteOk(ws[i])
    ensures GetWrites(Records(ws)) == Some(ws)
  {
    hide GetWrite; hide WriteBytes;
    if ws != [] {
      RecordsFirst(ws);
      RecordsRoundTrip(ws[1..]);
      WriteRoundTrip(ws[0], Records(ws[1..]));
      SomeBytes(ws[0]);
      GetShorter(Records(ws));
      hide Records;
      assert ws == [ws[0]] + ws[1..];
    }
  }

  lemma SomeBytes(w: Write)
    ensures WriteBytes(w) != []
  {
  }

  lemma GetShorter(s: Bytes)
    ensures GetWrite(s).Some? ==> |GetWrite(s).value.rest| < |s|
  {
  }

  lemma HeaderParts(first: nat, ws: seq<Write>)
    requires first < TWO64 && |ws| < TWO32
    ensures var rep := Rep(first, ws);
            && |rep| >= BATCH_HEADER && rep[BATCH_HEADER..] == Records(ws)
            && GetFixed64(rep) == first && GetFixed32(rep[8..]) == |ws|
  {
    hide Fixed64; hide Fixed32; hide GetFixed64; hide GetFixed32; hide Records;
    HeaderSizes(first, |ws|);
    Fixed64RoundTrip(first, Fixed32(|ws|) + Records(ws));
    Fixed32RoundTrip(|ws|, Records(ws));
    ThreeParts(Rep(first, ws), Fixed64(first), Fixed32(|ws|), Records(ws));
  }

  lemma HeaderSizes(first: nat, count: nat)
    requires first < TWO64 && count < TWO32
    ensures |Fixed64(first)| == 8 && |Fixed32(count)| == 4
  {
  }

  lemma ThreeParts(s: Bytes, a: Bytes, b: Bytes, c: Bytes)
    requires s == a + b + c && |a| == 8 && |b| == 4
    ensures |s| >= 12 && s == a + (b + c) && s[8..] == b + c && s[12..] == c
  {
  }

  /** A batch read back is the batch written. */
  lemma BatchRoundTrip(first: nat, ws: seq<Write>)
    requires first < TWO64 && WritesOk(ws)
    ensures Iterate(Rep(first, ws)) == Some(ws) && GetFixed64(Rep(first, ws)) == first
  {
    hide Rep; hide Records; hide GetWrites; hide GetFixed32; hide GetFixed64;
    HeaderParts(first, ws);
    RecordsRoundTrip(ws);
  }

  lemma {:induction false} RecordsConcat(a: seq<Write>, b: seq<Write>)
    ensures Records(a + b) == Records(a) + Records(b)
    decreases |b|
  {
    hide WriteBytes;
    if b == [] {
      assert a + b == a;
    } else {
      var n := |b| - 1;
      assert (a + b)[..|a + b| - 1] == a + b[..n];
      RecordsConcat(a, b[..n]);
    }
  }

  class WriteBatch {
    var rep: Bytes
    ghost var first: nat
    ghost var writes: seq<Write>

    ghost predicate Valid()
      reads this
    {
      first < TWO64 && |writes| < TWO32 && rep == Rep(first, writes)
    }

    constructor ()
      ensures Valid() && writes == [] && first == 0
    {
      rep := Fixed64(0) + Fixed32(0);
      first, writes := 0, [];
    }

    method SetSequence(n: nat)
      requires Valid() && n < TWO64
      modifies this
      ensures Valid() && first == n && writes == old(writes)
    {
      hide Rep; hide Fixed64;
      NewHead(first, n, writes);
      rep := Fixed64(n) + rep[8..];
      first := n;
    }

    /** The count goes up and the record is appended. */
    method AddWrite(w: Write)
      requires Valid() && |writes| + 1 < TWO32
      modifies this
      ensures Valid() && writes == old(writes) + [w] && first == old(first)
    {
      hide Rep; hide WriteBytes; hide Fixed32; hide GetFixed32;
      HeaderParts(first, writes);
      AppendedRep(first, writes, [w]);
      OneRecord(w);
      rep := rep[..8] + Fixed32(GetFixed32(rep[8..]) + 1) + rep[BATCH_HEADER..] + WriteBytes(w);
      writes := writes + [w];
    }

    /** WriteBatchInternal::Append: counts add up, records follow. */
    method Append(src: WriteBatch)
      requires Valid() && src.Valid() && src != this && |writes| + |src.writes| < TWO32
      modifies this
      ensures Valid() && writes == old(writes) + src.writes && first == old(first)
    {
      hide Rep; hide Records; hide Fixed32; hide GetFixed32;
      HeaderParts(first, writes);
      HeaderParts(src.first, src.writes);
      AppendedRep(first, writes, src.writes);
      rep := rep[..8] + Fixed32(GetFixed32(rep[8..]) + GetFixed32(src.rep[8..])) + rep[BATCH_HEADER..] + src.rep[BATCH_HEADER..];
      writes := writes + src.writes;
    }
  }

  lemma OneRecord(w: Write)
    ensures Records([w]) == WriteBytes(w)
  {
    hide WriteBytes;
    assert [w][..0] == [] && Records([]) == [];
  }

  lemma HeadSizes(first: nat, n: nat)
    requires first < TWO64 && n < TWO32
    ensures |Fixed64(first)| == 8 && |Fixed32(n)| == 4
  {
  }

  lemma NewHead(first: nat, n: nat, ws: seq<Write>)
    requires first < TWO64 && n < TWO64 && |ws| < TWO32
    ensures |Rep(first, ws)| >= BATCH_HEADER && Fixed64(n) + Rep(first, ws)[8..] == Rep(n, ws)
  {
    hide Fixed64; hide Fixed32; hide Records;
    HeadSizes(first, |ws|);
    HeadSizes(n, |ws|);
    Swap(Fixed64(first), Fixed64(n), Fixed32(|ws|), Records(ws));
  }

  lemma Swap(a: Bytes, a': Bytes, b: Bytes, c: Bytes)
    ensures a' + (a + b + c)[|a|..] == a' + b + c
  {
    assert (a + b + c)[|a|..] == b + c;
  }

  lemma AppendedRep(first: nat, ws: seq<Write>, more: seq<Write>)
    requires first < TWO64 && |ws| + |more| < TWO32
    ensures |Rep(first, ws)| >= BATCH_HEADER
    ensures Rep(first, ws)[..8] + Fixed32(|ws| + |more|) + Records(ws) + Records(more) == Rep(first, ws + more)
  {
    hide Fixed64; hide Fixed32; hide Records;
    HeadSizes(first, |ws|);
    RecordsConcat(ws, more);
    Front(Fixed64(first), Fixed32(|ws|), Records(ws));
    Tail(Fixed64(first) + Fixed32(|ws| + |more|), Records(ws), Records(more));
  }

  lemma Front(a: Bytes, b: Bytes, c: Bytes)
    ensures (a + b + c)[..|a|] == a
  {
  }

  lemma Tail(a: Bytes, b: Bytes, c: Bytes)
    ensures a + b + c == a + (b + c)
  {
  }

  // ----- a log of batches

  datatype Batch = Batch(first: nat, writes: seq<Write>)

  ghost predicate BatchesOk(bs: seq<Batch>) {
    forall i :: 0 <= i < |bs| ==> bs[i].first < TWO64 && WritesOk(bs[i].writes)
  }

  function RepOf(b: Batch): Bytes
    requires b.first < TWO64 && WritesOk(b.writes)
  {
    Rep(b.first, b.writes)
  }

  function Reps(bs: seq<Batch>): (r: seq<Bytes>)
    requires BatchesOk(bs)
    ensures |r| == |bs|
  {
    seq(|bs|, i requires 0 <= i < |bs| => RepOf(bs[i]))
  }

  /** The record is a batch, and which. */
  ghost predicate IsBatch(record: Bytes, b: Batch) {
    |record| >= BATCH_HEADER && GetFixed64(record) == b.first && Iterate(record) == Some(b.writes)
  }

  /** Whatever byte a log of batches was cut off at, it replays exactly the
      batches that were wholly written, each with its sequence number. */
  lemma TornLogReplays(bs: seq<Batch>, n: nat)
    requires BatchesOk(bs) && n <= |Log.File(Reps(bs))|
    ensures var (rs, c) := ReadAll(Log.File(Reps(bs))[..n], START);
            && c.drops == [] && |rs| == Whole(Reps(bs), n)
            && forall i :: 0 <= i < |rs| ==> IsBatch(rs[i], bs[i])
  {
    hide ReadAll; hide Whole; hide Log.File; hide Rep;
    CrashPrefix(Reps(bs), n);
    WholeBound(Reps(bs), n);
    forall i | 0 <= i < |bs|
      ensures IsBatch(Reps(bs)[i], bs[i])
    {
      hide Iterate; hide GetFixed64;
      BatchRoundTrip(bs[i].first, bs[i].writes);
      HeaderParts(bs[i].first, bs[i].writes);
    }
    hide IsBatch;
  }

  lemma WholeBound(records: seq<Bytes>, n: nat)
    ensures Whole(records, n) <= |records|
  {
  }
}
