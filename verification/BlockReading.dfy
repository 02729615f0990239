/** Iterating over a block (table/block.cc). */
module BlockReading {
  import opened Keys
  import opened Coding
  import opened Block

  datatype EntryHead = EntryHead(shared: nat, rest: nat, value: nat, used: nat)

  /** Three varints; DecodeEntry's slow path. */
  function SlowHead(s: Bytes): (r: Option<EntryHead>)
    ensures r.Some? ==> r.value.used <= |s|
  {
    match VarintAt(s, 5)
    case None => None
    case Some(a) =>
      match VarintAt(s[a.used..], 5)
      case None => None
      case Some(b) =>
        match VarintAt(s[a.used + b.used..], 5)
        case None => None
        case Some(c) =>
          Some(EntryHead(a.value % TWO32, b.value % TWO32, c.value % TWO32, a.used + b.used + c.used))
  }

  /** DecodeEntry on the bytes up to the limit. */
  function DecodeEntry(s: Bytes): (r: Option<EntryHead>)
    ensures r.Some? ==> r.value.used <= |s|
  {
    if |s| < 3 then None
    else
      var h := if s[0] < 128 && s[1] < 128 && s[2] < 128 then Some(EntryHead(s[0], s[1], s[2], 3)) else SlowHead(s);
      if h.None? || |s| - h.value.used < (h.value.rest + h.value.value) % TWO32 then None else h
  }

  lemma VarintSmall(v: nat)
    ensures v < 128 ==> Varint(v) == [v]
    ensures v >= 128 ==> Varint(v)[0] >= 128
  {
  }

  lemma SlowHeadRoundTrip(shared: nat, rest: nat, value: nat, tail: Bytes)
    requires shared < TWO32 && rest < TWO32 && value < TWO32
    ensures SlowHead(Head(shared, rest, value) + tail) == Some(EntryHead(shared, rest, value, |Head(shared, rest, value)|))
  {
    var a, b, c := Varint(shared), Varint(rest), Varint(value);
    var s := Head(shared, rest, value) + tail;
    hide Varint; hide VarintAt; hide Power128;
    Limits();
    VarintRoundTrip(shared, 5, b + c + tail);
    VarintRoundTrip(rest, 5, c + tail);
    VarintRoundTrip(value, 5, tail);
    assert s == a + (b + c + tail);
    assert s[|a|..] == b + (c + tail) && b + c + tail == b + (c + tail);
    assert s[|a| + |b|..] == c + tail;
  }

  lemma DecodeRoundTrip(shared: nat, rest: nat, value: nat, tail: Bytes)
    requires shared < TWO32 && rest < TWO32 && value < TWO32 && rest + value <= |tail|
    ensures DecodeEntry(Head(shared, rest, value) + tail) == Some(EntryHead(shared, rest, value, |Head(shared, rest, value)|))
  {
    var s := Head(shared, rest, value) + tail;
    SlowHeadRoundTrip(shared, rest, value, tail);
    FastHead(shared, rest, value, tail);
    hide SlowHead; hide Varint;
  }

  /** Where the fast path applies it finds the same numbers. */
  lemma FastHead(shared: nat, rest: nat, value: nat, tail: Bytes)
    ensures var s := Head(shared, rest, value) + tail;
            && |s| >= 3
            && (s[0] < 128 && s[1] < 128 && s[2] < 128 ==>
                  s[0] == shared && s[1] == rest && s[2] == value && |Head(shared, rest, value)| == 3)
  {
    VarintSmall(shared);
    VarintSmall(rest);
    VarintSmall(value);
    var a, b, c := Varint(shared), Varint(rest), Varint(value);
    hide Varint;
    var s := a + b + c + tail;
    assert s[0] == a[0];
    assert |a| == 1 ==> s[1] == b[0];
    assert |a| == 1 && |b| == 1 ==> s[2] == c[0];
  }

  // ----- what is where in a finished block

  /** The block with its entries' offsets known. */
  ghost predicate IsBlock(data: Bytes, kvs: seq<KV>, interval: nat) {
    interval > 0 && Small(kvs, interval) && data == BlockBytes(kvs, interval)
  }

  ghost function End(kvs: seq<KV>, interval: nat): nat
    requires interval > 0
  {
    Offset(kvs, interval, |kvs|)
  }

  function RestartPoint(data: Bytes, restarts: nat, j: nat): (n: nat)
    requires restarts + 4 * j + 4 <= |data|
  {
    GetFixed32(data[restarts + 4 * j..])
  }

  lemma RestartIs(data: Bytes, kvs: seq<KV>, interval: nat, j: nat)
    requires IsBlock(data, kvs, interval) && j < RestartCount(|kvs|, interval)
    ensures End(kvs, interval) + 4 * j + 4 <= |data| && StartOf(j, interval) <= |kvs|
    ensures RestartPoint(data, End(kvs, interval), j) == Offset(kvs, interval, StartOf(j, interval))
  {
    hide RestartOffsets; hide Fixed32; hide GetFixed32; hide RestartCount; hide IsBlock; hide Fixeds; hide Data; hide StartOf;
    BlockParts(data, kvs, interval);
    RestartInside(|kvs|, interval, j);
    var offsets, d := RestartOffsets(kvs, interval), Data(kvs, interval, |kvs|);
    Fixed32Length(|offsets|);
    FixedsAt(offsets, j, Fixed32(|offsets|));
    ArraySlice(data, d, Fixeds(offsets), Fixed32(|offsets|), 4 * j);
    OffsetIs(kvs, interval, j);
  }

  lemma BlockParts(data: Bytes, kvs: seq<KV>, interval: nat)
    requires IsBlock(data, kvs, interval)
    ensures var offsets := RestartOffsets(kvs, interval);
            && interval > 0 && |offsets| == RestartCount(|kvs|, interval) < TWO32
            && (forall i :: 0 <= i < |offsets| ==> offsets[i] < TWO32)
            && |Fixeds(offsets)| == 4 * |offsets|
            && data == Data(kvs, interval, |kvs|) + Fixeds(offsets) + Fixed32(|offsets|)
  {
    hide Data; hide RestartOffsets; hide Fixeds; hide Fixed32;
    SmallOffsets(kvs, interval);
    FixedsLength(RestartOffsets(kvs, interval));
    RestartsLength(kvs, interval);
  }

  lemma FixedsLength(offsets: seq<nat>)
    requires forall i :: 0 <= i < |offsets| ==> offsets[i] < TWO32
    ensures |Fixeds(offsets)| == 4 * |offsets|
  {
  }

  lemma RestartsLength(kvs: seq<KV>, interval: nat)
    requires interval > 0
    ensures |RestartOffsets(kvs, interval)| == RestartCount(|kvs|, interval)
  {
  }

  lemma Fixed32Length(v: nat)
    requires v < TWO32
    ensures |Fixed32(v)| == 4
  {
  }

  lemma OffsetIs(kvs: seq<KV>, interval: nat, j: nat)
    requires interval > 0 && j < RestartCount(|kvs|, interval) && StartOf(j, interval) <= |kvs|
    ensures RestartOffsets(kvs, interval)[j] == Offset(kvs, interval, StartOf(j, interval))
  {
    hide Data;
  }

  lemma ArraySlice(data: Bytes, d: Bytes, f: Bytes, last: Bytes, k: nat)
    requires data == d + f + last && k <= |f|
    ensures data[|d| + k..] == (f + last)[k..]
  {
    assert data == d + (f + last);
  }

  lemma CountIs(data: Bytes, kvs: seq<KV>, interval: nat)
    requires IsBlock(data, kvs, interval)
    ensures var n := RestartCount(|kvs|, interval);
            && |data| == End(kvs, interval) + 4 * n + 4
            && GetFixed32(data[|data| - 4..]) == n
  {
    hide RestartOffsets; hide Fixeds; hide Data; hide IsBlock; hide RestartCount; hide Fixed32; hide GetFixed32;
    BlockParts(data, kvs, interval);
    var offsets := RestartOffsets(kvs, interval);
    Fixed32Length(|offsets|);
    Fixed32RoundTrip(|offsets|, []);
    assert Fixed32(|offsets|) + [] == Fixed32(|offsets|);
    assert data[|data| - 4..] == Fixed32(|offsets|);
  }

  lemma TailStep(kvs: seq<KV>, interval: nat, n: nat)
    requires interval > 0 && n < |kvs|
    ensures Offset(kvs, interval, n) < Offset(kvs, interval, n + 1) <= End(kvs, interval)
    ensures var d := Data(kvs, interval, |kvs|);
            d[Offset(kvs, interval, n)..] == EntryBytes(SharedAt(kvs, interval, n), kvs[n]) + d[Offset(kvs, interval, n + 1)..]
  {
    OffsetGrows(kvs, interval, n, n + 1);
    OffsetGrows(kvs, interval, n + 1, |kvs|);
    var d, e := Data(kvs, interval, |kvs|), EntryBytes(SharedAt(kvs, interval, n), kvs[n]);
    var a, b := Data(kvs, interval, n), Data(kvs, interval, n + 1);
    assert b == a + e;
    hide Data; hide EntryBytes; hide SharedAt;
    Suffix(d, b, a, e);
  }

  lemma Suffix(d: Bytes, b: Bytes, a: Bytes, e: Bytes)
    requires b <= d && b == a + e
    ensures d[|a|..] == e + d[|b|..]
  {
    assert d == b + d[|b|..];
  }

  /** Decoding at `from` gives this entry, and the next one starts at `next`. */
  ghost predicate Decodes(data: Bytes, from: nat, to: nat, shared: nat, kv: KV, next: nat) {
    && from <= to <= |data| && shared <= |kv.key|
    && var h := DecodeEntry(data[from..to]);
    && h.Some? && h.value.shared == shared
    && var p := from + h.value.used;
    && p + h.value.rest + h.value.value == next <= to
    && data[p..p + h.value.rest] == kv.key[shared..]
    && data[p + h.value.rest..next] == kv.value
  }

  lemma EntryIs(data: Bytes, kvs: seq<KV>, interval: nat, n: nat)
    requires IsBlock(data, kvs, interval) && n < |kvs|
    ensures Decodes(data, Offset(kvs, interval, n), End(kvs, interval), SharedAt(kvs, interval, n), kvs[n], Offset(kvs, interval, n + 1))
    ensures Offset(kvs, interval, n) < End(kvs, interval)
  {
    DataFirst(data, kvs, interval);
    assert |kvs[n].key| < TWO32 && |kvs[n].value| < TWO32;
    hide IsBlock; hide Data; hide SharedAt; hide Decodes;
    SharedFits(kvs, interval, n);
    TailStep(kvs, interval, n);
    DecodesAt(data, Data(kvs, interval, |kvs|), Offset(kvs, interval, n), Offset(kvs, interval, n + 1), SharedAt(kvs, interval, n), kvs[n]);
  }

  lemma SharedFits(kvs: seq<KV>, interval: nat, n: nat)
    requires interval > 0 && n < |kvs|
    ensures SharedAt(kvs, interval, n) <= |kvs[n].key|
  {
  }

  lemma DecodesAt(data: Bytes, d: Bytes, from: nat, next: nat, shared: nat, kv: KV)
    requires |d| <= |data| && data[..|d|] == d && from <= next <= |d|
    requires shared <= |kv.key| < TWO32 && |kv.value| < TWO32
    requires d[from..] == EntryBytes(shared, kv) + d[next..]
    ensures Decodes(data, from, |d|, shared, kv, next)
  {
    hide EntryBytes; hide DecodeEntry;
    var s, tail := d[from..], d[next..];
    SameTail(data, d, from);
    OneEntry(s, shared, kv, tail);
    var h := DecodeEntry(s).value;
    var a, b := h.used + h.rest, h.used + h.rest + h.value;
    assert from + b == next;
    SubSlice(data, d, from, h.used, h.rest);
    SubSlice(data, d, from, a, h.value);
  }

  lemma SameTail(data: Bytes, d: Bytes, from: nat)
    requires |d| <= |data| && data[..|d|] == d && from <= |d|
    ensures data[from..|d|] == d[from..]
  {
  }

  lemma SubSlice(data: Bytes, d: Bytes, from: nat, a: nat, n: nat)
    requires |d| <= |data| && data[..|d|] == d && from + a + n <= |d|
    ensures d[from..][a..a + n] == data[from + a..from + a + n]
  {
    var x, y := d[from..][a..a + n], data[from + a..from + a + n];
    forall i | 0 <= i < n
      ensures x[i] == y[i]
    {
      assert x[i] == d[from + a + i] == data[..|d|][from + a + i];
    }
  }

  lemma DataFirst(data: Bytes, kvs: seq<KV>, interval: nat)
    requires IsBlock(data, kvs, interval)
    ensures End(kvs, interval) <= |data| && data[..End(kvs, interval)] == Data(kvs, interval, |kvs|)
  {
    SmallOffsets(kvs, interval);
    hide Data; hide RestartOffsets; hide Fixeds; hide Fixed32;
  }

  lemma OneEntry(s: Bytes, shared: nat, kv: KV, tail: Bytes)
    requires shared <= |kv.key| < TWO32 && |kv.value| < TWO32 && s == EntryBytes(shared, kv) + tail
    ensures var h := DecodeEntry(s);
            && h.Some? && h.value.shared == shared && h.value.rest == |kv.key| - shared && h.value.value == |kv.value|
            && h.value.used + h.value.rest + h.value.value == |EntryBytes(shared, kv)| <= |s|
            && s[h.value.used..h.value.used + h.value.rest] == kv.key[shared..]
            && s[h.value.used + h.value.rest..h.value.used + h.value.rest + h.value.value] == kv.value
  {
    hide EntryBytes; hide DecodeEntry; hide Head;
    var head := Head(shared, |kv.key| - shared, |kv.value|);
    var rest := kv.key[shared..] + kv.value + tail;
    EntrySize(shared, kv);
    EntryThen(shared, kv, tail);
    DecodeRoundTrip(shared, |kv.key| - shared, |kv.value|, rest);
    Slices(s, head, kv.key[shared..], kv.value, tail);
  }

  lemma EntryThen(shared: nat, kv: KV, tail: Bytes)
    requires shared <= |kv.key|
    ensures EntryBytes(shared, kv) + tail == Head(shared, |kv.key| - shared, |kv.value|) + (kv.key[shared..] + kv.value + tail)
  {
    hide Head;
  }

  lemma EntrySize(shared: nat, kv: KV)
    requires shared <= |kv.key|
    ensures |EntryBytes(shared, kv)| == |Head(shared, |kv.key| - shared, |kv.value|)| + (|kv.key| - shared) + |kv.value|
  {
    hide Head;
  }

  lemma Slices(s: Bytes, head: Bytes, a: Bytes, b: Bytes, tail: Bytes)
    requires s == head + (a + b + tail)
    ensures s[|head|..|head| + |a|] == a && s[|head| + |a|..|head| + |a| + |b|] == b
  {
  }

  // ----- the iterator

  type Order = (Bytes, Bytes) -> bool

  ghost predicate Transitive(less: Order) {
    forall a, b, c :: less(a, b) && less(b, c) ==> less(a, c)
  }

  ghost predicate InOrder(less: Order, kvs: seq<KV>) {
    forall i, j :: 0 <= i < j < |kvs| ==> less(kvs[i].key, kvs[j].key)
  }

  /** First entry not before the target: what a linear scan finds. */
  function FirstFrom(less: Order, kvs: seq<KV>, target: Bytes): (i: nat)
    ensures i <= |kvs|
    ensures forall j :: 0 <= j < i ==> less(kvs[j].key, target)
    ensures i < |kvs| ==> !less(kvs[i].key, target)
  {
    if kvs == [] || !less(kvs[0].key, target) then 0
    else
      var i := FirstFrom(less, kvs[1..], target);
      assert forall j :: 1 <= j <= i ==> kvs[j] == kvs[1..][j - 1];
      1 + i
  }

  lemma FirstIs(less: Order, kvs: seq<KV>, target: Bytes, n: nat)
    requires n <= |kvs| && (forall j :: 0 <= j < n ==> less(kvs[j].key, target)) && (n < |kvs| ==> !less(kvs[n].key, target))
    ensures FirstFrom(less, kvs, target) == n
  {
  }

  function Place(n: nat, length: nat): Option<nat> {
    if n < length then Some(n) else None
  }

  class Iter {
    const data: Bytes
    const less: Order
    const restarts: nat
    const numRestarts: nat
    var current: nat
    var restartIndex: nat
    var key: Bytes
    var valueAt: nat
    var valueLength: nat
    var corrupt: bool
    ghost const kvs: seq<KV>
    ghost const interval: nat
    ghost var at: Option<nat>

    ghost predicate Fixed() {
      && interval > 0 && IsBlock(data, kvs, interval) && restarts == End(kvs, interval) && numRestarts == RestartCount(|kvs|, interval)
      && Transitive(less) && InOrder(less, kvs)
    }

    /** The entry to be parsed next is number n. */
    ghost predicate Before(n: nat)
      reads this
    {
      && Fixed() && !corrupt && n <= |kvs|
      && valueAt + valueLength == Offset(kvs, interval, n)
      && (0 < n < |kvs| && !AtRestart(n, interval) ==> key == kvs[n - 1].key)
      && restartIndex < numRestarts && StartOf(restartIndex, interval) <= n
    }

    ghost predicate On(n: nat)
      reads this
    {
      && Before(n + 1) && current == Offset(kvs, interval, n)
      && key == kvs[n].key && StartOf(restartIndex, interval) <= n
      && valueAt + valueLength <= |data| && data[valueAt..valueAt + valueLength] == kvs[n].value
    }

    ghost predicate Valid()
      reads this
    {
      && Fixed() && !corrupt
      && match at case None => current == restarts case Some(n) => n < |kvs| && On(n)
    }

    constructor (data: Bytes, less: Order, ghost kvs: seq<KV>, ghost interval: nat)
      requires IsBlock(data, kvs, interval) && Transitive(less) && InOrder(less, kvs)
      ensures Valid() && this.data == data && this.less == less && this.kvs == kvs && this.interval == interval && at == None
    {
      CountIs(data, kvs, interval);
      hide GetFixed32; hide IsBlock;
      var n := GetFixed32(data[|data| - 4..]);
      this.data, this.less, this.kvs, this.interval := data, less, kvs, interval;
      numRestarts, restarts := n, |data| - (1 + n) * 4;
      current, restartIndex := |data| - (1 + n) * 4, n;
      key, valueAt, valueLength, corrupt, at := [], 0, 0, false, None;
    }

    method GetRestartPoint(index: nat) returns (n: nat)
      requires Fixed() && index < numRestarts
      ensures StartOf(index, interval) <= |kvs| && n == Offset(kvs, interval, StartOf(index, interval))
    {
      hide IsBlock; hide Offset; hide StartOf; hide AtRestart; hide GetFixed32;
      RestartIs(data, kvs, interval, index);
      n := RestartPoint(data, restarts, index);
    }

    method SeekToRestartPoint(index: nat)
      requires Fixed() && !corrupt && index < numRestarts
      modifies this`key, this`restartIndex, this`valueAt, this`valueLength
      ensures StartOf(index, interval) <= |kvs| && Before(StartOf(index, interval))
    {
      hide IsBlock; hide Offset; hide StartOf; hide AtRestart;
      RestartInside(|kvs|, interval, index);
      key, restartIndex := [], index;
      var offset := GetRestartPoint(index);
      valueAt, valueLength := offset, 0;
    }

    /** The entry at current is decoded into key and value. */
    method ReadEntry(ghost n: nat)
      requires Before(n) && n < |kvs| && current == Offset(kvs, interval, n) < restarts
      modifies this`key, this`valueAt, this`valueLength
      ensures On(n)
    {
      hide *;
      RestIs(n);
      EntryIs(data, kvs, interval, n);
      SharedOk(kvs, interval, n, key);
      var h := DecodeEntry(data[current..restarts]);
      DecodedEntry(data, current, restarts, SharedAt(kvs, interval, n), kvs[n], Offset(kvs, interval, n + 1));
      var p := current + h.value.used;
      key := key[..h.value.shared] + data[p..p + h.value.rest];
      valueAt, valueLength := p + h.value.rest, h.value.value;
      NowOn(n);
    }

    /** The program's test for validity. */
    lemma Standing()
      requires Valid()
      ensures current < restarts <==> at.Some?
    {
      hide IsBlock; hide InOrder; hide Transitive; hide RestartCount; hide AtRestart; hide StartOf;
      if at.Some? {
        OffsetsApart(kvs, interval, at.value);
      }
      hide Offset;
    }

    lemma OnFixed(n: nat)
      requires On(n)
      ensures Fixed() && !corrupt
    {
    }

    lemma RestIs(n: nat)
      requires Before(n) && n < |kvs|
      ensures Fixed() && IsBlock(data, kvs, interval) && interval > 0 && restarts == End(kvs, interval) <= |data|
      ensures n > 0 && !AtRestart(n, interval) ==> key == kvs[n - 1].key
      ensures !corrupt && restartIndex < numRestarts && StartOf(restartIndex, interval) <= n
    {
      CountIs(data, kvs, interval);
      hide IsBlock; hide Offset; hide GetFixed32; hide AtRestart; hide StartOf;
    }

    lemma NowOn(n: nat)
      requires Fixed() && !corrupt && interval > 0 && n < |kvs| && current == Offset(kvs, interval, n)
      requires key == kvs[n].key && valueAt + valueLength == Offset(kvs, interval, n + 1)
      requires restartIndex < numRestarts && StartOf(restartIndex, interval) <= n
      requires valueAt + valueLength <= |data| && data[valueAt..valueAt + valueLength] == kvs[n].value
      ensures On(n)
    {
      hide IsBlock; hide Offset; hide GetFixed32; hide AtRestart; hide StartOf; hide Fixed;
    }

    /** The restart index follows the current entry. */
    method AdvanceRestart(ghost n: nat)
      requires On(n) && n < |kvs|
      modifies this`restartIndex
      ensures On(n)
    {
      hide IsBlock; hide Offset; hide StartOf; hide AtRestart; hide InOrder; hide Transitive; hide RestartCount; hide End;
      while restartIndex + 1 < numRestarts
        invariant On(n)
        decreases numRestarts - restartIndex
      {
        var next := GetRestartPoint(restartIndex + 1);
        if next >= current {
          break;
        }
        OffsetBelow(kvs, interval, StartOf(restartIndex + 1, interval), n);
        restartIndex := restartIndex + 1;
      }
    }

    method ParseNextKey(ghost n: nat) returns (more: bool)
      requires Before(n)
      modifies this
      ensures Valid() && at == Place(n, |kvs|) && more == at.Some?
    {
      hide IsBlock; hide Offset; hide InOrder; hide Transitive; hide RestartCount; hide End; hide StartOf; hide AtRestart; hide On;
      current := valueAt + valueLength;
      OffsetsApart(kvs, interval, n);
      if current >= restarts {
        current, restartIndex, at := restarts, numRestarts, None;
        return false;
      }
      at := Some(n);
      ReadEntry(n);
      AdvanceRestart(n);
      OnFixed(n);
      return true;
    }

    /** DecodeEntry fails on no entry of a finished block. */
    method DecodeKey(offset: nat, ghost n: nat) returns (k: Bytes)
      requires Fixed() && n < |kvs| && AtRestart(n, interval) && offset == Offset(kvs, interval, n)
      ensures k == kvs[n].key
    {
      hide *;
      DecodeFacts(n);
      EntryIs(data, kvs, interval, n);
      SharedOk(kvs, interval, n, []);
      DecodedEntry(data, offset, restarts, SharedAt(kvs, interval, n), kvs[n], Offset(kvs, interval, n + 1));
      var h := DecodeEntry(data[offset..restarts]);
      var p := offset + h.value.used;
      k := data[p..p + h.value.rest];
    }

    method Current() returns (kv: KV)
      requires Valid() && at.Some?
      ensures kv == kvs[at.value]
    {
      hide IsBlock; hide Offset; hide StartOf; hide AtRestart;
      kv := KV(key, data[valueAt..valueAt + valueLength]);
    }

    method Next()
      requires Valid() && at.Some?
      modifies this
      ensures Valid() && at == Place(old(at).value + 1, |kvs|)
    {
      hide On; hide Before; hide Fixed; hide Place;
      OnBefore(at.value);
      var _ := ParseNextKey(at.value + 1);
    }

    lemma OnBefore(n: nat)
      requires On(n)
      ensures Before(n + 1) && n + 1 <= |kvs|
    {
    }

    /** Parses forward until entry n - 1 is the current one. */
    method ParseUpTo(ghost from: nat, ghost n: nat, limit: nat)
      requires Before(from) && (from < n <= |kvs| || from == n == |kvs|) && limit == Offset(kvs, interval, n)
      modifies this
      ensures Valid() && at == if from < n then Some(n - 1) else None
    {
      hide IsBlock; hide Offset; hide StartOf; hide AtRestart; hide InOrder; hide Transitive; hide RestartCount; hide End;
      ghost var m := from;
      var more := ParseNextKey(m);
      while more && valueAt + valueLength < limit
        invariant Valid() && more == at.Some? && (if from < n then at == Some(m) && m < n else at == None)
        decreases n - m
      {
        OffsetBelow(kvs, interval, m + 1, n);
        more := ParseNextKey(m + 1);
        m := m + 1;
      }
      if from < n {
        OffsetBelow(kvs, interval, m + 1, n);
      }
    }

    method Prev()
      requires Valid() && at.Some?
      modifies this
      ensures Valid() && at == if old(at).value == 0 then None else Some(old(at).value - 1)
    {
      hide IsBlock; hide Offset; hide AtRestart; hide InOrder; hide Transitive; hide RestartCount; hide End; hide StartOf;
      ghost var n := at.value;
      var original := current;
      var point := GetRestartPoint(restartIndex);
      OffsetBelow(kvs, interval, StartOf(restartIndex, interval), n);
      while point >= original
        invariant Fixed() && !corrupt && restartIndex < numRestarts
        invariant StartOf(restartIndex, interval) <= n < |kvs| && point == Offset(kvs, interval, StartOf(restartIndex, interval))
        invariant point < original <==> StartOf(restartIndex, interval) < n
        decreases restartIndex
      {
        if restartIndex == 0 {
          StartOfZero(interval);
          current, restartIndex, at := restarts, numRestarts, None;
          return;
        }
        StartOfLess(restartIndex, interval);
        restartIndex := restartIndex - 1;
        point := GetRestartPoint(restartIndex);
        OffsetBelow(kvs, interval, StartOf(restartIndex, interval), n);
      }
      var index := restartIndex;
      SeekToRestartPoint(index);
      ParseUpTo(StartOf(index, interval), n, original);
    }

    method SeekToFirst()
      requires Valid()
      modifies this
      ensures Valid() && at == Place(0, |kvs|)
    {
      StartOfZero(interval);
      hide StartOf; hide IsBlock; hide Offset; hide AtRestart; hide InOrder; hide Transitive; hide End;
      SeekToRestartPoint(0);
      var _ := ParseNextKey(0);
    }

    method SeekToLast()
      requires Valid()
      modifies this
      ensures Valid() && at == if kvs == [] then None else Some(|kvs| - 1)
    {
      hide StartOf; hide IsBlock; hide Offset; hide AtRestart; hide InOrder; hide Transitive; hide RestartCount; hide On; hide Before; hide End;
      var index := numRestarts - 1;
      ghost var n := StartOf(index, interval);
      RestartInside(|kvs|, interval, index);
      EmptyOnly(kvs, interval);
      SeekToRestartPoint(index);
      LastOffset();
      ParseUpTo(n, |kvs|, restarts);
    }

    lemma LastOffset()
      requires Fixed()
      ensures restarts == Offset(kvs, interval, |kvs|)
    {
      hide IsBlock; hide Offset; hide InOrder; hide Transitive; hide RestartCount;
    }

    /** Last restart point with a key before the target, by binary search. */
    method FindRestart(target: Bytes) returns (left: nat)
      requires Fixed()
      ensures left < numRestarts && StartOf(left, interval) <= |kvs|
      ensures left > 0 ==> StartOf(left, interval) < |kvs| && less(kvs[StartOf(left, interval)].key, target)
    {
      hide StartOf; hide IsBlock; hide Offset; hide AtRestart; hide InOrder; hide Transitive;
      left := 0;
      var right := numRestarts - 1;
      RestartInside(|kvs|, interval, 0);
      while left < right
        invariant left <= right < numRestarts && StartOf(left, interval) <= |kvs|
        invariant left > 0 ==> StartOf(left, interval) < |kvs| && less(kvs[StartOf(left, interval)].key, target)
      {
        var mid := (left + right + 1) / 2;
        RestartInside(|kvs|, interval, mid);
        var offset := GetRestartPoint(mid);
        var midKey := DecodeKey(offset, StartOf(mid, interval));
        if less(midKey, target) {
          left := mid;
        } else {
          right := mid - 1;
        }
      }
    }

    /** Lands on the first entry at or after the target. */
    method Seek(target: Bytes)
      requires Valid()
      modifies this
      ensures Valid() && at == Place(FirstFrom(less, kvs, target), |kvs|)
    {
      hide StartOf; hide IsBlock; hide Offset; hide AtRestart; hide RestartCount; hide End; hide FirstFrom;
      var left := FindRestart(target);
      ghost var n := StartOf(left, interval);
      StartOfZero(interval);
      AllBefore(less, kvs, n, target);
      SeekToRestartPoint(left);
      while true
        invariant Before(n) && forall j :: 0 <= j < n ==> less(kvs[j].key, target)
        decreases |kvs| - n
      {
        var more := ParseNextKey(n);
        if !more || !less(key, target) {
          FirstIs(less, kvs, target, n);
          return;
        }
        n := n + 1;
      }
    }

    lemma DecodeFacts(n: nat)
      requires Fixed()
      ensures IsBlock(data, kvs, interval) && interval > 0 && restarts == End(kvs, interval)
    {
      hide IsBlock;
    }
  }

  lemma DecodedEntry(data: Bytes, from: nat, to: nat, shared: nat, kv: KV, next: nat)
    requires Decodes(data, from, to, shared, kv, next)
    ensures from <= to <= |data| && shared <= |kv.key|
    ensures var h := DecodeEntry(data[from..to]);
            && h.Some? && h.value.shared == shared
            && from + h.value.used + h.value.rest + h.value.value == next <= to
            && data[from + h.value.used..from + h.value.used + h.value.rest] == kv.key[shared..]
            && data[from + h.value.used + h.value.rest..next] == kv.value
  {
    hide DecodeEntry;
  }

  lemma OffsetsApart(kvs: seq<KV>, interval: nat, n: nat)
    requires interval > 0 && n <= |kvs|
    ensures Offset(kvs, interval, n) >= End(kvs, interval) <==> n == |kvs|
    ensures Offset(kvs, interval, n) <= End(kvs, interval)
  {
    OffsetGrows(kvs, interval, n, |kvs|);
  }

  lemma OffsetBelow(kvs: seq<KV>, interval: nat, m: nat, n: nat)
    requires interval > 0 && m <= |kvs| && n <= |kvs|
    ensures Offset(kvs, interval, m) < Offset(kvs, interval, n) <==> m < n
  {
    if m <= n {
      OffsetGrows(kvs, interval, m, n);
    } else {
      OffsetGrows(kvs, interval, n, m);
    }
  }

  /** The previous key has the shared bytes. */
  lemma SharedOk(kvs: seq<KV>, interval: nat, n: nat, key: Bytes)
    requires interval > 0 && n < |kvs| && (n > 0 && !AtRestart(n, interval) ==> key == kvs[n - 1].key)
    ensures var sh := SharedAt(kvs, interval, n);
            sh <= |key| && sh <= |kvs[n].key| && key[..sh] + kvs[n].key[sh..] == kvs[n].key && (AtRestart(n, interval) ==> kvs[n].key[sh..] == kvs[n].key)
  {
    var sh := SharedAt(kvs, interval, n);
    assert key[..sh] == kvs[n].key[..sh];
  }

  lemma StartOfZero(interval: nat)
    ensures StartOf(0, interval) == 0
  {
  }

  lemma StartOfLess(j: nat, interval: nat)
    requires j > 0
    ensures StartOf(j - 1, interval) <= StartOf(j, interval)
  {
    MultipleGrows(j - 1, j, interval);
  }

  /** Only an empty block has a restart point at its end. */
  lemma EmptyOnly(kvs: seq<KV>, interval: nat)
    requires interval > 0
    ensures StartOf(RestartCount(|kvs|, interval) - 1, interval) == |kvs| <==> kvs == []
  {
    RestartInside(|kvs|, interval, RestartCount(|kvs|, interval) - 1);
    StartOfZero(interval);
  }

  lemma AllBefore(less: Order, kvs: seq<KV>, n: nat, target: Bytes)
    requires Transitive(less) && InOrder(less, kvs) && n <= |kvs| && (n > 0 ==> n < |kvs| && less(kvs[n].key, target))
    ensures forall j :: 0 <= j < n ==> less(kvs[j].key, target)
  {
    forall j | 0 <= j < n
      ensures less(kvs[j].key, target)
    {
      assert less(kvs[j].key, kvs[n].key);
    }
  }
}
