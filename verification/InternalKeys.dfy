/** Internal keys as byte strings (db/dbformat.h, db/dbformat.cc): the user key
    followed by eight bytes of sequence number and value type. */
module InternalKeys {
  import opened Keys
  import opened Coding
  import opened Bytewise

  function UserOf(key: Bytes): Bytes
    requires |key| >= 8
  {
    key[..|key| - 8]
  }

  function TagOf(key: Bytes): nat
    requires |key| >= 8
  {
    GetFixed64(key[|key| - 8..])
  }

  /** InternalKeyComparator::Compare(a, b) < 0. */
  predicate InternalLess(a: Bytes, b: Bytes) {
    && |a| >= 8 && |b| >= 8
    && (BytesLess(UserOf(a), UserOf(b)) || (UserOf(a) == UserOf(b) && TagOf(a) > TagOf(b)))
  }

  lemma InternalTransitive(a: Bytes, b: Bytes, c: Bytes)
    requires InternalLess(a, b) && InternalLess(b, c)
    ensures InternalLess(a, c)
  {
    hide BytesLess; hide GetFixed64;
    if BytesLess(UserOf(a), UserOf(b)) && BytesLess(UserOf(b), UserOf(c)) {
      BytesTransitive(UserOf(a), UserOf(b), UserOf(c));
    }
  }

  lemma InternalAsymmetric(a: Bytes, b: Bytes)
    ensures !(InternalLess(a, b) && InternalLess(b, a)) && !InternalLess(a, a)
  {
    hide BytesLess; hide GetFixed64;
    if |a| >= 8 {
      BytesTotal(UserOf(a), UserOf(a));
      if |b| >= 8 {
        BytesTotal(UserOf(a), UserOf(b));
      }
    }
  }

  function Pack(seqno: nat, kind: Kind): (t: nat)
    requires seqno <= MAX_SEQUENCE
    ensures t < TWO64
  {
    seqno * 256 + if kind.Put? then 1 else 0
  }

  /** AppendInternalKey. */
  function Encode(user: Bytes, seqno: nat, kind: Kind): (key: Bytes)
    requires seqno <= MAX_SEQUENCE
    ensures |key| == |user| + 8
  {
    user + Fixed64(Pack(seqno, kind))
  }

  datatype ParsedKey = ParsedKey(user: Bytes, seqno: nat, kind: Kind)

  /** ParseInternalKey: none for keys that are too short or of unknown type. */
  function Parse(key: Bytes): Option<ParsedKey> {
    if |key| < 8 then None
    else
      var tag := TagOf(key);
      if tag % 256 > 1 then None
      else Some(ParsedKey(UserOf(key), tag / 256, if tag % 256 == 1 then Put else Deletion))
  }

  lemma EncodeParts(user: Bytes, seqno: nat, kind: Kind)
    requires seqno <= MAX_SEQUENCE
    ensures UserOf(Encode(user, seqno, kind)) == user && TagOf(Encode(user, seqno, kind)) == Pack(seqno, kind)
  {
    hide GetFixed64; hide Fixed64;
    var key, tail := Encode(user, seqno, kind), Fixed64(Pack(seqno, kind));
    TailLength(Pack(seqno, kind));
    assert key[|user|..] == tail && tail + [] == tail;
    Fixed64RoundTrip(Pack(seqno, kind), []);
  }

  lemma TailLength(v: nat)
    requires v < TWO64
    ensures |Fixed64(v)| == 8
  {
  }

  lemma ParseEncode(user: Bytes, seqno: nat, kind: Kind)
    requires seqno <= MAX_SEQUENCE
    ensures Parse(Encode(user, seqno, kind)) == Some(ParsedKey(user, seqno, kind))
  {
    hide UserOf; hide TagOf; hide Encode; hide Pack;
    EncodeParts(user, seqno, kind);
    EncodeLength(user, seqno, kind);
    PackParts(seqno, kind);
  }

  lemma PackParts(seqno: nat, kind: Kind)
    requires seqno <= MAX_SEQUENCE
    ensures Pack(seqno, kind) / 256 == seqno && Pack(seqno, kind) % 256 == if kind.Put? then 1 else 0
  {
  }

  lemma EncodeLength(user: Bytes, seqno: nat, kind: Kind)
    requires seqno <= MAX_SEQUENCE
    ensures |Encode(user, seqno, kind)| == |user| + 8
  {
  }

  /** The order of encoded keys is the order of the engine's keys, when user
      keys are named by their ranks. */
  lemma EncodedOrder(u: Bytes, s: nat, k: Kind, u': Bytes, s': nat, k': Kind)
    requires s <= MAX_SEQUENCE && s' <= MAX_SEQUENCE
    ensures InternalLess(Encode(u, s, k), Encode(u', s', k')) <==> Less(Key(RankOf(u), s, k), Key(RankOf(u'), s', k'))
  {
    EncodeParts(u, s, k);
    EncodeParts(u', s', k');
    EncodeLength(u, s, k);
    EncodeLength(u', s', k');
    RankIsOrder(u, u');
    hide UserOf; hide TagOf; hide Encode; hide BytesLess; hide RankOf;
  }

  // ----- short keys between two keys

  const SEEK_TAG: nat := 0xFF_FFFF_FFFF_FFFF * 256 + 1

  lemma WithTag(user: Bytes)
    ensures var key := user + Fixed64(SEEK_TAG); |key| == |user| + 8 && UserOf(key) == user && TagOf(key) == 0xFFFF_FFFF_FFFF_FF01
  {
    hide Fixed64; hide GetFixed64;
    TailLength(SEEK_TAG);
    var key, tail := user + Fixed64(SEEK_TAG), Fixed64(SEEK_TAG);
    assert key[|user|..] == tail && tail + [] == tail;
    Fixed64RoundTrip(SEEK_TAG, []);
  }

  /** There is room between the bytes at n, and something behind them to save. */
  ghost predicate Shortens(start: Bytes, limit: Bytes, n: nat) {
    n + 1 < |start| && n < |limit| && start[n] < 0xFF && start[n] + 1 < limit[n]
  }

  /** InternalKeyComparator::FindShortestSeparator. */
  method FindShortestSeparator(start: Bytes, limit: Bytes) returns (r: Bytes)
    requires InternalLess(start, limit)
    ensures 8 <= |r| <= |start| && !InternalLess(r, start) && InternalLess(r, limit)
    ensures r == start || (BytesLess(UserOf(start), UserOf(r)) && BytesLess(UserOf(r), UserOf(limit)) && TagOf(r) == 0xFFFF_FFFF_FFFF_FF01)
    ensures r != start <==> exists n: nat :: FirstDifference(UserOf(start), UserOf(limit), n) && Shortens(UserOf(start), UserOf(limit), n)
  {
    hide GetFixed64; hide Fixed64; hide BytesLess;
    var tmp := Bytewise.FindShortestSeparator(UserOf(start), UserOf(limit));
    InternalAsymmetric(start, start);
    r := start;
    BytesTotal(UserOf(start), tmp);
    ghost var shorter := |tmp| < |UserOf(start)|;
    assert shorter <==> exists n: nat :: FirstDifference(UserOf(start), UserOf(limit), n) && Shortens(UserOf(start), UserOf(limit), n) by {
      if shorter {
        var n: nat :| FirstDifference(UserOf(start), UserOf(limit), n);
        assert Shortens(UserOf(start), UserOf(limit), n);
      }
    }
    if |tmp| < |UserOf(start)| && BytesLess(UserOf(start), tmp) {
      WithTag(tmp);
      r := tmp + Fixed64(SEEK_TAG);
      BytesTotal(UserOf(start), UserOf(limit));
    }
  }

  lemma {:induction false} RoomFirst(key: Bytes)
    ensures (exists i :: 0 <= i < |key| && key[i] != 0xFF) <==> exists i: nat :: FirstRoom(key, i)
  {
    if k :| 0 <= k < |key| && key[k] != 0xFF {
      var i: nat := 0;
      while key[i] == 0xFF
        invariant i <= k && forall j :: 0 <= j < i ==> key[j] == 0xFF
        decreases k - i
      {
        i := i + 1;
      }
      assert FirstRoom(key, i);
    }
  }

  /** InternalKeyComparator::FindShortSuccessor. */
  method FindShortSuccessor(key: Bytes) returns (r: Bytes)
    requires |key| >= 8
    ensures 8 <= |r| <= |key| && !InternalLess(r, key)
    ensures r != key ==> TagOf(r) == 0xFFFF_FFFF_FFFF_FF01
    ensures r != key <==> exists i: nat :: FirstRoom(UserOf(key), i) && i + 1 < |UserOf(key)|
  {
    hide GetFixed64; hide Fixed64; hide BytesLess;
    var tmp := Bytewise.FindShortSuccessor(UserOf(key));
    RoomFirst(UserOf(key));
    BytesTotal(UserOf(key), tmp);
    assert |tmp| < |UserOf(key)| <==> exists i: nat :: FirstRoom(UserOf(key), i) && i + 1 < |UserOf(key)| by {
      if i: nat :| FirstRoom(UserOf(key), i) {
        assert |tmp| == i + 1;
      }
    }
    InternalAsymmetric(key, key);
    r := key;
    if |tmp| < |UserOf(key)| && BytesLess(UserOf(key), tmp) {
      WithTag(tmp);
      r := tmp + Fixed64(SEEK_TAG);
    }
  }
}
