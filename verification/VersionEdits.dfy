/** Version edits as manifest records (db/version_edit.cc). */
module VersionEdits {
  import opened Keys
  import opened Coding

  const NUM_LEVELS: nat := 7

  /** One tagged part of a record. */
  datatype Item =
    | Comparator(name: Bytes)
    | LogNumber(n: nat)
    | PrevLogNumber(n: nat)
    | NextFileNumber(n: nat)
    | LastSequence(n: nat)
    | CompactPointer(level: nat, key: Bytes)
    | DeletedFile(level: nat, n: nat)
    | NewFile(level: nat, n: nat, size: nat, smallest: Bytes, largest: Bytes)

  ghost predicate ItemOk(i: Item) {
    match i
    case Comparator(name) => |name| < TWO32
    case CompactPointer(level, key) => level < NUM_LEVELS && |key| < TWO32
    case DeletedFile(level, n) => level < NUM_LEVELS && n < TWO64
    case NewFile(level, n, size, smallest, largest) =>
      level < NUM_LEVELS && n < TWO64 && size < TWO64 && |smallest| < TWO32 && |largest| < TWO32
    case _ => i.n < TWO64
  }

  function TagOf(i: Item): nat {
    match i
    case Comparator(_) => 1
    case LogNumber(_) => 2
    case NextFileNumber(_) => 3
    case LastSequence(_) => 4
    case CompactPointer(_, _) => 5
    case DeletedFile(_, _) => 6
    case NewFile(_, _, _, _, _) => 7
    case PrevLogNumber(_) => 9
  }

  function Body(i: Item): Bytes {
    match i
    case Comparator(name) => Slice(name)
    case CompactPointer(level, key) => Varint(level) + Slice(key)
    case DeletedFile(level, n) => Varint(level) + Varint(n)
    case NewFile(level, n, size, smallest, largest) =>
      Varint(level) + (Varint(n) + (Varint(size) + (Slice(smallest) + Slice(largest))))
    case _ => Varint(i.n)
  }

  function EncodeItem(i: Item): Bytes {
    Varint(TagOf(i)) + Body(i)
  }

  // ----- parsing

  datatype Num = Num(value: nat, rest: Bytes)

  function GetNum(s: Bytes, most: nat, width: nat): (r: Option<Num>)
    requires width > 0
    ensures r.Some? ==> |r.value.rest| < |s|
  {
    match VarintAt(s, most)
    case None => None
    case Some(p) => Some(Num(p.value % width, s[p.used..]))
  }

  function Get32(s: Bytes): (r: Option<Num>)
    ensures r.Some? ==> |r.value.rest| < |s|
  {
    GetNum(s, 5, TWO32)
  }

  function Get64(s: Bytes): (r: Option<Num>)
    ensures r.Some? ==> |r.value.rest| < |s|
  {
    GetNum(s, 10, TWO64)
  }

  function GetLevel(s: Bytes): (r: Option<Num>)
    ensures r.Some? ==> |r.value.rest| < |s|
  {
    var r := Get32(s);
    if r.Some? && r.value.value < NUM_LEVELS then r else None
  }

  datatype Part = Part(item: Item, rest: Bytes)

  lemma CutShorter(s: Bytes)
    ensures GetSlice(s).Some? ==> |GetSlice(s).value.rest| < |s|
  {
  }

  function ParseNumber(s: Bytes, tag: nat): (r: Option<Part>)
    ensures r.Some? ==> |r.value.rest| <= |s|
  {
    match Get64(s)
    case None => None
    case Some(x) =>
      Some(Part(Number(tag, x.value), x.rest))
  }

  function ParsePointer(s: Bytes): (r: Option<Part>)
    ensures r.Some? ==> |r.value.rest| <= |s|
  {
    match GetLevel(s)
    case None => None
    case Some(level) =>
      CutShorter(level.rest);
      match GetSlice(level.rest)
      case None => None
      case Some(c) => Some(Part(CompactPointer(level.value, c.data), c.rest))
  }

  function ParseDeleted(s: Bytes): (r: Option<Part>)
    ensures r.Some? ==> |r.value.rest| <= |s|
  {
    match GetLevel(s)
    case None => None
    case Some(level) =>
      match Get64(level.rest)
      case None => None
      case Some(x) => Some(Part(DeletedFile(level.value, x.value), x.rest))
  }

  function ParseKeys(s: Bytes, level: nat, n: nat, size: nat): (r: Option<Part>)
    ensures r.Some? ==> |r.value.rest| <= |s|
  {
    CutShorter(s);
    match GetSlice(s)
    case None => None
    case Some(a) =>
      CutShorter(a.rest);
      match GetSlice(a.rest)
      case None => None
      case Some(b) => Some(Part(NewFile(level, n, size, a.data, b.data), b.rest))
  }

  function ParseNewFile(s: Bytes): (r: Option<Part>)
    ensures r.Some? ==> |r.value.rest| <= |s|
  {
    match GetLevel(s)
    case None => None
    case Some(level) =>
      match Get64(level.rest)
      case None => None
      case Some(n) =>
        match Get64(n.rest)
        case None => None
        case Some(size) => ParseKeys(size.rest, level.value, n.value, size.value)
  }

  function ParseComparator(s: Bytes): (r: Option<Part>)
    ensures r.Some? ==> |r.value.rest| <= |s|
  {
    CutShorter(s);
    match GetSlice(s)
    case None => None
    case Some(c) => Some(Part(Comparator(c.data), c.rest))
  }

  function ParseBody(tag: nat, s: Bytes): (r: Option<Part>)
    ensures r.Some? ==> |r.value.rest| <= |s|
  {
    if tag == 1 then ParseComparator(s)
    else if tag == 5 then ParsePointer(s)
    else if tag == 6 then ParseDeleted(s)
    else if tag == 7 then ParseNewFile(s)
    else if tag == 2 || tag == 3 || tag == 4 || tag == 9 then ParseNumber(s, tag)
    else None
  }

  function ParseItem(s: Bytes): (r: Option<Part>)
    ensures r.Some? ==> |r.value.rest| < |s|
  {
    match Get32(s)
    case None => None
    case Some(tag) => ParseBody(tag.value, tag.rest)
  }

  lemma Num32RoundTrip(v: nat, rest: Bytes)
    requires v < TWO32
    ensures Get32(Varint(v) + rest) == Some(Num(v, rest))
  {
    hide Varint; hide VarintAt; hide Power128;
    Limits();
    VarintRoundTrip(v, 5, rest);
  }

  lemma Num64RoundTrip(v: nat, rest: Bytes)
    requires v < TWO64
    ensures Get64(Varint(v) + rest) == Some(Num(v, rest))
  {
    hide Varint; hide VarintAt; hide Power128;
    Limits();
    VarintRoundTrip(v, 10, rest);
  }

  lemma BodyRoundTrip(i: Item, rest: Bytes)
    requires ItemOk(i)
    ensures ParseBody(TagOf(i), Body(i) + rest) == Some(Part(i, rest))
  {
    hide Varint; hide Slice; hide GetSlice; hide Get32; hide Get64;
    match i
    case Comparator(name) => SliceRoundTrip(name, rest);
    case CompactPointer(level, key) =>
      assert Body(i) + rest == Varint(level) + (Slice(key) + rest);
      Num32RoundTrip(level, Slice(key) + rest);
      SliceRoundTrip(key, rest);
    case DeletedFile(level, n) =>
      assert Body(i) + rest == Varint(level) + (Varint(n) + rest);
      Num32RoundTrip(level, Varint(n) + rest);
      Num64RoundTrip(n, rest);
    case NewFile(level, n, size, smallest, largest) =>
      NewFileRoundTrip(i, rest);
    case _ => Num64RoundTrip(i.n, rest);
  }

  lemma NewFileRoundTrip(i: Item, rest: Bytes)
    requires ItemOk(i) && i.NewFile?
    ensures ParseNewFile(Body(i) + rest) == Some(Part(i, rest))
  {
    hide Varint; hide Slice; hide GetSlice; hide Get32; hide Get64;
    var a, b, c, d, e := Varint(i.level), Varint(i.n), Varint(i.size), Slice(i.smallest), Slice(i.largest);
    Regrouped(a, b, c, d, e, rest);
    Num32RoundTrip(i.level, b + (c + (d + (e + rest))));
    Num64RoundTrip(i.n, c + (d + (e + rest)));
    Num64RoundTrip(i.size, d + (e + rest));
    SliceRoundTrip(i.smallest, e + rest);
    SliceRoundTrip(i.largest, rest);
  }

  lemma Regrouped(a: Bytes, b: Bytes, c: Bytes, d: Bytes, e: Bytes, rest: Bytes)
    ensures a + (b + (c + (d + e))) + rest == a + (b + (c + (d + (e + rest))))
  {
  }

  lemma ItemRoundTrip(i: Item, rest: Bytes)
    requires ItemOk(i)
    ensures ParseItem(EncodeItem(i) + rest) == Some(Part(i, rest))
  {
    hide Varint; hide Body; hide Get32; hide ParseBody;
    assert EncodeItem(i) + rest == Varint(TagOf(i)) + (Body(i) + rest);
    Num32RoundTrip(TagOf(i), Body(i) + rest);
    BodyRoundTrip(i, rest);
  }

  // ----- whole edits

  datatype Pointer = Pointer(level: nat, key: Bytes)
  datatype Gone = Gone(level: nat, n: nat)
  datatype Added = Added(level: nat, n: nat, size: nat, smallest: Bytes, largest: Bytes)

  datatype Edit = Edit(comparator: Option<Bytes>, log: Option<nat>, prevLog: Option<nat>, nextFile: Option<nat>, lastSeq: Option<nat>,
                       pointers: seq<Pointer>, deleted: set<Gone>, added: seq<Added>)

  const FRESH := Edit(None, None, None, None, None, [], {}, [])

  /** VersionEdit::Clear: the compaction pointers stay. */
  function Cleared(e: Edit): Edit {
    FRESH.(pointers := e.pointers)
  }

  function Apply(e: Edit, i: Item): Edit {
    match i
    case Comparator(name) => e.(comparator := Some(name))
    case LogNumber(n) => e.(log := Some(n))
    case PrevLogNumber(n) => e.(prevLog := Some(n))
    case NextFileNumber(n) => e.(nextFile := Some(n))
    case LastSequence(n) => e.(lastSeq := Some(n))
    case CompactPointer(level, key) => e.(pointers := e.pointers + [Pointer(level, key)])
    case DeletedFile(level, n) => e.(deleted := e.deleted + {Gone(level, n)})
    case NewFile(level, n, size, smallest, largest) => e.(added := e.added + [Added(level, n, size, smallest, largest)])
  }

  function ApplyAll(e: Edit, items: seq<Item>): Edit {
    if items == [] then e else Apply(ApplyAll(e, items[..|items| - 1]), items[|items| - 1])
  }

  function EncodeAll(items: seq<Item>): Bytes {
    if items == [] then [] else EncodeAll(items[..|items| - 1]) + EncodeItem(items[|items| - 1])
  }

  /** The loop of VersionEdit::DecodeFrom. */
  function DecodeLoop(e: Edit, s: Bytes): Option<Edit>
    decreases |s|
  {
    if s == [] then Some(e)
    else
      match ParseItem(s)
      case None => None
      case Some(p) => DecodeLoop(Apply(e, p.item), p.rest)
  }

  function Decode(e0: Edit, s: Bytes): Option<Edit> {
    DecodeLoop(Cleared(e0), s)
  }

  lemma {:induction false} DecodeItems(e: Edit, items: seq<Item>, rest: Bytes)
    requires forall i :: 0 <= i < |items| ==> ItemOk(items[i])
    ensures DecodeLoop(e, EncodeAll(items) + rest) == DecodeLoop(ApplyAll(e, items), rest)
  {
    hide EncodeItem; hide ParseItem; hide Apply; hide DecodeLoop;
    if items == [] {
      assert EncodeAll(items) + rest == rest;
    } else {
      var n := |items| - 1;
      var front, last := items[..n], items[n];
      assert EncodeAll(items) + rest == EncodeAll(front) + (EncodeItem(last) + rest);
      DecodeItems(e, front, EncodeItem(last) + rest);
      ItemRoundTrip(last, rest);
      DecodeOne(ApplyAll(e, front), EncodeItem(last) + rest, last, rest);
    }
  }

  lemma DecodeOne(e: Edit, s: Bytes, item: Item, rest: Bytes)
    requires ParseItem(s) == Some(Part(item, rest))
    ensures DecodeLoop(e, s) == DecodeLoop(Apply(e, item), rest)
  {
    hide Apply;
    assert |rest| < |s|;
    hide ParseItem;
  }

  // ----- the items of an edit, in the order EncodeTo writes them

  /** The item of one of the plain numbers, by its tag. */
  function Number(tag: nat, n: nat): Item {
    if tag == 2 then LogNumber(n) else if tag == 3 then NextFileNumber(n) else if tag == 4 then LastSequence(n) else PrevLogNumber(n)
  }

  function Opt(o: Option<nat>, tag: nat): seq<Item> {
    if o.None? then [] else [Number(tag, o.value)]
  }

  function Singles(e: Edit): seq<Item> {
    (if e.comparator.None? then [] else [Comparator(e.comparator.value)])
    + Opt(e.log, 2) + Opt(e.prevLog, 9)
    + Opt(e.nextFile, 3) + Opt(e.lastSeq, 4)
  }

  function PointerItems(ps: seq<Pointer>): seq<Item> {
    seq(|ps|, i requires 0 <= i < |ps| => CompactPointer(ps[i].level, ps[i].key))
  }

  function GoneItems(gs: seq<Gone>): seq<Item> {
    seq(|gs|, i requires 0 <= i < |gs| => DeletedFile(gs[i].level, gs[i].n))
  }

  function AddedItems(fs: seq<Added>): seq<Item> {
    seq(|fs|, i requires 0 <= i < |fs| => NewFile(fs[i].level, fs[i].n, fs[i].size, fs[i].smallest, fs[i].largest))
  }

  /** `order` lists the deleted files as the ordered set hands them out. */
  function Items(e: Edit, order: seq<Gone>): seq<Item> {
    Singles(e) + PointerItems(e.pointers) + GoneItems(order) + AddedItems(e.added)
  }

  ghost predicate Lists(order: seq<Gone>, deleted: set<Gone>) {
    forall g :: g in order <==> g in deleted
  }

  lemma {:induction false} ApplyConcat(e: Edit, a: seq<Item>, b: seq<Item>)
    ensures ApplyAll(e, a + b) == ApplyAll(ApplyAll(e, a), b)
    decreases |b|
  {
    hide Apply;
    if b == [] {
      assert a + b == a;
    } else {
      assert (a + b)[..|a + b| - 1] == a + b[..|b| - 1];
      ApplyConcat(e, a, b[..|b| - 1]);
    }
  }

  lemma {:induction false} ApplyPointers(e: Edit, ps: seq<Pointer>)
    ensures ApplyAll(e, PointerItems(ps)) == e.(pointers := e.pointers + ps)
  {
    if ps != [] {
      var n := |ps| - 1;
      assert PointerItems(ps)[..n] == PointerItems(ps[..n]);
      ApplyPointers(e, ps[..n]);
      assert ps == ps[..n] + [ps[n]];
    }
  }

  function SetOf(gs: seq<Gone>): set<Gone> {
    set g | g in gs
  }

  lemma SetOfAppend(gs: seq<Gone>, g: Gone)
    ensures SetOf(gs + [g]) == SetOf(gs) + {g}
  {
  }

  lemma ApplyLast(e: Edit, items: seq<Item>, i: Item)
    ensures ApplyAll(e, items + [i]) == Apply(ApplyAll(e, items), i)
  {
    assert (items + [i])[..|items|] == items;
  }

  lemma {:induction false} ApplyGone(e: Edit, gs: seq<Gone>)
    ensures ApplyAll(e, GoneItems(gs)) == e.(deleted := e.deleted + SetOf(gs))
  {
    if gs == [] {
      assert SetOf(gs) == {};
    } else {
      var n := |gs| - 1;
      var item := DeletedFile(gs[n].level, gs[n].n);
      assert GoneItems(gs) == GoneItems(gs[..n]) + [item];
      hide SetOf; hide ApplyAll; hide GoneItems;
      ApplyGone(e, gs[..n]);
      ApplyLast(e, GoneItems(gs[..n]), item);
      SetOfAppend(gs[..n], gs[n]);
      assert gs == gs[..n] + [gs[n]];
    }
  }

  lemma {:induction false} ApplyAdded(e: Edit, fs: seq<Added>)
    ensures ApplyAll(e, AddedItems(fs)) == e.(added := e.added + fs)
  {
    if fs != [] {
      var n := |fs| - 1;
      assert AddedItems(fs)[..n] == AddedItems(fs[..n]);
      ApplyAdded(e, fs[..n]);
      assert fs == fs[..n] + [fs[n]];
    }
  }

  lemma ApplyOpt(e: Edit, o: Option<nat>, tag: nat)
    ensures ApplyAll(e, Opt(o, tag)) == if o.None? then e else Apply(e, Number(tag, o.value))
  {
    if o.Some? {
      assert [Number(tag, o.value)][..0] == [];
      assert ApplyAll(e, []) == e;
    }
  }

  lemma ApplyName(e: Edit, name: Option<Bytes>)
    ensures ApplyAll(e, if name.None? then [] else [Comparator(name.value)]) == if name.None? then e else e.(comparator := name)
  {
    if name.Some? {
      assert [Comparator(name.value)][..0] == [];
      assert ApplyAll(e, []) == e;
    }
  }

  lemma ApplySingles(e0: Edit, e: Edit)
    requires e0 == Cleared(e0)
    ensures ApplyAll(e0, Singles(e)) == Edit(e.comparator, e.log, e.prevLog, e.nextFile, e.lastSeq, e0.pointers, {}, [])
  {
    hide ApplyAll; hide Opt; hide Apply; hide Number;
    var a := if e.comparator.None? then [] else [Comparator(e.comparator.value)];
    var b, c, d, f := Opt(e.log, 2), Opt(e.prevLog, 9), Opt(e.nextFile, 3), Opt(e.lastSeq, 4);
    ApplyConcat(e0, a + b + c + d, f);
    ApplyConcat(e0, a + b + c, d);
    ApplyConcat(e0, a + b, c);
    ApplyConcat(e0, a, b);
    ApplyName(e0, e.comparator);
    var e1 := e0.(comparator := e.comparator);
    ApplyNumber(e1, e.log, 2);
    var e2 := e1.(log := e.log);
    ApplyNumber(e2, e.prevLog, 9);
    var e3 := e2.(prevLog := e.prevLog);
    ApplyNumber(e3, e.nextFile, 3);
    ApplyNumber(e3.(nextFile := e.nextFile), e.lastSeq, 4);
  }

  /** Into an edit that does not have the number yet. */
  lemma ApplyNumber(e: Edit, o: Option<nat>, tag: nat)
    ensures tag == 2 && e.log.None? ==> ApplyAll(e, Opt(o, tag)) == e.(log := o)
    ensures tag == 3 && e.nextFile.None? ==> ApplyAll(e, Opt(o, tag)) == e.(nextFile := o)
    ensures tag == 4 && e.lastSeq.None? ==> ApplyAll(e, Opt(o, tag)) == e.(lastSeq := o)
    ensures tag == 9 && e.prevLog.None? ==> ApplyAll(e, Opt(o, tag)) == e.(prevLog := o)
  {
    hide ApplyAll; hide Opt;
    ApplyOpt(e, o, tag);
  }

  ghost predicate EditOk(e: Edit) {
    && (e.comparator.Some? ==> |e.comparator.value| < TWO32)
    && (e.log.Some? ==> e.log.value < TWO64) && (e.prevLog.Some? ==> e.prevLog.value < TWO64)
    && (e.nextFile.Some? ==> e.nextFile.value < TWO64) && (e.lastSeq.Some? ==> e.lastSeq.value < TWO64)
    && (forall p :: p in e.pointers ==> p.level < NUM_LEVELS && |p.key| < TWO32)
    && (forall g :: g in e.deleted ==> g.level < NUM_LEVELS && g.n < TWO64)
    && (forall f :: f in e.added ==> f.level < NUM_LEVELS && f.n < TWO64 && f.size < TWO64 && |f.smallest| < TWO32 && |f.largest| < TWO32)
  }

  lemma ItemsOk(e: Edit, order: seq<Gone>)
    requires EditOk(e) && Lists(order, e.deleted)
    ensures forall i :: 0 <= i < |Items(e, order)| ==> ItemOk(Items(e, order)[i])
  {
    var a, b, c, d := Singles(e), PointerItems(e.pointers), GoneItems(order), AddedItems(e.added);
    assert forall i :: 0 <= i < |a| ==> ItemOk(a[i]);
    assert forall i :: 0 <= i < |b| ==> e.pointers[i] in e.pointers && ItemOk(b[i]);
    assert forall i :: 0 <= i < |c| ==> order[i] in order && ItemOk(c[i]);
    assert forall i :: 0 <= i < |d| ==> e.added[i] in e.added && ItemOk(d[i]);
    hide ItemOk; hide Singles; hide PointerItems; hide GoneItems; hide AddedItems;
  }

  lemma ApplyItems(e0: Edit, e: Edit, order: seq<Gone>)
    requires Lists(order, e.deleted) && e0 == Cleared(e0)
    ensures ApplyAll(e0, Items(e, order)) == e.(pointers := e0.pointers + e.pointers)
  {
    hide ApplyAll; hide Singles; hide PointerItems; hide GoneItems; hide AddedItems;
    var a, b, c, d := Singles(e), PointerItems(e.pointers), GoneItems(order), AddedItems(e.added);
    ApplyConcat(e0, a + b + c, d);
    ApplyConcat(e0, a + b, c);
    ApplyConcat(e0, a, b);
    ApplySingles(e0, e);
    var e1 := ApplyAll(e0, a);
    ApplyPointers(e1, e.pointers);
    var e2 := ApplyAll(e1, b);
    ApplyGone(e2, order);
    assert SetOf(order) == e.deleted;
    ApplyAdded(ApplyAll(e2, c), e.added);
  }

  /** Decoding an encoded edit gives the edit back, behind whatever compaction
      pointers the edit decoded into had. */
  lemma EditRoundTrip(e0: Edit, e: Edit, order: seq<Gone>)
    requires EditOk(e) && Lists(order, e.deleted)
    ensures Decode(e0, EncodeAll(Items(e, order))) == Some(e.(pointers := e0.pointers + e.pointers))
  {
    hide EncodeAll; hide Items; hide ApplyAll; hide EditOk;
    ItemsOk(e, order);
    var items := Items(e, order);
    DecodeItems(Cleared(e0), items, []);
    assert EncodeAll(items) + [] == EncodeAll(items);
    ApplyItems(Cleared(e0), e, order);
  }

  /** So the round trip is the identity exactly when it starts without pointers. */
  lemma IdentityIff(e0: Edit, e: Edit, order: seq<Gone>)
    requires EditOk(e) && Lists(order, e.deleted)
    ensures Decode(e0, EncodeAll(Items(e, order))) == Some(e) <==> e0.pointers == []
  {
    hide Decode; hide EncodeAll; hide Items; hide EditOk; hide Lists;
    EditRoundTrip(e0, e, order);
    if e0.pointers == [] {
      assert e0.pointers + e.pointers == e.pointers;
    } else {
      assert |e0.pointers + e.pointers| > |e.pointers|;
    }
  }

  /** An edit object that already has a compaction pointer keeps it. */
  lemma ReusedEditKeepsPointer()
    ensures Decode(FRESH.(pointers := [Pointer(0, [])]), EncodeAll(Items(FRESH, []))) != Some(FRESH)
  {
    hide Decode; hide EncodeAll; hide Items;
    IdentityIff(FRESH.(pointers := [Pointer(0, [])]), FRESH, []);
  }

  // ----- the program's loops

  /** EncodeTo. */
  method EncodeTo(e: Edit, order: seq<Gone>) returns (dst: Bytes)
    ensures dst == EncodeAll(Items(e, order))
  {
    var items := Items(e, order);
    dst := [];
    hide Items; hide EncodeItem;
    for i := 0 to |items|
      invariant dst == EncodeAll(items[..i])
    {
      assert items[..i + 1][..i] == items[..i];
      dst := dst + EncodeItem(items[i]);
    }
    assert items[..|items|] == items;
  }

  /** DecodeFrom; none for a corrupt record. */
  method DecodeFrom(e0: Edit, src: Bytes) returns (e: Option<Edit>)
    ensures e == Decode(e0, src)
  {
    var current, input := Cleared(e0), src;
    hide Apply; hide ParseItem;
    while input != []
      invariant Decode(e0, src) == DecodeLoop(current, input)
      decreases |input|
    {
      var p := ParseItem(input);
      Shorter(input);
      if p.None? {
        return None;
      }
      current, input := Apply(current, p.value.item), p.value.rest;
    }
    return Some(current);
  }

  lemma Shorter(s: Bytes)
    ensures ParseItem(s).Some? ==> |ParseItem(s).value.rest| < |s|
  {
  }
}
