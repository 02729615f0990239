/** Write batches and manifest records, read by the rules of their formats
    alone: what is written spells exactly what it should, and of arbitrary bytes
    exactly what spells something is accepted (db/write_batch.cc,
    db/version_edit.cc). */
module DiskFormat {
  import opened Keys
  import opened Coding
  import opened Digits
  import opened Tokens
  import WB = WriteBatches
  import VE = VersionEdits

  // ----- write batches (db/write_batch.cc)

  function WriteTokens(w: WB.Write): seq<Token> {
    if w.Put? then [Byte(1)] + ([Text(w.key)] + [Text(w.value)]) else [Byte(0)] + [Text(w.key)]
  }

  lemma WriteIff(s: Bytes, w: WB.Write, rest: Bytes)
    ensures WB.GetWrite(s) == Some(WB.One(w, rest)) <==> Spells(s, WriteTokens(w), rest)
  {
    hide GetSlice; hide Spells;
    if s != [] {
      TextIs(s[1..]);
      var k := GetSlice(s[1..]);
      if k.Some? {
        TextIs(k.value.rest);
      }
    }
    if w.Put? {
      MoreTokens(s, Byte(1), [Text(w.key)] + [Text(w.value)], rest);
      if s != [] {
        MoreTokens(s[1..], Text(w.key), [Text(w.value)], rest);
        var k := Take(AText, s[1..]);
        if k.Some? {
          OneToken(k.value.rest, Text(w.value), rest);
        }
      }
    } else {
      MoreTokens(s, Byte(0), [Text(w.key)], rest);
      if s != [] {
        OneToken(s[1..], Text(w.key), rest);
      }
    }
    assert Take(AByte, s) == if s == [] then None else Some(Taken(Byte(s[0]), s[1..]));
    hide Take;
  }

  /** The bytes are these writes, one after the other. */
  ghost predicate SpellsWrites(s: Bytes, ws: seq<WB.Write>)
    decreases |ws|
  {
    if ws == [] then s == []
    else exists rest :: Spells(s, WriteTokens(ws[0]), rest) && SpellsWrites(rest, ws[1..])
  }

  lemma {:induction false} WritesIff(s: Bytes, ws: seq<WB.Write>)
    ensures WB.GetWrites(s) == Some(ws) <==> SpellsWrites(s, ws)
    decreases |ws|
  {
    hide Spells; hide WriteTokens; hide WB.GetWrite;
    if ws != [] {
      if SpellsWrites(s, ws) {
        var rest :| Spells(s, WriteTokens(ws[0]), rest) && SpellsWrites(rest, ws[1..]);
        WriteIff(s, ws[0], rest);
        WritesIff(rest, ws[1..]);
        NoWrite();
        assert [ws[0]] + ws[1..] == ws;
      }
      if WB.GetWrites(s) == Some(ws) && WB.GetWrite(s).Some? {
        var one := WB.GetWrite(s).value;
        var more := WB.GetWrites(one.rest).value;
        assert ws == [one.w] + more;
        assert ws[0] == one.w && ws[1..] == more;
        WriteIff(s, ws[0], one.rest);
        WritesIff(one.rest, ws[1..]);
      }
    }
  }

  lemma NoWrite()
    ensures WB.GetWrite([]).None?
  {
  }

  /** A batch is accepted exactly if its records spell writes, as many as its
      header counts. */
  lemma BatchIff(rep: Bytes, ws: seq<WB.Write>)
    requires |ws| < TWO32
    ensures WB.Iterate(rep) == Some(ws) <==> |rep| >= 12 && IsFixed(rep[8..12], |ws|, 4) && SpellsWrites(rep[12..], ws)
  {
    hide WB.GetWrites; hide SpellsWrites; hide IsFixed; hide GetFixed32;
    if |rep| >= 12 {
      WritesIff(rep[12..], ws);
      Fixed32Means(rep[8..], |ws|);
      assert rep[8..][..4] == rep[8..12];
    }
  }

  /** And is written so: sequence number, count, records. */
  lemma BatchSpells(first: nat, ws: seq<WB.Write>)
    requires first < TWO64 && WB.WritesOk(ws)
    ensures var rep := WB.Rep(first, ws);
            |rep| >= 12 && IsFixed(rep[..8], first, 8) && IsFixed(rep[8..12], |ws|, 4) && SpellsWrites(rep[12..], ws)
  {
    hide WB.Iterate; hide SpellsWrites; hide IsFixed; hide Fixed64; hide Fixed32; hide WB.Records; hide WB.WritesOk;
    WB.BatchRoundTrip(first, ws);
    Fixed64Is(first);
    IsFixedLength(Fixed64(first), first, 8);
    CountFits(ws);
    var rep := WB.Rep(first, ws);
    BatchIff(rep, ws);
    assert rep[..8] == Fixed64(first) by { RepFront(first, ws); }
  }

  lemma CountFits(ws: seq<WB.Write>)
    requires WB.WritesOk(ws)
    ensures |ws| < TWO32
  {
  }

  lemma RepFront(first: nat, ws: seq<WB.Write>)
    requires first < TWO64 && |ws| < TWO32
    ensures WB.Rep(first, ws)[..8] == Fixed64(first)
  {
    hide WB.Records;
    assert |Fixed64(first)| == 8;
    hide Fixed64; hide Fixed32;
  }

  lemma IsFixedLength(s: Bytes, v: nat, n: nat)
    requires IsFixed(s, v, n)
    ensures |s| == n
  {
  }

  // ----- manifest records (db/version_edit.cc)

  /** Every item has its tag. */
  function TagToken(i: VE.Item): nat {
    match i
    case Comparator(_) => 1
    case LogNumber(_) => 2
    case NextFileNumber(_) => 3
    case LastSequence(_) => 4
    case CompactPointer(_, _) => 5
    case DeletedFile(_, _) => 6
    case NewFile(_, _, _, _, _) => 7
    case PrevLogNumber(_) => 9
  }

  function BodyTokens(i: VE.Item): seq<Token> {
    match i
    case Comparator(name) => [Text(name)]
    case CompactPointer(level, key) => [Number32(level)] + [Text(key)]
    case DeletedFile(level, n) => [Number32(level)] + [Number64(n)]
    case NewFile(level, n, size, smallest, largest) =>
      [Number32(level)] + ([Number64(n)] + ([Number64(size)] + ([Text(smallest)] + [Text(largest)])))
    case _ => [Number64(i.n)]
  }

  function ItemTokens(i: VE.Item): seq<Token> {
    [Number32(TagToken(i))] + BodyTokens(i)
  }

  /** Levels are those the engine has. */
  ghost predicate LevelOk(i: VE.Item) {
    (i.CompactPointer? || i.DeletedFile? || i.NewFile?) ==> i.level < 7
  }

  lemma Number32Is(s: Bytes)
    ensures Take(ANumber32, s) == match VE.Get32(s) case None => None case Some(x) => Some(Taken(Number32(x.value), x.rest))
  {
    hide VarintAt; hide TakeNumber;
    NumberIs(s, 5, 4294967296);
  }

  lemma Number64Is(s: Bytes)
    ensures Take(ANumber64, s) == match VE.Get64(s) case None => None case Some(x) => Some(Taken(Number64(x.value), x.rest))
  {
    hide VarintAt; hide TakeNumber;
    NumberIs(s, 10, 18446744073709551616);
  }

  lemma NumberBody(s: Bytes, n: nat, rest: Bytes)
    ensures Spells(s, [Number64(n)], rest) <==> VE.Get64(s) == Some(VE.Num(n, rest))
  {
    hide Spells; hide Take; hide VE.Get64;
    Number64Is(s);
    OneToken(s, Number64(n), rest);
  }

  lemma TextBody(s: Bytes, data: Bytes, rest: Bytes)
    ensures Spells(s, [Text(data)], rest) <==> GetSlice(s) == Some(Cut(data, rest))
  {
    hide Spells; hide Take; hide GetSlice;
    TextIs(s);
    OneToken(s, Text(data), rest);
  }

  lemma LevelBody(s: Bytes, level: nat, more: seq<Token>, rest: Bytes)
    requires level < 7
    ensures Spells(s, [Number32(level)] + more, rest) <==>
            VE.GetLevel(s).Some? && VE.GetLevel(s).value.value == level && Spells(VE.GetLevel(s).value.rest, more, rest)
  {
    hide Spells; hide Take; hide VE.Get32;
    Number32Is(s);
    MoreTokens(s, Number32(level), more, rest);
  }

  lemma NumberFirst(s: Bytes, n: nat, more: seq<Token>, rest: Bytes)
    ensures Spells(s, [Number64(n)] + more, rest) <==>
            VE.Get64(s).Some? && VE.Get64(s).value.value == n && Spells(VE.Get64(s).value.rest, more, rest)
  {
    hide Spells; hide Take; hide VE.Get64;
    Number64Is(s);
    MoreTokens(s, Number64(n), more, rest);
  }

  lemma TextFirst(s: Bytes, data: Bytes, more: seq<Token>, rest: Bytes)
    ensures Spells(s, [Text(data)] + more, rest) <==>
            GetSlice(s).Some? && GetSlice(s).value.data == data && Spells(GetSlice(s).value.rest, more, rest)
  {
    hide Spells; hide Take; hide GetSlice;
    TextIs(s);
    MoreTokens(s, Text(data), more, rest);
  }

  lemma NewFileIff(s: Bytes, i: VE.Item, rest: Bytes)
    requires i.NewFile? && i.level < 7
    ensures VE.ParseNewFile(s) == Some(VE.Part(i, rest)) <==>
            Spells(s, [Number32(i.level)] + ([Number64(i.n)] + ([Number64(i.size)] + ([Text(i.smallest)] + [Text(i.largest)]))), rest)
  {
    hide Spells; hide VE.Get64; hide GetSlice; hide VE.GetLevel;
    LevelBody(s, i.level, [Number64(i.n)] + ([Number64(i.size)] + ([Text(i.smallest)] + [Text(i.largest)])), rest);
    var level := VE.GetLevel(s);
    if level.Some? {
      NumberFirst(level.value.rest, i.n, [Number64(i.size)] + ([Text(i.smallest)] + [Text(i.largest)]), rest);
      var n := VE.Get64(level.value.rest);
      if n.Some? {
        NumberFirst(n.value.rest, i.size, [Text(i.smallest)] + [Text(i.largest)], rest);
        var size := VE.Get64(n.value.rest);
        if size.Some? {
          TextFirst(size.value.rest, i.smallest, [Text(i.largest)], rest);
          var a := GetSlice(size.value.rest);
          if a.Some? {
            TextBody(a.value.rest, i.largest, rest);
          }
        }
      }
    }
  }

  lemma PointerIff(s: Bytes, i: VE.Item, rest: Bytes)
    requires i.CompactPointer? && i.level < 7
    ensures VE.ParsePointer(s) == Some(VE.Part(i, rest)) <==> Spells(s, [Number32(i.level)] + [Text(i.key)], rest)
  {
    hide Spells; hide GetSlice; hide VE.GetLevel;
    LevelBody(s, i.level, [Text(i.key)], rest);
    if VE.GetLevel(s).Some? {
      TextBody(VE.GetLevel(s).value.rest, i.key, rest);
    }
  }

  lemma DeletedIff(s: Bytes, i: VE.Item, rest: Bytes)
    requires i.DeletedFile? && i.level < 7
    ensures VE.ParseDeleted(s) == Some(VE.Part(i, rest)) <==> Spells(s, [Number32(i.level)] + [Number64(i.n)], rest)
  {
    hide Spells; hide VE.Get64; hide VE.GetLevel;
    LevelBody(s, i.level, [Number64(i.n)], rest);
    if VE.GetLevel(s).Some? {
      NumberBody(VE.GetLevel(s).value.rest, i.n, rest);
    }
  }

  lemma BodyIff(tag: nat, s: Bytes, i: VE.Item, rest: Bytes)
    ensures VE.ParseBody(tag, s) == Some(VE.Part(i, rest)) <==> tag == TagToken(i) && LevelOk(i) && Spells(s, BodyTokens(i), rest)
  {
    hide Spells; hide VE.Get64; hide GetSlice;
    BodyTag(tag, s, i, rest);
    hide VE.ParseBody;
    if tag == TagToken(i) && LevelOk(i) {
      SameBody(s, i, rest);
    }
  }

  /** Only its own tag gives an item, and only with a level the engine has. */
  lemma BodyTag(tag: nat, s: Bytes, i: VE.Item, rest: Bytes)
    ensures VE.ParseBody(tag, s) == Some(VE.Part(i, rest)) ==> tag == TagToken(i) && LevelOk(i)
  {
    hide VE.Get64; hide VE.Get32; hide GetSlice;
  }

  lemma SameBody(s: Bytes, i: VE.Item, rest: Bytes)
    requires LevelOk(i)
    ensures VE.ParseBody(TagToken(i), s) == Some(VE.Part(i, rest)) <==> Spells(s, BodyTokens(i), rest)
  {
    hide Spells; hide VE.Get64; hide GetSlice; hide VE.ParseNewFile; hide VE.ParsePointer; hide VE.ParseDeleted;
    match i
    case Comparator(name) => TextBody(s, name, rest);
    case CompactPointer(_, _) => PointerIff(s, i, rest);
    case DeletedFile(_, _) => DeletedIff(s, i, rest);
    case NewFile(_, _, _, _, _) => NewFileIff(s, i, rest);
    case _ => NumberBody(s, i.n, rest);
  }

  /** An item is read exactly where one is spelt, with a level the engine has. */
  lemma ItemIff(s: Bytes, i: VE.Item, rest: Bytes)
    ensures VE.ParseItem(s) == Some(VE.Part(i, rest)) <==> LevelOk(i) && Spells(s, ItemTokens(i), rest)
  {
    hide Spells; hide VE.Get32; hide VE.ParseBody;
    Number32Is(s);
    MoreTokens(s, Number32(TagToken(i)), BodyTokens(i), rest);
    hide Take;
    var tag := VE.Get32(s);
    if tag.Some? {
      BodyIff(tag.value.value, tag.value.rest, i, rest);
    }
  }

  ghost predicate SpellsItems(s: Bytes, items: seq<VE.Item>)
    decreases |items|
  {
    if items == [] then s == []
    else LevelOk(items[0]) && exists rest :: Spells(s, ItemTokens(items[0]), rest) && SpellsItems(rest, items[1..])
  }

  /** The edit the items describe. */
  function Described(e: VE.Edit, items: seq<VE.Item>): VE.Edit
    decreases |items|
  {
    if items == [] then e else Described(VE.Apply(e, items[0]), items[1..])
  }

  lemma {:induction false} EditIff(e: VE.Edit, s: Bytes, r: VE.Edit)
    ensures VE.DecodeLoop(e, s) == Some(r) <==> exists items :: SpellsItems(s, items) && r == Described(e, items)
    decreases |s|
  {
    hide Spells; hide ItemTokens; hide VE.ParseItem; hide VE.Apply; hide LevelOk;
    if VE.DecodeLoop(e, s) == Some(r) {
      var items := EditItems(e, s, r);
    }
    if items :| SpellsItems(s, items) && r == Described(e, items) {
      ItemsEdit(e, s, items);
    }
  }

  lemma {:induction false} EditItems(e: VE.Edit, s: Bytes, r: VE.Edit) returns (items: seq<VE.Item>)
    requires VE.DecodeLoop(e, s) == Some(r)
    ensures SpellsItems(s, items) && r == Described(e, items)
    decreases |s|
  {
    hide Spells; hide ItemTokens; hide VE.ParseItem; hide VE.Apply; hide LevelOk;
    if s == [] {
      items := [];
    } else {
      var p := VE.ParseItem(s).value;
      VE.Shorter(s);
      ItemIff(s, p.item, p.rest);
      var more := EditItems(VE.Apply(e, p.item), p.rest, r);
      items := [p.item] + more;
      assert items[0] == p.item && items[1..] == more;
    }
  }

  lemma {:induction false} ItemsEdit(e: VE.Edit, s: Bytes, items: seq<VE.Item>)
    requires SpellsItems(s, items)
    ensures VE.DecodeLoop(e, s) == Some(Described(e, items))
    decreases |items|
  {
    hide Spells; hide ItemTokens; hide VE.ParseItem; hide VE.Apply; hide LevelOk;
    if items != [] {
      var rest :| Spells(s, ItemTokens(items[0]), rest) && SpellsItems(rest, items[1..]);
      ItemIff(s, items[0], rest);
      VE.DecodeOne(e, s, items[0], rest);
      ItemsEdit(VE.Apply(e, items[0]), rest, items[1..]);
    }
  }

  /** A manifest record is accepted exactly if it spells items, and gives the
      edit they describe. */
  lemma RecordIff(e0: VE.Edit, s: Bytes, r: VE.Edit)
    ensures VE.Decode(e0, s) == Some(r) <==> exists items :: SpellsItems(s, items) && r == Described(VE.Cleared(e0), items)
  {
    hide VE.DecodeLoop; hide SpellsItems; hide Described;
    EditIff(VE.Cleared(e0), s, r);
  }

  lemma OneSpelt(item: VE.Item, tail: Bytes, more: seq<VE.Item>)
    requires VE.ItemOk(item) && SpellsItems(tail, more)
    ensures SpellsItems(VE.EncodeItem(item) + tail, [item] + more)
  {
    hide VE.EncodeItem; hide ItemTokens; hide Spells; hide VE.ParseItem;
    VE.ItemRoundTrip(item, tail);
    ItemIff(VE.EncodeItem(item) + tail, item, tail);
    assert ([item] + more)[0] == item && ([item] + more)[1..] == more;
  }

  lemma {:induction false} SpellsBefore(front: seq<VE.Item>, tail: Bytes, more: seq<VE.Item>)
    requires (forall i :: 0 <= i < |front| ==> VE.ItemOk(front[i])) && SpellsItems(tail, more)
    ensures SpellsItems(VE.EncodeAll(front) + tail, front + more)
    decreases |front|
  {
    hide VE.ItemOk; hide VE.EncodeItem; hide SpellsItems;
    if front == [] {
      assert VE.EncodeAll(front) + tail == tail && front + more == more;
    } else {
      var n := |front| - 1;
      var last, code := front[n], VE.EncodeItem(front[n]);
      assert VE.EncodeAll(front) == VE.EncodeAll(front[..n]) + code;
      hide VE.EncodeAll;
      OneSpelt(last, tail, more);
      SpellsBefore(front[..n], code + tail, [last] + more);
      assert VE.EncodeAll(front) + tail == VE.EncodeAll(front[..n]) + (code + tail);
      assert front + more == front[..n] + ([last] + more);
    }
  }

  /** And is written so. */
  lemma RecordSpells(items: seq<VE.Item>)
    requires forall i :: 0 <= i < |items| ==> VE.ItemOk(items[i])
    ensures SpellsItems(VE.EncodeAll(items), items)
  {
    hide VE.EncodeAll; hide VE.ItemOk;
    SpellsBefore(items, [], []);
    assert VE.EncodeAll(items) + [] == VE.EncodeAll(items) && items + [] == items;
  }
}
