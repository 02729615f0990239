/** Writing a table file and looking a key up in it (table/table_builder.cc,
    table/table.cc). */
module TableFile {
  import opened Keys
  import opened Coding
  import opened Block
  import opened BlockBuilding
  import opened BlockReading
  import opened Bytewise
  import opened InternalKeys
  import opened TableSearch
  import opened TableFormat
  import opened TableParts
  import opened TableFilters
  import FB = FilterBlock

  /** A finished file: footer, index block, data blocks. */
  ghost predicate IsTable(file: Bytes, p: Parts, interval: nat, meta: Handle, index: Handle) {
    && Good(p, interval) && |p.seps| == |p.blocks| && p.tail == []
    && |file| >= FOOTER && DecodeFooter(file[|file| - FOOTER..]) == Some(BothHandles(meta, index))
    && StoredAt(file, IndexEntries(p.seps, p.handles), index, 1)
    && Stored(file, p.blocks, p.handles, interval)
  }

  // ----- looking up

  lemma ChooseIsFirst(seps: seq<Bytes>, handles: seq<Handle>, k: Bytes)
    requires |seps| <= |handles|
    ensures FirstFrom(InternalLess, IndexEntries(seps, handles), k) == Choose(seps, k)
  {
    hide InternalLess;
    var kvs, n := IndexEntries(seps, handles), Choose(seps, k);
    FirstIs(InternalLess, kvs, k, n);
  }

  lemma LessIsTransitive()
    ensures Transitive(InternalLess)
  {
    hide InternalLess;
    forall a, b, c | InternalLess(a, b) && InternalLess(b, c)
      ensures InternalLess(a, c)
    {
      InternalTransitive(a, b, c);
    }
  }

  /** The filter never rules out a block that holds the key's user key. */
  ghost predicate FilterOk(p: Parts, k: Bytes, mayMatch: (nat, Bytes) -> bool)
    requires |p.handles| == |p.blocks| && |k| >= 8
  {
    forall i, j :: 0 <= i < |p.blocks| && 0 <= j < |p.blocks[i]| && |p.blocks[i][j].key| >= 8 && UserOf(p.blocks[i][j].key) == UserOf(k) ==>
      mayMatch(p.handles[i].offset, k)
  }

  /** Positions a block iterator and hands out the entry it stands on. */
  method SeekIn(contents: Bytes, less: Order, k: Bytes, ghost kvs: seq<KV>, ghost interval: nat) returns (r: Option<KV>)
    requires IsBlock(contents, kvs, interval) && InOrder(less, kvs) && Transitive(less)
    ensures var n := FirstFrom(less, kvs, k); r == if n < |kvs| then Some(kvs[n]) else None
  {
    hide Transitive; hide InOrder; hide IsBlock; hide FirstFrom; hide Iter.On; hide Iter.Before;
    var it := new Iter(contents, less, kvs, interval);
    it.Seek(k);
    it.Standing();
    if it.current < it.restarts {
      var kv := it.Current();
      r := Some(kv);
    } else {
      r := None;
    }
  }

  /** Table::InternalGet with the caller's check of the user key: exactly what
      a linear search of the table's entries finds. */
  method InternalGet(file: Bytes, k: Bytes, mayMatch: (nat, Bytes) -> bool, ghost p: Parts, ghost interval: nat, ghost meta: Handle, ghost index: Handle)
    returns (r: Option<KV>)
    requires IsTable(file, p, interval, meta, index) && |k| >= 8 && FilterOk(p, k, mayMatch)
    ensures r == LinearGet(Flat(p.blocks), k)
  {
    hide *;
    LessIsTransitive();
    TableFacts(file, p, interval, meta, index);
    ghost var kvs := IndexEntries(p.seps, p.handles);
    ChooseIsFirst(p.seps, p.handles, k);
    IndexedGetIsLinear(p.blocks, p.seps, k);
    ghost var i := Choose(p.seps, k);
    GetStep(p, k);
    var contents := ReadBlock(file, DecodeFooter(file[|file| - FOOTER..]).value.index).value;
    var at := SeekIn(contents, InternalLess, k, kvs, 1);
    if at.None? {
      return None;
    }
    IndexEntry(file, p, interval, meta, index, i);
    var handle := DecodeHandle(at.value.value).value.handle;
    if !mayMatch(handle.offset, k) {
      FilteredOut(p, k, mayMatch, i);
      return None;
    }
    var data := ReadBlock(file, handle).value;
    r := SeekIn(data, InternalLess, k, p.blocks[i], interval);
    SameUserIs(p.blocks[i], k);
    KeysOf(p.blocks[i]);
    if r.Some? && UserOf(r.value.key) != UserOf(k) {
      r := None;
    }
  }

  lemma TableFacts(file: Bytes, p: Parts, interval: nat, meta: Handle, index: Handle)
    requires IsTable(file, p, interval, meta, index)
    ensures |p.seps| == |p.blocks| == |p.handles| && interval > 0
    ensures |file| >= FOOTER && DecodeFooter(file[|file| - FOOTER..]) == Some(BothHandles(meta, index))
    ensures ReadBlock(file, index).Some?
    ensures IsBlock(ReadBlock(file, index).value, IndexEntries(p.seps, p.handles), 1)
    ensures InOrder(InternalLess, IndexEntries(p.seps, p.handles))
    ensures Indexed(p.blocks, p.seps, []) && InKeyOrder(Flat(p.blocks))
  {
    hide InternalLess; hide Indexed; hide InKeyOrder; hide Flat; hide DecodeFooter; hide StoredAt; hide Stored; hide InOrder; hide IsBlock; hide ReadBlock;
    hide IndexEntries;
    assert Entries(p) == Flat(p.blocks);
    StoredCount(p.file, p.blocks, p.handles, interval);
    IndexSorted(p, interval);
    assert StoredAt(file, IndexEntries(p.seps, p.handles), index, 1);
    StoredIs(file, IndexEntries(p.seps, p.handles), index, 1);
  }

  lemma StoredCount(file: Bytes, blocks: seq<seq<KV>>, handles: seq<Handle>, interval: nat)
    requires interval > 0 && Stored(file, blocks, handles, interval)
    ensures |handles| == |blocks|
  {
    hide StoredAt;
  }

  lemma StoredIs(file: Bytes, block: seq<KV>, h: Handle, interval: nat)
    requires interval > 0 && StoredAt(file, block, h, interval)
    ensures ReadBlock(file, h).Some? && IsBlock(ReadBlock(file, h).value, block, interval) && HandleOk(h)
  {
    hide ReadBlock; hide BlockBytes; hide Small;
  }

  lemma GetStep(p: Parts, k: Bytes)
    requires |p.seps| == |p.blocks| == |p.handles| && |k| >= 8
    ensures var i := Choose(p.seps, k);
            && i <= |p.seps| && |IndexEntries(p.seps, p.handles)| == |p.seps|
            && IndexedGet(p.blocks, p.seps, k) == (if i == |p.seps| then None else LinearGet(p.blocks[i], k))
            && (i < |p.seps| ==> IndexEntries(p.seps, p.handles)[i].value == EncodeHandle(p.handles[i]))
  {
    hide LinearGet; hide EncodeHandle; hide InternalLess;
  }

  lemma IndexEntry(file: Bytes, p: Parts, interval: nat, meta: Handle, index: Handle, i: nat)
    requires IsTable(file, p, interval, meta, index) && i < |p.blocks| == |p.handles|
    ensures DecodeHandle(EncodeHandle(p.handles[i])).Some?
    ensures DecodeHandle(EncodeHandle(p.handles[i])).value.handle == p.handles[i]
    ensures ReadBlock(file, p.handles[i]).Some? && IsBlock(ReadBlock(file, p.handles[i]).value, p.blocks[i], interval)
    ensures InKeyOrder(p.blocks[i]) && InOrder(InternalLess, p.blocks[i])
  {
    hide *;
    BlockFacts(file, p, interval, meta, index, i);
    TableFacts(file, p, interval, meta, index);
    StoredIs(file, p.blocks[i], p.handles[i], interval);
    HandleRoundTrip(p.handles[i], []);
    assert EncodeHandle(p.handles[i]) + [] == EncodeHandle(p.handles[i]);
    BlockSorted(p.blocks, i);
    OrderOf(p.blocks[i]);
  }

  lemma OrderOf(kvs: seq<KV>)
    requires InKeyOrder(kvs)
    ensures InOrder(InternalLess, kvs)
  {
  }

  lemma BlockFacts(file: Bytes, p: Parts, interval: nat, meta: Handle, index: Handle, i: nat)
    requires IsTable(file, p, interval, meta, index) && i < |p.blocks| == |p.handles|
    ensures interval > 0 && StoredAt(file, p.blocks[i], p.handles[i], interval)
  {
    hide Indexed; hide InKeyOrder; hide StoredAt; hide DecodeFooter; hide IndexEntries;
  }

  lemma BlockSorted(blocks: seq<seq<KV>>, i: nat)
    requires InKeyOrder(Flat(blocks)) && i < |blocks|
    ensures InKeyOrder(blocks[i])
  {
    hide Flat; hide InKeyOrder;
    FlatSplit(blocks, i);
    InnerOrder(Flat(blocks), Flat(blocks[..i]), blocks[i]);
  }

  lemma InnerOrder(kvs: seq<KV>, a: seq<KV>, b: seq<KV>)
    requires InKeyOrder(kvs) && a + b <= kvs
    ensures InKeyOrder(b)
  {
    hide InternalLess;
    var ab := a + b;
    forall j | 0 <= j < |b|
      ensures kvs[|a| + j] == b[j]
    {
      assert kvs[|a| + j] == ab[|a| + j];
    }
  }

  lemma FilteredOut(p: Parts, k: Bytes, mayMatch: (nat, Bytes) -> bool, i: nat)
    requires |p.handles| == |p.blocks| && |k| >= 8 && FilterOk(p, k, mayMatch) && i < |p.blocks| && !mayMatch(p.handles[i].offset, k)
    ensures LinearGet(p.blocks[i], k) == None
  {
    hide FirstFrom;
  }

  lemma SameUserIs(kvs: seq<KV>, k: Bytes)
    requires |k| >= 8
    ensures var n := FirstFrom(InternalLess, kvs, k);
            && n <= |kvs|
            && LinearGet(kvs, k) == (if n < |kvs| && |kvs[n].key| >= 8 && UserOf(kvs[n].key) == UserOf(k) then Some(kvs[n]) else None)
  {
    hide InternalLess;
  }

  // ----- with the file's own filter

  /** The reader's policy is the writer's, if they have the same name. */
  ghost predicate Agrees(reading: Policy, written: Option<Policy>) {
    written.Some? && written.value.name == reading.name ==> written.value.matches == reading.matches
  }

  lemma BytesLessTransitive()
    ensures Transitive(BytesLess)
  {
    hide BytesLess;
    forall a, b, c | BytesLess(a, b) && BytesLess(b, c)
      ensures BytesLess(a, c)
    {
      BytesTransitive(a, b, c);
    }
  }

  lemma ShortOrder(entries: seq<KV>)
    requires |entries| <= 1
    ensures InOrder(BytesLess, entries)
  {
  }

  /** Table::ReadMeta and ReadFilter: the filter block, if the table has one
      for this policy. */
  method ReadMeta(file: Bytes, meta: Handle, reading: Policy, ghost p: Parts, ghost interval: nat, ghost written: Option<Policy>) returns (filter: Option<Bytes>)
    requires FilterStored(file, p, interval, meta, written)
    ensures filter.Some? <==> written.Some? && written.value.name == reading.name
    ensures filter.Some? ==> AllAnswered(p, filter.value, written.value.matches)
  {
    hide *;
    ghost var entries, handle, block := MetaStored(file, p, interval, meta, written);
    StoredIs(file, entries, meta, interval);
    BytesLessTransitive();
    ShortOrder(entries);
    var contents := ReadBlock(file, meta);
    if contents.None? {
      return None;
    }
    var at := SeekIn(contents.value, BytesLess, MetaKey(reading.name), entries, interval);
    MetaListed(written, entries, handle, reading.name);
    if at.None? || at.value.key != MetaKey(reading.name) {
      return None;
    }
    MetaFound(written, entries, handle, reading.name, at.value);
    var h := DecodeHandle(at.value.value);
    if h.None? {
      return None;
    }
    filter := ReadBlock(file, h.value.handle);
  }

  lemma MetaStored(file: Bytes, p: Parts, interval: nat, meta: Handle, written: Option<Policy>)
    returns (entries: seq<KV>, handle: Handle, block: Bytes)
    requires FilterStored(file, p, interval, meta, written)
    ensures interval > 0 && StoredAt(file, entries, meta, interval) && |entries| <= 1
    ensures written.None? ==> entries == []
    ensures written.Some? ==>
              && entries == [MetaEntry(written.value.name, handle)] && HandleOk(handle)
              && ReadBlock(file, handle) == Some(block) && AllAnswered(p, block, written.value.matches)
  {
    hide StoredAt; hide MetaEntry; hide ReadBlock; hide AllAnswered; hide HandleOk;
    if written.Some? {
      handle, block :| FilterAt(file, p, interval, meta, written.value, handle, block);
      entries := [MetaEntry(written.value.name, handle)];
    } else {
      entries, handle, block := [], Handle(0, 0), [];
    }
  }

  /** An entry of that name is where the search ends. */
  lemma MetaListed(written: Option<Policy>, entries: seq<KV>, handle: Handle, name: Bytes)
    requires written.Some? ==> entries == [MetaEntry(written.value.name, handle)]
    ensures written.Some? && written.value.name == name ==>
              && FirstFrom(BytesLess, entries, MetaKey(name)) == 0 && |entries| == 1 && entries[0].key == MetaKey(name)
  {
    hide EncodeHandle;
    if written.Some? && written.value.name == name {
      BytesTotal(MetaKey(name), MetaKey(name));
      FirstIs(BytesLess, entries, MetaKey(name), 0);
    }
  }

  lemma MetaFound(written: Option<Policy>, entries: seq<KV>, handle: Handle, name: Bytes, kv: KV)
    requires written.None? ==> entries == []
    requires written.Some? ==> entries == [MetaEntry(written.value.name, handle)] && HandleOk(handle)
    requires FirstFrom(BytesLess, entries, MetaKey(name)) < |entries| && kv == entries[FirstFrom(BytesLess, entries, MetaKey(name))]
    requires kv.key == MetaKey(name)
    ensures written.Some? && written.value.name == name
    ensures DecodeHandle(kv.value).Some? && DecodeHandle(kv.value).value.handle == handle
  {
    var n := FirstFrom(BytesLess, entries, MetaKey(name));
    hide FirstFrom; hide BytesLess; hide DecodeHandle; hide EncodeHandle; hide HandleOk;
    assert n == 0 && kv == MetaEntry(written.value.name, handle);
    assert MetaKey(name)[|FILTER_DOT|..] == name && MetaKey(written.value.name)[|FILTER_DOT|..] == written.value.name;
    HandleRoundTrip(handle, []);
    assert EncodeHandle(handle) + [] == EncodeHandle(handle);
  }

  /** A filter block that answers for every key never rules one out. */
  lemma StoredFilterOk(p: Parts, k: Bytes, filter: Option<Bytes>, matches: FB.Matches)
    requires |p.handles| == |p.blocks| && |k| >= 8 && ByUser(matches) && (filter.Some? ==> AllAnswered(p, filter.value, matches))
    ensures FilterOk(p, k, Asker(filter, matches))
  {
    hide FB.KeyMayMatch; hide ByUser;
    forall i, j | 0 <= i < |p.blocks| && 0 <= j < |p.blocks[i]| && |p.blocks[i][j].key| >= 8 && UserOf(p.blocks[i][j].key) == UserOf(k)
      ensures Asks(filter, matches, p.handles[i].offset, k)
    {
      if filter.Some? {
        SameAnswer(filter.value, p.handles[i].offset, p.blocks[i][j].key, k, matches);
      }
    }
  }

  /** Table::Open and InternalGet: on the bytes a builder finished, with the
      filter it stored, exactly what a linear search of the entries finds. */
  method Get(file: Bytes, k: Bytes, reading: Option<Policy>,
             ghost p: Parts, ghost interval: nat, ghost meta: Handle, ghost index: Handle, ghost written: Option<Policy>)
    returns (r: Option<KV>)
    requires IsTable(file, p, interval, meta, index) && FilterStored(file, p, interval, meta, written) && |k| >= 8
    requires reading.Some? ==> ByUser(reading.value.matches) && Agrees(reading.value, written)
    ensures r == LinearGet(Flat(p.blocks), k)
  {
    hide *;
    TableFacts(file, p, interval, meta, index);
    var filter := None;
    var matches: FB.Matches := (key, filter) => true;
    TrivialByUser(matches);
    if reading.Some? {
      var footer := DecodeFooter(file[|file| - FOOTER..]).value;
      matches := reading.value.matches;
      filter := ReadMeta(file, footer.meta, reading.value, p, interval, written);
      AgreesIs(reading.value, written);
    }
    StoredFilterOk(p, k, filter, matches);
    r := InternalGet(file, k, Asker(filter, matches), p, interval, meta, index);
  }

  lemma TrivialByUser(matches: FB.Matches)
    requires forall key, filter :: matches(key, filter)
    ensures ByUser(matches)
  {
  }

  lemma AgreesIs(reading: Policy, written: Option<Policy>)
    requires Agrees(reading, written)
    ensures written.Some? && written.value.name == reading.name ==> written.value.matches == reading.matches
  {
  }

  // ----- building

  ghost predicate LastIs(kvs: seq<KV>, key: Bytes) {
    kvs != [] ==> key == kvs[|kvs| - 1].key
  }

  lemma AppendOrder(kvs: seq<KV>, kv: KV, last: Bytes)
    requires InKeyOrder(kvs) && LastIs(kvs, last) && |kv.key| >= 8 && (kvs != [] ==> InternalLess(last, kv.key))
    ensures InKeyOrder(kvs + [kv]) && LastIs(kvs + [kv], kv.key)
  {
    hide InternalLess;
    var all := kvs + [kv];
    forall i, j | 0 <= i < j < |all|
      ensures InternalLess(all[i].key, all[j].key)
    {
      if j == |kvs| && i < |kvs| - 1 {
        assert InternalLess(kvs[i].key, kvs[|kvs| - 1].key);
        InternalTransitive(kvs[i].key, last, kv.key);
      }
    }
  }

  /** A block that fits its format fits a handle. */
  lemma BytesFit(kvs: seq<KV>, interval: nat)
    requires interval > 0 && Small(kvs, interval)
    ensures |BlockBytes(kvs, interval)| < TWO64
  {
    SmallOffsets(kvs, interval);
    hide Fixed32; hide Data; hide RestartOffsets;
    RestartsLength(kvs, interval);
    FixedsLength(RestartOffsets(kvs, interval));
    Fixed32Length(|RestartOffsets(kvs, interval)|);
    hide Fixeds;
  }

  class TableBuilder {
    const interval: nat
    const dataBlock: BlockBuilder
    const indexBlock: BlockBuilder
    const policy: Option<Policy>
    const filter: FB.FilterBlockBuilder?
    var file: Bytes
    var lastKey: Bytes
    var pending: bool
    var pendingHandle: Handle
    ghost var parts: Parts

    ghost predicate Valid()
      reads this, dataBlock, indexBlock, filter
    {
      && (policy.Some? <==> filter != null)
      && (filter != null ==>
            filter.Valid() && filter.create == policy.value.create && Recorded(parts, filter.added, filter.current))
      && Built(parts, interval, file, lastKey, pending, pendingHandle)
      && dataBlock.Valid() && indexBlock.Valid() && dataBlock != indexBlock
      && dataBlock.interval == interval && indexBlock.interval == 1
      && dataBlock.kvs == parts.tail && indexBlock.kvs == IndexEntries(parts.seps, parts.handles)
    }

    constructor (interval: nat, policy: Option<Policy>)
      requires interval > 0
      ensures Valid() && Entries(parts) == [] && this.interval == interval && this.policy == policy
      ensures file == [] && parts.tail == [] && lastKey == [] && !pending && indexBlock.kvs == []
      ensures fresh(dataBlock) && fresh(indexBlock) && (filter != null ==> fresh(filter))
    {
      this.interval, this.policy := interval, policy;
      dataBlock := new BlockBuilder(interval);
      indexBlock := new BlockBuilder(1);
      if policy.Some? {
        filter := new FB.FilterBlockBuilder(policy.value.create);
      } else {
        filter := null;
      }
      file, lastKey, pending, pendingHandle := [], [], false, Handle(0, 0);
      parts := Parts([], [], [], [], []);
      new;
      hide BlockBuilder.Valid; hide FB.FilterBlockBuilder.Valid; hide Built; hide Recorded; hide FB.FilterIndex;
      NothingBuilt(parts, interval, file, lastKey, pendingHandle);
      if filter != null {
        filter.StartBlock(0);
      }
    }

    /** The index entry of the last block waits for the first key after it. */
    method Add(key: Bytes, value: Bytes, full: bool)
      requires Valid() && |key| >= 8 && (Entries(parts) != [] ==> InternalLess(lastKey, key))
      requires Small(parts.tail + [KV(key, value)], interval) && |file| < TWO64
      modifies this, dataBlock, indexBlock, filter
      ensures Valid() && Entries(parts) == old(Entries(parts)) + [KV(key, value)]
      ensures lastKey == key && pending == full && parts.tail == if full then [] else old(parts.tail) + [KV(key, value)]
      ensures |file| <= |old(file)| + if full then MAX_RAW else 0
      ensures Bulk(indexBlock.kvs) <= old(Bulk(indexBlock.kvs)) + if old(pending) then IndexCost(old(lastKey)) else 0
    {
      hide Built; hide BlockBuilder.Valid; hide Small; hide InternalLess; hide FB.FilterBlockBuilder.Valid; hide Recorded; hide Bulk; hide IndexCost;
      ghost var before := parts;
      ghost var kv := KV(key, value);
      BuiltIndex(parts, interval, file, lastKey, pending, pendingHandle);
      if pending {
        var sep := InternalKeys.FindShortestSeparator(lastKey, key);
        var handle := EncodeHandle(pendingHandle);
        AddPending(parts, interval, file, lastKey, pendingHandle, sep, kv);
        PendingOk(parts, interval, file, lastKey, pendingHandle);
        IndexGrows(indexBlock.kvs, sep, pendingHandle, lastKey);
        indexBlock.Add(sep, handle);
        pending := false;
        parts := parts.(seps := parts.seps + [sep], tail := [kv]);
      } else {
        AddMore(parts, interval, file, lastKey, pendingHandle, kv);
        parts := parts.(tail := parts.tail + [kv]);
      }
      if filter != null {
        RecordedAdd(before, parts, filter.added, filter.current, kv);
        filter.AddKey(key);
      }
      lastKey := key;
      dataBlock.Add(key, value);
      if full {
        Flush();
      }
    }

    /** The last index entry, and the index block. */
    method CloseIndex() returns (i: Bytes)
      requires Valid() && parts.tail == [] && Bulk(indexBlock.kvs) + IndexCost(lastKey) < TWO32 - 1
      modifies this, indexBlock
      ensures file == old(file) == parts.file && parts == old(parts).(seps := parts.seps) && Flat(parts.blocks) == old(Entries(parts))
      ensures Good(parts, interval) && |parts.seps| == |parts.blocks| == |parts.handles| && interval > 0
      ensures Small(IndexEntries(parts.seps, parts.handles), 1) && i == BlockBytes(IndexEntries(parts.seps, parts.handles), 1)
    {
      hide Built; hide BlockBuilder.Valid; hide Small; hide InternalLess; hide BlockBytes; hide HandleOk; hide Flat; hide Good;
      hide FB.FilterBlockBuilder.Valid; hide Recorded; hide Bulk; hide IndexCost;
      BuiltIndex(parts, interval, file, lastKey, pending, pendingHandle);
      BulkSmall(indexBlock.kvs, 1);
      if pending {
        var sep := InternalKeys.FindShortSuccessor(lastKey);
        var handle := EncodeHandle(pendingHandle);
        ClosePending(parts, interval, file, lastKey, pendingHandle, sep);
        IndexGrows(indexBlock.kvs, sep, pendingHandle, lastKey);
        BulkSmall(indexBlock.kvs + [KV(sep, handle)], 1);
        indexBlock.Add(sep, handle);
        pending := false;
        parts := parts.(seps := parts.seps + [sep]);
      } else {
        CloseNothing(parts, interval, file, lastKey, pendingHandle);
      }
      i := indexBlock.Finish();
    }

    /** The filter block as stored, and the metaindex block that names it. */
    method WriteFilter() returns (raw: Bytes, m: Bytes, ghost entries: seq<KV>)
      requires interval > 0 && |file| < TWO63 && |parts.handles| == |parts.blocks|
      requires (policy.Some? <==> filter != null) && (policy.Some? ==> FB.NeverMisses(policy.value.create, policy.value.matches) && |policy.value.name| < 0x8000_0000)
      requires filter != null ==>
                 && filter.Valid() && filter.create == policy.value.create && Recorded(parts, filter.added, filter.current)
                 && filter.Weight() < TWO32 && filter.current == |file|
      modifies filter
      ensures |raw| <= 0x100_0000_0000_0000 && Small(entries, interval) && m == BlockBytes(entries, interval)
      ensures filter == null ==> raw == [] && entries == []
      ensures filter != null ==>
                exists block :: raw == RawBlock(block) && HandleOk(Handle(|file|, |block|)) && entries == [MetaEntry(policy.value.name, Handle(|file|, |block|))]
                  && AllAnswered(parts, block, policy.value.matches)
    {
      hide BlockBuilder.Valid; hide Small; hide BlockBytes; hide RawBlock; hide HandleOk; hide FB.FilterBlockBuilder.Valid; hide Recorded; hide FB.NeverMisses;
      hide FB.KeyMayMatch; hide FB.FilterBlockBuilder.Weight; hide AllAnswered;
      var metaBlock := new BlockBuilder(interval);
      if filter == null {
        raw, entries := [], [];
        EmptySmall(interval);
      } else {
        ghost var added, current := filter.added, filter.current;
        var block := filter.Finish(policy.value.matches);
        FilterSize(|file|, |block|);
        RawLength(block);
        raw := RawBlock(block);
        var handle := Handle(|file|, |block|);
        MetaSmall(policy.value.name, handle, interval);
        AllMatch(parts, added, current, block, policy.value.matches);
        metaBlock.Add(MetaKey(policy.value.name), EncodeHandle(handle));
        entries := [MetaEntry(policy.value.name, handle)];
      }
      assert metaBlock.kvs == entries;
      m := metaBlock.Finish();
    }

    /** Flushes, closes the index and appends filter, metaindex, index, footer. */
    method Finish() returns (ghost meta: Handle, ghost index: Handle)
      requires Valid() && Small(parts.tail, interval) && |file| < TWO63 - MAX_RAW
      requires Bulk(indexBlock.kvs) + IndexCost(lastKey) < TWO32 - 1
      requires policy.Some? ==> FB.NeverMisses(policy.value.create, policy.value.matches) && |policy.value.name| < 0x8000_0000
      requires filter != null ==> filter.Weight() < TWO32
      modifies this, dataBlock, indexBlock, filter
      ensures IsTable(file, parts, interval, meta, index) && Flat(parts.blocks) == old(Entries(parts))
      ensures FilterStored(file, parts, interval, meta, policy)
    {
      hide Built; hide BlockBuilder.Valid; hide Small; hide InternalLess; hide BlockBytes; hide RawBlock; hide HandleOk; hide IsTable; hide Flat; hide Footer;
      hide FB.FilterBlockBuilder.Valid; hide Recorded; hide FB.NeverMisses; hide FilterStored; hide FB.FilterBlockBuilder.Weight; hide Good; hide AllAnswered;
      hide Handles; hide Bulk; hide IndexCost;
      Flush();
      ghost var flushed := parts;
      var i := CloseIndex();
      if filter != null {
        RecordedSame(flushed, parts, filter.added, filter.current);
      }
      var raw, m;
      ghost var entries;
      raw, m, entries := WriteFilter();
      FinishTable(parts, interval, raw, m, entries, i);
      var m', i' := Handle(|file + raw|, |m|), Handle(|file + raw + RawBlock(m)|, |i|);
      meta, index := m', i';
      Regrouped(file, raw, RawBlock(m), RawBlock(i), Footer(m', i'));
      if filter != null {
        FilterKept(parts, interval, policy.value, raw, m, entries, RawBlock(i) + Footer(m', i'));
      } else {
        NoFilterKept(parts, interval, m, RawBlock(i) + Footer(m', i'));
      }
      file := file + raw + RawBlock(m) + RawBlock(i) + Footer(m', i');
    }

    method Flush()
      requires Valid() && Small(parts.tail, interval) && |file| < TWO64
      modifies this, dataBlock, filter
      ensures Valid() && Entries(parts) == old(Entries(parts)) && parts.tail == [] && lastKey == old(lastKey)
      ensures if old(parts.tail) == [] then file == old(file) && pending == old(pending) else pending && |file| <= |old(file)| + MAX_RAW
      ensures filter != null ==> filter.Weight() == old(filter.Weight())
    {
      hide Built; hide Small; hide BlockBytes; hide RawBlock; hide BlockBuilder.Valid; hide FB.FilterBlockBuilder.Valid; hide Recorded;
      hide FB.FilterBlockBuilder.Weight;
      var empty := dataBlock.IsEmpty();
      if empty {
        return;
      }
      BuiltIndex(parts, interval, file, lastKey, pending, pendingHandle);
      FlushBuilt(parts, interval, file, lastKey, pending, pendingHandle);
      RawFits(dataBlock.kvs, interval);
      var contents := dataBlock.Finish();
      pendingHandle := Handle(|file|, |contents|);
      ghost var before := parts;
      parts := Flushed(parts, contents);
      file := file + RawBlock(contents);
      pending := true;
      dataBlock.Reset();
      if filter != null {
        RecordedFlush(before, parts, filter.added, filter.current, contents);
        filter.StartBlock(|file|);
      }
    }
  }

  lemma Regrouped(a: Bytes, b: Bytes, c: Bytes, d: Bytes, e: Bytes)
    ensures a + b + c + d + e == a + b + c + (d + e) && (b == [] ==> a + b == a)
  {
  }

  /** No stored block is larger. */
  const MAX_RAW: nat := 0x10_0000_0000

  /** What an index entry for a block that ends with this key costs at most. */
  function IndexCost(lastKey: Bytes): nat {
    |lastKey| + 35
  }

  lemma IndexGrows(kvs: seq<KV>, sep: Bytes, handle: Handle, lastKey: Bytes)
    requires |sep| <= |lastKey| && HandleOk(handle)
    ensures Bulk(kvs + [KV(sep, EncodeHandle(handle))]) <= Bulk(kvs) + IndexCost(lastKey)
  {
    hide EncodeHandle; hide Bulk;
    HandleLength(handle);
    BulkAppend(kvs, KV(sep, EncodeHandle(handle)));
  }

  const TWO63: nat := 0x8000_0000_0000_0000

  lemma FilterSize(file: nat, block: nat)
    requires file < TWO63 && block <= TWO32 + 4 * (file / FB.BASE + 2) + 1
    ensures HandleOk(Handle(file, block)) && block + TRAILER <= 0x100_0000_0000_0000
  {
    assert file / 2048 <= 0x10_0000_0000_0000;
  }

  function Flushed(p: Parts, contents: Bytes): Parts {
    Parts(p.file + RawBlock(contents), p.blocks + [p.tail], p.handles + [Handle(|p.file|, |contents|)], p.seps, [])
  }

  ghost predicate Built(p: Parts, interval: nat, file: Bytes, lastKey: Bytes, pending: bool, pendingHandle: Handle) {
    && Good(p, interval) && p.file == file && LastIs(Entries(p), lastKey)
    && |p.seps| + (if pending then 1 else 0) == |p.blocks| == |p.handles|
    && (pending ==> p.tail == [] && pendingHandle == p.handles[|p.handles| - 1])
    && (!pending && p.blocks != [] ==> p.tail != [])
  }

  lemma NothingBuilt(p: Parts, interval: nat, file: Bytes, lastKey: Bytes, handle: Handle)
    requires interval > 0 && p.file == file == [] && p.blocks == [] && p.handles == [] && p.seps == [] && p.tail == []
    ensures Built(p, interval, file, lastKey, false, handle) && Entries(p) == [] && Recorded(p, [], 0) && IndexEntries(p.seps, p.handles) == []
  {
  }

  lemma BuiltIndex(p: Parts, interval: nat, file: Bytes, lastKey: Bytes, pending: bool, pendingHandle: Handle)
    requires Built(p, interval, file, lastKey, pending, pendingHandle)
    ensures |p.seps| + (if pending then 1 else 0) == |p.blocks| == |p.handles| && interval > 0 && p.file == file
    ensures pending ==> p.tail == [] && pendingHandle == p.handles[|p.handles| - 1] && Entries(p) != [] && |lastKey| >= 8
  {
    hide Stored; hide InternalLess;
    if pending {
      var n := |p.blocks| - 1;
      assert p.blocks[n] != [];
      assert Entries(p) == Flat(p.blocks[..n]) + p.blocks[n];
    }
  }

  lemma PendingOk(p: Parts, interval: nat, file: Bytes, lastKey: Bytes, handle: Handle)
    requires Built(p, interval, file, lastKey, true, handle)
    ensures HandleOk(handle)
  {
    hide Indexed; hide InKeyOrder; hide Small; hide ReadBlock; hide BlockBytes; hide HandleOk; hide Flat;
    assert StoredAt(p.file, p.blocks[|p.seps|], p.handles[|p.seps|], interval);
  }

  lemma AddPending(p: Parts, interval: nat, file: Bytes, lastKey: Bytes, handle: Handle, sep: Bytes, kv: KV)
    requires Built(p, interval, file, lastKey, true, handle) && |kv.key| >= 8 && |lastKey| >= 8 && InternalLess(lastKey, kv.key)
    requires |sep| >= 8 && !InternalLess(sep, lastKey) && InternalLess(sep, kv.key)
    requires sep == lastKey || (BytesLess(UserOf(lastKey), UserOf(sep)) && BytesLess(UserOf(sep), UserOf(kv.key)))
    ensures |p.seps| < |p.handles|
    ensures var q := p.(seps := p.seps + [sep], tail := [kv]);
            && Built(q, interval, file, kv.key, false, handle) && Entries(q) == Entries(p) + [kv]
            && IndexEntries(q.seps, q.handles) == IndexEntries(p.seps, p.handles) + [KV(sep, EncodeHandle(handle))]
  {
    var q := p.(seps := p.seps + [sep], tail := [kv]);
    hide Stored; hide Indexed; hide EncodeHandle; hide InternalLess; hide BytesLess; hide InKeyOrder;
    LastBlock(p, interval, lastKey);
    AppendOrder(Entries(p), kv, lastKey);
    assert Separates(sep, p.blocks[|p.seps|], [kv]);
    hide Separates; hide Flat;
    AddSeparator(p, interval, sep, kv);
    assert Entries(q) == Entries(p) + [kv];
  }

  lemma LastBlock(p: Parts, interval: nat, lastKey: Bytes)
    requires Good(p, interval) && p.blocks != [] && p.tail == [] && LastIs(Entries(p), lastKey)
    ensures p.blocks[|p.blocks| - 1] != [] && LastKey(p.blocks[|p.blocks| - 1]) == lastKey
  {
    hide Stored; hide InternalLess;
    var n := |p.blocks| - 1;
    assert p.blocks[n] != [];
    assert Entries(p) == Flat(p.blocks[..n]) + p.blocks[n];
  }

  lemma AddMore(p: Parts, interval: nat, file: Bytes, lastKey: Bytes, handle: Handle, kv: KV)
    requires Built(p, interval, file, lastKey, false, handle) && |kv.key| >= 8 && (Entries(p) != [] ==> InternalLess(lastKey, kv.key))
    ensures var q := p.(tail := p.tail + [kv]);
            Built(q, interval, file, kv.key, false, handle) && Entries(q) == Entries(p) + [kv]
  {
    hide Stored; hide Indexed; hide InternalLess; hide InKeyOrder; hide Flat;
    var q := p.(tail := p.tail + [kv]);
    AppendOrder(Entries(p), kv, lastKey);
    ExtendTail(p, interval, kv);
    assert Entries(q) == Entries(p) + [kv];
  }

  lemma FlushBuilt(p: Parts, interval: nat, file: Bytes, lastKey: Bytes, pending: bool, handle: Handle)
    requires Built(p, interval, file, lastKey, pending, handle) && interval > 0 && p.tail != [] && Small(p.tail, interval) && |file| < TWO64
    ensures !pending
    ensures var contents := BlockBytes(p.tail, interval);
            var q := Flushed(p, contents);
            && Built(q, interval, file + RawBlock(contents), lastKey, true, Handle(|file|, |contents|)) && Entries(q) == Entries(p)
            && |p.seps| <= |p.handles| && IndexEntries(q.seps, q.handles) == IndexEntries(p.seps, p.handles)
  {
    hide Stored; hide Indexed; hide InternalLess; hide InKeyOrder; hide Flat; hide BlockBytes; hide RawBlock; hide Small; hide EncodeHandle;
    BytesFit(p.tail, interval);
    FlushTail(p, interval);
    FlushFlat(p.blocks, p.tail);
  }

  /** How large a stored block can get. */
  lemma RawFits(kvs: seq<KV>, interval: nat)
    requires interval > 0 && Small(kvs, interval)
    ensures |BlockBytes(kvs, interval)| < |RawBlock(BlockBytes(kvs, interval))| <= 0x10_0000_0000
  {
    SmallOffsets(kvs, interval);
    RawLength(BlockBytes(kvs, interval));
    hide Fixed32; hide Data; hide RestartOffsets; hide RawBlock;
    RestartsLength(kvs, interval);
    FixedsLength(RestartOffsets(kvs, interval));
    Fixed32Length(|RestartOffsets(kvs, interval)|);
    hide Fixeds;
  }

  lemma RawLength(contents: Bytes)
    ensures |RawBlock(contents)| == |contents| + TRAILER
  {
  }

  lemma EmptySmall(interval: nat)
    requires interval > 0
    ensures Small([], interval)
  {
  }

  lemma ClosePending(p: Parts, interval: nat, file: Bytes, lastKey: Bytes, handle: Handle, sep: Bytes)
    requires Built(p, interval, file, lastKey, true, handle) && |sep| >= 8 && !InternalLess(sep, lastKey)
    ensures |p.seps| < |p.handles| && HandleOk(handle)
    ensures var q := p.(seps := p.seps + [sep]);
            && Good(q, interval) && |q.seps| == |q.blocks| && q.tail == [] && Entries(p) == Flat(q.blocks)
            && IndexEntries(q.seps, q.handles) == IndexEntries(p.seps, p.handles) + [KV(sep, EncodeHandle(handle))]
  {
    hide Indexed; hide EncodeHandle; hide InternalLess; hide BytesLess; hide InKeyOrder; hide HandleOk; hide Small; hide ReadBlock; hide BlockBytes;
    assert StoredAt(p.file, p.blocks[|p.seps|], p.handles[|p.seps|], interval);
    hide Stored;
    LastBlock(p, interval, lastKey);
    assert Separates(sep, p.blocks[|p.seps|], []);
    hide Separates; hide Flat;
    AddLastSeparator(p, interval, sep);
    assert Entries(p) == Flat(p.blocks);
  }

  lemma CloseNothing(p: Parts, interval: nat, file: Bytes, lastKey: Bytes, handle: Handle)
    requires Built(p, interval, file, lastKey, false, handle) && p.tail == []
    ensures Good(p, interval) && |p.seps| == |p.blocks| && Entries(p) == Flat(p.blocks)
  {
    hide Good; hide Flat;
  }

  lemma FinishTable(p: Parts, interval: nat, raw: Bytes, m: Bytes, entries: seq<KV>, i: Bytes)
    requires Good(p, interval) && interval > 0 && |p.seps| == |p.blocks| == |p.handles| && p.tail == [] && |p.file| < TWO63
    requires |raw| <= 0x100_0000_0000_0000 && Small(entries, interval) && m == BlockBytes(entries, interval)
    requires Small(IndexEntries(p.seps, p.handles), 1) && i == BlockBytes(IndexEntries(p.seps, p.handles), 1)
    ensures var m', i' := Handle(|p.file + raw|, |m|), Handle(|p.file + raw + RawBlock(m)|, |i|);
            && |Handles(m', i')| <= FOOTER - 8 && HandleOk(m')
            && IsTable(p.file + raw + RawBlock(m) + RawBlock(i) + Footer(m', i'), p, interval, m', i')
  {
    hide Small; hide BlockBytes; hide RawBlock; hide ReadBlock; hide Footer; hide DecodeFooter; hide Indexed; hide InKeyOrder; hide Stored; hide Handles; hide IndexEntries;
    RawFits(entries, interval);
    RawFits(IndexEntries(p.seps, p.handles), 1);
    var m', i' := Handle(|p.file + raw|, |m|), Handle(|p.file + raw + RawBlock(m)|, |i|);
    FooterRoundTrip(m', i');
    FooterLength(m', i');
    var front := p.file + raw + RawBlock(m) + RawBlock(i);
    var file := front + Footer(m', i');
    assert file[|file| - FOOTER..] == Footer(m', i');
    StoredRoundTrip(p.file + raw + RawBlock(m), i, Footer(m', i'));
    var more := raw + RawBlock(m) + RawBlock(i) + Footer(m', i');
    assert file == p.file + more;
    MoreFile(p.file, p.blocks, p.handles, interval, more);
  }

  /** Filter and metaindex block are found in the finished file. */
  lemma FilterKept(p: Parts, interval: nat, policy: Policy, raw: Bytes, m: Bytes, entries: seq<KV>, more: Bytes)
    requires interval > 0 && Small(entries, interval) && m == BlockBytes(entries, interval) && HandleOk(Handle(|p.file + raw|, |m|))
    requires exists block :: raw == RawBlock(block) && HandleOk(Handle(|p.file|, |block|)) && entries == [MetaEntry(policy.name, Handle(|p.file|, |block|))]
               && AllAnswered(p, block, policy.matches)
    ensures FilterStored(p.file + raw + RawBlock(m) + more, p, interval, Handle(|p.file + raw|, |m|), Some(policy))
  {
    hide RawBlock; hide Small; hide BlockBytes; hide ReadBlock; hide HandleOk; hide MetaEntry; hide FB.KeyMayMatch;
    var block :| raw == RawBlock(block) && HandleOk(Handle(|p.file|, |block|)) && entries == [MetaEntry(policy.name, Handle(|p.file|, |block|))]
                 && AllAnswered(p, block, policy.matches);
    var file := p.file + raw + RawBlock(m) + more;
    StoredRoundTrip(p.file + raw, m, more);
    StoredRoundTrip(p.file, block, RawBlock(m) + more);
    assert file == p.file + raw + (RawBlock(m) + more);
    assert FilterAt(file, p, interval, Handle(|p.file + raw|, |m|), policy, Handle(|p.file|, |block|), block);
  }

  lemma NoFilterKept(p: Parts, interval: nat, m: Bytes, more: Bytes)
    requires interval > 0 && Small([], interval) && m == BlockBytes([], interval) && HandleOk(Handle(|p.file|, |m|))
    ensures FilterStored(p.file + RawBlock(m) + more, p, interval, Handle(|p.file|, |m|), None)
  {
    hide RawBlock; hide Small; hide BlockBytes; hide ReadBlock; hide HandleOk;
    StoredRoundTrip(p.file, m, more);
  }

  lemma FooterLength(meta: Handle, index: Handle)
    requires |Handles(meta, index)| <= FOOTER - 8
    ensures |Footer(meta, index)| == FOOTER
  {
  }
}
