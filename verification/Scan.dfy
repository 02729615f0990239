/** Scanning the whole database: what the merged sources of a state show at a
    sequence number is the history's content at that number. */
module Scan {
  import opened Keys
  import opened History
  import opened Versions
  import opened Engine
  import opened EngineInv
  import opened Runs
  import DbIter

  /** all holds the entries of the memtables and of the files. */
  ghost predicate Everything(db: Db, all: Table) {
    && Sorted(all)
    && forall e :: e in all <==> e in db.mem || (db.imm.Some? && e in db.imm.value) || InVersion(db.disk.tables, db.version, e)
  }

  /** What an iterator keeps alive: the memtables and the version it was opened on. */
  datatype View = View(mem: Table, imm: Option<Table>, version: Version)

  function ViewOf(db: Db): View {
    View(db.mem, db.imm, db.version)
  }

  ghost predicate InView(tb: Tables, v: View, e: Entry) {
    e in v.mem || (v.imm.Some? && e in v.imm.value) || InVersion(tb, v.version, e)
  }

  /** all holds the view's entries and nothing else but what is newer than the
      sequence number, as a memtable still being written to may show. */
  ghost predicate Gathers(tb: Tables, v: View, at: nat, all: Table) {
    && Sorted(all)
    && (forall e :: InView(tb, v, e) ==> e in all)
    && forall e :: e in all ==> InView(tb, v, e) || e.key.seqno > at
  }

  lemma EverythingGathers(db: Db, all: Table, at: nat)
    requires Everything(db, all)
    ensures Gathers(db.disk.tables, ViewOf(db), at, all)
  {
    hide Sorted; hide InVersion;
  }

  function Found(r: Option<Entry>): Option<Value> {
    if r.None? then None else ValueOf(r.value)
  }

  /** Where each entry's write lies in the history. */
  lemma EntryWrites(s: State, e: Entry)
    requires Inv(s)
    ensures var h, n := Logged(s), |s.spec.hist| + Inserted(s.db.group);
            && n <= |h| && s.spec.flushed <= s.spec.switched <= n
            && (e in s.db.mem <==> IsWrite(h, s.spec.switched, n, e))
            && (s.db.imm.Some? ==> (e in s.db.imm.value <==> IsWrite(h, s.spec.flushed, s.spec.switched, e)))
            && (s.db.imm.None? ==> s.spec.flushed == s.spec.switched)
            && (InVersion(s.db.disk.tables, s.db.version, e) ==> IsWrite(h, 0, s.spec.flushed, e))
  {
    hide LogInv; hide ManifestInv; hide SnapInv; hide QueueInv; hide Sound; hide Covered; hide InVersion;
    var h, n := Logged(s), |s.spec.hist| + Inserted(s.db.group);
    TableOfEntries(h, s.spec.switched, n);
    TableOfEntries(h, s.spec.flushed, s.spec.switched);
    hide TableOf;
  }

  /** A write after `flushed` that is in everything is newest of its key. */
  lemma RecentFound(s: State, all: Table, user: Rank, at: nat)
    requires Inv(s) && Gathers(s.db.disk.tables, ViewOf(s.db), at, all) && at <= |s.spec.hist|
    requires LastWrite(Logged(s), user, at) > s.spec.flushed
    ensures Find(all, user, at) == Some(EntryAt(Logged(s), LastWrite(Logged(s), user, at)))
  {
    hide Inv; hide Find; hide Sorted; hide InVersion; hide LastWrite;
    var h, q := Logged(s), LastWrite(Logged(s), user, at);
    var n := EntryAt(h, q);
    EntryWrites(s, n);
    assert n in all;
    assert Visible(all, n, user, at);
    FindNewest(all, user, at);
    var r := Find(all, user, at).value;
    EntryWrites(s, r);
    assert r.key.seqno <= q;
  }

  lemma OldVisible(s: State, all: Table, user: Rank, at: nat, e: Entry)
    requires Inv(s) && Gathers(s.db.disk.tables, ViewOf(s.db), at, all) && at <= |s.spec.hist|
    requires LastWrite(Logged(s), user, at) <= s.spec.flushed
    ensures Visible(all, e, user, at) <==> Sees(s.db.disk.tables, s.db.version, user, at, e)
  {
    hide Inv; hide Sorted; hide InVersion; hide LastWrite;
    EntryWrites(s, e);
    var q := LastWrite(Logged(s), user, at);
    if Visible(all, e, user, at) {
      assert e.key.seqno <= q;
    }
  }

  lemma OldFound(s: State, all: Table, user: Rank, at: nat)
    requires Inv(s) && Gathers(s.db.disk.tables, ViewOf(s.db), at, all) && s.spec.low <= at <= |s.spec.hist|
    requires LastWrite(Logged(s), user, at) <= s.spec.flushed
    ensures Found(Find(all, user, at)) == SpecGet(s.spec.hist, user, at)
  {
    hide Inv; hide Find; hide InVersion; hide LastWrite; hide Gathers; hide Visible; hide Sees;
    assert Sorted(all) by { GathersSorted(s.db.disk.tables, ViewOf(s.db), at, all); }
    FindNewest(all, user, at);
    forall e
      ensures Visible(all, e, user, at) <==> Sees(s.db.disk.tables, s.db.version, user, at, e)
    {
      OldVisible(s, all, user, at, e);
    }
    hide Sorted;
    var r := Find(all, user, at);
    assert r.Some? ==> IsNewest(s.db.disk.tables, s.db.version, user, at, r.value);
    assert Reads(s.db.disk.tables, s.db.version, user, at, Found(r));
    hide Reads;
    FilesAnswer(s, user, at, Found(r));
  }

  lemma GathersSorted(tb: Tables, v: View, at: nat, all: Table)
    requires Gathers(tb, v, at, all)
    ensures Sorted(all)
  {
    hide InVersion; hide Sorted;
  }

  /** One search of the union answers what the history says. */
  lemma EverythingReadsSpec(s: State, all: Table, user: Rank, at: nat)
    requires Inv(s) && Gathers(s.db.disk.tables, ViewOf(s.db), at, all) && s.spec.low <= at <= |s.spec.hist|
    ensures Found(Find(all, user, at)) == SpecGet(s.spec.hist, user, at)
  {
    hide Inv; hide Find; hide Gathers;
    if LastWrite(Logged(s), user, at) > s.spec.flushed {
      RecentFound(s, all, user, at);
      SameForHist(s, user, at);
      assert Logged(s)[..|s.spec.hist|] == s.spec.hist;
    } else {
      hide LastWrite;
      OldFound(s, all, user, at);
    }
  }

  /** The pairs an iterator over everything visits are exactly the keys and
      values of the history at its sequence number, in key order. */
  lemma ScanIsSpec(s: State, all: Table, at: nat)
    requires Inv(s) && Gathers(s.db.disk.tables, ViewOf(s.db), at, all) && s.spec.low <= at <= |s.spec.hist|
    ensures forall user, value :: DbIter.Pair(user, value) in DbIter.Pairs(all, at, |all|) <==> SpecGet(s.spec.hist, user, at) == Some(value)
    ensures forall i, j :: 0 <= i < j < |DbIter.Pairs(all, at, |all|)| ==>
              DbIter.Pairs(all, at, |all|)[i].user < DbIter.Pairs(all, at, |all|)[j].user
  {
    GathersSorted(s.db.disk.tables, ViewOf(s.db), at, all);
    hide Inv; hide Gathers; hide Sorted; hide Find; hide SpecGet;
    DbIter.PairsSorted(all, at, |all|);
    forall user, value
      ensures DbIter.Pair(user, value) in DbIter.Pairs(all, at, |all|) <==> SpecGet(s.spec.hist, user, at) == Some(value)
    {
      hide DbIter.Pairs;
      DbIter.PairsAreReads(all, at, user, value);
      EverythingReadsSpec(s, all, user, at);
    }
  }
}
