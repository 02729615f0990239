/** Iterators keep the version they were opened on alive (Version::Ref,
    VersionSet::AddLiveFiles): what they show never changes, whatever is
    flushed, compacted or collected meanwhile. */
module Pins {
  import opened Keys
  import opened History
  import opened Versions
  import opened Engine
  import opened EngineInv
  import opened EngineSteps
  import opened EngineFiles
  import opened Recovery
  import opened Runs
  import opened Scan
  import DbIter

  /** An open iterator: its sequence number and what it refers to. */
  datatype Pin = Pin(at: nat, view: View)

  datatype Pinned = Pinned(s: State, pins: seq<Pin>)

  datatype Act = Do(step: Step) | Open(at: nat) | Close(i: nat)

  ghost predicate Refers(pins: seq<Pin>, n: nat) {
    exists i :: 0 <= i < |pins| && Live(pins[i].view.version, n)
  }

  /** A collection keeps the files of every version still referred to, and
      nothing is written over them. */
  ghost predicate Spares(pins: seq<Pin>, step: Step) {
    && (step.Collect? ==> forall n :: Refers(pins, n) ==> n in step.keep)
    && (step.Orphan? ==> !Refers(pins, step.number))
  }

  ghost predicate Possible(p: Pinned, act: Act) {
    match act
    case Do(step) => Can(p.s, step) && Spares(p.pins, step)
    case Open(at) => Readable(p.s.db, at)
    case Close(i) => i < |p.pins|
  }

  ghost function After(p: Pinned, act: Act): Pinned
    requires Possible(p, act)
  {
    match act
    case Do(step) => Pinned(Next(p.s, step), if step.Crash? then [] else p.pins)
    case Open(at) => p.(pins := p.pins + [Pin(at, ViewOf(p.s.db))])
    case Close(i) => p.(pins := p.pins[..i] + p.pins[i + 1..])
  }

  ghost predicate PinnedRun(run: seq<Pinned>, acts: seq<Act>) {
    && |run| == |acts| + 1 && run[0] == Pinned(Init(), [])
    && forall i :: 0 <= i < |acts| ==> Possible(run[i], acts[i]) && run[i + 1] == After(run[i], acts[i])
  }

  /** Whatever the iterator merges from its view, the pairs are the history's at
      its sequence number. */
  ghost predicate Shows(tb: Tables, h: Hist, pin: Pin)
    requires pin.at <= |h|
  {
    forall all, user :: Gathers(tb, pin.view, pin.at, all) ==> Found(Find(all, user, pin.at)) == SpecGet(h, user, pin.at)
  }

  ghost predicate PinInv(s: State, pin: Pin) {
    && pin.at <= |s.spec.hist|
    && (forall n: nat :: Live(pin.view.version, n) ==> n < s.db.nextFile && n in s.db.disk.tables)
    && Shows(s.db.disk.tables, s.spec.hist, pin)
  }

  ghost predicate PinnedInv(p: Pinned) {
    Inv(p.s) && forall i :: 0 <= i < |p.pins| ==> PinInv(p.s, p.pins[i])
  }

  // ----- a pin is good when it is taken

  lemma OpenedInv(s: State, at: nat)
    requires Inv(s) && Readable(s.db, at)
    ensures PinInv(s, Pin(at, ViewOf(s.db)))
  {
    hide Inv; hide Gathers; hide Find; hide SpecGet;
    var pin := Pin(at, ViewOf(s.db));
    ReadableInRange(s, at);
    forall n: nat | Live(s.db.version, n)
      ensures n < s.db.nextFile && n in s.db.disk.tables
    {
      var l, f :| 0 <= l < |s.db.version| && f in s.db.version[l] && f.number == n;
      LiveTables(s, l, f);
      LiveOlder(s, l, f);
    }
    hide Live;
    forall all, user | Gathers(s.db.disk.tables, pin.view, at, all)
      ensures Found(Find(all, user, at)) == SpecGet(s.spec.hist, user, at)
    {
      EverythingReadsSpec(s, all, user, at);
    }
  }

  // ----- and stays good

  /** The tables of these numbers are as they were. */
  ghost predicate Untouched(tb: Tables, tb': Tables, v: Version) {
    forall n :: Live(v, n) && n in tb ==> n in tb' && tb'[n] == tb[n]
  }

  lemma SameView(tb: Tables, tb': Tables, v: View, e: Entry)
    requires Untouched(tb, tb', v.version) && forall n :: Live(v.version, n) ==> n in tb
    ensures InView(tb', v, e) <==> InView(tb, v, e)
  {
    forall l | 0 <= l < |v.version|
      ensures InLevel(tb', v.version[l], e) <==> InLevel(tb, v.version[l], e)
    {
      forall f | f in v.version[l]
        ensures InFile(tb', f, e) <==> InFile(tb, f, e)
      {
        assert Live(v.version, f.number);
      }
    }
    hide InLevel; hide Live;
  }

  lemma PinStays(s: State, t: State, pin: Pin)
    requires PinInv(s, pin) && s.spec.hist <= t.spec.hist && s.db.nextFile <= t.db.nextFile
    requires Untouched(s.db.disk.tables, t.db.disk.tables, pin.view.version)
    ensures PinInv(t, pin)
  {
    var tb, tb' := s.db.disk.tables, t.db.disk.tables;
    hide Live; hide Find; hide SpecGet; hide InView; hide Sorted;
    forall all, user | Gathers(tb', pin.view, pin.at, all)
      ensures Found(Find(all, user, pin.at)) == SpecGet(t.spec.hist, user, pin.at)
    {
      forall e
        ensures InView(tb', pin.view, e) <==> InView(tb, pin.view, e)
      {
        SameView(tb, tb', pin.view, e);
      }
      assert Gathers(tb, pin.view, pin.at, all);
      SpecGetStable(s.spec.hist, t.spec.hist, user, pin.at);
    }
  }

  /** What a step that is no crash does to tables and numbers. */
  lemma TablesAfter(s: State, step: Step)
    requires Can(s, step) && !step.Crash?
    ensures var t := Next(s, step);
            && s.db.nextFile <= t.db.nextFile && s.spec.hist <= t.spec.hist
            && forall n :: n < s.db.nextFile && n in s.db.disk.tables && (step.Collect? ==> n in step.keep) && (step.Orphan? ==> n != step.number) ==>
                 n in t.db.disk.tables && t.db.disk.tables[n] == s.db.disk.tables[n]
  {
  }

  lemma StepStays(s: State, step: Step, pins: seq<Pin>, i: nat)
    requires Can(s, step) && !step.Crash? && Spares(pins, step) && i < |pins| && PinInv(s, pins[i])
    ensures PinInv(Next(s, step), pins[i])
  {
    hide Shows;
    TablesAfter(s, step);
    hide Shaped; hide Enabled; hide Next;
    var t, v := Next(s, step), pins[i].view.version;
    forall n | Live(v, n) && n in s.db.disk.tables
      ensures n in t.db.disk.tables && t.db.disk.tables[n] == s.db.disk.tables[n]
    {
      assert Refers(pins, n);
    }
    hide Live; hide PinInv; hide Spares;
    assert Untouched(s.db.disk.tables, t.db.disk.tables, v);
    PinStays(s, t, pins[i]);
  }

  lemma ActKeeps(p: Pinned, act: Act)
    requires PinnedInv(p) && Possible(p, act)
    ensures PinnedInv(After(p, act))
  {
    hide Inv; hide PinInv; hide Spares;
    match act {
      case Do(step) =>
        StepKeeps(p.s, step);
        forall i | 0 <= i < |p.pins| && !step.Crash?
          ensures PinInv(Next(p.s, step), p.pins[i])
        {
          StepStays(p.s, step, p.pins, i);
        }
      case Open(at) =>
        OpenedInv(p.s, at);
      case Close(i) =>
    }
  }

  /** In every state of every run with open iterators each of them is good. */
  lemma {:induction false} RunKeeps(run: seq<Pinned>, acts: seq<Act>, i: nat)
    requires PinnedRun(run, acts) && i < |run|
    ensures PinnedInv(run[i])
  {
    hide PinInv; hide Inv; hide Init; hide Possible; hide After;
    if i == 0 {
      InitInv();
    } else {
      RunKeeps(run, acts, i - 1);
      hide PinnedInv;
      ActKeeps(run[i - 1], acts[i - 1]);
    }
  }

  /** Over every run an open iterator shows exactly the history's content at its
      sequence number, in key order, as long as it is open. */
  lemma PinnedScan(run: seq<Pinned>, acts: seq<Act>, i: nat, k: nat, all: Table)
    requires PinnedRun(run, acts) && i < |run| && k < |run[i].pins|
    requires Gathers(run[i].s.db.disk.tables, run[i].pins[k].view, run[i].pins[k].at, all)
    ensures var at, h := run[i].pins[k].at, run[i].s.spec.hist;
            && at <= |h|
            && (forall user, value :: DbIter.Pair(user, value) in DbIter.Pairs(all, at, |all|) <==> SpecGet(h, user, at) == Some(value))
            && forall a, b :: 0 <= a < b < |DbIter.Pairs(all, at, |all|)| ==>
                 DbIter.Pairs(all, at, |all|)[a].user < DbIter.Pairs(all, at, |all|)[b].user
  {
    RunKeeps(run, acts, i);
    var s, pin := run[i].s, run[i].pins[k];
    hide PinnedRun; hide Inv;
    assert PinInv(s, pin);
    hide PinnedInv;
    GathersSorted(s.db.disk.tables, pin.view, pin.at, all);
    hide Find; hide SpecGet; hide Sorted; hide Gathers; hide Live;
    DbIter.PairsSorted(all, pin.at, |all|);
    forall user, value
      ensures DbIter.Pair(user, value) in DbIter.Pairs(all, pin.at, |all|) <==> SpecGet(s.spec.hist, user, pin.at) == Some(value)
    {
      hide DbIter.Pairs;
      DbIter.PairsAreReads(all, pin.at, user, value);
      assert Found(Find(all, user, pin.at)) == SpecGet(s.spec.hist, user, pin.at);
    }
  }
}
