/** The records of any file, damaged or not, and where its bytes go
    (db/log_reader.cc Reader::ReadRecord). */
module LogRecords {
  import opened Keys
  import opened Coding
  import opened Log
  import opened LogReader
  import opened LogCrash
  import opened LogSound

  // ----- the physical records of a file

  /** One physical read that was not the end, and the bytes it reported. */
  datatype Event = Event(p: Physical, dropped: nat)

  function Sum(ns: seq<nat>): nat {
    if ns == [] then 0 else Sum(ns[..|ns| - 1]) + ns[|ns| - 1]
  }

  /** The read that follows, and what it reports by itself. */
  function Read(file: Bytes, c: Cursor): (Cursor, Physical)
    requires c.next <= |file|
  {
    ReadPhysical(file, c.(drops := []))
  }

  lemma ReadIs(file: Bytes, c: Cursor)
    requires c.next <= |file|
    ensures var (c', p) := Read(file, c); ReadPhysical(file, c) == (c'.(drops := c.drops + c'.drops), p)
  {
    hide ChecksumOk; hide LengthOf;
    assert c.drops + [] == c.drops;
    assert forall n: nat :: [] + [n] == [n];
  }

  lemma SumJoin(a: seq<nat>, b: seq<nat>)
    ensures Sum(a + b) == Sum(a) + Sum(b)
  {
    if b == [] {
      assert a + b == a;
    } else {
      var n := |b| - 1;
      assert (a + b)[..|a + b| - 1] == a + b[..n];
      SumJoin(a, b[..n]);
    }
  }

  function Trace(file: Bytes, c: Cursor): seq<Event>
    requires c.next <= |file|
    decreases Left(file, c)
  {
    ReadProgress(file, c.(drops := []));
    var (c', p) := Read(file, c);
    if p.Eof? then [] else [Event(p, Sum(c'.drops))] + Trace(file, c')
  }

  lemma TraceSame(file: Bytes, a: Cursor, b: Cursor)
    requires a.next <= |file| && b == a.(drops := b.drops)
    ensures Trace(file, a) == Trace(file, b)
  {
  }

  // ----- the records they make up

  predicate IsPart(e: Event, kind: byte) {
    e.p.Fragment? && e.p.kind == kind
  }

  /** A record begun with scratch ends in the events that follow, without a gap. */
  function Ending(tr: seq<Event>, scratch: Bytes): seq<Bytes>
    decreases |tr|
  {
    if tr == [] then []
    else if IsPart(tr[0], 3) then Ending(tr[1..], scratch + tr[0].p.data)
    else if IsPart(tr[0], 4) then [scratch + tr[0].p.data]
    else []
  }

  /** The record that begins with the first event, if one does and it ends. */
  function Beginning(tr: seq<Event>): seq<Bytes>
    requires tr != []
  {
    if IsPart(tr[0], 1) then [tr[0].p.data]
    else if IsPart(tr[0], 2) then Ending(tr[1..], tr[0].p.data)
    else []
  }

  /** Event by event, the record that begins there. */
  function RecordsOf(tr: seq<Event>): seq<Bytes>
    decreases |tr|
  {
    if tr == [] then [] else Beginning(tr) + RecordsOf(tr[1..])
  }

  /** The size of a record that is begun and not ended when the events end. */
  function Open(tr: seq<Event>, open: Option<nat>): Option<nat>
    decreases |tr|
  {
    if tr == [] then open
    else if IsPart(tr[0], 2) then Open(tr[1..], Some(|tr[0].p.data|))
    else if IsPart(tr[0], 3) && open.Some? then Open(tr[1..], Some(open.value + |tr[0].p.data|))
    else Open(tr[1..], None)
  }

  /** Payload bytes found and bytes reported as unreadable. */
  function Weight(tr: seq<Event>): nat
    decreases |tr|
  {
    if tr == [] then 0
    else (if tr[0].p.Fragment? then |tr[0].p.data| else 0) + tr[0].dropped + Weight(tr[1..])
  }

  function Unreadable(tr: seq<Event>): nat
    decreases |tr|
  {
    if tr == [] then 0 else tr[0].dropped + Unreadable(tr[1..])
  }

  function Size(o: Option<nat>): nat {
    if o.Some? then o.value else 0
  }

  function OpenNow(inside: bool, scratch: Bytes): Option<nat> {
    if inside then Some(|scratch|) else None
  }

  /** What one call returns, and where the bytes before it went. */
  ghost predicate Accounted(file: Bytes, c: Cursor, inside: bool, scratch: Bytes, c': Cursor, r: Option<Bytes>)
    requires c.next <= |file|
  {
    var tr := Trace(file, c);
    var expected := (if inside then Ending(tr, scratch) else []) + RecordsOf(tr);
    var before := (if inside then |scratch| else 0) + Weight(tr) + Sum(c.drops);
    match r
    case None =>
      && expected == [] && before == Sum(c'.drops) + Size(Open(tr, OpenNow(inside, scratch)))
      && Unreadable(tr) + Sum(c.drops) <= Sum(c'.drops)
    case Some(record) =>
      && c'.next <= |file| && expected == [record] + RecordsOf(Trace(file, c'))
      && before == |record| + Weight(Trace(file, c')) + Sum(c'.drops)
      && Open(tr, OpenNow(inside, scratch)) == Open(Trace(file, c'), None)
      && Unreadable(tr) + Sum(c.drops) <= Unreadable(Trace(file, c')) + Sum(c'.drops)
  }

  // ----- one event moves the reader on

  /** What an event does to the record being put together: state before and
      after, and the bytes reported for it. */
  ghost predicate Moves(e: Event, inside: bool, scratch: Bytes, inside': bool, scratch': Bytes, reported: nat) {
    match e.p
    case Eof => false
    case Bad => !inside' && reported == (if inside then |scratch| else 0)
    case Fragment(kind, data) =>
      if kind == 2 then inside' && scratch' == data && reported == (if inside then |scratch| else 0)
      else if kind == 3 && inside then inside' && scratch' == scratch + data && reported == 0
      else kind != 1 && !(kind == 4 && inside) && !inside' && reported == |data| + if inside then |scratch| else 0
  }

  lemma MoveRecords(e: Event, t: seq<Event>, inside: bool, scratch: Bytes, inside': bool, scratch': Bytes, reported: nat)
    requires Moves(e, inside, scratch, inside', scratch', reported)
    ensures (if inside then Ending([e] + t, scratch) else []) + RecordsOf([e] + t) == (if inside' then Ending(t, scratch') else []) + RecordsOf(t)
  {
    assert ([e] + t)[1..] == t && ([e] + t)[0] == e;
    var begins := Beginning([e] + t);
    var ends := if inside then Ending([e] + t, scratch) else [];
    assert RecordsOf([e] + t) == begins + RecordsOf(t);
    assert ends == if inside && inside' && IsPart(e, 3) then Ending(t, scratch') else [];
    assert begins == if IsPart(e, 2) then Ending(t, scratch') else [];
    hide RecordsOf; hide Ending; hide Beginning; hide Moves;
    assert ends + (begins + RecordsOf(t)) == (ends + begins) + RecordsOf(t);
    assert ends + begins == if IsPart(e, 2) then begins else ends;
    assert ends + begins == (if inside' then Ending(t, scratch') else []) by { WhenOpen(e, inside, scratch, inside', scratch', reported); }
  }

  lemma WhenOpen(e: Event, inside: bool, scratch: Bytes, inside': bool, scratch': Bytes, reported: nat)
    requires Moves(e, inside, scratch, inside', scratch', reported)
    ensures inside' <==> IsPart(e, 2) || (inside && IsPart(e, 3))
  {
  }

  lemma MoveSizes(e: Event, t: seq<Event>, inside: bool, scratch: Bytes, inside': bool, scratch': Bytes, reported: nat)
    requires Moves(e, inside, scratch, inside', scratch', reported)
    ensures Open([e] + t, OpenNow(inside, scratch)) == Open(t, OpenNow(inside', scratch'))
    ensures (if inside then |scratch| else 0) + Weight([e] + t) == (if inside' then |scratch'| else 0) + Weight(t) + e.dropped + reported
    ensures Unreadable([e] + t) == e.dropped + Unreadable(t)
  {
    assert ([e] + t)[1..] == t && ([e] + t)[0] == e;
  }

  lemma MoveAccounts(file: Bytes, c: Cursor, inside: bool, scratch: Bytes, c1: Cursor, inside': bool, scratch': Bytes,
                     reported: nat, e: Event, c': Cursor, r: Option<Bytes>)
    requires c.next <= |file| && c1.next <= |file| && Trace(file, c) == [e] + Trace(file, c1)
    requires Moves(e, inside, scratch, inside', scratch', reported) && Sum(c1.drops) == Sum(c.drops) + e.dropped + reported
    requires Accounted(file, c1, inside', scratch', c', r)
    ensures Accounted(file, c, inside, scratch, c', r)
  {
    hide Trace; hide Moves; hide RecordsOf; hide Ending; hide Weight; hide Unreadable; hide Open; hide Sum;
    MoveRecords(e, Trace(file, c1), inside, scratch, inside', scratch', reported);
    MoveSizes(e, Trace(file, c1), inside, scratch, inside', scratch', reported);
  }

  /** The last part of a record is returned with the parts before it. */
  lemma LastAccounts(file: Bytes, c: Cursor, inside: bool, scratch: Bytes, c': Cursor, e: Event, record: Bytes, reported: nat)
    requires c.next <= |file| && c'.next <= |file| && Trace(file, c) == [e] + Trace(file, c') && e.p.Fragment?
    requires if e.p.kind == 1 then record == e.p.data && reported == (if inside then |scratch| else 0)
             else e.p.kind == 4 && inside && record == scratch + e.p.data && reported == 0
    requires Sum(c'.drops) == Sum(c.drops) + e.dropped + reported
    ensures Accounted(file, c, inside, scratch, c', Some(record))
  {
    hide Trace; hide Sum;
    var tr := Trace(file, c);
    assert tr[0] == e && tr[1..] == Trace(file, c');
  }

  lemma TraceNext(file: Bytes, c: Cursor)
    requires c.next <= |file|
    ensures var (c', p) := ReadPhysical(file, c);
            && c'.next <= |file| && c.drops <= c'.drops
            && (p.Eof? ==> Trace(file, c) == [] && Sum(c'.drops) == Sum(c.drops))
            && (!p.Eof? ==>
                  && Left(file, c') < Left(file, c)
                  && exists e: Event :: e.p == p && Trace(file, c) == [e] + Trace(file, c') && Sum(c'.drops) == Sum(c.drops) + e.dropped)
  {
    hide ReadPhysical;
    var (d, q) := Read(file, c);
    ReadIs(file, c);
    ReadProgress(file, c);
    SumJoin(c.drops, d.drops);
    var c' := d.(drops := c.drops + d.drops);
    if q.Eof? {
      EofDrops(file, c);
      assert c.drops + [] == c.drops;
    } else {
      TraceSame(file, d, c');
      assert Trace(file, c) == [Event(q, Sum(d.drops))] + Trace(file, c');
      assert Event(q, Sum(d.drops)).p == q;
    }
  }

  lemma EofDrops(file: Bytes, c: Cursor)
    requires c.next <= |file|
    ensures Read(file, c).1.Eof? ==> Read(file, c).0.drops == []
  {
    hide ChecksumOk; hide LengthOf;
  }

  lemma Reported(c: Cursor, n: nat)
    ensures Sum(Report(c, n).drops) == Sum(c.drops) + n
  {
  }

  lemma PartialDrops(c: Cursor, inside: bool, scratch: Bytes)
    ensures Sum(Partial(c, inside, scratch).drops) == Sum(c.drops) + if inside then |scratch| else 0
    ensures Partial(c, inside, scratch) == c.(drops := Partial(c, inside, scratch).drops)
  {
    Reported(c, |scratch|);
  }

  lemma {:induction false} CallAccounts(file: Bytes, c: Cursor, inside: bool, scratch: Bytes)
    requires c.next <= |file|
    ensures var (c', r) := ReadFrom(file, c, inside, scratch); Accounted(file, c, inside, scratch, c', r)
    decreases Left(file, c), 1
  {
    hide ReadPhysical; hide Trace; hide Accounted; hide Sum;
    var (c', p) := ReadPhysical(file, c);
    TraceNext(file, c);
    if p.Eof? {
      EndAccounts(file, c, inside, scratch, c');
    } else {
      var e: Event :| e.p == p && Trace(file, c) == [e] + Trace(file, c') && Sum(c'.drops) == Sum(c.drops) + e.dropped;
      var (o, r) := ReadFrom(file, c, inside, scratch);
      var left := if inside then |scratch| else 0;
      if p.Bad? {
        if inside {
          Reported(c', |scratch|);
          Onward(file, c, inside, scratch, Report(c', |scratch|), false, [], |scratch|, e, c');
        } else {
          Onward(file, c, inside, scratch, c', false, scratch, 0, e, c');
        }
      } else if p.kind == FULL || (p.kind == LAST && inside) {
        PartialDrops(c', inside, scratch);
        TraceSame(file, c', Partial(c', inside, scratch));
        if p.kind == FULL {
          LastAccounts(file, c, inside, scratch, Partial(c', inside, scratch), e, p.data, left);
        } else {
          LastAccounts(file, c, inside, scratch, c', e, scratch + p.data, 0);
        }
      } else if p.kind == FIRST {
        PartialDrops(c', inside, scratch);
        Onward(file, c, inside, scratch, Partial(c', inside, scratch), true, p.data, left, e, c');
      } else if p.kind == MIDDLE && inside {
        Onward(file, c, inside, scratch, c', true, scratch + p.data, 0, e, c');
      } else if p.kind == MIDDLE || p.kind == LAST {
        Reported(c', |p.data|);
        Onward(file, c, inside, scratch, Report(c', |p.data|), false, scratch, |p.data|, e, c');
      } else {
        Reported(c', |p.data| + left);
        Onward(file, c, inside, scratch, Report(c', |p.data| + left), false, [], |p.data| + left, e, c');
      }
    }
  }

  lemma {:induction false} Onward(file: Bytes, c: Cursor, inside: bool, scratch: Bytes, c1: Cursor, inside': bool, scratch': Bytes,
                                  reported: nat, e: Event, c': Cursor)
    requires c.next <= |file| && c'.next <= |file| && c1 == c'.(drops := c1.drops) && Left(file, c') < Left(file, c)
    requires Trace(file, c) == [e] + Trace(file, c') && Sum(c'.drops) == Sum(c.drops) + e.dropped && Sum(c1.drops) == Sum(c'.drops) + reported
    requires Moves(e, inside, scratch, inside', scratch', reported)
    ensures var (o, r) := ReadFrom(file, c1, inside', scratch'); Accounted(file, c, inside, scratch, o, r)
    decreases Left(file, c), 0
  {
    hide ReadFrom; hide Trace; hide Accounted; hide Sum; hide Moves;
    TraceSame(file, c', c1);
    CallAccounts(file, c1, inside', scratch');
    var (o, r) := ReadFrom(file, c1, inside', scratch');
    MoveAccounts(file, c, inside, scratch, c1, inside', scratch', reported, e, o, r);
  }

  lemma EndAccounts(file: Bytes, c: Cursor, inside: bool, scratch: Bytes, c': Cursor)
    requires c.next <= |file| && Trace(file, c) == [] && Sum(c'.drops) == Sum(c.drops)
    ensures Accounted(file, c, inside, scratch, c', None)
  {
    hide Trace; hide Sum;
  }

  // ----- the whole file

  function Sizes(records: seq<Bytes>): nat {
    if records == [] then 0 else |records[0]| + Sizes(records[1..])
  }

  lemma {:induction false} AllAccounts(file: Bytes, c: Cursor)
    requires c.next <= |file|
    ensures var (rs, c') := ReadAll(file, c);
            var tr := Trace(file, c);
            && rs == RecordsOf(tr)
            && Weight(tr) + Sum(c.drops) == Sizes(rs) + Sum(c'.drops) + Size(Open(tr, None))
            && Unreadable(tr) + Sum(c.drops) <= Sum(c'.drops)
    decreases Left(file, c)
  {
    hide ReadFrom; hide Trace; hide Sum; hide RecordsOf; hide Weight; hide Unreadable; hide Open;
    RecordProgress(file, c, false, []);
    CallAccounts(file, c, false, []);
    var (c', r) := ReadFrom(file, c, false, []);
    if r.Some? {
      AllAccounts(file, c');
      var rest := ReadAll(file, c').0;
      assert ([r.value] + rest)[1..] == rest;
    }
  }

  /** On every file the records returned are, in order, exactly those whose
      parts stand one right after the other among the physical records.  Every
      payload byte is in a record, or reported, or in the record that is still
      open when the file ends; and what could not be read is reported. */
  lemma RecordsAreGroups(file: Bytes)
    ensures var (rs, c) := ReadAll(file, START);
            var tr := Trace(file, START);
            && rs == RecordsOf(tr)
            && Weight(tr) == Sizes(rs) + Sum(c.drops) + Size(Open(tr, None))
            && Unreadable(tr) <= Sum(c.drops)
  {
    hide ReadAll; hide Trace; hide RecordsOf; hide Weight; hide Unreadable; hide Open;
    AllAccounts(file, START);
  }

  // ----- the physical records are what stands in the file

  /** The events are what the bytes of the file call for from pos on. */
  ghost predicate Follow(file: Bytes, pos: nat, tr: seq<Event>)
    decreases |tr|
  {
    var at := pos + Pad(pos);
    if tr == [] then at > |file| || exists used :: Ends(file, at, used)
    else at <= |file| && exists ds, used :: Stands(file, at, tr[0], ds, used) && Follow(file, at + used, tr[1..])
  }

  ghost predicate Ends(file: Bytes, at: nat, used: nat)
    requires at <= |file|
  {
    Gives(Rest(file, at), at + Leftover(at) > |file|, Eof, [], used)
  }

  ghost predicate Stands(file: Bytes, at: nat, e: Event, ds: seq<nat>, used: nat)
    requires at <= |file|
  {
    Gives(Rest(file, at), at + Leftover(at) > |file|, e.p, ds, used) && Sum(ds) == e.dropped
  }

  lemma SpotIs(file: Bytes, c: Cursor, pos: nat)
    requires Ready(file, c, pos) && c.drops == []
    ensures pos <= Spot(c, pos) <= |file|
    ensures Spot(c, pos) == pos + Pad(pos) || (pos + Pad(pos) > |file| && ReadPhysical(file, c).1.Eof?)
  {
    hide Parse;
    ReadyLeftover(file, c, pos);
    hide Leftover;
  }

  lemma FollowStep(file: Bytes, pos: nat, e: Event, ds: seq<nat>, used: nat, tr: seq<Event>)
    requires pos + Pad(pos) <= |file| && Stands(file, pos + Pad(pos), e, ds, used) && Follow(file, pos + Pad(pos) + used, tr)
    ensures Follow(file, pos, [e] + tr)
  {
    hide Stands; hide Pad;
    assert ([e] + tr)[0] == e && ([e] + tr)[1..] == tr;
  }

  lemma FollowEnd(file: Bytes, pos: nat, used: nat)
    requires pos + Pad(pos) <= |file| ==> Ends(file, pos + Pad(pos), used)
    ensures Follow(file, pos, [])
  {
    hide Ends; hide Pad;
  }

  lemma TraceStep(file: Bytes, c: Cursor)
    requires c.next <= |file|
    ensures var (c', p) := Read(file, c);
            && c'.next <= |file|
            && (p.Eof? ==> Trace(file, c) == [] && c'.drops == [])
            && (!p.Eof? ==> Left(file, c') < Left(file, c) && Trace(file, c) == [Event(p, Sum(c'.drops))] + Trace(file, c'))
  {
    hide ReadPhysical;
    ReadProgress(file, c.(drops := []));
    EofDrops(file, c);
  }

  lemma ReadyDrops(file: Bytes, c: Cursor, pos: nat)
    requires Ready(file, c, pos)
    ensures Ready(file, c.(drops := []), pos)
  {
  }

  lemma ReadStands(file: Bytes, c: Cursor, pos: nat) returns (used: nat)
    requires Ready(file, c, pos) && c.next <= |file|
    ensures var (c', p) := Read(file, c);
            var at := pos + Pad(pos);
            if at > |file| then p.Eof?
            else
              && Ready(file, c', at + used)
              && Gives(Rest(file, at), at + Leftover(at) > |file|, p, c'.drops, used)
  {
    hide Ready; hide ReadPhysical; hide Rest; hide Leftover; hide Gives; hide Pad; hide Spot;
    var d := c.(drops := []);
    ReadyDrops(file, c, pos);
    SpotIs(file, d, pos);
    PhysicalSound(file, d, pos);
    var c' := Read(file, c).0;
    used := c'.next - |c'.buffer| - Spot(d, pos);
    assert c'.drops[0..] == c'.drops;
  }

  lemma {:induction false} TraceFollows(file: Bytes, c: Cursor, pos: nat)
    requires Ready(file, c, pos) && c.next <= |file|
    ensures Follow(file, pos, Trace(file, c))
    decreases Left(file, c)
  {
    hide Ready; hide Read; hide Rest; hide Leftover; hide Gives; hide Pad; hide Sum; hide Trace; hide Follow;
    var used := ReadStands(file, c, pos);
    TraceStep(file, c);
    var (c', p) := Read(file, c);
    if p.Eof? {
      FollowEnd(file, pos, used);
    } else {
      TraceFollows(file, c', pos + Pad(pos) + used);
      FollowStep(file, pos, Event(p, Sum(c'.drops)), c'.drops, used, Trace(file, c'));
    }
  }

  /** Reading a file from its start meets exactly what stands in it. */
  lemma FileFollows(file: Bytes)
    ensures Follow(file, 0, Trace(file, START))
  {
    StartReady(file);
    hide Ready; hide Follow; hide Trace;
    TraceFollows(file, START, 0);
  }

  // ----- every record returned was written

  function Concat(parts: seq<Bytes>): Bytes {
    if parts == [] then [] else parts[0] + Concat(parts[1..])
  }

  /** The parts stand one right after the other from pos on, as a writer puts
      them: type 1 for the only part, else 2, 3, ..., 3, 4. */
  ghost predicate Chain(file: Bytes, pos: nat, parts: seq<Bytes>, begin: bool)
    decreases |parts|
  {
    && parts != []
    && var at := pos + Pad(pos);
       && at <= |file|
       && Written(Rest(file, at), if |parts| == 1 then (if begin then 1 else 4) else if begin then 2 else 3, parts[0])
       && (|parts| > 1 ==> Chain(file, at + HEADER + |parts[0]|, parts[1..], false))
  }

  lemma FragmentWritten(rest: Bytes, cut: bool, kind: byte, data: Bytes, ds: seq<nat>, used: nat)
    requires Gives(rest, cut, Fragment(kind, data), ds, used)
    ensures Written(rest, kind, data) && used == HEADER + |data|
  {
    hide Damaged; hide Complete; hide Written; hide LengthOf;
  }

  lemma PartWritten(file: Bytes, pos: nat, tr: seq<Event>) returns (next: nat)
    requires tr != [] && tr[0].p.Fragment? && Follow(file, pos, tr)
    ensures var at := pos + Pad(pos);
            at <= |file| && Written(Rest(file, at), tr[0].p.kind, tr[0].p.data) && next == at + HEADER + |tr[0].p.data| && Follow(file, next, tr[1..])
  {
    hide Gives; hide Written; hide Rest; hide Leftover; hide Pad;
    var at := pos + Pad(pos);
    var ds: seq<nat>, used: nat :| Stands(file, at, tr[0], ds, used) && Follow(file, at + used, tr[1..]);
    FragmentWritten(Rest(file, at), at + Leftover(at) > |file|, tr[0].p.kind, tr[0].p.data, ds, used);
    next := at + used;
  }

  lemma {:induction false} EndingWritten(file: Bytes, pos: nat, tr: seq<Event>, scratch: Bytes) returns (parts: seq<Bytes>)
    requires Follow(file, pos, tr) && Ending(tr, scratch) != []
    ensures Chain(file, pos, parts, false) && Ending(tr, scratch) == [scratch + Concat(parts)]
    decreases |tr|
  {
    hide Follow; hide Written; hide Rest; hide Pad;
    var next := PartWritten(file, pos, tr);
    var data := tr[0].p.data;
    if IsPart(tr[0], 3) {
      var more := EndingWritten(file, next, tr[1..], scratch + data);
      parts := [data] + more;
      assert parts[1..] == more;
      assert scratch + (data + Concat(more)) == scratch + data + Concat(more);
    } else {
      parts := [data];
      assert Concat(parts[1..]) == [] && data + [] == data;
    }
  }

  lemma BeginningWritten(file: Bytes, pos: nat, tr: seq<Event>, record: Bytes) returns (parts: seq<Bytes>)
    requires tr != [] && Follow(file, pos, tr) && record in Beginning(tr)
    ensures Chain(file, pos, parts, true) && record == Concat(parts)
  {
    hide Follow; hide Written; hide Rest; hide Pad;
    var next := PartWritten(file, pos, tr);
    var data := tr[0].p.data;
    if IsPart(tr[0], 1) {
      parts := [data];
      assert Concat(parts[1..]) == [] && data + [] == data;
    } else {
      var more := EndingWritten(file, next, tr[1..], data);
      parts := [data] + more;
      assert parts[1..] == more;
      hide Ending;
    }
  }

  lemma {:induction false} RecordWritten(file: Bytes, pos: nat, tr: seq<Event>, record: Bytes) returns (at: nat, parts: seq<Bytes>)
    requires Follow(file, pos, tr) && record in RecordsOf(tr)
    ensures Chain(file, at, parts, true) && record == Concat(parts)
    decreases |tr|
  {
    hide Written; hide Rest; hide Pad; hide Gives; hide Beginning; hide Chain; hide Stands; hide Concat;
    if record in Beginning(tr) {
      at := pos;
      parts := BeginningWritten(file, pos, tr, record);
    } else {
      var spot := pos + Pad(pos);
      var ds: seq<nat>, used: nat :| Stands(file, spot, tr[0], ds, used) && Follow(file, spot + used, tr[1..]);
      at, parts := RecordWritten(file, spot + used, tr[1..], record);
    }
  }

  /** Whatever the file: a record the reader returns was put there by a writer,
      part by part, each with its own checksum. */
  lemma OnlyWritten(file: Bytes, record: Bytes)
    requires record in ReadAll(file, START).0
    ensures exists at, parts :: Chain(file, at, parts, true) && record == Concat(parts)
  {
    hide ReadAll; hide Trace; hide RecordsOf; hide Follow; hide Chain;
    RecordsAreGroups(file);
    FileFollows(file);
    var at, parts := RecordWritten(file, 0, Trace(file, START), record);
  }
}
