/** Reading a log back (db/log_reader.cc). */
module LogReader {
  import opened Keys
  import opened Coding
  import opened Log

  /** What a reader remembers: how far the file was read, the unread part of
      the last block, whether that read came back short, the bytes reported as
      dropped. */
  datatype Cursor = Cursor(next: nat, buffer: Bytes, eof: bool, drops: seq<nat>)

  const START := Cursor(0, [], false, [])

  datatype Physical = Fragment(kind: byte, data: Bytes) | Eof | Bad

  function Refill(file: Bytes, c: Cursor): Cursor
    requires c.next <= |file|
  {
    var n := if c.next + BLOCK <= |file| then BLOCK else |file| - c.next;
    c.(next := c.next + n, buffer := file[c.next..c.next + n], eof := n < BLOCK)
  }

  function Drop(c: Cursor, bytes: nat): Cursor {
    c.(buffer := [], drops := c.drops + [bytes])
  }

  function LengthOf(header: Bytes): nat
    requires |header| >= HEADER
  {
    var a: nat, b: nat := header[4], header[5];
    a + 0x100 * b
  }

  predicate ChecksumOk(buffer: Bytes)
    requires |buffer| >= HEADER && HEADER + LengthOf(buffer) <= |buffer|
  {
    Extend(0, buffer[6..HEADER + LengthOf(buffer)]) as nat == Unmask(GetFixed32(buffer))
  }

  /** Two type bytes no writer uses are the reader's own codes for the end of
      the file and for a bad record, and are taken for them. */
  const EOF_TYPE := 5
  const BAD_TYPE := 6

  function OfType(kind: byte, data: Bytes): Physical {
    if kind == EOF_TYPE then Eof else if kind == BAD_TYPE then Bad else Fragment(kind, data)
  }

  /** A header in the buffer decides what happens. */
  function Parse(c: Cursor): (Cursor, Physical)
    requires |c.buffer| >= HEADER
  {
    var n := LengthOf(c.buffer);
    var kind := c.buffer[6];
    if HEADER + n > |c.buffer| then
      if c.eof then (c.(buffer := []), Eof) else (Drop(c, |c.buffer|), Bad)
    else if kind == 0 && n == 0 then (c.(buffer := []), Bad)
    else if !ChecksumOk(c.buffer) then (Drop(c, |c.buffer|), Bad)
    else (c.(buffer := c.buffer[HEADER + n..]), OfType(kind, c.buffer[HEADER..HEADER + n]))
  }

  function ReadPhysical(file: Bytes, c: Cursor): (Cursor, Physical)
    requires c.next <= |file|
  {
    var c := if |c.buffer| < HEADER && !c.eof then Refill(file, c) else c;
    if |c.buffer| < HEADER then (c.(buffer := []), Eof) else Parse(c)
  }

  function Left(file: Bytes, c: Cursor): int {
    |file| - c.next + |c.buffer|
  }

  lemma ReadProgress(file: Bytes, c: Cursor)
    requires c.next <= |file|
    ensures ReadPhysical(file, c).0.next <= |file|
    ensures !ReadPhysical(file, c).1.Eof? ==> Left(file, ReadPhysical(file, c).0) < Left(file, c)
  {
    hide ChecksumOk; hide LengthOf;
  }

  /** Reader::ReadRecord from inside its loop: `inside` a fragmented record
      whose first parts are in scratch. */
  function ReadFrom(file: Bytes, c: Cursor, inside: bool, scratch: Bytes): (Cursor, Option<Bytes>)
    requires c.next <= |file|
    decreases Left(file, c)
  {
    ReadProgress(file, c);
    var (c', p) := ReadPhysical(file, c);
    match p
    case Eof => (c', None)
    case Bad =>
      if inside then ReadFrom(file, Report(c', |scratch|), false, []) else ReadFrom(file, c', false, scratch)
    case Fragment(kind, data) =>
      if kind == FULL then (Partial(c', inside, scratch), Some(data))
      else if kind == FIRST then ReadFrom(file, Partial(c', inside, scratch), true, data)
      else if kind == MIDDLE then
        if inside then ReadFrom(file, c', true, scratch + data) else ReadFrom(file, Report(c', |data|), false, scratch)
      else if kind == LAST then
        if inside then (c', Some(scratch + data)) else ReadFrom(file, Report(c', |data|), false, scratch)
      else ReadFrom(file, Report(c', |data| + if inside then |scratch| else 0), false, [])
  }

  function Report(c: Cursor, bytes: nat): Cursor {
    c.(drops := c.drops + [bytes])
  }

  /** A record that starts inside another one is an error unless that one had
      no bytes yet. */
  function Partial(c: Cursor, inside: bool, scratch: Bytes): Cursor {
    if inside && scratch != [] then Report(c, |scratch|) else c
  }

  class Reader {
    const file: Bytes
    var next: nat
    var buffer: Bytes
    var eof: bool
    var drops: seq<nat>

    ghost predicate Valid()
      reads this
    {
      next <= |file|
    }

    function State(): Cursor
      reads this
    {
      Cursor(next, buffer, eof, drops)
    }

    constructor (file: Bytes)
      ensures Valid() && this.file == file && State() == START
    {
      this.file := file;
      next, buffer, eof, drops := 0, [], false, [];
    }

    method ReadPhysicalRecord() returns (r: Physical)
      requires Valid()
      modifies this
      ensures Valid() && (State(), r) == ReadPhysical(file, old(State()))
    {
      hide ChecksumOk; hide LengthOf;
      while true
        invariant Valid() && ReadPhysical(file, old(State())) == ReadPhysical(file, State())
        decreases |buffer| < HEADER && !eof
      {
        if |buffer| < HEADER {
          if !eof {
            var n := if next + BLOCK <= |file| then BLOCK else |file| - next;
            buffer := file[next..next + n];
            next := next + n;
            if n < BLOCK {
              eof := true;
            }
            continue;
          }
          buffer := [];
          return Eof;
        }
        var length, kind := LengthOf(buffer), buffer[6];
        if HEADER + length > |buffer| {
          var size := |buffer|;
          buffer := [];
          if !eof {
            drops := drops + [size];
            return Bad;
          }
          return Eof;
        }
        if kind == 0 && length == 0 {
          buffer := [];
          return Bad;
        }
        if !ChecksumOk(buffer) {
          drops := drops + [|buffer|];
          buffer := [];
          return Bad;
        }
        r := OfType(kind, buffer[HEADER..HEADER + length]);
        buffer := buffer[HEADER + length..];
        return;
      }
    }

    method ReadRecord() returns (record: Option<Bytes>)
      requires Valid()
      modifies this
      ensures Valid() && (State(), record) == ReadFrom(file, old(State()), false, [])
    {
      hide ReadPhysical;
      var inside, scratch := false, [];
      while true
        invariant Valid() && ReadFrom(file, old(State()), false, []) == ReadFrom(file, State(), inside, scratch)
        decreases Left(file, State())
      {
        ReadProgress(file, State());
        var p := ReadPhysicalRecord();
        match p
        case Eof => return None;
        case Bad =>
          if inside {
            drops := drops + [|scratch|];
            inside, scratch := false, [];
          }
        case Fragment(kind, data) =>
          if kind == FULL {
            if inside && scratch != [] {
              drops := drops + [|scratch|];
            }
            return Some(data);
          } else if kind == FIRST {
            if inside && scratch != [] {
              drops := drops + [|scratch|];
            }
            inside, scratch := true, data;
          } else if kind == MIDDLE {
            if !inside {
              drops := drops + [|data|];
            } else {
              scratch := scratch + data;
            }
          } else if kind == LAST {
            if !inside {
              drops := drops + [|data|];
            } else {
              return Some(scratch + data);
            }
          } else {
            drops := drops + [|data| + if inside then |scratch| else 0];
            inside, scratch := false, [];
          }
      }
    }
  }
}
