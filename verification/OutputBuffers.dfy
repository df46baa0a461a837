/** The buffered output adapter `ostreambuf`: it collects characters in a fixed buffer and hands them
    to a sink in pieces.  What the sink receives must be the characters put, in order and once. */
module OutputBuffers {
  import opened Integers
  import opened Results

  // A null `char*`; any other pointer is an offset into the buffer.
  const NULL := -1

  // ------------------------------------------------------------------ the sink

  // How one write ends; a failing one takes some of the characters, unknown to the caller.
  datatype Outcome = Success | Failure(taken: nat)

  /** The writing half of a reader_writer.  Every list of outcomes is possible; `Write` either takes
      everything, or reports -1 after taking a part. */
  class Sink {
    var outcomes: seq<Outcome>
    var written: seq<char>
    var broken: bool
    var closings: nat

    constructor (outcomes: seq<Outcome>)
      ensures this.outcomes == outcomes && written == [] && !broken && closings == 0
    {
      this.outcomes := outcomes;
      written, broken, closings := [], false, 0;
    }

    // The next write will succeed.
    predicate Works()
      reads this
    {
      outcomes == [] || outcomes[0].Success?
    }

    // What a failed write of `data` leaves behind.
    ghost predicate Failed(outcomes': seq<Outcome>, written': seq<char>, data: seq<char>)
      reads this
    {
      && outcomes' != [] && outcomes'[0].Failure? && outcomes == outcomes'[1..]
      && written == written' + data[..Min(outcomes'[0].taken, |data|)]
    }

    method Write(data: seq<char>) returns (count: int)
      requires |data| >= 1
      modifies this
      ensures count == if old(Works()) then |data| else -1
      ensures broken == (old(broken) || count < 0)
      ensures count > 0 ==> written == old(written) + data
      ensures count < 0 ==> Failed(old(outcomes), old(written), data)
      ensures closings == old(closings)
    {
      var works := Works();
      var taken := if works then |data| else Min(outcomes[0].taken, |data|);
      written := written + data[..taken];
      outcomes := if outcomes == [] then [] else outcomes[1..];
      broken := broken || !works;
      count := if works then |data| else -1;
    }

    method ShutdownWrite()
      modifies this
      ensures closings == old(closings) + 1 && written == old(written) && broken == old(broken)
    {
      closings := closings + 1;
    }
  }

  // ------------------------------------------------------------------ the buffer

  /** One cell of the buffer is kept back from the put area, so that `Overflow` has room for the
      character it is handed. */
  class OStreamBuf {
    var rw: Sink?
    var buffer: array<char>
    var pbase: int
    var pptr: int
    var epptr: int

    // Every index lies in the buffer; a moved-from object has neither a buffer nor a sink.
    ghost predicate Valid()
      reads this
    {
      if pbase == NULL then pptr == NULL && epptr == NULL && rw == null
      else pbase == 0 && epptr == buffer.Length - 1 && 0 <= pptr <= buffer.Length && buffer.Length >= 1
    }

    // A character may be put: the cell at `pptr` exists.
    ghost predicate Ready()
      reads this
    {
      Valid() && pbase != NULL && pptr <= epptr
    }

    // A flush of something would succeed.
    ghost predicate Flushes()
      reads this, rw
    {
      rw == null || rw.Works()
    }

    // Taken from the caller, but not yet written.
    ghost function Pending(): seq<char>
      requires Valid()
      reads this, buffer
    {
      if pbase == NULL then [] else buffer[..pptr]
    }

    // Everything that went through the sink and this buffer, in order.
    ghost function Output(): seq<char>
      requires Valid() && rw != null
      reads this, buffer, rw
    {
      rw.written + Pending()
    }

    constructor (rw: Sink?, size: nat)
      requires size >= 1
      ensures Ready() && this.rw == rw && fresh(buffer) && buffer.Length == size
      ensures Pending() == []
    {
      this.rw := rw;
      buffer := new char[size];
      pbase, pptr, epptr := 0, 0, size - 1;
    }

    // The move constructor: the new object takes over the buffer, the pointers and the sink.
    constructor MovedFrom(other: OStreamBuf)
      requires other.Valid()
      modifies other
      ensures Valid() && other.Valid()
      ensures rw == old(other.rw) && buffer == old(other.buffer)
      ensures pbase == old(other.pbase) && pptr == old(other.pptr) && epptr == old(other.epptr)
      ensures other.rw == null && other.pbase == NULL && fresh(other.buffer)
    {
      rw, buffer := other.rw, other.buffer;
      pbase, pptr, epptr := other.pbase, other.pptr, other.epptr;
      new;
      other.rw := null;
      other.buffer := new char[0];
      other.pbase, other.pptr, other.epptr := NULL, NULL, NULL;
    }

    // A sink set later sees everything the buffer collected before.
    method SetReaderWriter(newrw: Sink)
      requires Valid() && pbase != NULL
      modifies this`rw
      ensures Valid() && rw == newrw
    {
      rw := newrw;
    }

    /** On success the pending characters are written and the buffer is empty; on failure the
        pointers have not moved.  With no sink nothing happens at all. */
    method Flush() returns (ok: bool)
      requires Valid()
      modifies this`pptr, rw
      ensures Valid() && buffer[..] == old(buffer[..])
      ensures ok <==> old(Pending()) == [] || old(Flushes())
      ensures rw == null ==> pptr == old(pptr)
      ensures rw != null ==>
        && rw.closings == old(rw.closings)
        && rw.broken == (old(rw.broken) || !ok)
        && (ok ==> Ready() && Pending() == [] && rw.written == old(Output()))
        && (!ok ==> pptr == old(pptr) && rw.Failed(old(rw.outcomes), old(rw.written), old(Pending())))
    {
      if rw == null {
        return true;
      }
      var n := pptr - pbase;
      assert 0 <= n <= buffer.Length;
      if n == 0 {
        return true;
      }
      var written := rw.Write(buffer[pbase..pptr]);
      if written < 0 {
        return false;
      }
      assert n == written;
      pptr := pptr - n;
      assert pptr == 0;
      return true;
    }

    // Stores `c` at `pptr`.
    method Store(c: char)
      requires Ready()
      modifies this`pptr, buffer
      ensures Valid() && pptr == old(pptr) + 1 && Pending() == old(Pending()) + [c]
    {
      buffer[pptr] := c;
      pptr := pptr + 1;
    }

    /** The buffer is full, or is to be emptied anyway: stores `c`, if it is not the end of file, in
        the cell kept back, and flushes.  The result is `c`, or the end of file on failure; with
        the end of file for `c` success and failure look the same.  A refused character stays
        pending. */
    method Overflow(c: Option<char>) returns (r: Option<char>)
      requires Valid() && (c.Some? ==> Ready())
      modifies this`pptr, buffer, rw
      ensures Valid()
      ensures var stored := old(Pending()) + if c.Some? then [c.value] else [];
        var done := stored == [] || old(Flushes());
        && r == (if done then c else None)
        && (rw == null || !done ==> Pending() == stored)
        && (rw != null ==> rw.closings == old(rw.closings) && rw.broken == (old(rw.broken) || !done))
        && (rw != null && done ==> Ready() && Pending() == [] && rw.written == old(rw.written) + stored)
        && (rw != null && !done ==> rw.Failed(old(rw.outcomes), old(rw.written), stored))
    {
      if c.Some? {
        Store(c.value);
      }
      var ok := Flush();
      r := if ok then c else None;
    }

    /** `sputc`.  With a sink whose writes succeed, what was written followed by what is pending
        grows by exactly `c`.  It fails when a full buffer cannot be flushed, and then `c` is
        pending all the same.  The next character has a cell to go to exactly if the buffer was
        not full, or has been flushed to a sink. */
    method Put(c: char) returns (ok: bool)
      requires Ready()
      modifies this`pptr, buffer, rw
      ensures Valid()
      ensures ok <==> old(pptr < epptr || Flushes())
      ensures Ready() <==> old(pptr < epptr) || (ok && rw != null)
      ensures rw == null || !ok ==> Pending() == old(Pending()) + [c]
      ensures rw != null ==>
        && rw.closings == old(rw.closings)
        && rw.broken == (old(rw.broken) || !ok)
        && (ok ==> Output() == old(Output()) + [c])
        && (!ok ==> rw.Failed(old(rw.outcomes), old(rw.written), Pending()))
    {
      if pptr < epptr {
        Store(c);
        if rw != null {
          assert Output() == rw.written + (old(Pending()) + [c]);
        }
        return true;
      }
      var r := Overflow(Some(c));
      ok := r.Some?;
      if ok && rw != null {
        assert rw.written + [] == rw.written;
        assert rw.written == old(rw.written) + (old(Pending()) + [c]);
      }
    }

    // `sync`: 0 or -1.
    method Sync() returns (status: int)
      requires Valid()
      modifies this`pptr, rw
      ensures Valid() && buffer[..] == old(buffer[..]) && pptr <= old(pptr)
      ensures status == if old(Pending()) == [] || old(Flushes()) then 0 else -1
      ensures rw == null ==> pptr == old(pptr)
      ensures rw != null ==>
        && rw.closings == old(rw.closings)
        && rw.broken == (old(rw.broken) || status < 0)
        && (status == 0 ==> Ready() && Pending() == [] && rw.written == old(Output()))
        && (status < 0 ==> pptr == old(pptr))
    {
      var ok := Flush();
      status := if ok then 0 else -1;
    }

    // The destructor: an object that was moved from does nothing.
    method Destroy()
      requires Valid()
      modifies this`pptr, rw
      ensures Valid() && pptr <= old(pptr)
      ensures rw != null ==>
        && rw.closings == old(rw.closings) + 1
        && (!rw.broken ==> !old(rw.broken) && rw.written == old(Output()))
    {
      if rw != null && pbase != NULL {
        var status := Sync();
        rw.ShutdownWrite();
      }
    }
  }

  // What the owner of an output buffer may do with it.
  datatype Request = Put(c: char) | Sync | Move

  function Letters(r: Request): seq<char> { if r.Put? then [r.c] else [] }

  // The characters a list of requests puts.
  function Text(requests: seq<Request>): seq<char>
  {
    if requests == [] then [] else Text(requests[..|requests| - 1]) + Letters(requests[|requests| - 1])
  }

  lemma TextGrows(requests: seq<Request>, i: nat)
    requires i < |requests|
    ensures Text(requests[..i + 1]) == Text(requests[..i]) + Letters(requests[i])
  {
    assert requests[..i + 1][..i] == requests[..i];
  }

  // One request; a move leaves an empty husk behind and goes on with the new object.
  method Serve(buf: OStreamBuf, sink: Sink, r: Request) returns (next: OStreamBuf)
    requires buf.Ready() && buf.rw == sink
    modifies buf, buf.buffer, sink
    ensures next.Valid() && next.rw == sink && next.pbase != NULL
    ensures next.buffer == old(buf.buffer)
    ensures next != buf ==> fresh(next) && buf.Valid() && buf.rw == null
    ensures r.Move? <==> next != buf
    ensures sink.closings == old(sink.closings)
    ensures old(sink.broken) ==> sink.broken
    ensures !sink.broken ==> next.Ready() && next.Output() == old(buf.Output()) + Letters(r)
  {
    next := buf;
    if r.Put? {
      var ok := buf.Put(r.c);
    } else if r.Sync? {
      var status := buf.Sync();
    } else {
      next := new OStreamBuf.MovedFrom(buf);
    }
  }

  // The destructors of objects that were moved from do nothing, whenever they run.
  method DestroyAll(husks: seq<OStreamBuf>)
    requires forall h :: h in husks ==> h.Valid() && h.rw == null
    modifies set h | h in husks
    ensures forall h :: h in husks ==> h.Valid() && h.rw == null
  {
    var j := 0;
    while j < |husks|
      invariant j <= |husks|
      invariant forall h :: h in husks ==> h.Valid() && h.rw == null
    {
      var h := husks[j];
      h.Destroy();
      j := j + 1;
    }
  }

  /** The whole life of an output buffer under any list of requests, including any chain of moves
      after which every moved-from object is destroyed as well.  Unless a write failed, the sink
      has received exactly the characters put, in order and once; and in every case it was shut
      down exactly once. */
  method WriteAll(sink: Sink, size: nat, requests: seq<Request>)
    requires size >= 1 && !sink.broken
    modifies sink
    ensures sink.closings == old(sink.closings) + 1
    ensures !sink.broken ==> sink.written == old(sink.written) + Text(requests)
  {
    var buf := new OStreamBuf(sink, size);
    var husks: seq<OStreamBuf> := [];
    ghost var before := sink.written;
    var i := 0;
    while i < |requests| && !sink.broken
      invariant i <= |requests|
      invariant fresh(buf) && fresh(buf.buffer)
      invariant buf.Valid() && buf.rw == sink && buf.pbase != NULL
      invariant !sink.broken ==> buf.Ready() && buf.Output() == before + Text(requests[..i])
      invariant sink.closings == old(sink.closings)
      invariant forall h :: h in husks ==> fresh(h) && h != buf && h.Valid() && h.rw == null
      decreases |requests| - i
    {
      TextGrows(requests, i);
      var next := Serve(buf, sink, requests[i]);
      if next != buf {
        husks, buf := husks + [buf], next;
      }
      i := i + 1;
    }
    assert !sink.broken ==> requests[..i] == requests;
    DestroyAll(husks);
    buf.Destroy();
  }

  // ------------------------------------------------------------------ a refused character

  /** The case `Put` must not be called in, at a buffer of one cell: a failed write leaves the
      character that was refused in the last cell, and no cell for another. */
  method RefusedCharacter(c: char) returns (sink: Sink, buf: OStreamBuf, ok: bool)
    ensures fresh(sink) && fresh(buf) && fresh(buf.buffer)
    ensures !ok && sink.written == [] && sink.outcomes == []
    ensures buf.Valid() && buf.rw == sink && buf.Pending() == [c]
    ensures buf.pptr == buf.buffer.Length == 1 && !buf.Ready()
  {
    sink := new Sink([Failure(0)]);
    buf := new OStreamBuf(sink, 1);
    ok := buf.Put(c);
  }

  /** It is written all the same, by the next flush that succeeds, and then the buffer is ready. */
  method RefusedCharacterIsWritten(c: char) returns (sink: Sink, buf: OStreamBuf)
    ensures sink.written == [c] && buf.Ready() && buf.Pending() == []
  {
    var ok;
    sink, buf, ok := RefusedCharacter(c);
    var status := buf.Sync();
  }
}
