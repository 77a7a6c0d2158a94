/** The per-connection record (`struct event_data`) and its read and write
    handlers. The pure step functions say what one handler invocation does to
    the record; the methods of `EventData` do it in place and are proved
    against them. */
module Connection {
  import opened Syscalls
  import opened Kqueue

  const BUFFER_SIZE: nat := 1024

  /** The value of a record: its buffer, the fill cursor `buffer_read`, the
      drain cursor `buffer_write`, and whether it has been torn down (freed,
      socket closed). */
  datatype ConnState = ConnState(buffer: seq<bv8>, read: int, write: int, closed: bool)

  /** The cursor invariant 0 <= buffer_write <= buffer_read <= BUFFER_SIZE. */
  predicate Inv(s: ConnState) {
    |s.buffer| == BUFFER_SIZE && 0 <= s.write <= s.read <= BUFFER_SIZE
  }

  /** Received but not yet sent, in order: buffer[buffer_write..buffer_read). */
  function Unsent(s: ConnState): seq<bv8>
    requires Inv(s)
  {
    s.buffer[s.write..s.read]
  }

  /** An interest change a handler asks for on its own descriptor. */
  datatype Interest = Interest(filter: int, flags: bv16)

  /** A handler's return value, or the exit(1) that on_error performs. */
  datatype Outcome = Returned(value: int) | Fatal

  /** What one handler invocation does: the new record, the interest changes it
      appends (in order), the bytes it took from the socket, the bytes it
      handed to the socket, and what it returns. */
  datatype Step = Step(state: ConnState, changes: seq<Interest>, received: seq<bv8>, sent: seq<bv8>, out: Outcome)

  /** The echo contract of one step: unless the process exits or the record is
      torn down, what was pending plus what came in is what went out followed
      by what is pending now. */
  predicate Conserves(s: ConnState, r: Step)
    requires Inv(s) && Inv(r.state)
  {
    r.out == Fatal || r.state.closed || Unsent(s) + r.received == r.sent + Unsent(r.state)
  }

  /** event_flush_write: send the pending bytes, advance buffer_write by what
      the socket took, reset both cursors once everything is out. */
  function FlushStep(s: ConnState, w: WriteReply): (r: Step)
    requires Inv(s) && !s.closed
    ensures Inv(r.state) && r.state.buffer == s.buffer && Conserves(s, r)
    ensures r.changes == [] && r.received == []
    ensures r.out == Returned(0) || r.out == Fatal
    ensures r.out == Fatal <==> w.WriteError? && !WouldBlock(w.errno)
    ensures w.WriteError? ==> r.state == s && r.sent == []
    ensures r.state.closed <==> w.Room? && Written(w, s.read - s.write) == 0
    ensures w.Room? ==>
      var n := Written(w, s.read - s.write);
      && r.sent == Unsent(s)[..n]
      && (0 < n ==> Unsent(r.state) == Unsent(s)[n..])
      && (0 < n && s.write + n == s.read ==> r.state.read == 0 && r.state.write == 0)
      && (0 < n && s.write + n < s.read ==> r.state.read == s.read && r.state.write == s.write + n)
  {
    match w
    case WriteError(e) =>
      Step(s, [], [], [], if WouldBlock(e) then Returned(0) else Fatal)
    case Room(_) =>
      var n := Written(w, s.read - s.write);
      if n == 0 then
        Step(s.(closed := true), [], [], [], Returned(0))
      else
        var sent := s.buffer[s.write..s.write + n];
        if s.write + n == s.read then
          Step(s.(read := 0, write := 0), [], [], sent, Returned(0))
        else
          Step(s.(write := s.write + n), [], [], sent, Returned(0))
  }

  /** The record after read(2) stored `got` at buffer_read and the handler
      advanced buffer_read past it. */
  function Filled(s: ConnState, got: seq<bv8>): (f: ConnState)
    requires Inv(s) && |got| <= BUFFER_SIZE - s.read
    ensures Inv(f) && f.closed == s.closed
    ensures f.read == s.read + |got| && f.write == s.write
    ensures f.buffer[s.read..f.read] == got
    ensures forall i :: 0 <= i < BUFFER_SIZE && !(s.read <= i < f.read) ==> f.buffer[i] == s.buffer[i]
    ensures Unsent(f) == Unsent(s) + got
  {
    var f := s.(buffer := s.buffer[..s.read] + got + s.buffer[s.read + |got|..], read := s.read + |got|);
    assert f.buffer[f.write..f.read] == Unsent(s) + got;
    f
  }

  /** event_on_read: with a full buffer, ask to stop read notifications;
      otherwise read into buffer[buffer_read..), ask for write notifications
      on the first byte of an empty buffer, and flush once. */
  function ReadStep(s: ConnState, rd: ReadReply, w: WriteReply): (r: Step)
    requires Inv(s) && !s.closed
    ensures Inv(r.state) && Conserves(s, r)
    ensures r.out == Returned(0) || r.out == Fatal
    ensures |r.changes| <= 1
    ensures s.read == BUFFER_SIZE ==>
      r == Step(s, [Interest(EVFILT_READ, EV_DISABLE)], [], [], Returned(0))
    ensures Interest(EVFILT_WRITE, EV_ENABLE) in r.changes <==> s.read == 0 && r.received != []
    ensures s.read < BUFFER_SIZE && rd.ReadError? ==>
      r == Step(s, [], [], [], if WouldBlock(rd.errno) then Returned(0) else Fatal)
    ensures r.state.closed ==> r.out == Returned(0) && r.sent == []
  {
    if s.read == BUFFER_SIZE then
      Step(s, [Interest(EVFILT_READ, EV_DISABLE)], [], [], Returned(0))
    else
      match rd
      case ReadError(e) =>
        Step(s, [], [], [], if WouldBlock(e) then Returned(0) else Fatal)
      case Bytes(_) =>
        var got := Received(rd, BUFFER_SIZE - s.read);
        if got == [] then
          Step(s.(closed := true), [], [], [], Returned(0))
        else
          var enable := if s.read == 0 then [Interest(EVFILT_WRITE, EV_ENABLE)] else [];
          var f := FlushStep(Filled(s, got), w);
          Step(f.state, enable, got, f.sent, f.out)
  }

  /** After a read of n > 0 bytes the handler flushes exactly once, from the
      record with the bytes stored and buffer_read advanced; a zero-byte read
      tears the record down. */
  lemma ReadThenFlushOnce(s: ConnState, rd: ReadReply, w: WriteReply)
    requires Inv(s) && !s.closed && s.read < BUFFER_SIZE && rd.Bytes?
    ensures var got := Received(rd, BUFFER_SIZE - s.read);
      && (got == [] ==> ReadStep(s, rd, w) == Step(s.(closed := true), [], [], [], Returned(0)))
      && (got != [] ==>
            var f := FlushStep(Filled(s, got), w);
            ReadStep(s, rd, w) == Step(f.state, if s.read == 0 then [Interest(EVFILT_WRITE, EV_ENABLE)] else [], got, f.sent, f.out))
  {
  }

  /** event_on_read appends a read-disable exactly when it finds the buffer
      full on entry; a read that fills the buffer does not. */
  lemma ReadDisableOnlyWhenFull(s: ConnState, rd: ReadReply, w: WriteReply)
    requires Inv(s) && !s.closed
    ensures Interest(EVFILT_READ, EV_DISABLE) in ReadStep(s, rd, w).changes <==> s.read == BUFFER_SIZE
  {
    if s.read < BUFFER_SIZE && rd.Bytes? {
      var got := Received(rd, BUFFER_SIZE - s.read);
      if got != [] {
        var f := FlushStep(Filled(s, got), w);
        assert f.changes == [];
      }
    }
  }

  /** event_on_write: with nothing pending, ask to stop write notifications;
      otherwise flush. */
  function WriteStep(s: ConnState, w: WriteReply): (r: Step)
    requires Inv(s) && !s.closed
    ensures Inv(r.state) && Conserves(s, r)
    ensures r.out == Returned(0) || r.out == Fatal
    ensures |r.changes| <= 1
    ensures s.read == s.write ==>
      r == Step(s, [Interest(EVFILT_WRITE, EV_DISABLE)], [], [], Returned(0))
    ensures s.read != s.write ==> r == FlushStep(s, w)
  {
    if s.read == s.write then
      Step(s, [Interest(EVFILT_WRITE, EV_DISABLE)], [], [], Returned(0))
    else
      FlushStep(s, w)
  }

  /** The kevent entries a record's handler appends for `changes`, in order. */
  function Entries(ident: int, changes: seq<Interest>, udata: Owner): (es: seq<KEvent<Owner>>)
    ensures |es| == |changes|
    ensures forall i :: 0 <= i < |changes| ==> es[i] == Entry(ident, changes[i].filter, changes[i].flags, udata)
  {
    if changes == [] then []
    else [Entry(ident, changes[0].filter, changes[0].flags, udata)] + Entries(ident, changes[1..], udata)
  }

  /** struct event_data of one client connection. Its on_read/on_write
      pointers are always event_on_read/event_on_write, so they are the
      methods OnRead and OnWrite here. */
  class EventData {
    const buffer: array<bv8>
    var bufferRead: int
    var bufferWrite: int
    var closed: bool

    ghost predicate Valid()
      reads this
    {
      buffer.Length == BUFFER_SIZE && 0 <= bufferWrite <= bufferRead <= BUFFER_SIZE
    }

    /** The state of a record event_on_accept has just set up: open, with
        both cursors at 0 and so nothing unsent. */
    ghost predicate Idle()
      reads this
    {
      !closed && bufferRead == 0 && bufferWrite == 0
    }

    /** The buffer is not the batch's array (the verifier does not tell
        arrays apart by element type). */
    ghost predicate Apart(batch: ChangeBatch<Owner>)
      reads batch
    {
      buffer as object != batch.events
    }

    function State(): (s: ConnState)
      reads this, buffer
      ensures Valid() ==> Inv(s)
    {
      ConnState(buffer[..], bufferRead, bufferWrite, closed)
    }

    /** The record event_on_accept allocates, with both cursors at 0. */
    constructor ()
      ensures Valid() && fresh(buffer) && Idle() && Unsent(State()) == []
    {
      buffer := new bv8[BUFFER_SIZE];
      bufferRead, bufferWrite, closed := 0, 0, false;
    }

    /** event_flush_write. */
    method FlushWrite(event: KEvent<Owner>, w: WriteReply) returns (out: Outcome)
      requires Valid() && !closed
      modifies this
      ensures Valid()
      ensures var step := FlushStep(old(State()), w); State() == step.state && out == step.out
    {
      match w
      case WriteError(e) =>
        if WouldBlock(e) {
          return Returned(0);
        }
        return Fatal;
      case Room(_) =>
        var n := Written(w, bufferRead - bufferWrite);
        if n == 0 {
          closed := true;
          return Returned(0);
        }
        bufferWrite := bufferWrite + n;
        if bufferWrite == bufferRead {
          bufferRead := 0;
          bufferWrite := 0;
        }
        return Returned(0);
    }

    /** What read(2) does to the buffer: `got` lands at buffer_read. */
    method Store(got: seq<bv8>)
      requires Valid() && |got| <= BUFFER_SIZE - bufferRead
      modifies buffer
      ensures buffer[..] == Filled(old(State()), got).buffer
    {
      forall i | 0 <= i < |got| {
        buffer[bufferRead + i] := got[i];
      }
      assert buffer[..] == Filled(old(State()), got).buffer;
    }

    /** The end of event_on_read, once read(2) stored n > 0 bytes `got`: ask
        for write notifications if the buffer was empty, advance buffer_read,
        flush once. */
    method Deliver(event: KEvent<Owner>, batch: ChangeBatch<Owner>, got: seq<bv8>, w: WriteReply) returns (out: Outcome)
      requires Valid() && !closed && batch.Valid() && Apart(batch)
      requires 0 < |got| <= BUFFER_SIZE - bufferRead
      modifies this, buffer, batch, batch.events
      ensures Valid() && batch.Valid() && Apart(batch)
      ensures var f := FlushStep(Filled(old(State()), got), w);
        State() == f.state && out == f.out
      ensures batch.Pending() == old(batch.Pending()) +
        Entries(event.ident, if old(bufferRead) == 0 then [Interest(EVFILT_WRITE, EV_ENABLE)] else [], Client(this))
      ensures batch.KeepsFrom(old(batch.events[..])) && old(batch.alloc) <= batch.alloc
      ensures batch.events == old(batch.events) || fresh(batch.events)
    {
      ghost var filled := Filled(State(), got);
      Store(got);
      if bufferRead == 0 {
        batch.Append(event.ident, EVFILT_WRITE, EV_ENABLE, Client(this));
      }
      bufferRead := bufferRead + |got|;
      assert State() == filled;
      out := FlushWrite(event, w);
    }

    /** event_on_read. */
    method OnRead(event: KEvent<Owner>, batch: ChangeBatch<Owner>, rd: ReadReply, w: WriteReply) returns (out: Outcome)
      requires Valid() && !closed && batch.Valid() && Apart(batch)
      modifies this, buffer, batch, batch.events
      ensures Valid() && batch.Valid() && Apart(batch)
      ensures var step := ReadStep(old(State()), rd, w);
        && State() == step.state && out == step.out
        && batch.Pending() == old(batch.Pending()) + Entries(event.ident, step.changes, Client(this))
      ensures batch.KeepsFrom(old(batch.events[..])) && old(batch.alloc) <= batch.alloc
      ensures batch.events == old(batch.events) || fresh(batch.events)
    {
      if bufferRead == BUFFER_SIZE {
        ghost var s0 := State();
        ghost var disable := [Interest(EVFILT_READ, EV_DISABLE)];
        assert ReadStep(s0, rd, w) == Step(s0, disable, [], [], Returned(0));
        batch.Append(event.ident, EVFILT_READ, EV_DISABLE, Client(this));
        assert Entries(event.ident, disable, Client(this)) == [Entry(event.ident, EVFILT_READ, EV_DISABLE, Client(this))];
        assert buffer[..] == s0.buffer;
        return Returned(0);
      }
      ghost var s0 := State();
      match rd
      case ReadError(e) =>
        assert ReadStep(s0, rd, w) == Step(s0, [], [], [], if WouldBlock(e) then Returned(0) else Fatal);
        if WouldBlock(e) {
          return Returned(0);
        }
        return Fatal;
      case Bytes(_) =>
        var got := Received(rd, BUFFER_SIZE - bufferRead);
        ReadThenFlushOnce(s0, rd, w);
        if |got| == 0 {
          closed := true;
          return Returned(0);
        }
        out := Deliver(event, batch, got, w);
    }

    /** event_on_write. */
    method OnWrite(event: KEvent<Owner>, batch: ChangeBatch<Owner>, w: WriteReply) returns (out: Outcome)
      requires Valid() && !closed && batch.Valid() && Apart(batch)
      modifies this, batch, batch.events
      ensures Valid() && batch.Valid() && Apart(batch)
      ensures var step := WriteStep(old(State()), w);
        && State() == step.state && out == step.out
        && batch.Pending() == old(batch.Pending()) + Entries(event.ident, step.changes, Client(this))
      ensures batch.KeepsFrom(old(batch.events[..])) && old(batch.alloc) <= batch.alloc
      ensures batch.events == old(batch.events) || fresh(batch.events)
    {
      if bufferRead == bufferWrite {
        ghost var s0 := State();
        ghost var disable := [Interest(EVFILT_WRITE, EV_DISABLE)];
        assert WriteStep(s0, w) == Step(s0, disable, [], [], Returned(0));
        batch.Append(event.ident, EVFILT_WRITE, EV_DISABLE, Client(this));
        assert Entries(event.ident, disable, Client(this)) == [Entry(event.ident, EVFILT_WRITE, EV_DISABLE, Client(this))];
        assert buffer[..] == s0.buffer;
        return Returned(0);
      }
      out := FlushWrite(event, w);
    }
  }

  /** The udata of an event: no owner (NULL), the listening socket's record
      (on_read = event_on_accept, on_write = NULL), or a client record. */
  datatype Owner = NoOwner | Listener | Client(conn: EventData)
}
