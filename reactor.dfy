/** The listening socket's handler (event_on_accept) and one iteration of the
    event loop: submit the change batch, then route every ready event read
    back from the shared array to its handler, repeating the handler while it
    returns non-zero. */
module Reactor {
  import opened Syscalls
  import opened Kqueue
  import opened Connection

  /** The two changes event_on_accept appends for a new client, in order:
      read and write interest, both added and enabled. */
  const Registrations: seq<Interest> :=
    [Interest(EVFILT_READ, EV_ADD | EV_ENABLE), Interest(EVFILT_WRITE, EV_ADD | EV_ENABLE)]

  /** What one call of event_on_accept returns for the replies `a` of accept(2),
      F_GETFL and F_SETFL. */
  function AcceptResult(a: AcceptReply): (out: Outcome)
    ensures out == Returned(1) <==> a.fd >= 0 && a.getfl >= 0 && a.setfl >= 0
    ensures out == Returned(0) <==> a.fd < 0 && WouldBlock(a.errno)
    ensures out == Fatal <==> (a.fd < 0 && !WouldBlock(a.errno)) || (a.fd >= 0 && (a.getfl < 0 || a.setfl < 0))
  {
    if a.fd < 0 then
      if WouldBlock(a.errno) then Returned(0) else Fatal
    else if a.getfl < 0 || a.setfl < 0 then Fatal
    else Returned(1)
  }

  /** The client handlers never return non-zero: the `while` around them on
      lines 98-99 stops after one call, and only the accept handler repeats. */
  lemma OnlyAcceptRepeats(s: ConnState, rd: ReadReply, w: WriteReply, a: AcceptReply)
    requires Inv(s) && !s.closed
    ensures ReadStep(s, rd, w).out in {Returned(0), Fatal}
    ensures WriteStep(s, w).out in {Returned(0), Fatal}
    ensures AcceptResult(a) == Returned(1) <==> a.fd >= 0 && a.getfl >= 0 && a.setfl >= 0
  {
  }

  /** event_on_accept: accept one client, make it non-blocking, allocate its
      record and register read and write interest for it. The record's
      cursors start at 0. */
  method OnAccept(batch: ChangeBatch<Owner>, a: AcceptReply) returns (out: Outcome, conn: EventData?)
    requires batch.Valid()
    modifies batch, batch.events
    ensures batch.Valid() && old(batch.alloc) <= batch.alloc
    ensures out == AcceptResult(a)
    ensures conn != null <==> out == Returned(1)
    ensures conn == null ==> batch.Pending() == old(batch.Pending())
    ensures conn != null ==>
      && fresh(conn) && fresh(conn.buffer) && conn.Valid() && conn.Idle() && conn.Apart(batch)
      && batch.Pending() == old(batch.Pending()) + Entries(a.fd, Registrations, Client(conn))
    ensures batch.KeepsFrom(old(batch.events[..]))
    ensures batch.events == old(batch.events) || fresh(batch.events)
  {
    if a.fd < 0 {
      if WouldBlock(a.errno) {
        return Returned(0), null;
      }
      return Fatal, null;
    }
    if a.getfl < 0 || a.setfl < 0 {
      return Fatal, null;
    }
    conn := new EventData();
    ghost var e0 := batch.events[..];
    batch.Append(a.fd, EVFILT_READ, EV_ADD | EV_ENABLE, Client(conn));
    ghost var e1 := batch.events[..];
    batch.Append(a.fd, EVFILT_WRITE, EV_ADD | EV_ENABLE, Client(conn));
    assert batch.KeepsFrom(e0) by {
      forall j | batch.used <= j < |e0| && j < batch.alloc
        ensures batch.events[j] == e0[j]
      {
        assert batch.events[j] == e1[j];
      }
    }
    assert Entries(a.fd, Registrations, Client(conn)) ==
      [Entry(a.fd, EVFILT_READ, EV_ADD | EV_ENABLE, Client(conn)), Entry(a.fd, EVFILT_WRITE, EV_ADD | EV_ENABLE, Client(conn))];
    out := Returned(1);
  }

  /** The replies for the k-th handler call of an iteration: the script's
      entry, or, once the script is used up, replies that all would block. */
  function Next(script: seq<Io>, k: nat): Io {
    if k < |script| then script[k] else Blocked
  }

  /** The batch `pending` after the accept calls k0, k0+1, ... admitted the
      records `admitted`: each appended its two registrations, in order. */
  function Admitting(pending: seq<KEvent<Owner>>, script: seq<Io>, k0: nat, admitted: seq<EventData>): (es: seq<KEvent<Owner>>)
    ensures |es| == |pending| + 2 * |admitted|
    decreases |admitted|
  {
    if admitted == [] then pending
    else
      var last := |admitted| - 1;
      Admitting(pending, script, k0, admitted[..last]) + Entries(Next(script, k0 + last).accept.fd, Registrations, Client(admitted[last]))
  }

  /** Admitting keeps the batch it starts from, and every change it appends
      belongs to one of the admitted records. */
  lemma {:induction false} AdmittingOwned(pending: seq<KEvent<Owner>>, script: seq<Io>, k0: nat, admitted: seq<EventData>)
    ensures Admitting(pending, script, k0, admitted)[..|pending|] == pending
    ensures forall j :: |pending| <= j < |Admitting(pending, script, k0, admitted)| ==>
      Admitting(pending, script, k0, admitted)[j].udata.Client? &&
      Admitting(pending, script, k0, admitted)[j].udata.conn in admitted
    decreases |admitted|
  {
    if admitted != [] {
      var last := |admitted| - 1;
      var prefix := admitted[..last];
      AdmittingOwned(pending, script, k0, prefix);
      var front := Admitting(pending, script, k0, prefix);
      var es := Admitting(pending, script, k0, admitted);
      var tail := Entries(Next(script, k0 + last).accept.fd, Registrations, Client(admitted[last]));
      assert es == front + tail;
      forall j | |pending| <= j < |es|
        ensures es[j].udata.Client? && es[j].udata.conn in admitted
      {
        if j < |front| {
          assert es[j] == front[j];
          assert front[j].udata.conn in prefix;
        } else {
          assert es[j] == tail[j - |front|];
        }
      }
    }
  }

  /** One more admitted record appends its two registrations at the end. */
  lemma AdmittingOneMore(pending: seq<KEvent<Owner>>, script: seq<Io>, k0: nat, admitted: seq<EventData>, conn: EventData)
    ensures Admitting(pending, script, k0, admitted + [conn]) ==
      Admitting(pending, script, k0, admitted) + Entries(Next(script, k0 + |admitted|).accept.fd, Registrations, Client(conn))
  {
    assert (admitted + [conn])[..|admitted|] == admitted;
  }

  /** Admitting on top of any batch appends what admitting on an empty
      batch produces. */
  lemma {:induction false} AdmittingFrom(pending: seq<KEvent<Owner>>, script: seq<Io>, k0: nat, admitted: seq<EventData>)
    ensures Admitting(pending, script, k0, admitted) == pending + Admitting([], script, k0, admitted)
    decreases |admitted|
  {
    if admitted != [] {
      var last := |admitted| - 1;
      AdmittingFrom(pending, script, k0, admitted[..last]);
      var tail := Entries(Next(script, k0 + last).accept.fd, Registrations, Client(admitted[last]));
      assert pending + Admitting([], script, k0, admitted[..last]) + tail
        == pending + (Admitting([], script, k0, admitted[..last]) + tail);
    }
  }

  /** A record the accept loop admitted, as it stands: well formed, open
      with both cursors at 0, and apart from the batch's array. */
  ghost predicate Admitted(c: EventData, batch: ChangeBatch<Owner>)
    reads c, batch
  {
    c.Valid() && c.Idle() && c.Apart(batch)
  }

  /** No two of the records `rs` share a buffer: each record's malloc'd
      block holds its own. */
  predicate BuffersApart(rs: seq<EventData>) {
    forall i, j :: 0 <= i < j < |rs| ==> rs[i].buffer != rs[j].buffer
  }

  /** event_on_accept with the replies `a`, inside the loop of line 99:
      slots of the array as it was before the loop (`origin`) that are past
      events_used stay as they were. */
  method AcceptOne(batch: ChangeBatch<Owner>, a: AcceptReply, ghost origin: seq<KEvent<Owner>>)
    returns (out: Outcome, conn: EventData?)
    requires batch.Valid() && |origin| <= batch.alloc && batch.KeepsFrom(origin)
    modifies batch, batch.events
    ensures batch.Valid() && old(batch.alloc) <= batch.alloc && batch.KeepsFrom(origin)
    ensures batch.events == old(batch.events) || fresh(batch.events)
    ensures out == AcceptResult(a)
    ensures conn != null <==> out == Returned(1)
    ensures conn == null ==> batch.Pending() == old(batch.Pending())
    ensures conn != null ==>
      && fresh(conn) && fresh(conn.buffer) && Admitted(conn, batch)
      && batch.Pending() == old(batch.Pending()) + Entries(a.fd, Registrations, Client(conn))
  {
    ghost var prior := batch.events[..];
    ghost var used0 := batch.used;
    out, conn := OnAccept(batch, a);
    KeptChain(origin, prior, batch.events[..], used0, batch.used);
  }

  /** One call of event_on_accept inside the loop of line 99, with the
      replies of call k: the record it admits, if any, joins `admitted`.
      What the loop has established so far (`origin` is the array as it was
      before the loop, `base` the batch) is carried over. */
  method AdmitNext(batch: ChangeBatch<Owner>, script: seq<Io>, k0: nat, k: nat,
                   ghost origin: seq<KEvent<Owner>>, ghost base: seq<KEvent<Owner>>, admitted: seq<EventData>)
    returns (out: Outcome, admitted': seq<EventData>)
    requires batch.Valid() && |origin| <= batch.alloc && batch.KeepsFrom(origin)
    requires batch.Pending() == Admitting(base, script, k0, admitted)
    requires k0 + |admitted| == k
    requires forall c <- admitted :: Admitted(c, batch)
    requires BuffersApart(admitted)
    modifies batch, batch.events
    ensures batch.Valid() && old(batch.alloc) <= batch.alloc && batch.KeepsFrom(origin)
    ensures batch.events == old(batch.events) || fresh(batch.events)
    ensures out == AcceptResult(Next(script, k).accept)
    ensures |admitted'| == |admitted| + (if out == Returned(1) then 1 else 0)
    ensures forall c <- admitted' :: c in admitted || (fresh(c) && fresh(c.buffer))
    ensures forall c <- admitted' :: Admitted(c, batch)
    ensures BuffersApart(admitted') && admitted'[..|admitted|] == admitted
    ensures batch.Pending() == Admitting(base, script, k0, admitted')
  {
    var conn;
    out, conn := AcceptOne(batch, Next(script, k).accept, origin);
    if conn == null {
      admitted' := admitted;
    } else {
      var c: EventData := conn;
      AdmittingOneMore(base, script, k0, admitted, c);
      admitted' := admitted + [c];
      forall x <- admitted'
        ensures x in admitted || (fresh(x) && fresh(x.buffer))
        ensures Admitted(x, batch)
      {
        if x != c {
          assert x in admitted;
        }
      }
      forall i, j | 0 <= i < j < |admitted'|
        ensures admitted'[i].buffer != admitted'[j].buffer
      {
        if j == |admitted| {
          assert admitted'[i] in admitted;
        } else {
          assert admitted'[i] == admitted[i] && admitted'[j] == admitted[j];
        }
      }
    }
  }

  /** Line 99 for the listening socket: call event_on_accept, with the
      replies of calls k0, k0+1, ..., until it returns something other than
      1. Every call but the last returned 1 and admitted a fresh idle
      record. */
  method AcceptUntilBlocked(batch: ChangeBatch<Owner>, script: seq<Io>, k0: nat)
    returns (out: Outcome, k: nat, admitted: seq<EventData>)
    requires batch.Valid()
    modifies batch, batch.events
    ensures batch.Valid() && old(batch.alloc) <= batch.alloc
    ensures k0 < k && |admitted| == k - k0 - 1
    ensures out == AcceptResult(Next(script, k - 1).accept) && out != Returned(1)
    ensures forall j :: k0 <= j < k - 1 ==> AcceptResult(Next(script, j).accept) == Returned(1)
    ensures forall c <- admitted :: fresh(c) && fresh(c.buffer)
    ensures forall c <- admitted :: Admitted(c, batch)
    ensures BuffersApart(admitted)
    ensures batch.Pending() == old(batch.Pending()) + Admitting([], script, k0, admitted)
    ensures batch.KeepsFrom(old(batch.events[..]))
    ensures batch.events == old(batch.events) || fresh(batch.events)
  {
    ghost var origin := batch.events[..];
    ghost var base := batch.Pending();
    out, admitted := AdmitNext(batch, script, k0, k0, origin, base, []);
    k := k0 + 1;
    while out == Returned(1)
      invariant batch.Valid() && old(batch.alloc) <= batch.alloc && batch.KeepsFrom(origin)
      invariant batch.events == old(batch.events) || fresh(batch.events)
      invariant k0 < k && |admitted| == k - k0 - (if out == Returned(1) then 0 else 1)
      invariant out == AcceptResult(Next(script, k - 1).accept)
      invariant forall j :: k0 <= j < k - 1 ==> AcceptResult(Next(script, j).accept) == Returned(1)
      invariant forall c <- admitted :: fresh(c) && fresh(c.buffer)
      invariant forall c <- admitted :: Admitted(c, batch)
      invariant BuffersApart(admitted)
      invariant batch.Pending() == Admitting(base, script, k0, admitted)
      decreases |script| + 1 - k
    {
      out, admitted := AdmitNext(batch, script, k0, k, origin, base, admitted);
      k := k + 1;
    }
    AdmittingFrom(base, script, k0, admitted);
  }

  /** The handler lines 97-99 run for an event. The listener's on_write is
      NULL and its on_read is event_on_accept; a client's are event_on_write
      and event_on_read. */
  datatype Handler = Skip | Accept | WriteHandler(conn: EventData) | ReadHandler(conn: EventData)

  /** Routing by owner and filter. */
  function Route(e: KEvent<Owner>): (h: Handler)
    ensures h.Accept? <==> e.udata.Listener? && e.filter == EVFILT_READ
    ensures h.WriteHandler? <==> e.udata.Client? && e.filter == EVFILT_WRITE
    ensures h.ReadHandler? <==> e.udata.Client? && e.filter == EVFILT_READ
    ensures h.WriteHandler? || h.ReadHandler? ==> h.conn == e.udata.conn
    ensures e.udata.NoOwner? ==> h == Skip
  {
    match e.udata
    case NoOwner => Skip
    case Listener => if e.filter == EVFILT_READ then Accept else Skip
    case Client(c) =>
      if e.filter == EVFILT_WRITE then WriteHandler(c)
      else if e.filter == EVFILT_READ then ReadHandler(c)
      else Skip
  }

  /** The objects a handler for an event with owner `o` may change. */
  ghost function Footprint(o: Owner): set<object> {
    if o.Client? then {o.conn, o.conn.buffer} else {}
  }

  /** How the dispatch of one event ends: on to the next event, exit(1)
      inside a handler, or a read of a freed record. */
  datatype Verdict = Proceed | Exited | TouchedFreed

  /** What the dispatch of an event did to records: nothing, admitted new
      records (the accept loop), or took the owning client record from one
      state to another. */
  datatype Effect = Untouched | Accepted(admitted: seq<EventData>) | Stepped(before: ConnState, after: ConnState)

  /** One dispatched event: the entry read at its slot, the value
      events_used had when it was read, the handler it went to, the index of
      its first handler call in the iteration and how many calls it made,
      how its dispatch ended, the changes its handlers appended and what it
      did to records. */
  datatype Dispatched = Dispatched(event: KEvent<Owner>, usedAtRead: nat, handler: Handler,
                                   firstCall: nat, calls: nat, verdict: Verdict,
                                   appended: seq<KEvent<Owner>>, effect: Effect)

  /** No handler runs. Line 98 still reads a client record's on_write, which
      touches freed memory once the record was torn down. */
  predicate SkipHandled(d: Dispatched) {
    && d.calls == 0 && d.appended == []
    && (d.event.udata.Client? ==>
          d.effect.Stepped? && d.effect.after == d.effect.before
          && d.verdict == (if d.effect.before.closed then TouchedFreed else Proceed))
    && (!d.event.udata.Client? ==> d.effect == Untouched && d.verdict == Proceed)
  }

  /** The accept loop: every call but the last returned 1 and admitted a
      record with a buffer of its own, whose two registrations were appended
      in order, and the last
      call returned something other than 1; the process exits iff it failed. */
  predicate AcceptHandled(d: Dispatched, script: seq<Io>) {
    && d.effect.Accepted? && d.calls == |d.effect.admitted| + 1
    && BuffersApart(d.effect.admitted)
    && d.appended == Admitting([], script, d.firstCall, d.effect.admitted)
    && (forall j :: d.firstCall <= j < d.firstCall + d.calls - 1 ==> AcceptResult(Next(script, j).accept) == Returned(1))
    && AcceptResult(Next(script, d.firstCall + d.calls - 1).accept) != Returned(1)
    && d.verdict == (if AcceptResult(Next(script, d.firstCall + d.calls - 1).accept) == Fatal then Exited else Proceed)
  }

  /** event_on_write made one WriteStep from the record's state, and line 99
      touched the record if that freed it; a record freed earlier was
      touched on line 98 before any call. */
  predicate WriteHandled(d: Dispatched, script: seq<Io>) {
    && d.effect.Stepped? && Inv(d.effect.before)
    && (d.effect.before.closed ==>
          d.calls == 0 && d.appended == [] && d.effect.after == d.effect.before && d.verdict == TouchedFreed)
    && (!d.effect.before.closed ==>
          var step := WriteStep(d.effect.before, Next(script, d.firstCall).write);
          d.calls == 1 && d.effect.after == step.state
          && d.appended == Entries(d.event.ident, step.changes, d.event.udata)
          && d.verdict == (if step.out == Fatal then Exited else if step.state.closed then TouchedFreed else Proceed))
  }

  /** event_on_read made one ReadStep from the record's state; a record
      freed earlier was touched on line 98 before any call. */
  predicate ReadHandled(d: Dispatched, script: seq<Io>) {
    && d.effect.Stepped? && Inv(d.effect.before)
    && (d.effect.before.closed ==>
          d.calls == 0 && d.appended == [] && d.effect.after == d.effect.before && d.verdict == TouchedFreed)
    && (!d.effect.before.closed ==>
          var io := Next(script, d.firstCall);
          var step := ReadStep(d.effect.before, io.read, io.write);
          d.calls == 1 && d.effect.after == step.state
          && d.appended == Entries(d.event.ident, step.changes, d.event.udata)
          && d.verdict == (if step.out == Fatal then Exited else Proceed))
  }

  /** The event went to the handler Route picks, and that handler did what
      its step function or the accept loop says. */
  predicate Handled(d: Dispatched, script: seq<Io>) {
    && d.handler == Route(d.event)
    && match d.handler
       case Skip => SkipHandled(d)
       case Accept => AcceptHandled(d, script)
       case WriteHandler(_) => WriteHandled(d, script)
       case ReadHandler(_) => ReadHandled(d, script)
  }

  /** What a handled event can have done: the calls its handler's `while`
      makes (none when skipped, one at most for a client, at least one for
      the listener), at most one appended change unless it accepted, every
      appended change owned by the event's record or an admitted one, an
      exit only from a handler, and a touch only of a torn-down record. */
  lemma HandledBounds(d: Dispatched, script: seq<Io>)
    requires Handled(d, script)
    ensures d.handler.Skip? ==> d.calls == 0
    ensures d.handler.Accept? ==> d.calls >= 1
    ensures d.handler.ReadHandler? || d.handler.WriteHandler? ==> d.calls <= 1
    ensures !d.handler.Accept? ==> |d.appended| <= 1
    ensures forall j :: 0 <= j < |d.appended| ==>
      && d.appended[j].udata.Client?
      && (d.appended[j].udata == d.event.udata || (d.effect.Accepted? && d.appended[j].udata.conn in d.effect.admitted))
    ensures d.verdict == Exited ==> !d.handler.Skip?
    ensures d.verdict == TouchedFreed ==> d.event.udata.Client? && d.effect.Stepped? && d.effect.after.closed
  {
    if d.handler.Accept? {
      AdmittingOwned([], script, d.firstCall, d.effect.admitted);
    }
  }

  /** The handlers re-read the event through its pointer into the array
      after appending to the same array: line 99 reads e->filter after
      event_on_write, and event_flush_write reads event->ident (line 105)
      after event_on_read appended on line 148. While the array is not
      moved, a slot those appends overwrote reads the same: every change a
      client handler appends carries the event's ident, and the only change
      the write handler appends is a write-filter one, so line 99 still does
      not run the read handler. */
  lemma RereadsAgree(s: ConnState, rd: ReadReply, w: WriteReply, ident: int, o: Owner)
    requires Inv(s) && !s.closed
    ensures forall x <- Entries(ident, WriteStep(s, w).changes, o) :: x.ident == ident && x.filter == EVFILT_WRITE
    ensures forall x <- Entries(ident, ReadStep(s, rd, w).changes, o) :: x.ident == ident
  {
  }

  /** Line 99 for a read event on the listening socket: the accept loop,
      starting at handler call k0. */
  method DispatchAccept(e: KEvent<Owner>, batch: ChangeBatch<Owner>, script: seq<Io>, k0: nat)
    returns (d: Dispatched)
    requires batch.Valid() && e.udata.Listener? && e.filter == EVFILT_READ
    modifies batch, batch.events
    ensures batch.Valid() && old(batch.alloc) <= batch.alloc
    ensures batch.Pending() == old(batch.Pending()) + d.appended
    ensures batch.KeepsFrom(old(batch.events[..]))
    ensures batch.events == old(batch.events) || fresh(batch.events)
    ensures d.event == e && d.usedAtRead == old(batch.used) && d.firstCall == k0
    ensures d.handler == Accept && AcceptHandled(d, script)
    ensures forall c <- d.effect.admitted :: fresh(c) && fresh(c.buffer) && Admitted(c, batch)
  {
    var used := batch.used;
    var out, k, admitted := AcceptUntilBlocked(batch, script, k0);
    var appended := batch.Since(used);
    d := Dispatched(e, used, Accept, k0, k - k0, if out == Fatal then Exited else Proceed, appended, Accepted(admitted));
  }

  /** Lines 98-99 for an event owned by the listening socket: only a read
      event has a handler, the accept loop. */
  method DispatchListener(e: KEvent<Owner>, batch: ChangeBatch<Owner>, script: seq<Io>, k0: nat)
    returns (d: Dispatched)
    requires batch.Valid() && e.udata.Listener?
    modifies batch, batch.events
    ensures batch.Valid() && old(batch.alloc) <= batch.alloc
    ensures batch.Pending() == old(batch.Pending()) + d.appended
    ensures batch.KeepsFrom(old(batch.events[..]))
    ensures batch.events == old(batch.events) || fresh(batch.events)
    ensures d.event == e && d.usedAtRead == old(batch.used) && d.firstCall == k0
    ensures Handled(d, script)
    ensures d.effect.Accepted? ==> forall c <- d.effect.admitted :: fresh(c) && fresh(c.buffer) && Admitted(c, batch)
  {
    if e.filter == EVFILT_READ {
      d := DispatchAccept(e, batch, script, k0);
    } else {
      d := Dispatched(e, batch.used, Skip, k0, 0, Proceed, [], Untouched);
    }
  }

  /** Line 98 for a write event owned by open client record `c`: one call
      of event_on_write with the replies of call k0; line 99 then reads
      on_read, which touches the record if the call freed it. */
  method DispatchWrite(e: KEvent<Owner>, c: EventData, batch: ChangeBatch<Owner>, script: seq<Io>, k0: nat)
    returns (d: Dispatched)
    requires e.udata == Client(c) && e.filter == EVFILT_WRITE
    requires batch.Valid() && c.Valid() && c.Apart(batch) && !c.closed
    modifies batch, batch.events, c
    ensures batch.Valid() && old(batch.alloc) <= batch.alloc && c.Valid() && c.Apart(batch)
    ensures batch.Pending() == old(batch.Pending()) + d.appended
    ensures batch.KeepsFrom(old(batch.events[..]))
    ensures batch.events == old(batch.events) || fresh(batch.events)
    ensures d.event == e && d.usedAtRead == old(batch.used) && d.firstCall == k0
    ensures d.effect == Stepped(old(c.State()), c.State())
    ensures WriteHandled(d, script) && d.handler == Route(e)
  {
    var before := c.State();
    var used := batch.used;
    var out := c.OnWrite(e, batch, Next(script, k0).write);
    var appended := batch.Since(used);
    var verdict := if out == Fatal then Exited else if c.closed then TouchedFreed else Proceed;
    d := Dispatched(e, used, WriteHandler(c), k0, 1, verdict, appended, Stepped(before, c.State()));
  }

  /** Line 99 for a read event owned by open client record `c`: one call of
      event_on_read with the replies of call k0. */
  method DispatchRead(e: KEvent<Owner>, c: EventData, batch: ChangeBatch<Owner>, script: seq<Io>, k0: nat)
    returns (d: Dispatched)
    requires e.udata == Client(c) && e.filter == EVFILT_READ
    requires batch.Valid() && c.Valid() && c.Apart(batch) && !c.closed
    modifies batch, batch.events, c, c.buffer
    ensures batch.Valid() && old(batch.alloc) <= batch.alloc && c.Valid() && c.Apart(batch)
    ensures batch.Pending() == old(batch.Pending()) + d.appended
    ensures batch.KeepsFrom(old(batch.events[..]))
    ensures batch.events == old(batch.events) || fresh(batch.events)
    ensures d.event == e && d.usedAtRead == old(batch.used) && d.firstCall == k0
    ensures d.effect == Stepped(old(c.State()), c.State())
    ensures ReadHandled(d, script) && d.handler == Route(e)
  {
    var before := c.State();
    var used := batch.used;
    var io := Next(script, k0);
    var out := c.OnRead(e, batch, io.read, io.write);
    var appended := batch.Since(used);
    var verdict := if out == Fatal then Exited else Proceed;
    d := Dispatched(e, used, ReadHandler(c), k0, 1, verdict, appended, Stepped(before, c.State()));
  }

  /** Lines 98-99 for an event owned by client record `c`. Line 98 reads
      c's on_write first, so a record that is already freed is touched
      before anything else; otherwise the filter picks the handler. */
  method DispatchClient(e: KEvent<Owner>, c: EventData, batch: ChangeBatch<Owner>, script: seq<Io>, k0: nat)
    returns (d: Dispatched)
    requires e.udata == Client(c)
    requires batch.Valid() && c.Valid() && c.Apart(batch)
    modifies batch, batch.events, c, c.buffer
    ensures batch.Valid() && old(batch.alloc) <= batch.alloc && c.Valid() && c.Apart(batch)
    ensures batch.Pending() == old(batch.Pending()) + d.appended
    ensures batch.KeepsFrom(old(batch.events[..]))
    ensures batch.events == old(batch.events) || fresh(batch.events)
    ensures d.event == e && d.usedAtRead == old(batch.used) && d.firstCall == k0
    ensures d.effect == Stepped(old(c.State()), c.State())
    ensures Handled(d, script)
  {
    if c.closed {
      var s := c.State();
      d := Dispatched(e, batch.used, Route(e), k0, 0, TouchedFreed, [], Stepped(s, s));
    } else if e.filter == EVFILT_WRITE {
      d := DispatchWrite(e, c, batch, script, k0);
    } else if e.filter == EVFILT_READ {
      d := DispatchRead(e, c, batch, script, k0);
    } else {
      var s := c.State();
      d := Dispatched(e, batch.used, Skip, k0, 0, Proceed, [], Stepped(s, s));
    }
  }

  /** Lines 95-99 for one event `e` read from the array: a null owner is
      skipped, the others go to their handlers. */
  method Dispatch(e: KEvent<Owner>, batch: ChangeBatch<Owner>, script: seq<Io>, k0: nat)
    returns (d: Dispatched)
    requires batch.Valid()
    requires e.udata.Client? ==> e.udata.conn.Valid() && e.udata.conn.Apart(batch)
    modifies batch, batch.events, Footprint(e.udata)
    ensures batch.Valid() && old(batch.alloc) <= batch.alloc
    ensures batch.Pending() == old(batch.Pending()) + d.appended
    ensures batch.KeepsFrom(old(batch.events[..]))
    ensures batch.events == old(batch.events) || fresh(batch.events)
    ensures d.event == e && d.usedAtRead == old(batch.used) && d.firstCall == k0
    ensures Handled(d, script)
    ensures e.udata.Client? ==>
      && e.udata.conn.Valid() && e.udata.conn.Apart(batch)
      && d.effect == Stepped(old(e.udata.conn.State()), e.udata.conn.State())
    ensures d.effect.Accepted? ==> forall c <- d.effect.admitted :: fresh(c) && fresh(c.buffer) && Admitted(c, batch)
  {
    match e.udata
    case NoOwner =>
      d := Dispatched(e, batch.used, Skip, k0, 0, Proceed, [], Untouched);
    case Listener =>
      d := DispatchListener(e, batch, script, k0);
    case Client(c) =>
      d := DispatchClient(e, c, batch, script, k0);
  }

  /** What kevent(2) on line 89 returns: failure (on_error exits), or the
      ready events, which it writes into the batch's own array. */
  datatype PollReply = PollFailed | Ready(events: seq<KEvent<Owner>>)

  /** How an iteration of the event loop ends: the loop goes round again,
      the process exited, or the dispatch of event `index` read a freed
      record (undefined behaviour in the source, where the model stops). */
  datatype TurnResult = Continue | Exit | UseAfterFree(index: nat)

  /** How the iteration ends after the dispatch of event i ended with `v`. */
  function Conclude(v: Verdict, i: nat): (r: TurnResult)
    ensures r == Continue <==> v == Proceed
    ensures r == Exit <==> v == Exited
    ensures r.UseAfterFree? <==> v == TouchedFreed
    ensures r.UseAfterFree? ==> r.index == i
  {
    match v
    case Proceed => Continue
    case Exited => Exit
    case TouchedFreed => UseAfterFree(i)
  }

  /** How an iteration that dispatched `trace` ends. */
  function Outcome(trace: seq<Dispatched>): TurnResult {
    if trace == [] then Continue else Conclude(trace[|trace| - 1].verdict, |trace| - 1)
  }

  /** The index of the next handler call after `trace`. */
  function NextCall(trace: seq<Dispatched>): nat {
    if trace == [] then 0 else trace[|trace| - 1].firstCall + trace[|trace| - 1].calls
  }

  /** The changes the handlers of `trace` appended, event after event. */
  function Appended(trace: seq<Dispatched>): seq<KEvent<Owner>> {
    if trace == [] then [] else Appended(trace[..|trace| - 1]) + trace[|trace| - 1].appended
  }

  /** Every event of `trace` was handled as Route and the handlers say. */
  predicate AllHandled(trace: seq<Dispatched>, script: seq<Io>) {
    forall j :: 0 <= j < |trace| ==> Handled(trace[j], script)
  }

  /** The handler calls of the events follow each other: each event's first
      call comes right after the calls of the events before it. */
  predicate Consecutive(trace: seq<Dispatched>) {
    forall j :: 0 <= j < |trace| ==> trace[j].firstCall == NextCall(trace[..j])
  }

  /** Every event but the last went on to the next one. */
  predicate ProceededBefore(trace: seq<Dispatched>) {
    forall j :: 0 <= j < |trace| - 1 ==> trace[j].verdict == Proceed
  }

  /** No event of `trace` went to the accept handler. */
  predicate NoAccept(trace: seq<Dispatched>) {
    forall l :: 0 <= l < |trace| ==> !trace[l].handler.Accept?
  }

  /** Each dispatched event is what its slot held when it was read: the
      change appended there in this iteration if events_used had passed the
      slot, and otherwise the ready event the kernel wrote there. */
  predicate ReadBack(trace: seq<Dispatched>, pending: seq<KEvent<Owner>>, ready: seq<KEvent<Owner>>) {
    && |trace| <= |ready|
    && forall j :: 0 <= j < |trace| ==>
      && trace[j].usedAtRead <= |pending|
      && trace[j].event == (if j < trace[j].usedAtRead then pending[j] else ready[j])
  }

  /** While no accept has run, events_used had not passed the slot being
      read. */
  predicate InPlaceUntilAccept(trace: seq<Dispatched>) {
    forall j :: 0 <= j < |trace| && NoAccept(trace[..j]) ==> trace[j].usedAtRead <= j
  }

  /** The handling facts of the dispatch loop survive one more handled
      event `d` whose first call follows those of `trace`, as long as the
      last event of `trace` went on. */
  lemma HandledExtends(trace: seq<Dispatched>, d: Dispatched, script: seq<Io>)
    requires AllHandled(trace, script) && Handled(d, script)
    requires Consecutive(trace) && d.firstCall == NextCall(trace)
    requires ProceededBefore(trace) && Outcome(trace) == Continue
    ensures AllHandled(trace + [d], script)
    ensures Consecutive(trace + [d]) && NextCall(trace + [d]) == d.firstCall + d.calls
    ensures ProceededBefore(trace + [d]) && Outcome(trace + [d]) == Conclude(d.verdict, |trace|)
  {
    AllHandledExtends(trace, d, script);
    ConsecutiveExtends(trace, d);
    ProceededExtends(trace, d);
  }

  /** AllHandled survives appending a handled event. */
  lemma AllHandledExtends(trace: seq<Dispatched>, d: Dispatched, script: seq<Io>)
    requires AllHandled(trace, script) && Handled(d, script)
    ensures AllHandled(trace + [d], script)
  {
    var t := trace + [d];
    forall j | 0 <= j < |t|
      ensures Handled(t[j], script)
    {
      if j < |trace| {
        assert t[j] == trace[j];
      }
    }
  }

  /** Consecutive survives appending an event whose first call follows
      the calls of `trace`. */
  lemma ConsecutiveExtends(trace: seq<Dispatched>, d: Dispatched)
    requires Consecutive(trace) && d.firstCall == NextCall(trace)
    ensures Consecutive(trace + [d]) && NextCall(trace + [d]) == d.firstCall + d.calls
  {
    var t := trace + [d];
    assert t[..|trace|] == trace;
    forall j | 0 <= j < |t|
      ensures t[j].firstCall == NextCall(t[..j])
    {
      if j < |trace| {
        assert t[j] == trace[j];
        assert t[..j] == trace[..j];
      }
    }
  }

  /** ProceededBefore survives appending an event after one that went on. */
  lemma ProceededExtends(trace: seq<Dispatched>, d: Dispatched)
    requires ProceededBefore(trace) && Outcome(trace) == Continue
    ensures ProceededBefore(trace + [d]) && Outcome(trace + [d]) == Conclude(d.verdict, |trace|)
  {
    var t := trace + [d];
    forall j | 0 <= j < |t| - 1
      ensures t[j].verdict == Proceed
    {
      assert t[j] == trace[j];
    }
  }

  /** The read-back facts of the dispatch loop survive one more event `d`
      read at slot |trace| when events_used was |pending|, whose handlers
      appended d.appended. */
  lemma ReadBackExtends(trace: seq<Dispatched>, d: Dispatched, pending: seq<KEvent<Owner>>, ready: seq<KEvent<Owner>>)
    requires ReadBack(trace, pending, ready) && |trace| < |ready|
    requires d.usedAtRead == |pending|
    requires d.event == (if |trace| < d.usedAtRead then pending[|trace|] else ready[|trace|])
    requires !d.handler.Accept? ==> |d.appended| <= 1
    requires InPlaceUntilAccept(trace)
    requires NoAccept(trace) ==> |pending| <= |trace|
    ensures ReadBack(trace + [d], pending + d.appended, ready)
    ensures InPlaceUntilAccept(trace + [d])
    ensures NoAccept(trace + [d]) ==> |pending + d.appended| <= |trace| + 1
  {
    var t := trace + [d];
    var pending' := pending + d.appended;
    forall j | 0 <= j < |t|
      ensures t[j].usedAtRead <= |pending'|
      ensures t[j].event == (if j < t[j].usedAtRead then pending'[j] else ready[j])
    {
      if j < |trace| {
        assert t[j] == trace[j];
      } else {
        assert t[j] == d;
      }
      if j < t[j].usedAtRead {
        assert pending'[j] == pending[j];
      }
    }
    assert t[..|trace|] == trace;
    if NoAccept(t) {
      assert NoAccept(trace) by {
        forall l | 0 <= l < |trace|
          ensures !trace[l].handler.Accept?
        {
          assert t[l] == trace[l];
        }
      }
      assert !t[|trace|].handler.Accept?;
    }
    forall j | 0 <= j < |t| && NoAccept(t[..j])
      ensures t[j].usedAtRead <= j
    {
      if j < |trace| {
        assert t[..j] == trace[..j];
      }
    }
  }

  /** While no accept ran, every client handler appended at most one change,
      so events_used never passed the slot being read: the first events are
      dispatched exactly as the kernel reported them. */
  lemma {:induction false} ExactUntilAccept(trace: seq<Dispatched>, pending: seq<KEvent<Owner>>, ready: seq<KEvent<Owner>>)
    requires ReadBack(trace, pending, ready)
    requires InPlaceUntilAccept(trace)
    ensures forall j :: 0 <= j < |trace| && NoAccept(trace[..j]) ==> trace[j].event == ready[j]
  {
    forall j | 0 <= j < |trace| && NoAccept(trace[..j])
      ensures trace[j].event == ready[j]
    {
      assert !(j < trace[j].usedAtRead);
    }
  }

  /** The buffers of a set of records. */
  ghost function Buffers(records: set<EventData>): set<object> {
    set c | c in records :: c.buffer as object
  }

  /** No two records of `rs` share a buffer. */
  predicate DistinctBuffers(rs: set<EventData>) {
    forall x, y | x in rs && y in rs && x != y :: x.buffer != y.buffer
  }

  /** What the dispatch loop keeps true of the shared array: the slots from
      events_used on still hold the ready events, every change appended so
      far belongs to a known record, and so does every ready event with a
      client owner; known records are well formed, apart from the array and
      from each other's buffers. */
  ghost predicate Consistent(batch: ChangeBatch<Owner>, ready: seq<KEvent<Owner>>, known: set<EventData>)
    reads batch, batch.events, known
  {
    && batch.Valid() && |ready| <= batch.alloc
    && (forall j :: batch.used <= j < |ready| ==> batch.events[j] == ready[j])
    && (forall c <- known :: c.Valid() && c.Apart(batch))
    && DistinctBuffers(known)
    && (forall j :: 0 <= j < batch.used ==>
         batch.events[j].udata.Client? && batch.events[j].udata.conn in known)
    && (forall j :: 0 <= j < |ready| && ready[j].udata.Client? ==> ready[j].udata.conn in known)
  }

  /** The records an event's dispatch admitted. */
  function AdmittedBy(d: Dispatched): set<EventData> {
    if d.effect.Accepted? then set c | c in d.effect.admitted else {}
  }

  /** Dispatch, seen from the loop: the records in `known` stay well formed
      and apart from the array, the records the event admitted join them
      idle and with buffers of their own, every change appended belongs to
      one of them, the event's own record takes the step the dispatch
      records and every other known record keeps its state. */
  method DispatchTracked(e: KEvent<Owner>, batch: ChangeBatch<Owner>, script: seq<Io>, k: nat, ghost known: set<EventData>)
    returns (d: Dispatched)
    requires batch.Valid() && forall c <- known :: c.Valid() && c.Apart(batch)
    requires DistinctBuffers(known)
    requires e.udata.Client? ==> e.udata.conn in known
    modifies batch, batch.events, Footprint(e.udata)
    ensures batch.Valid() && old(batch.alloc) <= batch.alloc
    ensures batch.Pending() == old(batch.Pending()) + d.appended
    ensures batch.KeepsFrom(old(batch.events[..]))
    ensures batch.events == old(batch.events) || fresh(batch.events)
    ensures d.event == e && d.usedAtRead == old(batch.used) && d.firstCall == k
    ensures Handled(d, script)
    ensures forall c <- known + AdmittedBy(d) :: c.Valid() && c.Apart(batch)
    ensures forall c <- AdmittedBy(d) :: fresh(c) && fresh(c.buffer) && c.Idle()
    ensures DistinctBuffers(known + AdmittedBy(d))
    ensures forall j :: 0 <= j < |d.appended| ==>
      d.appended[j].udata.Client? && d.appended[j].udata.conn in known + AdmittedBy(d)
    ensures e.udata.Client? ==> d.effect == Stepped(old(e.udata.conn.State()), e.udata.conn.State())
    ensures forall c <- known :: e.udata != Client(c) ==> c.State() == old(c.State())
  {
    d := Dispatch(e, batch, script, k);
    HandledBounds(d, script);
    forall c <- known + AdmittedBy(d)
      ensures c.Valid() && c.Apart(batch)
    {
      if c !in known {
        assert c in d.effect.admitted;
      }
    }
    forall x, y | x in known + AdmittedBy(d) && y in known + AdmittedBy(d) && x != y
      ensures x.buffer != y.buffer
    {
      if x !in known && y !in known {
        var i :| 0 <= i < |d.effect.admitted| && d.effect.admitted[i] == x;
        var j :| 0 <= j < |d.effect.admitted| && d.effect.admitted[j] == y;
        assert i != j;
      }
    }
  }

  /** Lines 94-99 for slot i: read the entry from the array as it is now and
      dispatch it, starting at handler call k. */
  method DispatchAt(batch: ChangeBatch<Owner>, ready: seq<KEvent<Owner>>, script: seq<Io>, k: nat, i: nat,
                    ghost known: set<EventData>)
    returns (d: Dispatched)
    requires Consistent(batch, ready, known) && i < |ready|
    modifies batch, batch.events, known, Buffers(known)
    ensures Consistent(batch, ready, known + AdmittedBy(d)) && old(batch.alloc) <= batch.alloc
    ensures forall c <- AdmittedBy(d) :: fresh(c) && fresh(c.buffer) && c.Idle()
    ensures d.event.udata.Client? ==> d.event.udata.conn in known
    ensures forall c <- known :: d.event.udata == Client(c) ==> d.effect == Stepped(old(c.State()), c.State())
    ensures forall c <- known :: d.event.udata != Client(c) ==> c.State() == old(c.State())
    ensures batch.events == old(batch.events) || fresh(batch.events)
    ensures batch.Pending() == old(batch.Pending()) + d.appended
    ensures d.usedAtRead == old(batch.used) && d.firstCall == k
    ensures d.event == (if i < d.usedAtRead then old(batch.Pending())[i] else ready[i])
    ensures Handled(d, script)
  {
    var e := batch.events[i];
    ghost var pending := batch.Pending();
    assert e == (if i < batch.used then pending[i] else ready[i]);
    assert e.udata.Client? ==> e.udata.conn in known;
    assert forall j :: 0 <= j < |pending| ==> pending[j].udata.Client? && pending[j].udata.conn in known;
    d := DispatchTracked(e, batch, script, k, known);
    ghost var known' := known + AdmittedBy(d);
    forall j | 0 <= j < batch.used
      ensures batch.events[j].udata.Client? && batch.events[j].udata.conn in known'
    {
      assert batch.events[j] == batch.Pending()[j];
      if j < d.usedAtRead {
        assert batch.Pending()[j] == pending[j];
      } else {
        assert batch.Pending()[j] == d.appended[j - d.usedAtRead];
      }
    }
  }

  /** The state record `c` is in after `trace`, when it started in `s0`:
      the state the last event it owned left it in. */
  function StateAfter(trace: seq<Dispatched>, c: EventData, s0: ConnState): ConnState {
    if trace == [] then s0
    else
      var d := trace[|trace| - 1];
      if d.event.udata == Client(c) && d.effect.Stepped? then d.effect.after
      else StateAfter(trace[..|trace| - 1], c, s0)
  }

  /** One more event: its record takes the event's new state, the others
      keep theirs. */
  lemma StateAfterSnoc(trace: seq<Dispatched>, d: Dispatched, c: EventData, s0: ConnState)
    ensures StateAfter(trace + [d], c, s0) ==
      if d.event.udata == Client(c) && d.effect.Stepped? then d.effect.after else StateAfter(trace, c, s0)
  {
    assert (trace + [d])[..|trace|] == trace;
  }

  /** A record no event of `trace` owns is still in its starting state. */
  lemma {:induction false} StateAfterUntouched(trace: seq<Dispatched>, c: EventData, s0: ConnState)
    requires forall j :: 0 <= j < |trace| ==> trace[j].event.udata != Client(c)
    ensures StateAfter(trace, c, s0) == s0
  {
    if trace != [] {
      var front := trace[..|trace| - 1];
      assert forall j :: 0 <= j < |front| ==> front[j] == trace[j];
      StateAfterUntouched(front, c, s0);
    }
  }

  /** Every client event of `trace` is owned by a record of `known`. */
  predicate Owned(trace: seq<Dispatched>, known: set<EventData>) {
    forall j :: 0 <= j < |trace| && trace[j].event.udata.Client? ==> trace[j].event.udata.conn in known
  }

  /** Each client event started from the state the events before it left
      its record in, the records starting in `init`. */
  predicate Linked(trace: seq<Dispatched>, init: map<EventData, ConnState>) {
    forall j :: 0 <= j < |trace| && trace[j].event.udata.Client? && trace[j].event.udata.conn in init ==>
      && trace[j].effect.Stepped?
      && trace[j].effect.before == StateAfter(trace[..j], trace[j].event.udata.conn, init[trace[j].event.udata.conn])
  }

  /** Linked survives one more event that started from the state `trace`
      left its record in, when `init` only gains records no event of
      `trace` owns. */
  lemma LinkedExtends(trace: seq<Dispatched>, d: Dispatched, init: map<EventData, ConnState>, init': map<EventData, ConnState>)
    requires Linked(trace, init) && Owned(trace, init.Keys)
    requires forall c <- init :: c in init' && init'[c] == init[c]
    requires d.event.udata.Client? && d.event.udata.conn in init' ==>
      d.effect.Stepped? && d.effect.before == StateAfter(trace, d.event.udata.conn, init'[d.event.udata.conn])
    ensures Linked(trace + [d], init')
  {
    var t := trace + [d];
    forall j | 0 <= j < |t| && t[j].event.udata.Client? && t[j].event.udata.conn in init'
      ensures t[j].effect.Stepped?
      ensures t[j].effect.before == StateAfter(t[..j], t[j].event.udata.conn, init'[t[j].event.udata.conn])
    {
      if j < |trace| {
        assert t[j] == trace[j] && t[..j] == trace[..j];
      } else {
        assert t[..j] == trace;
      }
    }
  }

  /** The record facts of the dispatch loop survive one more event `d`:
      `pre` and `post` are the records' states before and after it, `init'`
      adds the starting states of the records it admitted. */
  lemma StatesExtend(trace: seq<Dispatched>, d: Dispatched, known: set<EventData>, known': set<EventData>,
                     init: map<EventData, ConnState>, init': map<EventData, ConnState>,
                     pre: map<EventData, ConnState>, post: map<EventData, ConnState>)
    requires init.Keys == known && known <= known' && init'.Keys == known'
    requires forall c <- known :: init'[c] == init[c]
    requires known <= pre.Keys && known' <= post.Keys
    requires Owned(trace, known) && Linked(trace, init)
    requires forall c <- known :: pre[c] == StateAfter(trace, c, init[c])
    requires d.event.udata.Client? ==> d.event.udata.conn in known
    requires forall c <- known :: d.event.udata == Client(c) ==> d.effect == Stepped(pre[c], post[c])
    requires forall c <- known :: d.event.udata != Client(c) ==> post[c] == pre[c]
    requires forall c <- known' :: c !in known ==> init'[c] == post[c]
    ensures forall c <- known' :: post[c] == StateAfter(trace + [d], c, init'[c])
    ensures Owned(trace + [d], known') && Linked(trace + [d], init')
  {
    var t := trace + [d];
    forall c <- known'
      ensures post[c] == StateAfter(t, c, init'[c])
    {
      StateAfterSnoc(trace, d, c, init'[c]);
      if c !in known {
        forall j | 0 <= j < |t|
          ensures t[j].event.udata != Client(c)
        {
          if j < |trace| {
            assert t[j] == trace[j];
          }
        }
        StateAfterUntouched(t, c, init'[c]);
      }
    }
    LinkedExtends(trace, d, init, init');
    forall j | 0 <= j < |t| && t[j].event.udata.Client?
      ensures t[j].event.udata.conn in known'
    {
      if j < |trace| {
        assert t[j] == trace[j];
      }
    }
  }

  /** The state of every record in rs, read from the heap. */
  ghost function Snapshot(rs: set<EventData>): map<EventData, ConnState>
    reads rs, Buffers(rs)
  {
    map c | c in rs :: c.State()
  }

  /** A record state as a freshly allocated event_data leaves it. */
  predicate IdleState(s: ConnState) {
    !s.closed && s.read == 0 && s.write == 0
  }

  /** One dispatched event d takes the records' states from pre to post:
      the record it names makes the step d records, every other record is
      untouched, and the records it adds start idle. */
  predicate StepsOne(d: Dispatched, pre: map<EventData, ConnState>, post: map<EventData, ConnState>) {
    && pre.Keys <= post.Keys
    && (d.event.udata.Client? ==> d.event.udata.conn in pre.Keys)
    && (forall c <- pre.Keys :: d.event.udata == Client(c) ==> d.effect == Stepped(pre[c], post[c]))
    && (forall c <- pre.Keys :: d.event.udata != Client(c) ==> post[c] == pre[c])
    && (forall c <- post.Keys :: c in pre.Keys || IdleState(post[c]))
  }

  /** The starting states init, extended by the records first seen in now. */
  function Grow(init: map<EventData, ConnState>, now: map<EventData, ConnState>): (init': map<EventData, ConnState>)
    ensures init'.Keys == now.Keys
    ensures forall c <- now.Keys :: init'[c] == if c in init then init[c] else now[c]
  {
    map c | c in now.Keys :: if c in init then init[c] else now[c]
  }

  /** The states now of the records in init.Keys are what the trace made of
      their starting states init: the records of `records` started in start,
      the others idle, and each event of the trace names a known record and
      starts from the state the earlier events left it in. */
  ghost predicate Tracks(trace: seq<Dispatched>, records: set<EventData>, start: map<EventData, ConnState>,
                         init: map<EventData, ConnState>, now: map<EventData, ConnState>)
  {
    && init.Keys == now.Keys && records <= init.Keys && records <= start.Keys
    && Owned(trace, init.Keys) && Linked(trace, init)
    && (forall c <- records :: init[c] == start[c])
    && (forall c <- init.Keys :: c in records || IdleState(init[c]))
    && (forall c <- init.Keys :: now[c] == StateAfter(trace, c, init[c]))
  }

  lemma TracksExtend(trace: seq<Dispatched>, d: Dispatched, records: set<EventData>, start: map<EventData, ConnState>,
                     init: map<EventData, ConnState>, pre: map<EventData, ConnState>, post: map<EventData, ConnState>)
    requires Tracks(trace, records, start, init, pre) && StepsOne(d, pre, post)
    ensures Tracks(trace + [d], records, start, Grow(init, post), post)
  {
    var init' := Grow(init, post);
    StatesExtend(trace, d, init.Keys, post.Keys, init, init', pre, post);
  }

  /** What DispatchNext promises about the records, restated on snapshots. */
  twostate lemma SnapshotStep(new d: Dispatched, known: set<EventData>, new known': set<EventData>)
    requires known <= known'
    requires forall c <- known' :: c in known || c.Idle()
    requires d.event.udata.Client? ==> d.event.udata.conn in known
    requires forall c <- known :: d.event.udata == Client(c) ==> d.effect == Stepped(old(c.State()), c.State())
    requires forall c <- known :: d.event.udata != Client(c) ==> c.State() == old(c.State())
    ensures StepsOne(d, old(Snapshot(known)), Snapshot(known'))
  {
  }

  /** The body of the `for` loop of lines 93-100 for slot |trace|: dispatch
      the entry found there and record it. */
  method DispatchNext(batch: ChangeBatch<Owner>, ready: seq<KEvent<Owner>>, script: seq<Io>,
                      trace: seq<Dispatched>, ghost known: set<EventData>)
    returns (trace': seq<Dispatched>, ghost known': set<EventData>)
    requires Consistent(batch, ready, known) && |trace| < |ready|
    requires AllHandled(trace, script) && Consecutive(trace) && ProceededBefore(trace) && Outcome(trace) == Continue
    requires ReadBack(trace, batch.Pending(), ready) && InPlaceUntilAccept(trace)
    requires NoAccept(trace) ==> batch.used <= |trace|
    modifies batch, batch.events, known, Buffers(known)
    ensures Consistent(batch, ready, known') && known <= known' && old(batch.alloc) <= batch.alloc
    ensures forall c <- known' :: c in known || (fresh(c) && fresh(c.buffer))
    ensures batch.events == old(batch.events) || fresh(batch.events)
    ensures |trace'| == |trace| + 1 && trace'[..|trace|] == trace && trace' == trace + [trace'[|trace|]]
    ensures batch.Pending() == old(batch.Pending()) + trace'[|trace|].appended
    ensures Appended(trace') == Appended(trace) + trace'[|trace|].appended
    ensures AllHandled(trace', script) && Consecutive(trace') && ProceededBefore(trace')
    ensures Outcome(trace') == Conclude(trace'[|trace|].verdict, |trace|)
    ensures ReadBack(trace', batch.Pending(), ready) && InPlaceUntilAccept(trace')
    ensures NoAccept(trace') ==> batch.used <= |trace'|
    ensures forall c <- known' :: c in known || c.Idle()
    ensures trace'[|trace|].event.udata.Client? ==> trace'[|trace|].event.udata.conn in known
    ensures forall c <- known :: trace'[|trace|].event.udata == Client(c) ==> trace'[|trace|].effect == Stepped(old(c.State()), c.State())
    ensures forall c <- known :: trace'[|trace|].event.udata != Client(c) ==> c.State() == old(c.State())
  {
    ghost var pending := batch.Pending();
    var d := DispatchAt(batch, ready, script, NextCall(trace), |trace|, known);
    known' := known + AdmittedBy(d);
    trace' := trace + [d];
    HandledExtends(trace, d, script);
    HandledBounds(d, script);
    ReadBackExtends(trace, d, pending, ready);
    assert trace'[..|trace|] == trace;
    assert trace'[|trace|] == d;
  }

  /** The `for` loop of lines 93-100: dispatch events[0..|ready|) one by
      one, re-reading each slot from the array, until the end or until a
      handler exits or touches a freed record. `init` is each known
      record's state before the loop (idle for an admitted one); each ends
      in the state the last event naming it left. */
  method DispatchAll(batch: ChangeBatch<Owner>, ready: seq<KEvent<Owner>>, script: seq<Io>, ghost records: set<EventData>)
    returns (result: TurnResult, trace: seq<Dispatched>, ghost known: set<EventData>, ghost init: map<EventData, ConnState>)
    requires Consistent(batch, ready, records) && batch.used == 0
    modifies batch, batch.events, records, Buffers(records)
    ensures Consistent(batch, ready, known) && records <= known
    ensures init.Keys == known && Owned(trace, known) && Linked(trace, init)
    ensures forall c <- records :: init[c] == old(c.State())
    ensures forall c <- known :: c in records || (!init[c].closed && init[c].read == 0 && init[c].write == 0)
    ensures forall c <- known :: c.State() == StateAfter(trace, c, init[c])
    ensures forall c <- known :: c in records || (fresh(c) && fresh(c.buffer))
    ensures old(batch.alloc) <= batch.alloc
    ensures batch.events == old(batch.events) || fresh(batch.events)
    ensures batch.Pending() == Appended(trace)
    ensures |trace| <= |ready|
    ensures result == Outcome(trace)
    ensures result == Continue ==> |trace| == |ready|
    ensures AllHandled(trace, script) && Consecutive(trace) && ProceededBefore(trace)
    ensures ReadBack(trace, batch.Pending(), ready) && InPlaceUntilAccept(trace)
  {
    known := records;
    ghost var start := Snapshot(records);
    init := start;
    trace := [];
    result := Continue;
    while |trace| < |ready| && result == Continue
      invariant Consistent(batch, ready, known) && records <= known
      invariant Tracks(trace, records, start, init, Snapshot(known))
      invariant forall c <- known :: c in records || (fresh(c) && fresh(c.buffer))
      invariant old(batch.alloc) <= batch.alloc
      invariant batch.events == old(batch.events) || fresh(batch.events)
      invariant batch.Pending() == Appended(trace)
      invariant |trace| <= |ready| && result == Outcome(trace)
      invariant AllHandled(trace, script) && Consecutive(trace) && ProceededBefore(trace)
      invariant ReadBack(trace, batch.Pending(), ready) && InPlaceUntilAccept(trace)
      invariant NoAccept(trace) ==> batch.used <= |trace|
      decreases |ready| - |trace|
    {
      var i := |trace|;
      ghost var (trace0, known0, pre) := (trace, known, Snapshot(known));
      label Before:
      trace, known := DispatchNext(batch, ready, script, trace, known);
      SnapshotStep@Before(trace[i], known0, known);
      TracksExtend(trace0, trace[i], records, start, init, pre, Snapshot(known));
      init := Grow(init, Snapshot(known));
      result := Conclude(trace[i].verdict, i);
    }
    assert init.Keys == known;
  }

  /** One iteration of the `while (1)` of event_loop (lines 89-100): submit
      the pending changes, let the kernel write the ready events into the
      same array, reset events_used, then dispatch events[0..new_events).
      Handlers append to the array from index 0, so an event whose slot an
      earlier handler wrote is dispatched as that change rather than as the
      ready event; while no accept has run each handler appends at most one
      change, which lands on an already dispatched slot or the current one,
      so those events are dispatched as the kernel reported them. `records`
      are the client records the ready events may point to; `script` gives
      the replies of the handler calls, in order. `init` is each known
      record's state before the iteration (idle for an admitted one); each
      ends in the state the last event naming it left. */
  method Turn(batch: ChangeBatch<Owner>, poll: PollReply, script: seq<Io>, ghost records: set<EventData>)
    returns (result: TurnResult, submitted: seq<KEvent<Owner>>, trace: seq<Dispatched>,
             ghost known: set<EventData>, ghost init: map<EventData, ConnState>)
    requires batch.Valid()
    requires forall c <- records :: c.Valid() && c.Apart(batch)
    requires DistinctBuffers(records)
    requires poll.Ready? ==> |poll.events| <= batch.alloc
    requires poll.Ready? ==> forall j :: 0 <= j < |poll.events| && poll.events[j].udata.Client? ==>
      poll.events[j].udata.conn in records
    modifies batch, batch.events, records, Buffers(records)
    ensures batch.Valid() && old(batch.alloc) <= batch.alloc
    ensures batch.events == old(batch.events) || fresh(batch.events)
    ensures records <= known && forall c <- known :: c in records || (fresh(c) && fresh(c.buffer))
    ensures forall c <- known :: c.Valid() && c.Apart(batch)
    ensures DistinctBuffers(known) && init.Keys == known
    ensures forall c <- records :: init[c] == old(c.State())
    ensures forall c <- known :: c in records || (!init[c].closed && init[c].read == 0 && init[c].write == 0)
    ensures forall c <- known :: c.State() == StateAfter(trace, c, init[c])
    ensures Owned(trace, known) && Linked(trace, init)
    ensures poll.Ready? ==> batch.Pending() == Appended(trace)
    ensures poll.Ready? ==> forall x <- batch.Pending() :: x.udata.Client? && x.udata.conn in known
    ensures poll.PollFailed? ==> result == Exit && submitted == [] && trace == [] && batch.Pending() == old(batch.Pending())
    ensures poll.Ready? ==> submitted == old(batch.Pending()) && |trace| <= |poll.events| && result == Outcome(trace)
    ensures result == Continue ==> poll.Ready? && |trace| == |poll.events|
    ensures AllHandled(trace, script) && Consecutive(trace) && ProceededBefore(trace)
    ensures poll.Ready? ==> ReadBack(trace, batch.Pending(), poll.events)
    ensures poll.Ready? ==> forall j :: 0 <= j < |trace| && NoAccept(trace[..j]) ==> trace[j].event == poll.events[j]
  {
    if poll.PollFailed? {
      return Exit, [], [], records, map c | c in records :: c.State();
    }
    var ready := poll.events;
    submitted := batch.Submit(ready);
    assert forall c <- records :: c.State() == old(c.State());
    result, trace, known, init := DispatchAll(batch, ready, script, records);
    ExactUntilAccept(trace, batch.Pending(), ready);
    forall x <- batch.Pending()
      ensures x.udata.Client? && x.udata.conn in known
    {
      var j :| 0 <= j < batch.used && batch.events[j] == x;
    }
  }
}
