/** What a sequence of handler invocations does to one connection: the echo
    contract (bytes go back out in the order they came in) and the fact that
    nothing ever asks for read notifications again once they were turned off. */
module Echo {
  import opened Syscalls
  import opened Kqueue
  import opened Connection

  /** One readiness notification for the connection, with the replies its
      handler's system calls get. */
  datatype Input = ReadReady(rd: ReadReply, w: WriteReply) | WriteReady(w: WriteReply)

  /** The handler the event loop invokes for `i`. */
  function Handle(s: ConnState, i: Input): (r: Step)
    requires Inv(s) && !s.closed
    ensures Inv(r.state) && Conserves(s, r)
    ensures |r.changes| <= 1
  {
    match i
    case ReadReady(rd, w) => ReadStep(s, rd, w)
    case WriteReady(w) => WriteStep(s, w)
  }

  /** The combined effect of a run of notifications. `ended` says that the run
      stopped early because the record was torn down or the process exited. */
  datatype Run = Run(final: ConnState, changes: seq<Interest>, received: seq<bv8>, sent: seq<bv8>, ended: bool)

  /** The notifications of `ins` handled in order, up to teardown or exit. */
  function Replay(s: ConnState, ins: seq<Input>): (r: Run)
    requires Inv(s) && !s.closed
    ensures Inv(r.final)
    ensures !r.ended ==> !r.final.closed
    ensures |r.changes| <= |ins|
    decreases |ins|
  {
    if ins == [] then Run(s, [], [], [], false)
    else
      var st := Handle(s, ins[0]);
      if st.out == Fatal || st.state.closed then
        Run(st.state, st.changes, st.received, st.sent, true)
      else
        var rest := Replay(st.state, ins[1..]);
        Run(rest.final, st.changes + rest.changes, st.received + rest.received, st.sent + rest.sent, rest.ended)
  }

  /** A step that tears the record down or exits hands nothing to the socket. */
  lemma StopSendsNothing(s: ConnState, i: Input)
    requires Inv(s) && !s.closed
    requires Handle(s, i).out == Fatal || Handle(s, i).state.closed
    ensures Handle(s, i).sent == []
  {
    match i
    case ReadReady(rd, w) =>
      if s.read < BUFFER_SIZE && rd.Bytes? {
        var got := Received(rd, BUFFER_SIZE - s.read);
        if got != [] {
          var f := FlushStep(Filled(s, got), w);
          assert Handle(s, i).sent == f.sent;
        }
      }
    case WriteReady(w) =>
  }

  /** The echo contract: every byte handed to the socket is the next byte
      received, in order; and when the run did not end early, what was pending
      plus everything received is exactly everything sent followed by what is
      still pending. */
  lemma {:induction false} EchoInOrder(s: ConnState, ins: seq<Input>)
    requires Inv(s) && !s.closed
    ensures Replay(s, ins).sent <= Unsent(s) + Replay(s, ins).received
    ensures !Replay(s, ins).ended ==>
      Unsent(s) + Replay(s, ins).received == Replay(s, ins).sent + Unsent(Replay(s, ins).final)
    decreases |ins|
  {
    if ins != [] {
      var st := Handle(s, ins[0]);
      if st.out == Fatal || st.state.closed {
        StopSendsNothing(s, ins[0]);
      } else {
        var rest := Replay(st.state, ins[1..]);
        EchoInOrder(st.state, ins[1..]);
        assert Replay(s, ins) == Run(rest.final, st.changes + rest.changes, st.received + rest.received, st.sent + rest.sent, rest.ended);
        Chain(Unsent(s), st.received, st.sent, Unsent(st.state), rest.received, rest.sent, Unsent(rest.final), !rest.ended);
      }
    }
  }

  /** Two echo steps compose: if p + r1 == s1 + p1, and the second step sends
      a prefix s2 of p1 + r2 (all of it but p2 when `whole`), the two together
      send a prefix of p + r1 + r2 (all of it but p2 when `whole`). */
  lemma Chain(p: seq<bv8>, r1: seq<bv8>, s1: seq<bv8>, p1: seq<bv8>, r2: seq<bv8>, s2: seq<bv8>, p2: seq<bv8>, whole: bool)
    requires p + r1 == s1 + p1
    requires s2 <= p1 + r2
    requires whole ==> p1 + r2 == s2 + p2
    ensures s1 + s2 <= p + (r1 + r2)
    ensures whole ==> p + (r1 + r2) == (s1 + s2) + p2
  {
    calc {
      p + (r1 + r2);
      (p + r1) + r2;
      (s1 + p1) + r2;
      s1 + (p1 + r2);
    }
    var t := (p1 + r2)[|s2|..];
    assert p1 + r2 == s2 + t;
    calc {
      s1 + (p1 + r2);
      s1 + (s2 + t);
      (s1 + s2) + t;
    }
    if whole {
      assert s2 + p2 == s2 + t;
      assert p2 == (s2 + p2)[|s2|..];
    }
  }

  /** A freshly accepted connection echoes: what it sent is a prefix of what it
      received, and the rest is exactly what is still pending. */
  lemma EchoFromEmpty(s: ConnState, ins: seq<Input>)
    requires Inv(s) && !s.closed && s.read == 0
    ensures Replay(s, ins).sent <= Replay(s, ins).received
    ensures !Replay(s, ins).ended ==>
      Replay(s, ins).received == Replay(s, ins).sent + Unsent(Replay(s, ins).final)
  {
    assert Unsent(s) == [];
    EchoInOrder(s, ins);
    assert Unsent(s) + Replay(s, ins).received == Replay(s, ins).received;
  }

  /** The only read-interest change a connection ever appends is a disable:
      once a call found the buffer full on entry and turned read
      notifications off, nothing turns them back on. */
  lemma {:induction false} ReadNeverReenabled(s: ConnState, ins: seq<Input>)
    requires Inv(s) && !s.closed
    ensures forall k :: 0 <= k < |Replay(s, ins).changes| && Replay(s, ins).changes[k].filter == EVFILT_READ ==>
      Replay(s, ins).changes[k].flags == EV_DISABLE
    decreases |ins|
  {
    if ins != [] {
      var st := Handle(s, ins[0]);
      assert forall k :: 0 <= k < |st.changes| && st.changes[k].filter == EVFILT_READ ==>
        st.changes[k].flags == EV_DISABLE;
      if !(st.out == Fatal || st.state.closed) {
        ReadNeverReenabled(st.state, ins[1..]);
      }
    }
  }

  /** A buffer that a read fills up is not enough to turn read
      notifications off: when the flush that follows sends everything, both
      cursors are back at 0 and no change is appended. Only a call that finds
      the buffer full on entry disables reading. */
  lemma FillThenDrain(s: ConnState, rd: ReadReply, w: WriteReply)
    requires Inv(s) && !s.closed && 0 < s.read < BUFFER_SIZE
    requires rd.Bytes? && |rd.data| >= BUFFER_SIZE - s.read
    requires w.Room? && w.count >= BUFFER_SIZE - s.write
    ensures Filled(s, Received(rd, BUFFER_SIZE - s.read)).read == BUFFER_SIZE
    ensures ReadStep(s, rd, w).state.read == 0 && ReadStep(s, rd, w).state.write == 0
    ensures ReadStep(s, rd, w).changes == [] && !ReadStep(s, rd, w).state.closed
  {
    var got := Received(rd, BUFFER_SIZE - s.read);
    assert |got| == BUFFER_SIZE - s.read;
    var f := Filled(s, got);
    assert Written(w, f.read - f.write) == f.read - f.write;
  }

  /** A zero-byte read tears the record down at once, even when bytes are
      still unsent: whatever notifications follow, the run has ended, nothing
      more is sent and the unsent bytes stay in the freed record. */
  lemma {:induction false} ZeroReadDropsUnsent(s: ConnState, w: WriteReply, rest: seq<Input>)
    requires Inv(s) && !s.closed && s.read < BUFFER_SIZE
    ensures var r := Replay(s, [ReadReady(Bytes([]), w)] + rest);
      && r.ended && r.sent == [] && r.received == []
      && r.final == s.(closed := true) && Unsent(r.final) == Unsent(s)
  {
    var ins := [ReadReady(Bytes([]), w)] + rest;
    assert ins[0] == ReadReady(Bytes([]), w);
    assert Received(Bytes([]), BUFFER_SIZE - s.read) == [];
  }

  /** An instance: one byte received and not yet sent is lost when the peer
      closes its sending side before the byte went out. */
  lemma ZeroReadLosesByte(b: seq<bv8>, w: WriteReply)
    requires |b| == BUFFER_SIZE
    ensures var s := ConnState(b, 1, 0, false);
      && Inv(s) && Unsent(s) == [b[0]]
      && ReadStep(s, Bytes([]), w).state.closed && ReadStep(s, Bytes([]), w).sent == []
  {
    var s := ConnState(b, 1, 0, false);
    assert Received(Bytes([]), BUFFER_SIZE - s.read) == [];
  }
}
