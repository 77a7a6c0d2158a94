/** kevent change records and the process-wide change batch: a growable array
    (`events`, `events_used`, `events_alloc`) that handlers append interest
    changes to and that one kevent(2) call per loop iteration submits. */
module Kqueue {

  // Filters and flags as the BSD <sys/event.h> defines them.
  const EVFILT_READ: int := -1
  const EVFILT_WRITE: int := -2
  const EV_ADD: bv16 := 0x0001
  const EV_ENABLE: bv16 := 0x0004
  const EV_DISABLE: bv16 := 0x0008

  /** Capacity the first append allocates. */
  const INITIAL_ALLOC: nat := 64

  /** struct kevent; `udata` is the opaque back-reference to the owner. */
  datatype KEvent<U> = KEvent(ident: int, filter: int, flags: bv16, fflags: int, data: int, udata: U)

  /** The entry event_change writes for its four arguments. */
  function Entry<U>(ident: int, filter: int, flags: bv16, udata: U): (e: KEvent<U>)
    ensures e.fflags == 0 && e.data == 0
    ensures e.ident == ident && e.filter == filter && e.flags == flags && e.udata == udata
  {
    KEvent(ident, filter, flags, 0, 0, udata)
  }

  /** The positive integers. */
  type Positive = p: nat | 0 < p witness 1

  /** 2 to the power k. */
  function Pow2(k: nat): Positive {
    if k == 0 then 1 else 2 * Pow2(k - 1)
  }

  /** A capacity the batch can have: 64 doubled some number of times. */
  predicate IsCapacity(n: nat)
    decreases n
  {
    n == INITIAL_ALLOC || (n > INITIAL_ALLOC && n % 2 == 0 && IsCapacity(n / 2))
  }

  /** IsCapacity is exactly the set { 64 * 2^k }. */
  lemma {:induction false} CapacityIsScaledPowerOfTwo(n: nat)
    ensures IsCapacity(n) <==> exists k: nat :: n == INITIAL_ALLOC * Pow2(k)
  {
    if IsCapacity(n) {
      if n == INITIAL_ALLOC {
        assert n == INITIAL_ALLOC * Pow2(0);
      } else {
        CapacityIsScaledPowerOfTwo(n / 2);
        var k: nat :| n / 2 == INITIAL_ALLOC * Pow2(k);
        assert n == INITIAL_ALLOC * Pow2(k + 1);
      }
    }
    if exists k: nat :: n == INITIAL_ALLOC * Pow2(k) {
      var k: nat :| n == INITIAL_ALLOC * Pow2(k);
      if k > 0 {
        assert n / 2 == INITIAL_ALLOC * Pow2(k - 1);
        CapacityIsScaledPowerOfTwo(n / 2);
      }
    }
  }

  /** The counters a batch can be in between two calls. */
  predicate CountersOk(alloc: nat, used: nat) {
    used <= alloc && (alloc == 0 ==> used == 0) && (alloc > 0 ==> IsCapacity(alloc))
  }

  /** The capacity after event_change: 64 on the first call, doubled when full. */
  function NewCapacity(alloc: nat, used: nat): (r: nat)
    requires CountersOk(alloc, used)
    ensures CountersOk(r, used + 1)
    ensures alloc == 0 ==> r == INITIAL_ALLOC
    ensures used < alloc ==> r == alloc
    ensures 0 < alloc <= used ==> r == 2 * alloc
  {
    var a := if alloc == 0 then INITIAL_ALLOC else alloc;
    if a <= used then a * 2 else a
  }

  /** Keeping slots composes: if `mid` kept the slots of `prior` from u1 on
      and `now` kept those of `mid` from u2 >= u1 on, then `now` kept those
      of `prior` from u2 on. */
  lemma KeptChain<U>(prior: seq<KEvent<U>>, mid: seq<KEvent<U>>, now: seq<KEvent<U>>, u1: nat, u2: nat)
    requires u1 <= u2 && |prior| <= |mid|
    requires forall j :: u1 <= j < |prior| && j < |mid| ==> mid[j] == prior[j]
    requires forall j :: u2 <= j < |mid| && j < |now| ==> now[j] == mid[j]
    ensures forall j :: u2 <= j < |prior| && j < |now| ==> now[j] == prior[j]
  {
  }

  /** The change batch. Before the first append nothing is allocated
      (`events_alloc == 0`, an empty array stands for the NULL pointer). */
  class ChangeBatch<U> {
    var events: array<KEvent<U>>
    var used: nat   // events_used
    var alloc: nat  // events_alloc

    ghost predicate Valid()
      reads this
    {
      events.Length == alloc && CountersOk(alloc, used)
    }

    /** The changes waiting for the next kevent(2) call, in order. */
    ghost function Pending(): seq<KEvent<U>>
      reads this, events
      requires Valid()
    {
      events[..used]
    }

    /** The slots of an earlier array `prior` from `used` on still hold what
        they held: an append only ever writes the slot at `used`. */
    ghost predicate KeepsFrom(prior: seq<KEvent<U>>)
      reads this, events
      requires Valid()
    {
      forall j :: used <= j < |prior| && j < alloc ==> events[j] == prior[j]
    }

    /** The static initial state: both counters 0, nothing allocated. */
    constructor ()
      ensures Valid() && fresh(events)
      ensures alloc == 0 && used == 0 && Pending() == []
    {
      events := new KEvent<U>[0];
      used, alloc := 0, 0;
    }

    /** event_change: write one entry at index `used` and count it. */
    method Append(ident: int, filter: int, flags: bv16, udata: U)
      requires Valid()
      modifies this, events
      ensures Valid()
      ensures alloc == NewCapacity(old(alloc), old(used))
      ensures used == old(used) + 1
      ensures events[old(used)] == Entry(ident, filter, flags, udata)
      ensures forall j :: 0 <= j < old(alloc) && j != old(used) ==> events[j] == old(events[j])
      ensures Pending() == old(Pending()) + [Entry(ident, filter, flags, udata)]
      ensures KeepsFrom(old(events[..]))
      ensures events == old(events) || fresh(events)
    {
      var e := Entry(ident, filter, flags, udata);
      if alloc == 0 {
        // malloc: the new block's contents are unspecified; `e` fills it.
        alloc := INITIAL_ALLOC;
        events := new KEvent<U>[alloc](_ => e);
      }
      if alloc <= used {
        // realloc: the old block is copied into a block twice its size.
        var bigger := new KEvent<U>[alloc * 2](_ => e);
        forall j | 0 <= j < alloc {
          bigger[j] := events[j];
        }
        alloc := alloc * 2;
        events := bigger;
      }
      events[used] := e;
      used := used + 1;
    }

    /** The changes appended since events_used was `from`, read from the
        array. The server never does this; the dispatch records use it to
        say what a handler appended. */
    method Since(from: nat) returns (es: seq<KEvent<U>>)
      requires Valid() && from <= used
      ensures es == Pending()[from..]
    {
      es := events[from..used];
    }

    /** The kevent(2) call of the event loop: the pending changes go to the
        kernel, the kernel writes the ready events into the same array, and
        `events_used` drops to 0. `ready` is the kernel's answer. */
    method Submit(ready: seq<KEvent<U>>) returns (submitted: seq<KEvent<U>>)
      requires Valid()
      requires |ready| <= alloc
      modifies this, events
      ensures Valid()
      ensures submitted == old(Pending())
      ensures used == 0 && alloc == old(alloc) && events == old(events)
      ensures events[..|ready|] == ready
      ensures forall j :: |ready| <= j < alloc ==> events[j] == old(events[j])
    {
      submitted := events[..used];
      forall j | 0 <= j < |ready| {
        events[j] := ready[j];
      }
      used := 0;
    }
  }
}
