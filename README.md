# kqueue echo server: change batch, connection handlers and dispatch

This project models the core of the non-blocking TCP echo server built on BSD
kqueue (`tcp-non-blocking-echo-server.c`) and proves properties of that model:

- **The change batch** (`Kqueue`). This is the process-wide growable array
  `events` with its counters `events_used` and `events_alloc`:
  - `event_change` appends one kevent record to it;
  - the event loop's `kevent` call submits it, and the kernel writes the
    ready events back into the same array.

  It is a class over an `array` with the two counters as fields.
- **A client connection** (`Connection`). This is `struct event_data`: a
  1024-byte buffer, the fill cursor `buffer_read` and the drain cursor
  `buffer_write`, with its handlers `event_on_read`, `event_flush_write` and
  `event_on_write`.
  - Each handler is a method of the class `EventData` that updates the record
    in place and appends its interest changes to the batch.
  - Each method is proved against a pure step function (`ReadStep`,
    `FlushStep`, `WriteStep`) on the record's value.
- **The echo contract** (`Echo`). Handler steps are replayed over one
  connection. The bytes sent are always a prefix of what was pending plus what
  was received, in order. Nothing ever re-enables read notifications.
- **The listening socket and dispatch** (`Reactor`):
  - `event_on_accept`, and the accept loop around it on line 99;
  - routing by owner and filter (lines 97-99);
  - one iteration of `event_loop` (lines 89-100): submit the batch, then
    dispatch each ready event read back from the shared array.

System calls are inputs. The `Syscalls` module turns the replies of `read`,
`write`, `accept` and `fcntl` into values, and `Reactor.PollReply` is the
reply of the event loop's `kevent` call:
- `Received` and `Written` clamp a reply to the requested length, so every
  legal result can occur;
- the replies of successive handler calls in one iteration come from a list
  (`script`); once it is used up, every call would block.

Teardown (`free` and `close`) sets a `closed` flag on the record. `exit(1)`
from `on_error` is the outcome `Fatal`.

What the code does, as the model states it:

- `event_on_read` returns what `event_flush_write` returns, which is always 0
  (lines 125, 152). So the retry `while` around a client handler (lines
  98-99) makes exactly one call. Only `event_on_accept`, which returns 1 after
  a successful accept (line 190), repeats.
- The write filter of a new client is registered already enabled
  (`EV_ADD | EV_ENABLE`, line 188).
- Nothing re-enables read interest after the cursors reset (lines 120-123).
  Only a call of `event_on_read` that finds `buffer_read == 1024` on entry
  disables read interest (line 129, `Connection.ReadDisableOnlyWhenFull`); a
  read that fills the buffer and a flush that then sends everything leave it
  enabled (`Echo.FillThenDrain`). Once a disable has been appended, that
  connection is never read from again (`Echo.ReadNeverReenabled`).
- A zero-byte read frees the record at once (lines 141-145), even when
  `buffer[buffer_write..buffer_read)` still holds unsent bytes. Those bytes
  are never echoed (`Echo.ZeroReadDropsUnsent`, `Echo.ZeroReadLosesByte`).
- A read or write error other than would-block exits the whole process
  (lines 109, 138); the messages there ask "should this be fatal?".
- `event_on_accept` sets the new record's `on_read` and `on_write` (lines
  184-185) but never initialises its buffer and cursors (line 183). The
  model starts both cursors at 0 and the record open (`EventData.Idle`).
- The loop reads `events[i]` from the shared array after earlier handlers
  have appended to it (line 94). Handlers append from index 0 after line 91,
  so:
  - an accept that registers new clients can overwrite ready events that
    have not been dispatched yet, which are then dispatched as those
    registrations;
  - before any accept has run, each handler appends at most one change, and
    every event is dispatched as the kernel reported it.

  `Reactor.Turn` states both.
- Line 98 reads `udata->on_write` for every event with an owner. After a
  record was freed, a later event for it in the same iteration reads freed
  memory. The same happens on line 99 when `event_on_write` freed the record.
  The model stops the iteration there with `UseAfterFree(i)`.

For every event it dispatches, an iteration records a `Dispatched` value:
- the handler the event went to, and the index of its first handler call
  and how many calls it made;
- the changes the handlers appended;
- the client record's state before and after, or the records the accept
  loop admitted;
- how the dispatch ended.

`Reactor.Handled` says that this is what the routed handler does:
- one `WriteStep` or `ReadStep` from the record's state;
- the accept loop, with two registrations for each admitted record;
- nothing at all, for a skipped event.

## Model

| member | source | states |
|---|---|---|
| Kqueue.NewCapacity | tcp-non-blocking-echo-server.c:65-72 | first append sets capacity 64; a full batch doubles; otherwise unchanged; afterwards used+1 <= capacity and capacity is a doubling of 64 |
| Kqueue.CapacityIsScaledPowerOfTwo | tcp-non-blocking-echo-server.c:65-72 | a capacity the batch can reach is exactly a number 64·2^k (both directions) |
| Kqueue.Entry | tcp-non-blocking-echo-server.c:77-82 | the written record carries ident, filter, flags and udata from the arguments, fflags = data = 0 |
| Kqueue.ChangeBatch.constructor | tcp-non-blocking-echo-server.c:17-19 | the batch starts with nothing allocated and no pending changes |
| Kqueue.ChangeBatch.Append | tcp-non-blocking-echo-server.c:62-83 | event_change: capacity follows NewCapacity, the entry lands at the old events_used, events_used grows by one, every other slot is unchanged, pending changes are the old ones plus the entry |
| Kqueue.ChangeBatch.Submit | tcp-non-blocking-echo-server.c:89-91 | kevent submits exactly the pending changes, the ready events overwrite the first slots, later slots are kept and events_used becomes 0 |
| Syscalls.Received | tcp-non-blocking-echo-server.c:134 | read stores a prefix of what the socket holds, at most the requested length, and all of it when it fits |
| Syscalls.Written | tcp-non-blocking-echo-server.c:105 | write reports at most the requested length |
| Connection.FlushStep | tcp-non-blocking-echo-server.c:104-126 | event_flush_write: would-block keeps the record and returns 0, another error is fatal, 0 bytes tears the record down, n bytes sends the first n pending bytes and leaves the rest pending, both cursors reset when all was sent, the cursor invariant is kept and nothing is appended |
| Connection.EventData.FlushWrite | tcp-non-blocking-echo-server.c:104-126 | the in-place handler ends in the record and result FlushStep gives |
| Connection.Filled | tcp-non-blocking-echo-server.c:134-151 | the bytes read land at buffer_read, the other bytes are unchanged, buffer_read advances past them, and pending grows by exactly them |
| Connection.EventData.Store | tcp-non-blocking-echo-server.c:134 | read writes the received bytes into the buffer as Filled says |
| Connection.ReadStep | tcp-non-blocking-echo-server.c:128-153 | event_on_read: a full buffer appends one read-disable and changes nothing else; an error keeps the record; write-enable is appended iff buffer_read was 0 and bytes arrived; echo conservation; the result is 0 or fatal |
| Connection.ReadThenFlushOnce | tcp-non-blocking-echo-server.c:141-152 | a zero-byte read tears down the record; otherwise the handler performs exactly one flush from the filled record |
| Connection.EventData.Deliver | tcp-non-blocking-echo-server.c:147-152 | after n > 0 bytes: appends write-enable iff the buffer was empty, then ends as one flush of the filled record |
| Connection.EventData.OnRead | tcp-non-blocking-echo-server.c:128-153 | the in-place handler ends in ReadStep's record and result and appends exactly ReadStep's changes |
| Connection.ReadDisableOnlyWhenFull | tcp-non-blocking-echo-server.c:128-153 | event_on_read appends a read-disable iff it finds buffer_read == BUFFER_SIZE on entry |
| Connection.WriteStep | tcp-non-blocking-echo-server.c:155-162 | event_on_write: nothing pending appends one write-disable and changes nothing else; otherwise it is one flush |
| Connection.EventData.OnWrite | tcp-non-blocking-echo-server.c:155-162 | the in-place handler ends in WriteStep's record and result and appends exactly WriteStep's changes |
| Connection.Entries | tcp-non-blocking-echo-server.c:128-162 | the kevent records for a handler's changes carry the event's ident and the record as udata, in order |
| Connection.EventData.constructor | tcp-non-blocking-echo-server.c:183-185 | a new record has a fresh 1024-byte buffer, both cursors at 0, nothing unsent and is open |
| Echo.Handle | tcp-non-blocking-echo-server.c:128-162 | any handler step keeps the cursor invariant, conserves the echo and appends at most one change |
| Echo.Replay | tcp-non-blocking-echo-server.c:128-162 | a run of handler steps keeps the invariant, stays open unless it ended, appends at most one change per step |
| Echo.StopSendsNothing | tcp-non-blocking-echo-server.c:104-153 | a step that exits or tears the record down sends nothing |
| Echo.EchoInOrder | tcp-non-blocking-echo-server.c:104-162 | bytes sent are a prefix of the unsent bytes plus those received, and unless the run ended, unsent plus received is exactly sent followed by what is unsent now |
| Echo.EchoFromEmpty | tcp-non-blocking-echo-server.c:104-162 | from a fresh record, what was sent is a prefix of what was received and the rest is unsent |
| Echo.ReadNeverReenabled | tcp-non-blocking-echo-server.c:118-132 | every read-interest change a connection appends is a disable |
| Echo.FillThenDrain | tcp-non-blocking-echo-server.c:118-123 | from a non-empty buffer, a read that fills the buffer, followed by a flush that sends everything, resets both cursors to 0 and appends no change |
| Echo.ZeroReadDropsUnsent | tcp-non-blocking-echo-server.c:141-145 | a zero-byte read ends the run whatever follows: nothing more is sent or received, and the unsent bytes stay in the freed record |
| Echo.ZeroReadLosesByte | tcp-non-blocking-echo-server.c:141-145 | with one byte received and unsent, a zero-byte read frees the record without sending it |
| Reactor.AcceptResult | tcp-non-blocking-echo-server.c:168-190 | event_on_accept returns 1 iff accept and both fcntl calls succeed, 0 iff accept would block, and exits otherwise |
| Reactor.OnlyAcceptRepeats | tcp-non-blocking-echo-server.c:98-99 | the read and write handlers return 0 or exit, so only the accept handler makes its retry loop repeat |
| Reactor.OnAccept | tcp-non-blocking-echo-server.c:164-191 | on success a fresh open record with cursors 0 and exactly two appended changes for the new fd, read then write, both add and enable, tagged with the record; otherwise nothing is appended |
| Reactor.Admitting | tcp-non-blocking-echo-server.c:187-188 | the batch after several accepts has grown by two changes per admitted record |
| Reactor.AdmittingOwned | tcp-non-blocking-echo-server.c:187-188 | those accepts keep the earlier batch and each change they append belongs to an admitted record |
| Reactor.AcceptOne | tcp-non-blocking-echo-server.c:164-191 | OnAccept inside the loop: the admitted record is fresh, open with cursors 0 and apart from the array, and the array slots past events_used are kept |
| Reactor.AdmitNext | tcp-non-blocking-echo-server.c:99 | one turn of the accept loop: the admitted record, if any, is fresh, open with cursors 0 and joins the list, earlier ones stay so, all admitted records have distinct buffers, and the batch grows by its registrations |
| Reactor.AcceptUntilBlocked | tcp-non-blocking-echo-server.c:99 | the accept loop calls the handler until it returns something other than 1; every call but the last returned 1 and admitted a fresh, open record with cursors 0, whose registrations are appended in order; the admitted records have distinct buffers |
| Reactor.Route | tcp-non-blocking-echo-server.c:97-99 | a null owner is skipped, a listener read event goes to accept, a client's write event to event_on_write and read event to event_on_read, and nothing else runs |
| Reactor.HandledBounds | tcp-non-blocking-echo-server.c:97-99 | a handled event made no call when skipped, at most one for a client and at least one for the listener, appended at most one change unless it accepted, appended only changes owned by its record or an admitted one, exits only from a handler, and touches only a torn-down record |
| Reactor.RereadsAgree | tcp-non-blocking-echo-server.c:98-99 | every change a client handler appends carries the event's ident, and the write handler appends only write-filter changes, so line 99's and line 105's re-reads of an overwritten slot find the same filter decision and ident |
| Reactor.DispatchAccept | tcp-non-blocking-echo-server.c:99 | a listener read event runs the accept loop from call k0; every call but the last returned 1 and admitted a fresh, open record with cursors 0 whose two registrations are appended in order; the process exits iff the last accept failed fatally |
| Reactor.DispatchListener | tcp-non-blocking-echo-server.c:98-99 | only a read event runs the accept loop; every call but the last admitted a fresh, open record with cursors 0 whose two registrations are appended; the process exits iff the last accept failed fatally |
| Reactor.DispatchWrite | tcp-non-blocking-echo-server.c:98-99 | a write event on an open record makes one event_on_write call, the record goes from its state to WriteStep's, exactly WriteStep's changes are appended, and line 99 touches the record iff the call freed it |
| Reactor.DispatchRead | tcp-non-blocking-echo-server.c:99 | a read event on an open record makes one event_on_read call, the record goes from its state to ReadStep's and exactly ReadStep's changes are appended |
| Reactor.DispatchClient | tcp-non-blocking-echo-server.c:98-99 | a freed record is touched on line 98 before any call; otherwise the filter picks DispatchWrite, DispatchRead or no call, and the event is Handled with the record's old and new state |
| Reactor.Dispatch | tcp-non-blocking-echo-server.c:95-99 | a null owner is skipped and every other event is Handled: the routed handler ran as its step function or the accept loop says, with the client record's state before and after |
| Reactor.Conclude | tcp-non-blocking-echo-server.c:93-100 | the iteration goes on iff the event's dispatch proceeded, ends in exit iff a handler exited, and in a use after free at that event iff it touched a freed record |
| Reactor.HandledExtends | tcp-non-blocking-echo-server.c:93-100 | handling one more event keeps every event handled, the handler calls consecutive, and all events but the last proceeded |
| Reactor.ReadBackExtends | tcp-non-blocking-echo-server.c:93-100 | one more event keeps every event read back from its slot, and events_used behind the slot being read before any accept |
| Reactor.ExactUntilAccept | tcp-non-blocking-echo-server.c:91-99 | until the first accept, every event is dispatched exactly as the kernel reported it |
| Reactor.DispatchTracked | tcp-non-blocking-echo-server.c:95-99 | a dispatch keeps the known records well formed with distinct buffers, adds the admitted ones (fresh and idle), and appends only changes owned by them; the event's record goes from its old state to the dispatch's `after`, and every other known record keeps its state |
| Reactor.DispatchAt | tcp-non-blocking-echo-server.c:94-99 | slot i is read from the array as it is now (the change appended there if events_used passed it, else the ready event) and the event is Handled starting at call k; a client event names a known record, which moves from its old state to the dispatch's `after`, and every other known record keeps its state |
| Reactor.StateAfterUntouched | tcp-non-blocking-echo-server.c:93-100 | a record that no event of the trace names is still in its starting state |
| Reactor.LinkedExtends | tcp-non-blocking-echo-server.c:93-100 | an event that starts from the state the earlier events left its record in keeps every event of the trace linked to its predecessor |
| Reactor.StatesExtend | tcp-non-blocking-echo-server.c:93-100 | when one more event steps its record from the state the trace left and leaves the others alone, every known record (old or newly admitted) is in the state the longer trace leaves it in, and the trace stays owned and linked |
| Reactor.TracksExtend | tcp-non-blocking-echo-server.c:93-100 | the for loop's record bookkeeping survives one more dispatched event: known records start in their initial states, new ones idle, and all end in the state the trace leaves them in |
| Reactor.DispatchNext | tcp-non-blocking-echo-server.c:93-99 | one iteration of the for loop adds one handled event to the trace, the batch's pending changes grow by exactly what its handlers appended, the event's record moves from its old state to the event's `after` while the other known records keep theirs, new records are idle, and the loop's invariants are kept |
| Reactor.DispatchAll | tcp-non-blocking-echo-server.c:93-100 | the for loop dispatches slots in order, each event Handled with consecutive calls, until every ready slot is done or a dispatch exits or touches a freed record, which ends the iteration at that event; the pending changes afterwards are exactly those the handlers appended, in order, and the known records (the given ones plus the admitted ones) stay well formed; each event starts from the state the previous events left its record in, and each known record ends in the state after the last event that names it, or in its starting state (its old state, or idle for an admitted one) when none does |
| Reactor.Turn | tcp-non-blocking-echo-server.c:89-100 | one iteration: a failed kevent exits; otherwise exactly the pending changes are submitted, every event is Handled, events are read back from the shared array and are the kernel's ready events before any accept, the iteration ends as the last dispatch did, and the batch left for the next kevent holds exactly the changes the handlers appended, each owned by a known record; the known records stay well formed, apart from the array, which only grows, and have distinct buffers; each event starts from the state the earlier events left its record in, and each known record ends in the state after the last event that names it, or in its starting state (its old state, or idle for an admitted one) when none does |

## Left out

- `main` and `event_server_listen` (lines 33-60, 193-211): socket setup and argument parsing are thin wrappers over the operating system. The listening socket's record appears as the owner `Listener`.
- `unix-echo-server.c`: a blocking accept/recv/send loop that is not part of this model.
- The kernel side of `kevent`, `read`, `write`, `accept` and `fcntl`: their replies are inputs, clamped to the requested lengths. The O_NONBLOCK flag value is not modelled; only whether each `fcntl` call succeeded is. An accepted descriptor becomes the ident of its two registrations, but `close(2)` and the reuse of a closed descriptor's number by a later `accept` are not modelled.
- The outer `while (1)` of `event_loop`: `Reactor.Turn` models one iteration. What one iteration ensures (the batch valid and no smaller, the known records valid, apart from it and with distinct buffers, the pending changes owned by them) is what the next one requires, so the loop is that iteration repeated; no method runs the iterations one after another, because each iteration's kernel reply may name records the previous one admitted.
- `malloc`, `free` and `close`: a freed record is the `closed` flag. The model stops an iteration at the first read of a freed record rather than giving that read a meaning.
- The unchecked `realloc` result (line 71) and allocation failure in general: allocation always succeeds in the model.
- The kevent pointer `e` points into the batch's array, and the C code reads through it again after handlers appended to that array. Line 99 reads `e->filter` after line 98's `event_on_write`. Line 152 hands `event` to `event_flush_write`, which reads `event->ident` on line 105 after line 148 appended. If an append reallocated the array, those reads go through a dangling pointer. The model reads the slot once and passes the handlers that value. Without a realloc the re-reads agree with it (`Reactor.RereadsAgree`).
- `exit(1)` and the message `on_error` prints: the model reports the outcome `Fatal`, or ends the iteration with `Exit`.
- The 32-bit range of `int` counters: `events_used` and `events_alloc` are unbounded naturals. Doubling past 2^31 is not modelled.
- The accept loop on line 99 has no bound while connections keep arriving. In the model it ends because the replies turn into would-block once `script` is used up.
