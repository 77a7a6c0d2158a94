/** The answers the operating system gives to the non-blocking socket calls the
    handlers make. They are inputs of the model: a reply says what the kernel
    has to offer, and `Received`/`Written` cut it down to what one call with a
    given length can return. */
module Syscalls {

  /** The errno values the handlers tell apart. */
  datatype Errno = EAGAIN | EWOULDBLOCK | OtherErrno

  /** The only errors a handler retries later instead of exiting. */
  predicate WouldBlock(e: Errno) {
    e == EWOULDBLOCK || e == EAGAIN
  }

  /** What one read(2) finds: an error, or the bytes the socket holds
      (none at all is the peer's orderly close). */
  datatype ReadReply = ReadError(errno: Errno) | Bytes(data: seq<bv8>)

  /** What one write(2) finds: an error, or how many bytes the socket would take. */
  datatype WriteReply = WriteError(errno: Errno) | Room(count: nat)

  /** What one accept(2) and the two fcntl(2) calls that follow it return:
      the new descriptor (negative on error, with errno), then the result of
      F_GETFL and the result of F_SETFL. */
  datatype AcceptReply = AcceptReply(fd: int, errno: Errno, getfl: int, setfl: int)

  /** The replies for the calls of one handler invocation. */
  datatype Io = Io(read: ReadReply, write: WriteReply, accept: AcceptReply)

  /** Every call would block: the socket is drained and nothing is pending. */
  const Blocked: Io := Io(ReadError(EAGAIN), WriteError(EAGAIN), AcceptReply(-1, EAGAIN, 0, 0))

  /** The bytes read(fd, p, len) stores at p: a prefix of what the socket holds,
      never more than len. */
  function Received(reply: ReadReply, len: nat): (got: seq<bv8>)
    requires reply.Bytes?
    ensures |got| <= len
    ensures got <= reply.data
    ensures |got| == len || got == reply.data
  {
    if |reply.data| <= len then reply.data else reply.data[..len]
  }

  /** The non-negative count write(fd, p, len) returns: never more than len. */
  function Written(reply: WriteReply, len: nat): (n: nat)
    requires reply.Room?
    ensures n <= len
    ensures n == len || n == reply.count
  {
    if reply.count <= len then reply.count else len
  }
}
