/** Values shared by the handler registry, the forwarding callbacks and the
    dispatch engine of the eventhandler proxy (eventhandler.py). */
module Values {

  /** An opaque, comparable socket handle (listening, client side or server side). */
  type Handle = nat

  newtype Byte = x: int | 0 <= x < 256

  /** eventhandler.RECVBLOCK: the most bytes one recv call asks for. */
  const RECVBLOCK: nat := 1024

  /** eventhandler.TIMEOUT: the readiness-wait timeout, in seconds. */
  const TIMEOUT: nat := 10

  datatype Option<+T> = None | Some(value: T)

  /** The backend (host, port) pair that the accept callback carries. */
  datatype Address = Address(host: string, port: int)

  /** The handler types: RECV = 0, SEND = 1, EXEP = 2, TIME = 3. */
  datatype Kind = Recv | Send | Exep | Time

  /** A pending registration. The constructor names the callback and its
      fields are the opaque state handed back to it on the next dispatch;
      the engine self-reference of the source's triple is implicit. */
  datatype Entry =
    | AcceptEntry(addr: Address)                          // accepthandler, state addr
    | RecvEntry(dest: Handle)                             // recvhandler, state serv
    | SendEntry(data: seq<Byte>, sent: nat, src: Handle)  // sendhandler, state (data, sent, clnt)

  /** The exceptions the core raises. */
  datatype Error =
    | UnsupportedRegistration(kind: Kind)  // registerhandler with a type other than RECV or SEND
    | UnknownDispatch(kind: Kind)          // handle with type EXEP
    | NameError(name: string)              // an undefined name evaluated by a callback
    | UnboundLocal(name: string)           // a callback reads a local that a failed socket call left unassigned
    | SocketError                          // a socket.error nobody catches (select or accept on a closed socket)

  /** What clnt.recv(RECVBLOCK) meets: would-block (EAGAIN), a socket error
      with any other errno, or the bytes queued on the socket (none queued
      means the peer has closed). */
  datatype RecvOutcome = RecvWouldBlock | RecvFailed | Pending(bytes: seq<Byte>)

  /** What serv.send(buf) meets: would-block (EAGAIN), a socket error with any
      other errno, or room for `space` bytes. A non-positive space stands for
      the non-positive count that sendhandler tests for; CPython's send never
      returns one for a non-empty buffer. */
  datatype SendOutcome = SendWouldBlock | SendFailed | Room(space: int)

  /** What serv.connect(addr) does with the new outbound socket. */
  datatype ConnectOutcome = Connected(serv: Handle) | ConnectFailed

  /** What sock.accept() returns, and how the outbound connect then ends. */
  datatype AcceptOutcome = Accepted(clnt: Handle, connect: ConnectOutcome)

  /** The answers the socket primitives give during one dispatch; each
      callback consults the one operation it performs. */
  datatype SocketIo = SocketIo(recv: RecvOutcome, send: SendOutcome, accept: AcceptOutcome)

  /** One handle reported ready, with the socket answers for its dispatch. */
  datatype Ready = Ready(sock: Handle, io: SocketIo)

  /** One result of the readiness wait: the readable, writeable and
      exceptional lists, in the order they are dispatched. */
  datatype Batch = Batch(readable: seq<Ready>, writeable: seq<Ready>, exceptional: seq<Ready>)

  /** The socket answers for a dispatch that performs no socket call
      (TIME, and EXEP, which raises first). */
  const NoIo := SocketIo(RecvWouldBlock, SendWouldBlock, Accepted(0, ConnectFailed))

  /** The three handler tables, together with the effects on the sockets that
      the model records: which handles were closed and which bytes were
      written to each one. */
  datatype Registry = Registry(
    recv: map<Handle, Entry>,
    send: map<Handle, Entry>,
    time: map<Handle, Entry>,
    closed: set<Handle>,
    out: map<Handle, seq<Byte>>)

  /** How an engine operation completes: it returns, or it raises. Either way
      the registry is left as it stands at that point. */
  datatype Exec = Returned(reg: Registry) | Raised(reg: Registry, err: Error)

  /** How a callback completes: it returns the next state for its own
      re-registration (None for "remove"), or it raises. */
  datatype Reply = Return(reg: Registry, next: Option<Entry>) | Raise(reg: Registry, err: Error)

  /** The Exec that a method reports through its `raised` out-parameter. */
  function Completed(reg: Registry, raised: Option<Error>): Exec {
    if raised.None? then Returned(reg) else Raised(reg, raised.value)
  }

  /** The Reply that a callback method reports through `next` and `raised`. */
  function Answered(reg: Registry, next: Option<Entry>, raised: Option<Error>): Reply {
    if raised.None? then Return(reg, next) else Raise(reg, raised.value)
  }
}
