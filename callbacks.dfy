/** The three forwarding callbacks of eventhandler.py (accepthandler,
    recvhandler, sendhandler) as functions from the registry and the socket
    answers to the callback's effect on the registry and its return value. */
module Callbacks {
  import opened Values
  import opened Tables

  function Min(a: int, b: int): int {
    if a <= b then a else b
  }

  /** The bytes one recv(RECVBLOCK) takes from the `pending` queue. */
  function Chunk(pending: seq<Byte>): (c: seq<Byte>)
    ensures |c| <= RECVBLOCK && |c| <= |pending| && c == pending[..|c|]
    ensures c == [] <==> pending == []
    ensures |pending| <= RECVBLOCK ==> c == pending
  {
    if |pending| <= RECVBLOCK then pending else pending[..RECVBLOCK]
  }

  /** The length of data[sent:], with Python's slicing past the end. */
  function Remaining(data: seq<Byte>, sent: nat): (k: nat)
    ensures sent + k == |data| || (k == 0 && sent >= |data|)
  {
    if sent <= |data| then |data| - sent else 0
  }

  /** What send returns for a buffer of `len` bytes on a socket with room
      for `space`: the space itself when it is not positive, otherwise as
      many bytes as both allow. */
  function SendCount(space: int, len: nat): (n: int)
    ensures n <= len
    ensures n > 0 <==> space > 0 && len > 0
    ensures space > 0 ==> n == Min(space, len)
  {
    if space <= 0 then space else Min(space, len)
  }

  /** The errors a failed socket call makes escape a callback: an uncaught
      socket.error, or a read of the local that the failed call left unbound. */
  predicate SocketFault(err: Error) {
    err == SocketError || err == UnboundLocal("data") || err == UnboundLocal("n")
  }

  /** recvhandler(obj, clnt, serv), with the would-block path returning the
      unchanged state `serv`, so that the same registration is retried. Any
      other socket error, and every recv on a closed socket (EBADF), falls
      through the handler with `data` unassigned, so `not data` raises. */
  function RecvStep(r: Registry, clnt: Handle, serv: Handle, io: RecvOutcome): (x: Reply)
    ensures x.Raise? <==> clnt in r.closed || io.RecvFailed?
    ensures x.Raise? ==> x == Raise(r, UnboundLocal("data"))
    ensures clnt !in r.closed && io.RecvWouldBlock? ==> x == Return(r, Some(RecvEntry(serv)))
    ensures clnt !in r.closed && io.Pending? ==> x.Return? && x.next == None && x.reg.out == r.out
    ensures clnt !in r.closed && io.Pending? && io.bytes != [] ==>
              && Lookup(x.reg, Send, serv) == Some(SendEntry(Chunk(io.bytes), 0, clnt))
              && (forall k, h :: k != Send || h != serv ==> Lookup(x.reg, k, h) == Lookup(r, k, h))
              && x.reg.closed == r.closed
    ensures clnt !in r.closed && io.Pending? && io.bytes == [] ==>
              && x.reg.closed == r.closed + {clnt, serv}
              && (forall k :: Lookup(x.reg, k, serv) == None)
              && (forall k, h :: h != serv ==> Lookup(x.reg, k, h) == Lookup(r, k, h))
  {
    if clnt in r.closed then Raise(r, UnboundLocal("data"))
    else
      match io
      case RecvWouldBlock => Return(r, Some(RecvEntry(serv)))
      case RecvFailed => Raise(r, UnboundLocal("data"))
      case Pending(bytes) =>
        var data := Chunk(bytes);
        if data == [] then
          Return(Unregister(Close(Close(r, clnt), serv), serv), None)
        else
          Return(Register(r, Send, serv, SendEntry(data, 0, clnt)).reg, None)
  }

  /** sendhandler(obj, serv, (data, sent, clnt)), with the partial-write path
      returning (data, sent + n, clnt), so that flushing continues. Any other
      socket error, and every send on a closed socket (EBADF), falls through
      the handler with `n` unassigned, so `n <= 0` raises. */
  function SendStep(r: Registry, serv: Handle, data: seq<Byte>, sent: nat, clnt: Handle, io: SendOutcome): (x: Reply)
    ensures x.Raise? <==> serv in r.closed || io.SendFailed?
    ensures x.Raise? ==> x == Raise(r, UnboundLocal("n"))
    ensures serv !in r.closed && io.SendWouldBlock? ==> x == Return(r, Some(SendEntry(data, sent, clnt)))
    ensures serv !in r.closed && io.Room? ==>
              var n := SendCount(io.space, Remaining(data, sent));
              && x.Return?
              && (n <= 0 ==>
                    && x.next == None
                    && x.reg.closed == r.closed + {serv, clnt}
                    && (forall k :: Lookup(x.reg, k, clnt) == None)
                    && (forall k, h :: h != clnt ==> Lookup(x.reg, k, h) == Lookup(r, k, h))
                    && x.reg.out == r.out)
              && (n > 0 ==>
                    && sent + n <= |data|
                    && x.reg.closed == r.closed
                    && Out(x.reg, serv) == Out(r, serv) + data[sent..sent + n]
                    && (forall h :: h != serv ==> Out(x.reg, h) == Out(r, h)))
              && (n > 0 && sent + n < |data| ==>
                    && x.next == Some(SendEntry(data, sent + n, clnt))
                    && (forall k, h :: Lookup(x.reg, k, h) == Lookup(r, k, h)))
              && (n > 0 && sent + n == |data| ==>
                    && x.next == None
                    && Lookup(x.reg, Recv, clnt) == Some(RecvEntry(serv))
                    && (forall k, h :: k != Recv || h != clnt ==> Lookup(x.reg, k, h) == Lookup(r, k, h)))
  {
    if serv in r.closed then Raise(r, UnboundLocal("n"))
    else
      match io
      case SendWouldBlock => Return(r, Some(SendEntry(data, sent, clnt)))
      case SendFailed => Raise(r, UnboundLocal("n"))
      case Room(space) =>
        var n := SendCount(space, Remaining(data, sent));
        if n <= 0 then
          Return(Unregister(Close(Close(r, serv), clnt), clnt), None)
        else
          var w := Write(r, serv, data[sent..sent + n]);
          if sent + n < |data| then
            Return(w, Some(SendEntry(data, sent + n, clnt)))
          else
            Return(Register(w, Recv, clnt, RecvEntry(serv)).reg, None)
  }

  /** accepthandler(obj, sock, addr): on a successful outbound connect, both
      ends are watched for reading, each relaying to the other; on failure
      the accepted socket is closed. Both paths return `addr`, so the
      listening socket stays registered. An accept on a closed listening
      socket raises socket.error, which nothing catches. */
  function AcceptStep(r: Registry, sock: Handle, addr: Address, io: AcceptOutcome): (x: Reply)
    ensures x.Raise? <==> sock in r.closed
    ensures x.Raise? ==> x == Raise(r, SocketError)
    ensures x.Return? ==> x.next == Some(AcceptEntry(addr)) && x.reg.out == r.out
    ensures sock !in r.closed && io.connect.Connected? ==>
              var clnt, serv := io.clnt, io.connect.serv;
              && x.reg.closed == r.closed
              && Lookup(x.reg, Recv, serv) == Some(RecvEntry(clnt))
              && (clnt != serv ==> Lookup(x.reg, Recv, clnt) == Some(RecvEntry(serv)))
              && (forall k, h :: k != Recv || (h != clnt && h != serv) ==> Lookup(x.reg, k, h) == Lookup(r, k, h))
    ensures sock !in r.closed && io.connect.ConnectFailed? ==>
              && x.reg.closed == r.closed + {io.clnt}
              && (forall k, h :: Lookup(x.reg, k, h) == Lookup(r, k, h))
  {
    if sock in r.closed then Raise(r, SocketError)
    else
      match io.connect
      case ConnectFailed => Return(Close(r, io.clnt), Some(AcceptEntry(addr)))
      case Connected(serv) =>
        var r1 := Register(r, Recv, io.clnt, RecvEntry(serv)).reg;
        Return(Register(r1, Recv, serv, RecvEntry(io.clnt)).reg, Some(AcceptEntry(addr)))
  }

  // The retry paths of recvhandler and sendhandler as the source writes them.

  /** recvhandler as written: its would-block path evaluates the undefined
      name `buf` and so raises instead of retrying. */
  function RecvStepAsWritten(r: Registry, clnt: Handle, serv: Handle, io: RecvOutcome): (x: Reply)
    ensures x.Raise? <==> clnt in r.closed || !io.Pending?
    ensures !(clnt !in r.closed && io.RecvWouldBlock?) ==> x == RecvStep(r, clnt, serv, io)
  {
    if clnt !in r.closed && io.RecvWouldBlock? then Raise(r, NameError("buf"))
    else RecvStep(r, clnt, serv, io)
  }

  /** sendhandler as written: its partial-write path evaluates the undefined
      name `cnlt` and so raises, after the bytes have gone out. */
  function SendStepAsWritten(r: Registry, serv: Handle, data: seq<Byte>, sent: nat, clnt: Handle, io: SendOutcome): (x: Reply)
    ensures x.Raise? <==>
              || serv in r.closed || io.SendFailed?
              || (io.Room? && 0 < SendCount(io.space, Remaining(data, sent))
                  && sent + SendCount(io.space, Remaining(data, sent)) < |data|)
    ensures x.Return? ==> x == SendStep(r, serv, data, sent, clnt, io)
    ensures x.Raise? ==> x.reg == SendStep(r, serv, data, sent, clnt, io).reg
  {
    var x := SendStep(r, serv, data, sent, clnt, io);
    if serv !in r.closed && io.Room? && 0 < SendCount(io.space, Remaining(data, sent))
       && sent + SendCount(io.space, Remaining(data, sent)) < |data|
    then Raise(x.reg, NameError("cnlt"))
    else x
  }

  /** As written, a would-block read raises where the intended callback retries
      with the registry untouched. */
  lemma RecvRetryAsWrittenRaises(r: Registry, clnt: Handle, serv: Handle)
    requires clnt !in r.closed
    ensures RecvStepAsWritten(r, clnt, serv, RecvWouldBlock) == Raise(r, NameError("buf"))
    ensures RecvStep(r, clnt, serv, RecvWouldBlock) == Return(r, Some(RecvEntry(serv)))
  {
  }

  /** As written, a partial write of any payload raises once the bytes are
      out, where the intended callback continues from the advanced offset. */
  lemma SendPartialAsWrittenRaises(r: Registry, serv: Handle, data: seq<Byte>, sent: nat, clnt: Handle, space: int)
    requires serv !in r.closed && 0 < space && sent + space < |data|
    ensures SendStepAsWritten(r, serv, data, sent, clnt, Room(space))
         == Raise(Write(r, serv, data[sent..sent + space]), NameError("cnlt"))
    ensures SendStep(r, serv, data, sent, clnt, Room(space))
         == Return(Write(r, serv, data[sent..sent + space]), Some(SendEntry(data, sent + space, clnt)))
  {
  }
}
