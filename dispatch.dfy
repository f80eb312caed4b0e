/** The dispatch half of the eventhandler class: `handle` (take the entry,
    invoke its callback, re-register on a non-None result) and `run` (the
    readable, writeable and exceptional lists of each batch, in that order,
    while registrations remain), as functions on the registry. */
module Dispatch {
  import opened Values
  import opened Tables
  import opened Callbacks

  /** Both entries name the same callback. */
  predicate SameCallback(a: Entry, b: Entry) {
    (a.AcceptEntry? && b.AcceptEntry?) || (a.RecvEntry? && b.RecvEntry?) || (a.SendEntry? && b.SendEntry?)
  }

  /** The first socket call of the callback that `e` names fails when `sock`
      is dispatched: a closed socket answers it with EBADF, and a recv or a
      send can also fail with another errno. */
  predicate Fails(r: Registry, sock: Handle, e: Entry, io: SocketIo) {
    || sock in r.closed
    || (e.RecvEntry? && io.recv.RecvFailed?)
    || (e.SendEntry? && io.send.SendFailed?)
  }

  /** func(obj, sock, data): the callback named by the entry, run on its state. */
  function Invoke(r: Registry, sock: Handle, e: Entry, io: SocketIo): (x: Reply)
    ensures x.Raise? <==> Fails(r, sock, e, io)
    ensures x.Raise? ==> x.reg == r && SocketFault(x.err)
    ensures x.Return? && x.next.Some? ==> SameCallback(e, x.next.value)
  {
    match e
    case AcceptEntry(addr) => AcceptStep(r, sock, addr, io.accept)
    case RecvEntry(serv) => RecvStep(r, sock, serv, io.recv)
    case SendEntry(data, sent, clnt) => SendStep(r, sock, data, sent, clnt, io.send)
  }

  /** d.pop(sock): the registry with the entry for (kind, s) taken out. */
  function Take(r: Registry, kind: Kind, s: Handle): (u: Registry)
    requires kind == Recv || kind == Send
    ensures Lookup(u, kind, s) == None
    ensures forall k, h :: k != kind || h != s ==> Lookup(u, k, h) == Lookup(r, k, h)
    ensures u.closed == r.closed && u.out == r.out
  {
    WithTable(r, kind, Table(r, kind) - {s})
  }

  /** handle(kind, sock). TIME does nothing; EXEP raises; for RECV and SEND the
      entry is taken out before its callback runs, a missing entry is
      skipped, an exception of the callback escapes with the entry already
      gone, and a non-None result re-registers the same callback for the
      same key, over whatever the callback itself left there. */
  function HandleSpec(r: Registry, kind: Kind, sock: Option<Handle>, io: SocketIo): (x: Exec)
    ensures kind == Time ==> x == Returned(r)
    ensures kind == Exep ==> x == Raised(r, UnknownDispatch(Exep))
    ensures (kind == Recv || kind == Send) && (sock.None? || sock.value !in Table(r, kind)) ==> x == Returned(r)
    ensures (kind == Recv || kind == Send) && sock.Some? && sock.value in Table(r, kind) ==>
              var s := sock.value;
              var reply := Invoke(Take(r, kind, s), s, Table(r, kind)[s], io);
              && (reply.Raise? ==> x == Raised(reply.reg, reply.err))
              && (reply.Return? ==>
                    && x.Returned?
                    && (reply.next.Some? ==> Lookup(x.reg, kind, s) == reply.next)
                    && (reply.next.None? ==> Lookup(x.reg, kind, s) == Lookup(reply.reg, kind, s))
                    && (forall k, h :: k != kind || h != s ==> Lookup(x.reg, k, h) == Lookup(reply.reg, k, h))
                    && x.reg.closed == reply.reg.closed && x.reg.out == reply.reg.out)
  {
    match kind
    case Time => Returned(r)
    case Exep => Raised(r, UnknownDispatch(Exep))
    case _ =>
      if sock.None? || sock.value !in Table(r, kind) then Returned(r)
      else
        var s := sock.value;
        match Invoke(Take(r, kind, s), s, Table(r, kind)[s], io)
        case Raise(r1, err) => Raised(r1, err)
        case Return(r1, next) =>
          if next.None? then Returned(r1)
          else Returned(WithTable(r1, kind, Table(r1, kind)[s := next.value]))
  }

  /** `for s in evs: self.handle(kind, s)`; an exception ends the loop. An
      EXEP list raises at its first element; a RECV or SEND list raises only
      through a failed socket call. */
  function DispatchSeq(r: Registry, kind: Kind, evs: seq<Ready>): (x: Exec)
    ensures kind == Exep ==> x == if evs == [] then Returned(r) else Raised(r, UnknownDispatch(Exep))
    ensures kind == Time ==> x == Returned(r)
    ensures x.Raised? && kind != Exep ==> SocketFault(x.err)
    decreases |evs|
  {
    if evs == [] then Returned(r)
    else
      match HandleSpec(r, kind, Some(evs[0].sock), evs[0].io)
      case Raised(r1, err) => Raised(r1, err)
      case Returned(r1) => DispatchSeq(r1, kind, evs[1..])
  }

  /** All three ready lists are empty: the wait timed out. */
  predicate Idle(b: Batch) {
    b.readable == [] && b.writeable == [] && b.exceptional == []
  }

  /** One pass of the body of run for the ready lists `b`. A timeout changes
      nothing, a batch with an exceptional event never returns, and every
      other exception comes from a failed socket call. */
  function DispatchBatch(r: Registry, b: Batch): (x: Exec)
    ensures Idle(b) ==> x == Returned(r)
    ensures x.Returned? ==> b.exceptional == []
    ensures x.Raised? ==> (b.exceptional != [] && x.err == UnknownDispatch(Exep)) || SocketFault(x.err)
  {
    if Idle(b) then HandleSpec(r, Time, None, NoIo)
    else
      match DispatchSeq(r, Recv, b.readable)
      case Raised(r1, err) => Raised(r1, err)
      case Returned(r1) =>
        match DispatchSeq(r1, Send, b.writeable)
        case Raised(r2, err) => Raised(r2, err)
        case Returned(r2) => DispatchSeq(r2, Exep, b.exceptional)
  }

  /** Some handle that wfe hands to select.select (a RECV or SEND key) has
      been closed, so select fails with EBADF. */
  predicate Stale(r: Registry) {
    (r.recv.Keys + r.send.Keys) * r.closed != {}
  }

  /** run, fed the successive results of the readiness wait: it stops when no
      registration is left, when an exception escapes (from the wait itself
      when it is asked to watch a closed socket), or when the batches run
      out. */
  function RunSpec(r: Registry, batches: seq<Batch>): (x: Exec)
    ensures Count(r) == 0 ==> x == Returned(r)
    ensures x.Raised? ==> x.err == UnknownDispatch(Exep) || SocketFault(x.err)
    decreases |batches|
  {
    if batches == [] || Count(r) == 0 then Returned(r)
    else if Stale(r) then Raised(r, SocketError)
    else
      match DispatchBatch(r, batches[0])
      case Raised(r1, err) => Raised(r1, err)
      case Returned(r1) => RunSpec(r1, batches[1..])
  }

  // ----- The registry invariant kept by the proxy's callbacks -----

  /** An entry the proxy can hold in the table for `k`: accept and recv
      registrations under RECV, relay states under SEND with
      0 <= sent < |data| <= RECVBLOCK. */
  predicate Fits(k: Kind, e: Entry) {
    match k
    case Recv => e.AcceptEntry? || e.RecvEntry?
    case Send => e.SendEntry? && e.sent < |e.data| <= RECVBLOCK
    case _ => false
  }

  /** The time table stays empty and every entry fits its table. */
  predicate Inv(r: Registry) {
    && r.time == map[]
    && (forall h :: h in r.recv ==> Fits(Recv, r.recv[h]))
    && (forall h :: h in r.send ==> Fits(Send, r.send[h]))
  }

  /** The registration of `e` for `kind` keeps the invariant. */
  lemma RegisterKeepsInv(r: Registry, kind: Kind, sock: Handle, e: Entry)
    requires Inv(r) && Fits(kind, e)
    ensures Inv(Register(r, kind, sock, e).reg)
  {
    var u := Register(r, kind, sock, e).reg;
    forall h | h in u.recv ensures Fits(Recv, u.recv[h]) {
      assert Lookup(u, Recv, h).Some?;
      if kind != Recv || h != sock { assert Lookup(r, Recv, h) == Lookup(u, Recv, h); }
    }
    forall h | h in u.send ensures Fits(Send, u.send[h]) {
      assert Lookup(u, Send, h).Some?;
      if kind != Send || h != sock { assert Lookup(r, Send, h) == Lookup(u, Send, h); }
    }
  }

  lemma UnregisterKeepsInv(r: Registry, h: Handle)
    requires Inv(r)
    ensures Inv(Unregister(r, h))
  {
  }

  /** A callback run on an entry that fits the table it came from leaves the
      invariant in place and asks for an entry that fits the same table. */
  lemma InvokeKeepsInv(r: Registry, kind: Kind, sock: Handle, e: Entry, io: SocketIo)
    requires Inv(r) && Fits(kind, e)
    ensures Inv(Invoke(r, sock, e, io).reg)
    ensures Invoke(r, sock, e, io).Return? && Invoke(r, sock, e, io).next.Some? ==>
              Fits(kind, Invoke(r, sock, e, io).next.value)
  {
    if sock !in r.closed {
      match e
      case AcceptEntry(addr) =>
        if io.accept.connect.Connected? {
          var r1 := Register(r, Recv, io.accept.clnt, RecvEntry(io.accept.connect.serv)).reg;
          RegisterKeepsInv(r, Recv, io.accept.clnt, RecvEntry(io.accept.connect.serv));
          RegisterKeepsInv(r1, Recv, io.accept.connect.serv, RecvEntry(io.accept.clnt));
        }
      case RecvEntry(serv) =>
        if io.recv.Pending? && io.recv.bytes != [] {
          RegisterKeepsInv(r, Send, serv, SendEntry(Chunk(io.recv.bytes), 0, sock));
        } else if io.recv.Pending? {
          UnregisterKeepsInv(Close(Close(r, sock), serv), serv);
        }
      case SendEntry(data, sent, clnt) =>
        if io.send.Room? {
          var n := SendCount(io.send.space, Remaining(data, sent));
          if n <= 0 {
            UnregisterKeepsInv(Close(Close(r, sock), clnt), clnt);
          } else if sent + n == |data| {
            RegisterKeepsInv(Write(r, sock, data[sent..sent + n]), Recv, clnt, RecvEntry(sock));
          }
        }
    }
  }

  /** Taking an entry out keeps the invariant. */
  lemma TakeKeepsInv(r: Registry, kind: Kind, s: Handle)
    requires Inv(r) && (kind == Recv || kind == Send)
    ensures Inv(Take(r, kind, s))
  {
    var t := Take(r, kind, s);
    forall h | h in t.recv ensures Fits(Recv, t.recv[h]) {
      assert h in r.recv && t.recv[h] == r.recv[h];
    }
    forall h | h in t.send ensures Fits(Send, t.send[h]) {
      assert h in r.send && t.send[h] == r.send[h];
    }
  }

  /** handle keeps the invariant. */
  lemma HandleKeepsInv(r: Registry, kind: Kind, sock: Option<Handle>, io: SocketIo)
    requires Inv(r)
    ensures Inv(HandleSpec(r, kind, sock, io).reg)
  {
    if (kind == Recv || kind == Send) && sock.Some? && sock.value in Table(r, kind) {
      var s := sock.value;
      var t := Take(r, kind, s);
      TakeKeepsInv(r, kind, s);
      var e := Table(r, kind)[s];
      assert Fits(kind, e);
      InvokeKeepsInv(t, kind, s, e, io);
      var reply := Invoke(t, s, e, io);
      if reply.Return? && reply.next.Some? {
        var u := WithTable(reply.reg, kind, Table(reply.reg, kind)[s := reply.next.value]);
        assert u == Register(reply.reg, kind, s, reply.next.value).reg;
        RegisterKeepsInv(reply.reg, kind, s, reply.next.value);
      }
    }
  }

  lemma {:induction false} DispatchSeqKeepsInv(r: Registry, kind: Kind, evs: seq<Ready>)
    requires Inv(r)
    ensures Inv(DispatchSeq(r, kind, evs).reg)
    decreases |evs|
  {
    if evs != [] {
      HandleKeepsInv(r, kind, Some(evs[0].sock), evs[0].io);
      var x := HandleSpec(r, kind, Some(evs[0].sock), evs[0].io);
      if x.Returned? {
        DispatchSeqKeepsInv(x.reg, kind, evs[1..]);
      }
    }
  }

  lemma DispatchBatchKeepsInv(r: Registry, b: Batch)
    requires Inv(r)
    ensures Inv(DispatchBatch(r, b).reg)
  {
    if !Idle(b) {
      DispatchSeqKeepsInv(r, Recv, b.readable);
      var x1 := DispatchSeq(r, Recv, b.readable);
      if x1.Returned? {
        DispatchSeqKeepsInv(x1.reg, Send, b.writeable);
      }
    }
  }

  /** Every run keeps the invariant: the time table stays empty and every
      relay state keeps 0 <= sent < |data| <= RECVBLOCK. */
  lemma {:induction false} RunKeepsInv(r: Registry, batches: seq<Batch>)
    requires Inv(r)
    ensures Inv(RunSpec(r, batches).reg)
    decreases |batches|
  {
    if batches != [] && Count(r) != 0 && !Stale(r) {
      DispatchBatchKeepsInv(r, batches[0]);
      var x := DispatchBatch(r, batches[0]);
      if x.Returned? {
        RunKeepsInv(x.reg, batches[1..]);
      }
    }
  }

  /** With the time table empty, numhandlers is the RECV count plus the SEND count. */
  lemma CountIsRecvPlusSend(r: Registry)
    requires Inv(r)
    ensures Count(r) == |r.recv| + |r.send|
  {
  }

  // ----- Exceptions -----

  /** One batch: the readable list and then the writeable list are
      dispatched, each ending the batch if it raises; the exceptional list
      then raises before changing anything, or the batch returns the state
      the two left. */
  lemma DispatchBatchOrder(r: Registry, b: Batch)
    ensures !Idle(b) ==>
              var x1 := DispatchSeq(r, Recv, b.readable);
              var x2 := DispatchSeq(x1.reg, Send, b.writeable);
              DispatchBatch(r, b)
                == if x1.Raised? then x1
                   else if x2.Raised? then x2
                   else if b.exceptional == [] then Returned(x2.reg)
                   else Raised(x2.reg, UnknownDispatch(Exep))
  {
  }

  /** The exceptions that escape run: the one for an exceptional condition,
      only when some batch reports one, and those of failed socket calls. */
  lemma {:induction false} RunErrors(r: Registry, batches: seq<Batch>)
    ensures var x := RunSpec(r, batches);
      x.Raised? ==>
        || SocketFault(x.err)
        || (x.err == UnknownDispatch(Exep) && exists i :: 0 <= i < |batches| && batches[i].exceptional != [])
    decreases |batches|
  {
    if batches != [] && Count(r) != 0 && !Stale(r) {
      var x := DispatchBatch(r, batches[0]);
      if x.Returned? {
        RunErrors(x.reg, batches[1..]);
        var y := RunSpec(x.reg, batches[1..]);
        if y.Raised? && !SocketFault(y.err) {
          var i :| 0 <= i < |batches[1..]| && batches[1..][i].exceptional != [];
          assert batches[i + 1].exceptional != [];
        }
      } else if !SocketFault(x.err) {
        assert batches[0].exceptional != [];
      }
    }
  }

  /** Socket answers under which no callback fails or closes a socket: reads
      find data or would block, writes find room or would block, and the
      outbound connect succeeds. */
  predicate Calm(io: SocketIo) {
    && (io.recv.RecvWouldBlock? || (io.recv.Pending? && io.recv.bytes != []))
    && Writable(io)
    && io.accept.connect.Connected?
  }

  predicate CalmList(evs: seq<Ready>) {
    forall i :: 0 <= i < |evs| ==> Calm(evs[i].io)
  }

  /** A batch without exceptional events whose every dispatch is calm. */
  predicate CalmBatch(b: Batch) {
    b.exceptional == [] && CalmList(b.readable) && CalmList(b.writeable)
  }

  /** A calm dispatch from a registry with no closed socket returns and still
      closes none. */
  lemma HandleCalm(r: Registry, kind: Kind, s: Handle, io: SocketIo)
    requires Inv(r) && r.closed == {} && kind != Exep && Calm(io)
    ensures HandleSpec(r, kind, Some(s), io).Returned?
    ensures HandleSpec(r, kind, Some(s), io).reg.closed == {}
  {
    if (kind == Recv || kind == Send) && s in Table(r, kind) {
      var e := Table(r, kind)[s];
      assert Fits(kind, e);
    }
  }

  lemma {:induction false} DispatchSeqCalm(r: Registry, kind: Kind, evs: seq<Ready>)
    requires Inv(r) && r.closed == {} && kind != Exep && CalmList(evs)
    ensures DispatchSeq(r, kind, evs).Returned?
    ensures DispatchSeq(r, kind, evs).reg.closed == {}
    decreases |evs|
  {
    if evs != [] {
      assert Calm(evs[0].io);
      HandleCalm(r, kind, evs[0].sock, evs[0].io);
      HandleKeepsInv(r, kind, Some(evs[0].sock), evs[0].io);
      var x := HandleSpec(r, kind, Some(evs[0].sock), evs[0].io);
      assert forall i :: 0 <= i < |evs[1..]| ==> evs[1..][i] == evs[i + 1];
      DispatchSeqCalm(x.reg, kind, evs[1..]);
    }
  }

  lemma DispatchBatchCalm(r: Registry, b: Batch)
    requires Inv(r) && r.closed == {} && CalmBatch(b)
    ensures DispatchBatch(r, b).Returned?
    ensures DispatchBatch(r, b).reg.closed == {}
  {
    if !Idle(b) {
      DispatchSeqCalm(r, Recv, b.readable);
      DispatchSeqKeepsInv(r, Recv, b.readable);
      var x1 := DispatchSeq(r, Recv, b.readable);
      DispatchSeqCalm(x1.reg, Send, b.writeable);
    }
  }

  /** A run in which no socket has been closed yet and every dispatch is calm
      returns, with still no socket closed. */
  lemma {:induction false} RunReturnsWithoutCloses(r: Registry, batches: seq<Batch>)
    requires Inv(r) && r.closed == {}
    requires forall i :: 0 <= i < |batches| ==> CalmBatch(batches[i])
    ensures RunSpec(r, batches).Returned?
    ensures RunSpec(r, batches).reg.closed == {}
    decreases |batches|
  {
    if batches != [] && Count(r) != 0 {
      assert !Stale(r);
      assert CalmBatch(batches[0]);
      DispatchBatchCalm(r, batches[0]);
      DispatchBatchKeepsInv(r, batches[0]);
      var x := DispatchBatch(r, batches[0]);
      assert forall i :: 0 <= i < |batches[1..]| ==> batches[1..][i] == batches[i + 1];
      RunReturnsWithoutCloses(x.reg, batches[1..]);
    }
  }

  // ----- One chunk in flight per direction -----

  /** For a relay from `c` to `s`, the RECV on `c` and a SEND on `s` that
      resumes `c` are never pending together, so a chunk still being flushed
      is never overwritten by the next read on `c`. */
  predicate OneChunk(r: Registry) {
    forall c :: c in r.recv && r.recv[c].RecvEntry? ==>
      var s := r.recv[c].dest;
      !(s in r.send && r.send[s].SendEntry? && r.send[s].src == c)
  }

  /** The sockets that a connected accept on the listener `s` hands out are
      new socket objects: neither has a SEND entry yet. */
  predicate FreshAccept(r: Registry, kind: Kind, s: Handle, io: SocketIo) {
    kind == Recv && s in r.recv && r.recv[s].AcceptEntry? && io.accept.connect.Connected? ==>
      io.accept.clnt !in r.send && io.accept.connect.serv !in r.send
  }

  /** handle keeps OneChunk, given that a connected accept yields fresh sockets. */
  lemma HandleKeepsOneChunk(r: Registry, kind: Kind, s: Handle, io: SocketIo)
    requires Inv(r) && OneChunk(r) && FreshAccept(r, kind, s, io)
    ensures OneChunk(HandleSpec(r, kind, Some(s), io).reg)
  {
  }

  /** Each connected accept among `evs`, dispatched from the state that the
      events before it left, yields fresh sockets. Only a RECV list can
      accept, so a SEND list asks for nothing. */
  predicate FreshSeq(r: Registry, kind: Kind, evs: seq<Ready>)
    decreases |evs|
  {
    || kind != Recv || evs == []
    || (&& FreshAccept(r, kind, evs[0].sock, evs[0].io)
        && match HandleSpec(r, kind, Some(evs[0].sock), evs[0].io)
           case Raised(_, _) => true
           case Returned(r1) => FreshSeq(r1, kind, evs[1..]))
  }

  /** Each connected accept of a run yields fresh sockets. */
  predicate FreshRun(r: Registry, batches: seq<Batch>)
    decreases |batches|
  {
    || batches == [] || Count(r) == 0 || Stale(r)
    || (&& FreshSeq(r, Recv, batches[0].readable)
        && match DispatchBatch(r, batches[0])
           case Raised(_, _) => true
           case Returned(r1) => FreshRun(r1, batches[1..]))
  }

  lemma {:induction false} DispatchSeqKeepsOneChunk(r: Registry, kind: Kind, evs: seq<Ready>)
    requires Inv(r) && OneChunk(r) && FreshSeq(r, kind, evs)
    ensures OneChunk(DispatchSeq(r, kind, evs).reg)
    decreases |evs|
  {
    if evs != [] {
      HandleKeepsOneChunk(r, kind, evs[0].sock, evs[0].io);
      HandleKeepsInv(r, kind, Some(evs[0].sock), evs[0].io);
      var x := HandleSpec(r, kind, Some(evs[0].sock), evs[0].io);
      if x.Returned? {
        DispatchSeqKeepsOneChunk(x.reg, kind, evs[1..]);
      }
    }
  }

  lemma DispatchBatchKeepsOneChunk(r: Registry, b: Batch)
    requires Inv(r) && OneChunk(r) && FreshSeq(r, Recv, b.readable)
    ensures OneChunk(DispatchBatch(r, b).reg)
  {
    if !Idle(b) {
      DispatchSeqKeepsOneChunk(r, Recv, b.readable);
      DispatchSeqKeepsInv(r, Recv, b.readable);
      var x1 := DispatchSeq(r, Recv, b.readable);
      if x1.Returned? {
        DispatchSeqKeepsOneChunk(x1.reg, Send, b.writeable);
      }
    }
  }

  /** Every run whose connected accepts yield fresh sockets keeps one chunk
      in flight per direction. */
  lemma {:induction false} RunKeepsOneChunk(r: Registry, batches: seq<Batch>)
    requires Inv(r) && OneChunk(r) && FreshRun(r, batches)
    ensures OneChunk(RunSpec(r, batches).reg)
    decreases |batches|
  {
    if batches != [] && Count(r) != 0 && !Stale(r) {
      DispatchBatchKeepsOneChunk(r, batches[0]);
      DispatchBatchKeepsInv(r, batches[0]);
      var x := DispatchBatch(r, batches[0]);
      if x.Returned? {
        RunKeepsOneChunk(x.reg, batches[1..]);
      }
    }
  }

  // ----- Retry, relay and connection-pair properties of handle -----

  /** Taking an entry out and putting the same one back changes nothing. */
  lemma TakeAndRestore(r: Registry, kind: Kind, s: Handle)
    requires (kind == Recv || kind == Send) && s in Table(r, kind)
    ensures WithTable(Take(r, kind, s), kind, Table(Take(r, kind, s), kind)[s := Table(r, kind)[s]]) == r
  {
    var t: map<Handle, Entry> := Table(r, kind);
    assert (t - {s})[s := t[s]] == t;
  }

  /** A would-block read or write on an open socket is a retry: the registry
      comes back as it was. */
  lemma WouldBlockIsRetry(r: Registry, kind: Kind, s: Handle, io: SocketIo)
    requires (kind == Recv || kind == Send) && s in Table(r, kind) && s !in r.closed
    requires Table(r, kind)[s].RecvEntry? ==> io.recv.RecvWouldBlock?
    requires Table(r, kind)[s].SendEntry? ==> io.send.SendWouldBlock?
    requires !Table(r, kind)[s].AcceptEntry?
    ensures HandleSpec(r, kind, Some(s), io) == Returned(r)
  {
    TakeAndRestore(r, kind, s);
  }

  /** A dispatch on a closed socket raises with its registration gone. */
  lemma ClosedSocketRaises(r: Registry, kind: Kind, s: Handle, io: SocketIo)
    requires (kind == Recv || kind == Send) && s in Table(r, kind) && s in r.closed
    ensures var x := HandleSpec(r, kind, Some(s), io);
      && x.Raised? && SocketFault(x.err)
      && x.reg == Take(r, kind, s)
  {
  }

  /** The listening socket's registration survives every accept, whether the
      outbound connect succeeds or fails. */
  lemma AcceptKeepsListening(r: Registry, l: Handle, addr: Address, io: SocketIo)
    requires l in r.recv && r.recv[l] == AcceptEntry(addr) && l !in r.closed
    ensures var x := HandleSpec(r, Recv, Some(l), io);
      && x.Returned?
      && Lookup(x.reg, Recv, l) == Some(AcceptEntry(addr))
      && (io.accept.connect.ConnectFailed? ==>
            x.reg == Close(r, io.accept.clnt))
      && (io.accept.connect.Connected? && l != io.accept.clnt && l != io.accept.connect.serv
          && io.accept.clnt != io.accept.connect.serv ==>
            && Lookup(x.reg, Recv, io.accept.clnt) == Some(RecvEntry(io.accept.connect.serv))
            && Lookup(x.reg, Recv, io.accept.connect.serv) == Some(RecvEntry(io.accept.clnt))
            && x.reg.closed == r.closed)
  {
    if io.accept.connect.ConnectFailed? {
      TakeAndRestore(Close(r, io.accept.clnt), Recv, l);
    }
  }

  /** A peer that closes its side (an empty read on `c`, whose state is `s`)
      closes both ends and removes `c`'s RECV entry and every entry of `s`.
      Other handles keep their registrations; so does a pending SEND on `c`
      itself, since only one peer is unregistered, and that leaves a closed
      socket watched. */
  lemma PeerCloseClosesPair(r: Registry, c: Handle, s: Handle, io: SocketIo)
    requires c in r.recv && r.recv[c] == RecvEntry(s) && c !in r.closed && io.recv == Pending([])
    ensures var x := HandleSpec(r, Recv, Some(c), io);
      && x.Returned?
      && x.reg.closed == r.closed + {c, s}
      && Lookup(x.reg, Recv, c) == None
      && (forall k :: Lookup(x.reg, k, s) == None)
      && (forall k, h :: h != c && h != s ==> Lookup(x.reg, k, h) == Lookup(r, k, h))
      && (c != s ==> Lookup(x.reg, Send, c) == Lookup(r, Send, c))
      && (c != s && c in r.send ==> Stale(x.reg))
  {
    var x := HandleSpec(r, Recv, Some(c), io);
    if c != s && c in r.send {
      assert Lookup(x.reg, Send, c).Some?;
      assert c in (x.reg.recv.Keys + x.reg.send.Keys) * x.reg.closed;
    }
  }

  /** A read of data on `c` (whose state is `s`) takes `c` off the RECV
      table and leaves a relay state on `s` carrying the first chunk, offset
      0 and `c` as the source to resume; nothing else changes. */
  lemma ReadHandsOffToSend(r: Registry, c: Handle, s: Handle, io: SocketIo)
    requires c in r.recv && r.recv[c] == RecvEntry(s) && c !in r.closed
    requires io.recv.Pending? && io.recv.bytes != []
    ensures var x := HandleSpec(r, Recv, Some(c), io);
      && x.Returned?
      && Lookup(x.reg, Recv, c) == None
      && Lookup(x.reg, Send, s) == Some(SendEntry(Chunk(io.recv.bytes), 0, c))
      && (forall k, h :: (k != Recv || h != c) && (k != Send || h != s) ==> Lookup(x.reg, k, h) == Lookup(r, k, h))
      && x.reg.closed == r.closed && x.reg.out == r.out
  {
  }

  /** sendhandler's branch for a non-positive count (no room on `s`, whose
      relay state resumes `c`) closes both ends and removes `s`'s SEND entry
      and every entry of `c`; other registrations, including a pending RECV
      on `s`, are kept, and that leaves a closed socket watched. CPython's
      send does not return such a count, so a real program does not reach
      this branch. */
  lemma BrokenWriteClosesPair(r: Registry, s: Handle, io: SocketIo)
    requires s in r.send && r.send[s].SendEntry? && s !in r.closed
    requires io.send.Room? && io.send.space <= 0
    ensures var c := r.send[s].src;
      var x := HandleSpec(r, Send, Some(s), io);
      && x.Returned?
      && x.reg.closed == r.closed + {s, c}
      && Lookup(x.reg, Send, s) == None
      && (forall k :: Lookup(x.reg, k, c) == None)
      && (forall k, h :: h != c && h != s ==> Lookup(x.reg, k, h) == Lookup(r, k, h))
      && (c != s ==> Lookup(x.reg, Recv, s) == Lookup(r, Recv, s))
      && (c != s && s in r.recv ==> Stale(x.reg))
  {
    var c := r.send[s].src;
    var x := HandleSpec(r, Send, Some(s), io);
    if c != s && s in r.recv {
      assert Lookup(x.reg, Recv, s).Some?;
      assert s in (x.reg.recv.Keys + x.reg.send.Keys) * x.reg.closed;
    }
  }

  /** The relay from `c` to `s` that still has bytes pending towards `c`: an
      empty read on `c` closes both ends, and the write event for `c` in the
      same wait then raises. */
  lemma PeerCloseWithPendingWriteRaises(r: Registry, c: Handle, s: Handle, io1: SocketIo, io2: SocketIo)
    requires c != s && c !in r.closed && io1.recv == Pending([])
    requires c in r.recv && r.recv[c] == RecvEntry(s) && c in r.send && r.send[c].SendEntry?
    ensures var x := DispatchBatch(r, Batch([Ready(c, io1)], [Ready(c, io2)], []));
      x.Raised? && x.err == UnboundLocal("n") && c !in x.reg.send
  {
    PeerCloseClosesPair(r, c, s, io1);
    var y := HandleSpec(r, Recv, Some(c), io1);
    assert DispatchSeq(r, Recv, [Ready(c, io1)]) == DispatchSeq(y.reg, Recv, []);
    assert c in y.reg.send && c in y.reg.closed && y.reg.send[c] == r.send[c];
    var t := Take(y.reg, Send, c);
    assert Invoke(t, c, y.reg.send[c], io2) == Raise(t, UnboundLocal("n"));
    assert DispatchSeq(y.reg, Send, [Ready(c, io2)]) == Raised(t, UnboundLocal("n"));
  }

  /** Once a closed socket is watched, the next wait of run raises, as long
      as a registration is left and another wait is due. */
  lemma StaleWaitRaises(r: Registry, batches: seq<Batch>)
    requires Stale(r) && batches != []
    ensures RunSpec(r, batches) == Raised(r, SocketError)
  {
    var h :| h in (r.recv.Keys + r.send.Keys) * r.closed;
    assert h in r.recv || h in r.send;
    assert Count(r) != 0;
  }

  /** An event that lets a write go on: would-block, or room for some bytes. */
  predicate Writable(io: SocketIo) {
    io.send.SendWouldBlock? || (io.send.Room? && io.send.space > 0)
  }

  /** SEND events for a handle with no SEND entry do nothing. */
  lemma {:induction false} DispatchMissingIsNoop(r: Registry, s: Handle, evs: seq<Ready>)
    requires s !in r.send
    requires forall i :: 0 <= i < |evs| ==> evs[i].sock == s
    ensures DispatchSeq(r, Send, evs) == Returned(r)
    decreases |evs|
  {
    if evs != [] {
      DispatchMissingIsNoop(r, s, evs[1..]);
    }
  }

  lemma SliceJoin(data: seq<Byte>, a: nat, b: nat, c: nat)
    requires a <= b <= c <= |data|
    ensures data[a..b] + data[b..c] == data[a..c]
  {
  }

  /** One non-breaking SEND event for the relay state at the open socket `s`. */
  lemma SendEventStep(r: Registry, s: Handle, io: SocketIo)
    requires s in r.send && r.send[s].SendEntry? && r.send[s].sent < |r.send[s].data|
    requires s !in r.closed && Writable(io)
    ensures var e := r.send[s];
      var x := HandleSpec(r, Send, Some(s), io);
      && x.Returned?
      && x.reg.closed == r.closed
      && (io.send.SendWouldBlock? ==> x.reg == r)
      && (io.send.Room? ==>
            var n := Min(io.send.space, |e.data| - e.sent);
            && 0 < n
            && Out(x.reg, s) == Out(r, s) + e.data[e.sent..e.sent + n]
            && (e.sent + n < |e.data| ==> s in x.reg.send && x.reg.send[s] == SendEntry(e.data, e.sent + n, e.src))
            && (e.sent + n == |e.data| ==> s !in x.reg.send && Lookup(x.reg, Recv, e.src) == Some(RecvEntry(s))))
  {
    if io.send.SendWouldBlock? {
      TakeAndRestore(r, Send, s);
    }
  }

  /** What `u` shows of the relay state `e` that `r` held at `s`: nothing
      closed; while pending, the same payload and source at an offset no
      smaller and still short of the end; and the bytes written to `s` are
      the payload from the old offset to the new one, or to the end once
      flushed, when `s`'s source is watched for reading again. */
  predicate RelayProgress(r: Registry, s: Handle, e: Entry, u: Registry)
    requires e.SendEntry? && e.sent <= |e.data|
  {
    && u.closed == r.closed
    && (s in u.send ==>
          && u.send[s].SendEntry?
          && u.send[s].data == e.data && u.send[s].src == e.src
          && e.sent <= u.send[s].sent < |e.data|
          && Out(u, s) == Out(r, s) + e.data[e.sent..u.send[s].sent])
    && (s !in u.send ==>
          && Lookup(u, Recv, e.src) == Some(RecvEntry(s))
          && Out(u, s) == Out(r, s) + e.data[e.sent..])
  }

  /** Progress composes: progress from a partial write on, after that write. */
  lemma RelayProgressAfterPartial(r: Registry, r1: Registry, s: Handle, e: Entry, n: nat, u: Registry)
    requires e.SendEntry? && e.sent + n < |e.data|
    requires s in r1.send && r1.send[s] == SendEntry(e.data, e.sent + n, e.src)
    requires r1.closed == r.closed && Out(r1, s) == Out(r, s) + e.data[e.sent..e.sent + n]
    requires RelayProgress(r1, s, r1.send[s], u)
    ensures RelayProgress(r, s, e, u)
  {
    if s in u.send {
      SliceJoin(e.data, e.sent, e.sent + n, u.send[s].sent);
    } else {
      SliceJoin(e.data, e.sent, e.sent + n, |e.data|);
    }
  }

  /** A relay state at `s` under any run of SEND events for `s` that do not
      break the connection makes progress in the sense of RelayProgress: the
      offset only grows and stays short of the payload length while pending,
      the bytes written to `s` are exactly the payload between the offsets,
      and a flushed payload re-arms reading on its source. */
  lemma {:induction false} FlushDeliversPayload(r: Registry, s: Handle, evs: seq<Ready>)
    requires s in r.send && r.send[s].SendEntry? && r.send[s].sent < |r.send[s].data| && s !in r.closed
    requires forall i :: 0 <= i < |evs| ==> evs[i].sock == s && Writable(evs[i].io)
    ensures DispatchSeq(r, Send, evs).Returned?
    ensures RelayProgress(r, s, r.send[s], DispatchSeq(r, Send, evs).reg)
    decreases |evs|
  {
    var e := r.send[s];
    if evs == [] {
      assert e.data[e.sent..e.sent] == [];
      return;
    }
    SendEventStep(r, s, evs[0].io);
    var x1 := HandleSpec(r, Send, Some(s), evs[0].io);
    var rest := evs[1..];
    assert DispatchSeq(r, Send, evs) == DispatchSeq(x1.reg, Send, rest);
    assert forall i :: 0 <= i < |rest| ==> rest[i] == evs[i + 1];
    if evs[0].io.send.SendWouldBlock? {
      FlushDeliversPayload(r, s, rest);
    } else {
      var n := Min(evs[0].io.send.space, |e.data| - e.sent);
      if e.sent + n < |e.data| {
        FlushDeliversPayload(x1.reg, s, rest);
        RelayProgressAfterPartial(r, x1.reg, s, e, n, DispatchSeq(x1.reg, Send, rest).reg);
      } else {
        assert e.data[e.sent..e.sent + n] == e.data[e.sent..];
        DispatchMissingIsNoop(x1.reg, s, rest);
      }
    }
  }

  /** A small message 0 < |bytes| <= RECVBLOCK on a relay from `c` to `s`,
      read once and written once into room for all of it: RECV on `c` hands
      the bytes to a SEND on `s`, the SEND delivers them unchanged, and `c`
      is watched for reading again, with nothing pending on `s`. */
  lemma RelayOneMessage(r: Registry, c: Handle, s: Handle, bytes: seq<Byte>, io1: SocketIo, io2: SocketIo)
    requires c in r.recv && r.recv[c] == RecvEntry(s) && c !in r.closed && s !in r.closed
    requires io1.recv == Pending(bytes) && 0 < |bytes| <= RECVBLOCK
    requires io2.send.Room? && io2.send.space >= |bytes|
    ensures var x1 := HandleSpec(r, Recv, Some(c), io1);
      && x1.Returned?
      && Lookup(x1.reg, Recv, c) == None
      && Lookup(x1.reg, Send, s) == Some(SendEntry(bytes, 0, c))
      && var x2 := HandleSpec(x1.reg, Send, Some(s), io2);
      && x2.Returned?
      && Lookup(x2.reg, Recv, c) == Some(RecvEntry(s))
      && Lookup(x2.reg, Send, s) == None
      && Out(x2.reg, s) == Out(r, s) + bytes
      && x2.reg.closed == r.closed
  {
    var x1 := HandleSpec(r, Recv, Some(c), io1);
    assert Lookup(x1.reg, Send, s) == Some(SendEntry(bytes, 0, c));
    assert bytes[0..|bytes|] == bytes;
  }
}
