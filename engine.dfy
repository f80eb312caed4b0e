/** The eventhandler class of eventhandler.py as an object whose three handler
    dictionaries are fields updated in place, together with the callbacks
    recvhandler, sendhandler and accepthandler that drive it. The socket
    primitives are not performed: their answers come in as SocketIo values,
    and their effects are recorded in the fields `closed` and `out`. Every
    operation is proved against its function in Tables, Callbacks or Dispatch. */
module EventHandler {
  import opened Values
  import opened Tables
  import opened Callbacks
  import opened Dispatch

  class Engine {
    var recvhandlers: map<Handle, Entry>
    var sendhandlers: map<Handle, Entry>
    var timehandlers: map<Handle, Entry>
    /** The sockets closed so far. */
    var closed: set<Handle>
    /** The bytes written to each socket so far. */
    var out: map<Handle, seq<Byte>>

    /** The registry value the fields stand for. */
    ghost function Model(): Registry
      reads this
    {
      Registry(recvhandlers, sendhandlers, timehandlers, closed, out)
    }

    /** eventhandler(): three empty tables. */
    constructor ()
      ensures Model() == Registry(map[], map[], map[], {}, map[])
      ensures Inv(Model())
    {
      recvhandlers := map[];
      sendhandlers := map[];
      timehandlers := map[];
      closed := {};
      out := map[];
    }

    /** unregisterandcloseanyhandler(handle). */
    method UnregisterAndCloseAnyHandler(h: Handle)
      modifies this
      ensures Model() == Unregister(old(Model()), h)
    {
      if h in recvhandlers {
        recvhandlers := recvhandlers - {h};
      }
      if h in sendhandlers {
        sendhandlers := sendhandlers - {h};
      }
      if h in timehandlers {
        timehandlers := timehandlers - {h};
      }
      assert recvhandlers == old(recvhandlers) - {h};
      assert sendhandlers == old(sendhandlers) - {h};
      assert timehandlers == old(timehandlers) - {h};
    }

    /** registerhandler(type, sock, func, data), with func and data given as one entry. */
    method RegisterHandler(kind: Kind, sock: Handle, e: Entry) returns (raised: Option<Error>)
      modifies this
      ensures Register(old(Model()), kind, sock, e) == Completed(Model(), raised)
    {
      if kind == Recv {
        recvhandlers := recvhandlers[sock := e];
      } else if kind == Send {
        sendhandlers := sendhandlers[sock := e];
      } else {
        return Some(UnsupportedRegistration(kind));
      }
      return None;
    }

    /** prepareselect: the handles watched for reading and for writing, and the timeout. */
    function PrepareSelect(): (sel: (set<Handle>, set<Handle>, nat))
      reads this
      ensures forall h :: h in sel.0 <==> Lookup(Model(), Recv, h).Some?
      ensures forall h :: h in sel.1 <==> Lookup(Model(), Send, h).Some?
      ensures sel.2 == TIMEOUT
    {
      (recvhandlers.Keys, sendhandlers.Keys, TIMEOUT)
    }

    /** numhandlers. */
    function NumHandlers(): (n: nat)
      reads this
      ensures n == Count(Model())
    {
      |recvhandlers| + |sendhandlers| + |timehandlers|
    }

    /** The effect of socket.close on `h`. */
    method CloseSocket(h: Handle)
      modifies this
      ensures Model() == Close(old(Model()), h)
    {
      closed := closed + {h};
    }

    /** The effect of socket.send putting `bytes` on `h`. */
    method Transmit(h: Handle, bytes: seq<Byte>)
      modifies this
      ensures Model() == Write(old(Model()), h, bytes)
    {
      var before := if h in out then out[h] else [];
      out := out[h := before + bytes];
    }

    /** handle(type, sock). */
    method HandleEvent(kind: Kind, sock: Option<Handle>, io: SocketIo) returns (raised: Option<Error>)
      modifies this
      ensures HandleSpec(old(Model()), kind, sock, io) == Completed(Model(), raised)
      ensures Inv(old(Model())) ==> Inv(Model())
    {
      if Inv(Model()) {
        HandleKeepsInv(Model(), kind, sock, io);
      }
      if kind == Time {
        // No timer handlers exist: nothing to do.
        return None;
      }
      if kind == Exep {
        return Some(UnknownDispatch(Exep));
      }
      var d := if kind == Recv then recvhandlers else sendhandlers;
      if sock.None? || sock.value !in d {
        // Already removed by an earlier callback of the same batch.
        return None;
      }
      var s := sock.value;
      var e := d[s];
      if kind == Recv {
        recvhandlers := recvhandlers - {s};
      } else {
        sendhandlers := sendhandlers - {s};
      }
      ghost var taken := Model();
      assert taken == Take(old(Model()), kind, s);
      var next: Option<Entry>;
      var failed: Option<Error>;
      match e {
        case AcceptEntry(addr) =>
          next, failed := AcceptHandler(this, s, addr, io.accept);
        case RecvEntry(serv) =>
          next, failed := RecvHandler(this, s, serv, io.recv);
        case SendEntry(data, sent, clnt) =>
          next, failed := SendHandler(this, s, data, sent, clnt, io.send);
      }
      assert Invoke(taken, s, e, io) == Answered(Model(), next, failed);
      if failed.Some? {
        // The callback's exception escapes, with the entry already popped.
        return failed;
      }
      if next.Some? {
        if kind == Recv {
          recvhandlers := recvhandlers[s := next.value];
        } else {
          sendhandlers := sendhandlers[s := next.value];
        }
      }
      return None;
    }

    /** The loop `for s in evs: self.handle(kind, s)` of run. */
    method HandleEach(kind: Kind, evs: seq<Ready>) returns (raised: Option<Error>)
      modifies this
      ensures DispatchSeq(old(Model()), kind, evs) == Completed(Model(), raised)
    {
      for j := 0 to |evs|
        invariant DispatchSeq(Model(), kind, evs[j..]) == DispatchSeq(old(Model()), kind, evs)
      {
        assert evs[j..][0] == evs[j] && evs[j..][1..] == evs[j + 1..];
        raised := HandleEvent(kind, Some(evs[j].sock), evs[j].io);
        if raised.Some? {
          return;
        }
      }
      return None;
    }

    /** run, fed the successive results of the readiness wait. */
    method Run(batches: seq<Batch>) returns (raised: Option<Error>)
      modifies this
      ensures RunSpec(old(Model()), batches) == Completed(Model(), raised)
      ensures Inv(old(Model())) ==> Inv(Model())
      ensures raised.Some? ==> raised.value == UnknownDispatch(Exep) || SocketFault(raised.value)
    {
      if Inv(Model()) {
        RunKeepsInv(Model(), batches);
      }
      var i := 0;
      while i < |batches| && NumHandlers() > 0
        invariant 0 <= i <= |batches|
        invariant RunSpec(Model(), batches[i..]) == RunSpec(old(Model()), batches)
        decreases |batches| - i
      {
        var sel := PrepareSelect();
        if (sel.0 + sel.1) * closed != {} {
          // select.select fails with EBADF on a closed socket it is asked to watch.
          assert Stale(Model());
          return Some(SocketError);
        }
        var b := batches[i];
        ghost var before := Model();
        if Idle(b) {
          raised := HandleEvent(Time, None, NoIo);
        } else {
          raised := HandleEach(Recv, b.readable);
          if raised.None? {
            raised := HandleEach(Send, b.writeable);
          }
          if raised.None? {
            raised := HandleEach(Exep, b.exceptional);
          }
        }
        assert DispatchBatch(before, b) == Completed(Model(), raised);
        assert batches[i..][0] == b && batches[i..][1..] == batches[i + 1..];
        if raised.Some? {
          return;
        }
        i := i + 1;
      }
      return None;
    }
  }

  /** recvhandler(obj, clnt, serv). */
  method RecvHandler(obj: Engine, clnt: Handle, serv: Handle, io: RecvOutcome)
    returns (next: Option<Entry>, raised: Option<Error>)
    modifies obj
    ensures RecvStep(old(obj.Model()), clnt, serv, io) == Answered(obj.Model(), next, raised)
  {
    // A recv on a closed socket fails with EBADF, like any recv that fails
    // with an errno other than EAGAIN: `data` stays unassigned and reading
    // it raises.
    if clnt in obj.closed || io.RecvFailed? {
      return None, Some(UnboundLocal("data"));
    }
    match io {
      case RecvWouldBlock =>
        // Deviation: the source returns the undefined name `buf` here; the
        // model returns the unchanged state, so the same registration is retried.
        return Some(RecvEntry(serv)), None;
      case Pending(bytes) =>
        var data := Chunk(bytes);
        if data == [] {
          obj.CloseSocket(clnt);
          obj.CloseSocket(serv);
          obj.UnregisterAndCloseAnyHandler(serv);
          return None, None;
        }
        var ignored := obj.RegisterHandler(Send, serv, SendEntry(data, 0, clnt));
        return None, None;
    }
  }

  /** sendhandler(obj, serv, (data, sent, clnt)). */
  method SendHandler(obj: Engine, serv: Handle, data: seq<Byte>, sent: nat, clnt: Handle, io: SendOutcome)
    returns (next: Option<Entry>, raised: Option<Error>)
    modifies obj
    ensures SendStep(old(obj.Model()), serv, data, sent, clnt, io) == Answered(obj.Model(), next, raised)
  {
    // As in recvhandler, a failed send leaves `n` unassigned.
    if serv in obj.closed || io.SendFailed? {
      return None, Some(UnboundLocal("n"));
    }
    match io {
      case SendWouldBlock =>
        return Some(SendEntry(data, sent, clnt)), None;
      case Room(space) =>
        var n := SendCount(space, Remaining(data, sent));
        if n > 0 {
          obj.Transmit(serv, data[sent..sent + n]);
        }
        if n <= 0 {
          obj.CloseSocket(serv);
          obj.CloseSocket(clnt);
          obj.UnregisterAndCloseAnyHandler(clnt);
          return None, None;
        }
        var sent' := sent + n;
        if sent' < |data| {
          // Deviation: the source returns (data, sent, cnlt), an undefined
          // name; the model returns the advanced state with `clnt`.
          return Some(SendEntry(data, sent', clnt)), None;
        }
        var ignored := obj.RegisterHandler(Recv, clnt, RecvEntry(serv));
        return None, None;
    }
  }

  /** accepthandler(obj, sock, addr): `io` is what sock.accept() and the
      outbound connect to `addr` give. */
  method AcceptHandler(obj: Engine, sock: Handle, addr: Address, io: AcceptOutcome)
    returns (next: Option<Entry>, raised: Option<Error>)
    modifies obj
    ensures AcceptStep(old(obj.Model()), sock, addr, io) == Answered(obj.Model(), next, raised)
  {
    if sock in obj.closed {
      // accept on a closed socket raises socket.error, which nothing catches.
      return None, Some(SocketError);
    }
    var clnt := io.clnt;
    match io.connect {
      case ConnectFailed =>
        obj.CloseSocket(clnt);
      case Connected(serv) =>
        var ignored := obj.RegisterHandler(Recv, clnt, RecvEntry(serv));
        ignored := obj.RegisterHandler(Recv, serv, RecvEntry(clnt));
    }
    return Some(AcceptEntry(addr)), None;
  }
}
