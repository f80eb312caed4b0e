/** The handler registry of eventhandler.py: three tables from a socket handle
    to its pending registration, and the operations on them. */
module Tables {
  import opened Values

  /** The table for a handler type; EXEP has none. */
  function Table(r: Registry, k: Kind): map<Handle, Entry> {
    match k
    case Recv => r.recv
    case Send => r.send
    case Time => r.time
    case Exep => map[]
  }

  /** The registration for (k, h), if any. */
  function Lookup(r: Registry, k: Kind, h: Handle): Option<Entry> {
    if h in Table(r, k) then Some(Table(r, k)[h]) else None
  }

  /** `r` with the table for `k` replaced by `t`. */
  function WithTable(r: Registry, k: Kind, t: map<Handle, Entry>): (u: Registry)
    requires k != Exep
    ensures Table(u, k) == t
    ensures forall j :: j != k ==> Table(u, j) == Table(r, j)
    ensures u.closed == r.closed && u.out == r.out
  {
    match k
    case Recv => r.(recv := t)
    case Send => r.(send := t)
    case Time => r.(time := t)
  }

  /** registerhandler: inserts or replaces the registration for (kind, sock);
      any other type than RECV or SEND raises and changes nothing. */
  function Register(r: Registry, kind: Kind, sock: Handle, e: Entry): (x: Exec)
    ensures x.Returned? <==> kind == Recv || kind == Send
    ensures x.Raised? ==> x == Raised(r, UnsupportedRegistration(kind))
    ensures x.Returned? ==> Lookup(x.reg, kind, sock) == Some(e)
    ensures forall k, h :: k != kind || h != sock ==> Lookup(x.reg, k, h) == Lookup(r, k, h)
    ensures x.reg.time == r.time
    ensures x.reg.closed == r.closed && x.reg.out == r.out
  {
    match kind
    case Recv => Returned(r.(recv := r.recv[sock := e]))
    case Send => Returned(r.(send := r.send[sock := e]))
    case _ => Raised(r, UnsupportedRegistration(kind))
  }

  /** unregisterandcloseanyhandler: drops every registration of `h`, in all
      three tables, and leaves every other handle alone. Despite its name it
      closes no socket. */
  function Unregister(r: Registry, h: Handle): (u: Registry)
    ensures forall k :: Lookup(u, k, h) == None
    ensures forall k, g :: g != h ==> Lookup(u, k, g) == Lookup(r, k, g)
    ensures u.closed == r.closed && u.out == r.out
  {
    r.(recv := r.recv - {h}, send := r.send - {h}, time := r.time - {h})
  }

  /** numhandlers: the number of registrations in the three tables. */
  function Count(r: Registry): (n: nat)
    ensures n == 0 <==> r.recv == map[] && r.send == map[] && r.time == map[]
  {
    |r.recv| + |r.send| + |r.time|
  }

  /** socket.close: the handle joins the closed set; closing is idempotent. */
  function Close(r: Registry, h: Handle): Registry {
    r.(closed := r.closed + {h})
  }

  /** The bytes written to `h` so far. */
  function Out(r: Registry, h: Handle): seq<Byte> {
    if h in r.out then r.out[h] else []
  }

  /** The effect of a send of `bytes` on `h`: they are appended to what `h` was written. */
  function Write(r: Registry, h: Handle, bytes: seq<Byte>): Registry {
    r.(out := r.out[h := Out(r, h) + bytes])
  }

  /** 1 when `h` has an entry in `m`, else 0. */
  function Has(m: map<Handle, Entry>, h: Handle): nat {
    if h in m then 1 else 0
  }

  lemma RemoveSize(m: map<Handle, Entry>, h: Handle)
    ensures |m - {h}| + Has(m, h) == |m|
  {
    if h in m {
      assert m.Keys == (m - {h}).Keys + {h};
    } else {
      assert m - {h} == m;
    }
  }

  /** Unregistering `h` removes exactly its own entries from the count. */
  lemma UnregisterCount(r: Registry, h: Handle)
    ensures Count(Unregister(r, h)) + Has(r.recv, h) + Has(r.send, h) + Has(r.time, h) == Count(r)
  {
    RemoveSize(r.recv, h);
    RemoveSize(r.send, h);
    RemoveSize(r.time, h);
  }

  /** Unregistering twice is the same as unregistering once. */
  lemma UnregisterIdempotent(r: Registry, h: Handle)
    ensures Unregister(Unregister(r, h), h) == Unregister(r, h)
  {
    var u := Unregister(r, h);
    assert u.recv - {h} == u.recv;
    assert u.send - {h} == u.send;
    assert u.time - {h} == u.time;
  }

  /** Last write wins: a second registration for the same key hides the first. */
  lemma RegisterLastWins(r: Registry, kind: Kind, sock: Handle, e1: Entry, e2: Entry)
    requires kind == Recv || kind == Send
    ensures Register(Register(r, kind, sock, e1).reg, kind, sock, e2) == Register(r, kind, sock, e2)
  {
  }

  /** Registering adds one entry to the count exactly when the key was free. */
  lemma RegisterCount(r: Registry, kind: Kind, sock: Handle, e: Entry)
    requires kind == Recv || kind == Send
    ensures Count(Register(r, kind, sock, e).reg) == Count(r) + 1 - Has(Table(r, kind), sock)
  {
    var t := Table(r, kind);
    if sock in t {
      assert t[sock := e].Keys == t.Keys;
    } else {
      assert t[sock := e].Keys == t.Keys + {sock};
    }
  }
}
