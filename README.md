# eventhandler: a verified model of the readiness-driven forwarding proxy

The repository is a single-threaded TCP forwarding proxy in one Python file,
`eventhandler.py`. Its core is the `eventhandler` class, a registry of three
dictionaries (`recvhandlers`, `sendhandlers`, `timehandlers`). Each one maps a
socket to an `(engine, callback, data)` triple. Around the registry sits a
dispatch loop, `run`, with `handle`. Three callbacks drive it:

- `accepthandler` watches both ends of an accepted connection when the
  outbound connect succeeds, and closes the accepted socket when it fails.
- `recvhandler` hands one chunk of at most `RECVBLOCK` (1024) bytes to a SEND
  registration carrying `(data, sent, src)`.
- `sendhandler` flushes that chunk with an advancing offset and then re-arms
  RECV on the source.

The model has two layers:

- **Specification functions over a `Registry` value** (modules `Values`,
  `Tables`, `Callbacks`, `Dispatch`). `Register`, `Unregister`, `Count`,
  `RecvStep`, `SendStep`, `AcceptStep`, `Invoke`, `HandleSpec`,
  `DispatchSeq`, `DispatchBatch` and `RunSpec` say what each operation does.
  The lemmas beside them prove the properties the program relies on.
- **The imperative engine** (module `EventHandler`). `Engine` is a class
  whose three `map` fields are updated in place by `RegisterHandler`,
  `UnregisterAndCloseAnyHandler`, `HandleEvent` and `Run`. `RecvHandler`,
  `SendHandler` and `AcceptHandler` are methods that change the engine
  through its methods, as the Python callbacks do through `obj`. Each method
  is proved to leave `Model()` equal to its specification function applied to
  the old state.

An `Entry` merges the callback and its data:

- `AcceptEntry(addr)` stands for `(accepthandler, addr)`.
- `RecvEntry(dest)` stands for `(recvhandler, serv)`.
- `SendEntry(data, sent, src)` stands for `(sendhandler, (data, sent, clnt))`.

"The same callback is re-registered" is proved as `SameCallback` in the
contract of `Dispatch.Invoke`.

The socket primitives are not performed. Each dispatch receives a `SocketIo`
value that gives the primitives' answers:

- `recv` finds a would-block (EAGAIN), a failure with any other errno, or
  the bytes queued on the socket. It takes at most `RECVBLOCK` of them
  (`Chunk`), and none queued means the peer closed.
- `send` finds a would-block (EAGAIN), a failure with any other errno, or
  room for `space` bytes. It returns `SendCount(space, len)`: a non-positive
  space is returned unchanged, otherwise `min(space, len)`. The non-positive
  case stands for the count that `sendhandler` tests for at
  eventhandler.py:241; CPython's `send` never returns one here (see
  "## Left out"). `len` is the length of `data[sent:]` under Python
  slicing.
- `accept` returns a client handle, and the outbound connect either returns
  a server handle or fails.

A socket that has been closed answers every call with EBADF, whatever the
`SocketIo` value says. A callback whose first socket call fails with an errno
other than EAGAIN raises: `recvhandler` and `sendhandler` catch the
`socket.error`, fall through, and read the unassigned local `data` or `n`
(eventhandler.py:209, 241), and `accepthandler` has no handler around
`sock.accept()` (262). `handle` and `run` have no `try`, so the exception ends
`run`, with the dispatched entry already popped.

The effects of `close` and `send` are recorded in the registry:
`closed: set<Handle>` and `out`, the bytes written to each handle. The
readiness wait (`select.select`) is replaced by the sequence of batches given
to `Run`. Each batch holds the readable, writeable and exceptional lists, any
handles in any order, which covers every result `select` can give. Before
each wait, `run` raises when a RECV or SEND key is a closed socket, because
`select.select` then fails with EBADF (eventhandler.py:168-169).

## Model

| member | source | states |
|---|---|---|
| Tables.Register | eventhandler.py:89-105 | RECV and SEND return, and the table for that type then maps `sock` to the new entry, replacing any earlier one. Every other (type, handle) pair, the time table, the closed sockets and the written bytes are unchanged. Any other type raises `UnsupportedRegistration` and changes nothing. |
| Tables.RegisterLastWins | eventhandler.py:98-105 | Registering the same key twice equals registering only the second entry; a duplicate is replaced, not rejected. |
| Tables.RegisterCount | eventhandler.py:98-105 | A registration adds one to the count exactly when the key was free. |
| Tables.Unregister | eventhandler.py:60-66 | Afterwards `h` has no entry in any of the three tables. Every other handle keeps its entries in every table. Despite the name, no socket is closed and nothing is written. |
| Tables.UnregisterIdempotent | eventhandler.py:60-66 | Unregistering twice equals unregistering once. |
| Tables.UnregisterCount | eventhandler.py:60-66 | The count drops by exactly the number of tables in which `h` had an entry. |
| Tables.Count | eventhandler.py:118-122 | `numhandlers` is zero exactly when all three tables are empty, which is when `run` stops. |
| Callbacks.Chunk | eventhandler.py:202 | One recv takes at most RECVBLOCK bytes, and they are a prefix of the queued bytes. It is empty exactly when nothing is queued, and it takes everything when at most RECVBLOCK bytes are queued. |
| Callbacks.SendCount | eventhandler.py:231 | The count never exceeds the buffer length. It is positive exactly when there is room and bytes to send, and then it is the smaller of the two. |
| Callbacks.RecvStep | eventhandler.py:200-223 | Raises `UnboundLocal("data")` with nothing changed exactly when `clnt` is closed or the recv fails with another errno than EAGAIN. Would-block returns the unchanged state `serv` and changes nothing (the corrected retry). On data: returns None, and SEND on `serv` holds `(chunk, 0, clnt)`, nothing else changing. On an empty read: returns None, `clnt` and `serv` are closed, and `serv` has no entry anywhere. Every other handle is unchanged, including any entry of `clnt`. |
| Callbacks.SendStep | eventhandler.py:227-257 | Raises `UnboundLocal("n")` with nothing changed exactly when `serv` is closed or the send fails with another errno than EAGAIN. Would-block returns the unchanged relay state. On a non-positive count: returns None, closes `serv` and `clnt`, and removes every entry of `clnt` and nothing else. On a positive count n: sent + n <= len(data), and exactly `data[sent:sent+n]` is appended to what `serv` was written. If still short, it returns `(data, sent+n, clnt)` and leaves the tables alone (the corrected partial write). On a full flush: returns None, and RECV on `clnt` holds state `serv`. |
| Callbacks.AcceptStep | eventhandler.py:261-281 | Raises `SocketError` with nothing changed exactly when the listening socket is closed. Otherwise returns `addr`. On a connect success, RECV on `serv` holds `clnt` and RECV on `clnt` holds `serv`, with no socket closed. On a connect failure, only `clnt` is closed and no registration changes. |
| Callbacks.RecvStepAsWritten | eventhandler.py:200-223 | recvhandler exactly as written: it raises exactly when `clnt` is closed or the recv does not deliver (would-block or another error), and off the would-block path of an open socket it agrees with `RecvStep`. |
| Callbacks.SendStepAsWritten | eventhandler.py:227-257 | sendhandler exactly as written: it raises exactly when `serv` is closed, the send fails, or a positive count leaves the payload short. Where it returns (would-block, non-positive count, full flush), it agrees with `SendStep`; where it raises, it has had the same effects first. |
| Callbacks.RecvRetryAsWrittenRaises | eventhandler.py:203-207 | As written, a would-block read on an open socket raises NameError('buf'). The corrected callback retries with the registry untouched. |
| Callbacks.SendPartialAsWrittenRaises | eventhandler.py:249-253 | As written, a partial write raises NameError('cnlt') after the bytes are written. The corrected callback returns the relay state with the offset advanced by the bytes written. |
| Dispatch.Invoke | eventhandler.py:155 | Calling the callback an entry names raises exactly when its first socket call fails (a closed socket, or a recv or send error other than EAGAIN), and then changes nothing and raises a socket fault. A non-None result names the same callback as the entry it was called for. |
| Dispatch.Take | eventhandler.py:143 | `d.pop(sock)` leaves no entry for that type and handle, and every other registration, the closed sockets and the written bytes unchanged. |
| Dispatch.HandleSpec | eventhandler.py:126-163 | TIME returns with nothing changed, and EXEP raises `UnknownDispatch` with nothing changed. For RECV and SEND, a missing entry is skipped silently. Otherwise the entry is taken out before its callback runs. A callback exception escapes in the state the callback left, with the entry gone. A non-None result puts the same key to that result, overriding whatever the callback left there. A None result keeps what the callback left. |
| Dispatch.DispatchSeq | eventhandler.py:183-188 | An EXEP list raises at its first element with nothing changed, and an empty one returns. A TIME list changes nothing. A RECV or SEND list raises only a socket fault. |
| Dispatch.DispatchBatch | eventhandler.py:177-188 | A timeout (all three lists empty) changes nothing. A batch that returns had no exceptional event. A batch that raises either had an exceptional event and raised `UnknownDispatch`, or raised a socket fault. |
| Dispatch.RunSpec | eventhandler.py:175-188 | With no registration left, `run` returns at once and changes nothing. Every exception that escapes is `UnknownDispatch` or a socket fault. |
| Dispatch.RegisterKeepsInv | eventhandler.py:89-105 | Registering an entry that fits its table keeps the registry invariant. |
| Dispatch.InvokeKeepsInv | eventhandler.py:200-281 | Each callback, run on an entry that fits its table, keeps the invariant and returns an entry that fits the same table. |
| Dispatch.TakeKeepsInv | eventhandler.py:143 | Popping an entry keeps the invariant. |
| Dispatch.HandleKeepsInv | eventhandler.py:126-163 | `handle` keeps the invariant, whether it returns or raises. |
| Dispatch.RunKeepsInv | eventhandler.py:175-188 | Every run keeps the invariant. The time table stays empty, RECV holds only accept and recv entries, and SEND only relay states with 0 <= sent < len(data) <= RECVBLOCK. |
| Dispatch.CountIsRecvPlusSend | eventhandler.py:118-122 | Under the invariant, `numhandlers` is the RECV count plus the SEND count. |
| Dispatch.DispatchBatchOrder | eventhandler.py:179-188 | In a batch that is not a timeout, the readable list runs first and the writeable list next, each ending the batch if it raises. The exceptional list then raises before changing anything, or the batch returns the state the first two left. |
| Dispatch.RunErrors | eventhandler.py:175-188 | An exception that escapes `run` is a socket fault, or it is `UnknownDispatch`, and then some batch had an exceptional event. |
| Dispatch.HandleCalm | eventhandler.py:126-163 | From a registry that satisfies the invariant and has no closed socket, a RECV, SEND or TIME dispatch whose reads find data or would block, whose writes find room or would block, and whose connects succeed returns and closes nothing. |
| Dispatch.RunReturnsWithoutCloses | eventhandler.py:175-188 | A run that starts from a registry satisfying the invariant with no closed socket, whose batches have no exceptional events and only such calm dispatches, returns and still closes nothing. |
| Dispatch.HandleKeepsOneChunk | eventhandler.py:200-257 | One chunk in flight per direction: under the invariant, if no RECV on `c` is pending together with a SEND on its destination that resumes `c`, then the same holds after any `handle`, provided a connected accept yields sockets with no SEND entry. The read on `c` hands off to the SEND and drops its own RECV (222-223), and only the full flush re-arms RECV on `c` (256-257). |
| Dispatch.RunKeepsOneChunk | eventhandler.py:175-188 | The same holds after any run in which every connected accept, at the point it happens, yields sockets with no SEND entry. |
| Dispatch.StaleWaitRaises | eventhandler.py:168-169 | When a watched RECV or SEND key is a closed socket, the next wait raises `SocketError` and changes nothing. |
| Dispatch.ClosedSocketRaises | eventhandler.py:143-155 | Dispatching a registered closed socket raises a socket fault, and its registration is gone. |
| Dispatch.TakeAndRestore | eventhandler.py:143-160 | Taking an entry out and putting the same entry back restores the registry. |
| Dispatch.WouldBlockIsRetry | eventhandler.py:157-160 | A would-block read or write on an open socket's recv or send registration leaves the registry exactly as it was, so the same work is retried. |
| Dispatch.AcceptKeepsListening | eventhandler.py:261-281 | The listening socket, while open, stays RECV-registered with the same address after every accept. On a connect failure, the only change is that `clnt` is closed. On a success, both new ends are watched, each relaying to the other. |
| Dispatch.ReadHandsOffToSend | eventhandler.py:209-223 | Data read on an open `c` takes `c` off RECV and leaves `(chunk, 0, c)` pending on its destination. Nothing else changes. |
| Dispatch.PeerCloseClosesPair | eventhandler.py:209-216 | An empty read on `c` closes `c` and its destination `s`. It removes `c`'s RECV entry and every entry of `s`. Other handles are untouched. A pending SEND on `c` itself survives, since only one peer is unregistered, and then a closed socket is watched. |
| Dispatch.BrokenWriteClosesPair | eventhandler.py:241-247 | A non-positive send count on `s` closes `s` and its source `c`. It removes `s`'s SEND entry and every entry of `c`. Other handles are untouched. A pending RECV on `s` survives, and then a closed socket is watched. |
| Dispatch.PeerCloseWithPendingWriteRaises | eventhandler.py:183-188 | When `c` has bytes pending towards it and its peer closes, a wait that reports `c` readable and writeable closes both ends on the read and then raises `UnboundLocal("n")` on the write, with `c`'s relay state lost. |
| Dispatch.DispatchMissingIsNoop | eventhandler.py:143-152 | SEND events for a handle with no SEND entry change nothing. |
| Dispatch.SendEventStep | eventhandler.py:227-257 | One non-breaking SEND event on an open socket: would-block changes nothing. Otherwise n > 0 bytes `data[sent:sent+n]` are written. The entry then holds offset sent+n while short, or is gone and RECV re-armed on the source once flushed. No socket is closed. |
| Dispatch.RelayProgressAfterPartial | eventhandler.py:249-253 | Progress after a partial write composes with that write into progress from the original relay state. |
| Dispatch.FlushDeliversPayload | eventhandler.py:227-257 | Under any run of non-breaking SEND events on an open `s`, the offset only grows and stays below len(data) while pending. The bytes written to `s` are exactly the payload between the old and new offsets. A flushed payload leaves nothing pending at `s` and re-arms RECV on its source. No socket is closed. |
| Dispatch.RelayOneMessage | eventhandler.py:200-257 | A message of at most RECVBLOCK bytes between open sockets, read once and written once into enough room, makes one RECV to SEND to RECV round. The message is delivered byte for byte, and nothing is closed. |
| EventHandler.Engine.constructor | eventhandler.py:49-53 | Three empty tables, nothing closed or written, and the invariant holds. |
| EventHandler.Engine.UnregisterAndCloseAnyHandler | eventhandler.py:60-66 | The new state is `Unregister` of the old one. |
| EventHandler.Engine.RegisterHandler | eventhandler.py:89-105 | The new state and the raised error are those of `Register`. |
| EventHandler.Engine.PrepareSelect | eventhandler.py:109-114 | The read set is exactly the RECV-registered handles, and the write set exactly the SEND-registered ones. The timeout is TIMEOUT (10). |
| EventHandler.Engine.NumHandlers | eventhandler.py:118-122 | Equals `Count` of the registry, the sum of the three table sizes. |
| EventHandler.Engine.CloseSocket | eventhandler.py:213-214 | `h` joins the closed sockets, and nothing else changes. |
| EventHandler.Engine.Transmit | eventhandler.py:231 | The bytes are appended to what `h` was written, and nothing else changes. |
| EventHandler.Engine.HandleEvent | eventhandler.py:126-163 | The new state and the raised error are those of `HandleSpec`, and the invariant is kept. |
| EventHandler.Engine.HandleEach | eventhandler.py:183-188 | Runs `handle` on each listed handle in order and stops at the first exception, as `DispatchSeq`. |
| EventHandler.Engine.Run | eventhandler.py:175-188 | Checks the sets `PrepareSelect` gives for closed sockets before each batch. The new state and the raised error are those of `RunSpec`. The invariant is kept, and only `UnknownDispatch` or a socket fault can escape. |
| EventHandler.RecvHandler | eventhandler.py:200-223 | The new state, the return value and the raised error are those of `RecvStep`. |
| EventHandler.SendHandler | eventhandler.py:227-257 | The new state, the return value and the raised error are those of `SendStep`. |
| EventHandler.AcceptHandler | eventhandler.py:261-281 | The new state, the return value and the raised error are those of `AcceptStep`. |

A socket fault (`Callbacks.SocketFault`) is `SocketError`, `UnboundLocal("data")` or `UnboundLocal("n")`.

### Behaviour worth noting

`accepthandler` returns `addr` on both paths (eventhandler.py:281), and
`handle` re-registers any non-None result (eventhandler.py:157-160), so the
listener stays watched. `Dispatch.AcceptKeepsListening` proves it.

The close paths unregister only one peer (eventhandler.py:215,
eventhandler.py:246). A registration for the other direction on the closed
socket survives: a SEND on the socket whose read came back empty. The code's
branch for a non-positive send count would likewise leave a RECV on the socket
it closes, but that branch is not reached (see "## Left out").
`PeerCloseClosesPair` and `BrokenWriteClosesPair` show that a closed socket
is then watched. A later
dispatch on it in the same wait raises (`ClosedSocketRaises`,
`PeerCloseWithPendingWriteRaises`). The next wait raises as well, because
`select.select` fails with EBADF (`StaleWaitRaises`). Either way the exception
ends `run`. A run that closes no socket does not raise this way
(`RunReturnsWithoutCloses`).

## Left out

- Readiness wait: `wfe`, `select.select` and the TIMEOUT wait are not performed. `Run` takes the batches as input; they are arbitrary, so any lists `select` could return are covered. A listed handle whose entry is gone is skipped. The one failure of the wait that the model has, EBADF for a watched closed socket, is checked before each batch.
- Unbounded loop: the real `run` has no bound, because the listener stays registered. `Run` stops when its finite sequence of batches runs out.
- Socket operations: `accept`, `connect`, `recv`, `send`, `close`, `setblocking` and socket creation are not performed. Their answers are inputs, and their effects are recorded as the `closed` set and the `out` bytes. The relay sockets are switched to blocking mode at eventhandler.py:269-270, and the timeouts at 271-272 are commented out. So in the program as configured, `recv` and `send` on them never fail with EAGAIN, and a blocking `send` of at most 1024 bytes normally waits until it all fits. It returns a shorter count only when it is interrupted. The model keeps the would-block and short-count outcomes that the callbacks' code handles, so the would-block branches of `RecvStep`, `SendStep` and `WouldBlockIsRetry` describe paths the configured proxy does not reach. The server socket object created before a failed connect is never closed by the source; the model has no handle for it.
- Callbacks.SendStep / Dispatch.BrokenWriteClosesPair: `Room(space <= 0)` has no counterpart in CPython's `send`, which raises `socket.error` on failure and returns 0 only for an empty buffer, and `data[sent:]` is never empty here because every SEND entry keeps `sent < |data|`. So the close-both-ends branch at eventhandler.py:241-247 is not reached by the real program, and the models of it describe dead code. A broken connection during a send (EPIPE, ECONNRESET) is `SendFailed`: `sendhandler` then raises `UnboundLocal("n")` at eventhandler.py:241, which ends `run`.
- Accept errors: `accept` on the non-blocking listener (eventhandler.py:289) can fail with EAGAIN or another errno when the listener is open. Nothing catches that, and the model's `AcceptOutcome` has no such answer; only the accept on a closed listener raises.
- Dispatch.RunErrors: it does not promise that a run without exceptional events returns, because a closed socket left watched by the one-peer purge makes such a run raise. `Dispatch.RunReturnsWithoutCloses` gives the runs that do return.
- Startup and command line: `initproxy`, `connectserver` (unused, with an `AF_INT` typo), argparse, the `__main__` block and the final `prxy.close()` are left out.
- Debug output: printing is left out; the `debug` flag only enables it. With debugging on, a send on a closed socket raises `socket.error` from the `serv.getpeername()` call at eventhandler.py:239, before `n` is read.
- The engine self-reference in each stored triple is implicit. Every entry belongs to the one engine.
- Handler types: they are the four constants RECV, SEND, EXEP and TIME. A Python caller could pass any other value, wherever the model shows EXEP or TIME. `registerhandler` raises for every such value, and `handle` raises for every value but TIME.
- Callback and data mismatch: a Python triple could hold a callback with data of the wrong shape, for example `recvhandler` with a relay tuple. An `Entry` cannot express this, and no code path of the proxy creates one.
- Handle identity: Python socket objects are compared by identity. Handles here are natural numbers, and freshness of accepted and connected sockets is not assumed in general. Contracts that need distinct handles say so, and the one-chunk lemmas assume only that a connected accept yields sockets with no SEND entry (`FreshAccept`, `FreshSeq`, `FreshRun`).

## Findings

| source | as written | input that shows it | evidently intended | confidence | as-written member | corrected member |
|---|---|---|---|---|---|---|
| eventhandler.py:207 | `recvhandler`'s EAGAIN path returns `buf`, a name not defined in that function | A recv on an open relay socket that fails with EAGAIN. `Callbacks.RecvRetryAsWrittenRaises` shows the callback raising NameError('buf'). `handle` (126-163) and `run` (175-188) have no `try`, so the exception would end `run`. The relay sockets are blocking (269-270), so the configured program does not reach this path. | Return `serv` unchanged, so the same RECV registration is retried | high that the name is undefined; the path is latent under `setblocking(1)`; not executed | Callbacks.RecvStepAsWritten | Callbacks.RecvStep |
| eventhandler.py:253 | `sendhandler`'s partial-write path returns `(data,sent,cnlt)`; `cnlt` is undefined | A send that accepts fewer bytes than `data[sent:]`, for example 1 byte of a 2-byte payload. `Callbacks.SendPartialAsWrittenRaises` shows NameError('cnlt') raised after the byte is written. On the blocking relay sockets (269-270) a send waits until everything fits, so a short count comes only from an interrupted call. | Return `(data, sent, clnt)`, so flushing continues from the advanced offset | high that the name is undefined; rarely reached under `setblocking(1)`; not executed | Callbacks.SendStepAsWritten | Callbacks.SendStep |
