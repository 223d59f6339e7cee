# tcpfilter: the per-connection multiplexer and traffic logger, in Dafny

tcpfilter is a TCP proxy. For every accepted client it connects to a fixed
remote server and starts two filter programs: one for the client-to-server
direction, the in-filter, and one for the server-to-client direction, the
out-filter. It then moves bytes along four directed pipes:

    0: client -> in-filter    1: in-filter -> server
    2: server -> out-filter   3: out-filter -> client

It logs what is read from the client and from the server, and what is written
to the server and to the client.

This project models that core:

- `render.dfy` (module `Render`). The per-byte renderer of `logtraffic`.
  - Bytes become tokens: plain bytes, a `\r` marker, `\xHH` escapes, the `$`
    trailing-space marker, and the `$$` missing-newline marker.
  - The C loop is the method `PrintBytes`, proved equal to the recursive
    function `RenderBytes`.
- `traffic_log.dfy` (module `TrafficLog`). The deduplicating logger.
  - The class `Logger` holds the two function-static digest buffers, which
    are swapped in place.
  - `Transcript` says what a sequence of calls prints. Its lemmas cover when
    a chunk is shown only as a COPY header.
- `multiplexer.dfy` (module `Multiplexer`). `handle_client`'s loop as pure
  functions over a connection snapshot `Mux`, which holds:
  - the pipes;
  - the `close()` calls made from the loop on, as a multiset of descriptor
    numbers;
  - the chunks handed to the logger;
  - the read/write calls made so far;
  - whether the loop has been left.

  One iteration of `for(;;)` is `Round`. The invariant `Inv` is proved
  preserved by every round. It covers:
  - the wiring;
  - which pipes can be dead;
  - which descriptors the loop has closed, and how often;
  - byte accounting per pipe;
  - that the log matches the bytes moved.
- `connection.dfy` (module `Connection`). The class `Connection` keeps the
  four `pipe_t` records in an `array<Pipe>` and updates them in place. Its
  methods `Step`, `Run` and `Close` are proved to have exactly the effect of
  `Round`, `Rounds` and the final close on `State()`.
- `config.dfy` (module `Config`). The port checks of the command line.

System calls are inputs. One round's environment is a `Tick`:
- the descriptors `select()` reports ready. They are intersected with the
  interest sets, because `select()` only answers for descriptors it was
  asked about;
- what `read()` returns on each pipe: bytes (none means end of stream), an
  error, or `EINTR`;
- how many bytes each destination accepts. `write()` returns
  `min(room, len)`; 0 or an error is end of stream.

A read or write on a pipe torn down earlier in the same round fails, as
`EBADF` would: the teardown closed its descriptors, and under the invariant
a pipe's descriptors are closed exactly when it is dead (`DeadIffClosed`).
The kernel hands out the lowest free descriptor number, so the out-filter's
channels may reuse the numbers of the in-filter's child ends closed just
before (`NumbersReused`). The model therefore asks only that the six
descriptors the parent keeps open together be distinct. It records the
parent's four set-up closes apart from the loop's closes (`ChildEnds`). Bytes are `newtype byte = 0..255`. `char` is taken as
signed, so bytes 0x80-0xFF count as control bytes and are hex-escaped.

Behaviour of the code that the model reproduces and the lemmas make explicit:

- Only pipes 1 and 2 are ever marked dead, so the `max == -1` exit is never
  taken (`LoopNeverDrains`). A connection ends only when the client side
  (pipe 0 or 3) reaches end of stream or an error.
- After an end of stream on the in-filter, pipe 2 still reads from the
  server socket, which was closed a moment before, if `select()` reported it
  readable. That read fails and tears the inner pair down a second time, so
  its three descriptors are closed twice in one round
  (`InnerTeardownRepeats`).
- The final loop closes both descriptors of every pipe. That is two
  `close()` calls each for the client and the server socket, and more for
  the inner descriptors when the inner pair was torn down earlier
  (`TeardownCloses`). Each descriptor is not closed exactly once.
- The dedup digest is shared by all hops. So "hello\n" read from the client
  and then written unchanged to the server is rendered once and then logged
  as a COPY (`HelloThenCopy`).
- `logtraffic` prints no footer after a rendered chunk.

## Model

| member | source | states |
|---|---|---|
| Render.EscapedBytes | tcpfilter.c:330 | under signed-char semantics a byte is escaped iff it is below 0x20 and not a newline, or is 0x7F or above |
| Render.EscapeByte | tcpfilter.c:330-338 | a byte is printed as itself iff it is not escaped; the `\r` marker is used exactly for 0x0D; a hex escape shows the byte itself; every token stands for exactly its byte |
| Render.RenderBytesSafe | tcpfilter.c:325-341 | the byte loop prints only safe tokens: no unescaped control byte, no header, no `$$` marker |
| Render.RenderBytesLast | tcpfilter.c:330-338 | for a non-empty chunk the last token printed is the escape of the chunk's last byte |
| Render.RenderBytes | tcpfilter.c:325-341 | the byte loop as a recursive function over the chunk and the `space` flag (defined, not specified; its properties are `RenderBytesSafe`, `RenderBytesLast`, `RenderBytesLossless`, `RenderAt`) |
| Render.RenderChunk | tcpfilter.c:323-344 | the header, the byte loop, and the `$$` marker when the last byte is not a newline (defined, not specified; its properties are `RenderChunkShape`) |
| Render.PrintBytes | tcpfilter.c:325-341 | the imperative loop with the `space` flag prints exactly `RenderBytes(chunk, false)` |
| Render.RenderBytesLossless | tcpfilter.c:325-341 | the rendering decodes back to the chunk: no byte lost, duplicated or reordered |
| Render.RenderBytesAppend | tcpfilter.c:325-341 | rendering a concatenation renders the second part with the space flag the first part leaves |
| Render.RenderSnoc | tcpfilter.c:325-341 | one more byte appends exactly that byte's tokens, with the `$` marker decided by the byte before it |
| Render.RenderAt | tcpfilter.c:326-339 | the tokens for byte k depend only on that byte and whether the byte before it is a space |
| Render.RenderChunkShape | tcpfilter.c:323-344 | a rendered chunk starts with the header; an empty chunk is the header alone; the `$$` marker ends it iff the chunk does not end in a newline; all other tokens are safe; it decodes to the chunk |
| Render.BellIsHexEscaped | tcpfilter.c:330-344 | a chunk holding 0x07 shows a hex escape and the missing-newline marker |
| Render.CarriageReturnMarked | tcpfilter.c:330-333 | in "a\r\n" the carriage return is shown as the short `\r` marker |
| Render.TrailingSpaceMarked | tcpfilter.c:326-329 | in "a \n" the newline after the space gets the `$` marker |
| Render.HelloIsPlain | tcpfilter.c:323-344 | "hello\n" is the header and the six bytes, with no marker |
| Render.HighByteIsHexEscaped | tcpfilter.c:330-335 | a byte above 0x7F is hex-escaped |
| TrafficLog.FirstCallRenders | tcpfilter.c:305-311 | the first call in a process never reports a repeat: the chunk is rendered |
| TrafficLog.RepeatIffSameDigest | tcpfilter.c:312-321 | a call prints only a COPY header iff there was an earlier call and the immediately preceding chunk, on any hop, has the same digest |
| TrafficLog.VerbatimRepeatIsCopy | tcpfilter.c:312-321 | a chunk repeated verbatim right after itself is logged as a copy, whatever the two hops |
| TrafficLog.DifferentChunkIsRendered | tcpfilter.c:312-323 | a chunk that differs from the previous one is rendered in full, unless the digests of those two chunks collide |
| TrafficLog.TranscriptShowsAllBytes | tcpfilter.c:300-345 | when no call repeats the previous digest, the log decodes to all chunks' bytes, once each and in order |
| TrafficLog.HelloThenCopy | tcpfilter.c:300-345 | "hello\n" read on hop 0 and written unchanged on hop 1 is rendered once and then logged as COPY |
| TrafficLog.Entry | tcpfilter.c:305-344 | one call prints something, and its first token is a COPY header iff an earlier call exists and the immediately preceding chunk has the same digest |
| TrafficLog.Transcript | tcpfilter.c:300-345 | what a sequence of calls prints: each call's `Entry` in turn (defined, not specified; its properties are the lemmas in these rows) |
| TrafficLog.Logger.constructor | tcpfilter.c:303-304 | before any call no digest exists and nothing has been printed |
| TrafficLog.Logger.Log | tcpfilter.c:300-345 | one call appends to the output exactly what `Transcript` prescribes for it (COPY header or rendered chunk), keeping `lasthash` the digest of the latest chunk |
| Multiplexer.ReadInterest | tcpfilter.c:189-198 | the descriptors put into `rfds` (defined, not specified; membership is stated both ways by `InterestMembers`) |
| Multiplexer.WriteInterest | tcpfilter.c:189-198 | the descriptors put into `wfds` (defined, not specified; membership is stated both ways by `InterestMembers`) |
| Multiplexer.InterestMembers | tcpfilter.c:189-198 | a descriptor is in `rfds` (`wfds`) iff some pipe is live, awaits a read (holds bytes) and has it as source (destination) |
| Multiplexer.Pending | tcpfilter.c:227-228 | the bytes handed to `write()` are exactly `len` bytes from `pos` |
| Multiplexer.Receive | tcpfilter.c:206-208 | after a read the pipe holds exactly the bytes read, from position 0; an error leaves `len == -1`; an interrupted read (corrected) leaves the pipe awaiting a read with nothing pending |
| Multiplexer.ReceiveAsWritten | tcpfilter.c:206-208 | as written, an interrupted read stores -1 in `len` |
| Multiplexer.InterruptedReadAsWritten | tcpfilter.c:189-208 | as written, a pipe whose read is interrupted next asks `select()` to write, with a length of -1 |
| Multiplexer.InterruptedReadRetries | tcpfilter.c:206-208 | corrected, an interrupted read leaves the pipe awaiting a read with nothing buffered |
| Multiplexer.AfterWrite | tcpfilter.c:252-253 | after writing n bytes the pending bytes are exactly the unwritten suffix, and the pipe awaits a read again iff all were written |
| Multiplexer.LogAsWritten | tcpfilter.c:249-251 | as written, a write of n bytes hands the logger exactly the pending slice `buf[pos..pos+len)`, which equals the bytes written only when the write was complete |
| Multiplexer.PartialWriteLogsTwice | tcpfilter.c:249-253 | as written, "abcd" written in two halves is logged as "abcdcd"; logging the bytes written gives "abcd" |
| Multiplexer.KillInner | tcpfilter.c:214-220 | the inner teardown marks pipes 1 and 2 dead and changes nothing else about any pipe |
| Multiplexer.StreamEnd | tcpfilter.c:209-221 | end of stream leaves the loop iff it happened on pipe 0 or 3; no pipe changes except for dead bits |
| Multiplexer.DoRead | tcpfilter.c:205-225 | the read branch records exactly one read call on pipe i and changes no other pipe except for dead bits |
| Multiplexer.DoWrite | tcpfilter.c:226-253 | the write branch records exactly one write call on pipe i and changes no other pipe except for dead bits; its teardown is stated by `OuterWriteEndLeavesLoop` and `InnerWriteEndKillsPair` |
| Multiplexer.Process | tcpfilter.c:204-255 | pipe i makes at most one call: a read only if its source was reported readable, a write only if its destination was reported writable |
| Multiplexer.Partial | tcpfilter.c:204-255 | pipes not yet reached in the round are unchanged except for dead bits |
| Multiplexer.Select | tcpfilter.c:200-203 | `select()` reports only descriptors it was asked about and only ones the environment made ready; the round input stays well-formed |
| Multiplexer.Round | tcpfilter.c:184-256 | one iteration: the `max == -1` break, then every pipe in order after `select()`; buffers keep their size (its properties are `RoundInv`, `OneCallPerPipe`, `InnerTeardownRepeats`) |
| Multiplexer.Rounds | tcpfilter.c:184-257 | rounds one after another until the loop is left; buffers keep their size (its properties are `RoundsInv`, `RoundsStay`) |
| Multiplexer.ChildEnds | tcpfilter.c:152-173 | the parent closes four descriptors during set-up: the filters' ends of the four channels |
| Multiplexer.Wire | tcpfilter.c:124-174 | the client socket is the source of pipe 0 and the destination of pipe 3; the server socket the destination of pipe 1 and the source of pipe 2; the parent keeps the write end into each filter and the read end out of it; the loop starts with no call made and nothing closed by it |
| Multiplexer.WireInitial | tcpfilter.c:124-174 | when the six descriptors the parent keeps are distinct, as descriptors open together are, the wiring is the loop's starting state and the invariant holds |
| Multiplexer.NumbersReused | tcpfilter.c:135-174 | with lowest-number-first allocation the out-filter's write end reuses a closed child end's number, and the wiring still starts the loop with the invariant |
| Multiplexer.ReusedEndAcceptsWrites | tcpfilter.c:226-253 | on that wiring, pipe 2 writes its pending bytes to the reused descriptor without any teardown |
| Multiplexer.InitialInv | tcpfilter.c:124-132 | with all pipes empty and live, distinct kept descriptors and nothing closed by the loop, the invariant holds |
| Multiplexer.DeadIffClosed | tcpfilter.c:205-242 | under the invariant both descriptors of a pipe have been closed by the loop exactly when the pipe is dead, so the dead bit decides `EBADF` |
| Multiplexer.KillInnerInv | tcpfilter.c:214-220 | the inner teardown keeps the invariant: each of the three inner descriptors is closed once more, and nothing else |
| Multiplexer.ReadDataInv | tcpfilter.c:206-225 | a read of bytes keeps the invariant: the pipe holds what it read and not yet wrote, and reads from client or server are logged |
| Multiplexer.ReadInterruptedInv | tcpfilter.c:206-208 | an interrupted read keeps the invariant |
| Multiplexer.StreamEndInv | tcpfilter.c:209-242 | end of stream after a call that moved nothing keeps the invariant |
| Multiplexer.DoReadInv | tcpfilter.c:205-225 | every outcome of the read branch keeps the invariant |
| Multiplexer.WriteFlow | tcpfilter.c:227-253 | after a write, bytes read equal bytes written plus the bytes still pending: nothing is lost or duplicated across partial writes |
| Multiplexer.WriteLogged | tcpfilter.c:249-251 | logging the bytes written to server or client keeps the log equal to the bytes moved on each hop |
| Multiplexer.WriteDataInv | tcpfilter.c:227-253 | an accepted write keeps the invariant |
| Multiplexer.DoWriteInv | tcpfilter.c:226-253 | every outcome of the write branch keeps the invariant |
| Multiplexer.ProcessInv | tcpfilter.c:204-255 | processing one pipe keeps the invariant |
| Multiplexer.ReadableOwner | tcpfilter.c:189-205 | a readable descriptor is the source of exactly the one pipe that asked to read it, live with an empty buffer |
| Multiplexer.WritableOwner | tcpfilter.c:189-226 | a writable descriptor is the destination of exactly the one pipe that asked to write it, live with pending bytes |
| Multiplexer.PartialInv | tcpfilter.c:204-255 | the invariant holds after every prefix of a round |
| Multiplexer.RoundInv | tcpfilter.c:184-256 | every round keeps the invariant |
| Multiplexer.RoundsInv | tcpfilter.c:184-256 | any number of rounds keeps the invariant: per live pipe, bytes read = bytes written + bytes pending; the log of hops 0-3 equals the bytes each moved |
| Multiplexer.LoopNeverDrains | tcpfilter.c:189-199 | while the invariant holds, pipes 0 and 3 are live and in an interest set, so `max == -1` never happens |
| Multiplexer.PartialCalls | tcpfilter.c:204-255 | the calls made in a round prefix are each of the kind their pipe asked for, in increasing pipe order |
| Multiplexer.OneCallPerPipe | tcpfilter.c:184-256 | in a round each pipe makes at most one call (at most four in all), in pipe order, and only the call it asked `select()` for |
| Multiplexer.AfterInnerEndOnlyOuterHops | tcpfilter.c:189-198 | once the inner pair is dead, only pipes 0 and 3 make calls |
| Multiplexer.OuterEndLeavesLoop | tcpfilter.c:209-212 | end of stream on pipe 0 or 3 leaves the loop without closing anything or logging |
| Multiplexer.InnerEndKillsPair | tcpfilter.c:213-221 | end of stream on pipe 1 or 2 marks both dead, closes in-filter read end, server socket and out-filter write end, leaves pipes 0 and 3 untouched and stays in the loop |
| Multiplexer.OuterWriteEndLeavesLoop | tcpfilter.c:230-233 | a write that fails or moves nothing on pipe 0 or 3 leaves the loop without closing anything, logging or changing a pipe |
| Multiplexer.InnerWriteEndKillsPair | tcpfilter.c:234-242 | a write that fails or moves nothing on pipe 1 or 2 marks both dead, closes the three inner descriptors, leaves pipes 0 and 3 untouched and stays in the loop |
| Multiplexer.InnerTeardownRepeats | tcpfilter.c:205-221 | an in-filter end of stream while the server is readable tears the inner pair down twice in the same round |
| Multiplexer.InFilterEndFirst | tcpfilter.c:189-221 | with only the in-filter and the server readable, the round so far is pipe 0 idle and pipe 1 reading the in-filter's end of stream |
| Multiplexer.TeardownTwiceInRound | tcpfilter.c:205-221 | the same, stated on the round body after `select()` |
| Multiplexer.PartialStays | tcpfilter.c:212 | after `goto end` the rest of the round does nothing |
| Multiplexer.RoundsStay | tcpfilter.c:184-257 | after the loop is left later rounds do nothing |
| Multiplexer.TeardownCloses | tcpfilter.c:257-261 | counting the loop's closes and the final loop's, the client and server sockets are closed twice and the kept channel ends once, and the inner descriptors at least twice (the server three times) when the inner pair was torn down before |
| Connection.Connection.constructor | tcpfilter.c:124-174 | given six distinct kept descriptors, the connection starts in the wired state with the invariant established, and records the four child ends it closed |
| Connection.Connection.Interests | tcpfilter.c:185-199 | the loop builds exactly the interest sets; `max` is -1 iff every pipe is dead, otherwise the largest descriptor in them |
| Connection.Connection.EndOfStream | tcpfilter.c:209-242 | updates the array and the closed multiset exactly as `StreamEnd` |
| Connection.Connection.ReadPipe | tcpfilter.c:205-225 | updates the pipe, calls and log exactly as `DoRead` |
| Connection.Connection.WritePipe | tcpfilter.c:226-253 | updates the pipe, calls and log exactly as `DoWrite` |
| Connection.Connection.WriteAccepted | tcpfilter.c:227-253 | a write of min(room, len) bytes updates the state exactly as `DoWrite` |
| Connection.Connection.ProcessPipe | tcpfilter.c:204-255 | one pipe's loop body has exactly the effect of `Process` |
| Connection.Connection.Step | tcpfilter.c:184-256 | one loop iteration has exactly the effect of `Round` and keeps the invariant |
| Connection.Connection.Run | tcpfilter.c:184-257 | the loop over a schedule of rounds has exactly the effect of `Rounds` and keeps the invariant |
| Connection.Connection.Close | tcpfilter.c:258-261 | the closing loop adds both descriptors of every pipe to the closed multiset |
| Config.PortAccepted | tcpfilter.c:378 | the port check on the 32-bit value (defined, not specified; its meaning is `AcceptedBits` and `PortAcceptedRange`) |
| Config.AcceptedBits | tcpfilter.c:378 | on the bit pattern, a port is accepted iff it is non-zero with no bit above the low sixteen |
| Config.PortAcceptedRange | tcpfilter.c:378 | `p & ~0xFFFF \|\| p == 0` rejects exactly the ints outside 1..65535, negatives included |
| Config.ChoosePorts | tcpfilter.c:370-404 | the arguments are accepted iff every `-p` value, in order, and the remote port pass the check; the listen port is the last `-p` value, or the remote port when there is none |
| Config.ChosenPortsInRange | tcpfilter.c:370-404 | both ports used lie in 1..65535 |
| Config.EarlierListenPortChecked | tcpfilter.c:376-381 | `-p 0 -p 80` is rejected: an earlier invalid `-p` ends the program even though a later one is valid |
| Config.LastListenPortUsed | tcpfilter.c:376-381 | `-p 8080 -p 81` listens on 81: the last `-p` wins |

## Left out

- `fork()`, `pipe()`, `connect()`, `filter()` and the filter programs themselves (tcpfilter.c:114-175, 265-275). The model takes the descriptors those calls return as parameters. The filters are external programs, so the end-to-end claim that an identity filter passes the client's bytes to the server unchanged is not stated. What is stated is per pipe: no loss or duplication.
- The listener, `accept()`, SIGCHLD reaping, `main()`, `usage()`, `atoi()` and `inet_aton()`. These are process set-up and library calls. Only the port check is modelled.
- `select()` errors (tcpfilter.c:200-203). A failed `select()` ends the process. An interrupted one makes the loop start over, which has the effect of a round in which nothing is ready, so it is not a separate case.
- `logging()` (tcpfilter.c:277-298): timestamp, pid, peer address, colours, the connection start and end events. A header line is the token `Header(hop)` or `Copy(hop)`. ANSI sequences are not modelled.
- MD5 is a parameter of the logger about which nothing is assumed in general. A lemma that needs two chunks' digests to differ requires that of those two chunks only. `malloc()` failure of the digest buffers is not modelled.
- `Multiplexer.DoWrite`: does not model the clamp of tcpfilter.c:244-247 for a write reporting more bytes than requested. `write()` never returns more than its count, and the model gives it `min(room, len)`, so that branch cannot run.
- `Multiplexer.Wire`: `pos` and the buffer contents, which the program leaves uninitialised, start at zero.
- `Connection.Connection.Close`: ends after closing. The connection-end log event that follows is part of `logging()`.
- SIGPIPE. The program installs a handler for SIGCHLD only (tcpfilter.c:73). A `write()` to a filter or a peer that has gone away raises SIGPIPE, which kills the connection's process before `write()` returns EPIPE. In that case the teardown of tcpfilter.c:230-242, the final close and the end event never run. `WriteFailed` models only the write errors that return to the program.
- Output buffering of `printf`/`putchar` and the standard-output stream. The log is a token sequence.
- dcat.c is not part of this model. It is a separate test tool whose partial-write accounting duplicates that of `AfterWrite`.
- Concurrency between connections. Each connection is its own process and shares nothing with the others.

## Findings

| source | as written | input that shows it | evidently intended | confidence | as-written member | corrected member |
|---|---|---|---|---|---|---|
| tcpfilter.c:206-208 | `len = read(...)` stores -1 before the `EINTR` check's `continue`, so the pipe is left with `len == -1` and next asks to write -1 bytes | a live pipe awaiting a read whose `read()` is interrupted by a signal, such as SIGCHLD from a filter exiting; the read follows a readable report and `signal()` may restart it, so this input is rare | an interrupted read is retried: the pipe keeps `len == 0` | low, not executed | Multiplexer.ReceiveAsWritten, Multiplexer.InterruptedReadAsWritten | Multiplexer.Receive, Multiplexer.InterruptedReadRetries |
| tcpfilter.c:249-251 | after a partial write the whole pending slice is logged, so the unwritten tail is logged again with the next write | pending "abcd"; the server accepts 2 bytes, then 2 more; the hop 1 log reads "abcdcd" | log the n bytes written, so each hop's log equals the bytes it moved | medium, not executed | Multiplexer.LogAsWritten, Multiplexer.PartialWriteLogsTwice | Multiplexer.DoWrite, Multiplexer.RoundsInv |
