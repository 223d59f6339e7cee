/**
 * The four-pipe multiplexer of handle_client (tcpfilter.c:184-262), as pure
 * functions over a snapshot of the connection.
 *
 * A connection has four directed pipes (tcpfilter.c:177-182):
 *   0: client -> in-filter    1: in-filter -> server
 *   2: server -> out-filter   3: out-filter -> client
 * Each pipe (struct pipe_t, tcpfilter.c:51-59) has a source and a
 * destination descriptor, a BUF_SIZE buffer, a buffered length `len`, a
 * cursor `pos` and a `dead` bit.
 *
 * One iteration of the program's `for(;;)` is a Round.  The system calls are
 * inputs: a Tick says which descriptors select() reported ready and what
 * read() or write() would return on each pipe.  select() only reports
 * descriptors it was asked about, so the ready sets are intersected with the
 * interest sets.  A read or write on a pipe marked dead earlier in the same
 * round fails (EBADF), whatever the Tick says: the teardown that marked it
 * dead closed its descriptors (DeadIffClosed).
 */
module Multiplexer {
  import opened Render
  import opened TrafficLog

  const BUF_SIZE: nat := 1024

  datatype Pipe = Pipe(infd: int, outfd: int, buf: seq<byte>, len: int, pos: int, dead: bool)

  /** What read(infd, buf, BUF_SIZE) returns: bytes (none at end of stream), an error, or EINTR. */
  datatype ReadResult = Bytes(data: seq<byte>) | ReadFailed | ReadInterrupted

  /**
   * What write(outfd, buf + pos, len) returns: the destination accepts up to
   * `room` bytes (so the call returns min(room, len); 0 is treated as end of
   * stream), an error, or EINTR.
   */
  datatype WriteResult = Accepts(room: nat) | WriteFailed | WriteInterrupted

  /** One read or write system call issued by the loop, with the bytes it moved. */
  datatype Op = ReadOp(pipe: nat, data: seq<byte>) | WriteOp(pipe: nat, data: seq<byte>)

  /** The environment's answer for one round. */
  datatype Tick = Tick(readable: set<int>, writable: set<int>, onRead: seq<ReadResult>, onWrite: seq<WriteResult>)

  /**
   * A snapshot of a connection: its pipes, the close() calls made since the
   * loop was entered (a multiset of descriptor numbers), the chunks handed to logtraffic, the system calls issued, and
   * whether the loop has been left (`goto end` or `break`).
   */
  datatype Mux = Mux(pipes: seq<Pipe>, closed: multiset<int>, traffic: seq<Chunk>, ops: seq<Op>, exited: bool)

  /** What a pipe asks select() for (tcpfilter.c:189-198). */
  datatype Interest = WantRead(fd: int) | WantWrite(fd: int) | Idle

  predicate TickOk(t: Tick)
  {
    && |t.onRead| == 4 && |t.onWrite| == 4
    && forall k | 0 <= k < 4 :: t.onRead[k].Bytes? ==> |t.onRead[k].data| <= BUF_SIZE
  }

  predicate BuffersSized(ps: seq<Pipe>)
  {
    forall j | 0 <= j < |ps| :: |ps[j].buf| == BUF_SIZE
  }

  predicate Shaped(s: Mux)
  {
    |s.pipes| == 4 && BuffersSized(s.pipes)
  }

  // ---------------------------------------------------------------------------
  // Interest selection
  // ---------------------------------------------------------------------------

  function InterestOf(p: Pipe): Interest
  {
    if p.dead then Idle else if p.len == 0 then WantRead(p.infd) else WantWrite(p.outfd)
  }

  /** The descriptors put into `rfds`. */
  function ReadInterest(ps: seq<Pipe>): set<int>
  {
    if ps == [] then {}
    else ReadInterest(ps[..|ps| - 1]) + (match InterestOf(ps[|ps| - 1]) case WantRead(fd) => {fd} case _ => {})
  }

  /** The descriptors put into `wfds`. */
  function WriteInterest(ps: seq<Pipe>): set<int>
  {
    if ps == [] then {}
    else WriteInterest(ps[..|ps| - 1]) + (match InterestOf(ps[|ps| - 1]) case WantWrite(fd) => {fd} case _ => {})
  }

  predicate AllDead(ps: seq<Pipe>)
  {
    forall j | 0 <= j < |ps| :: ps[j].dead
  }

  lemma {:induction false} InterestMembers(ps: seq<Pipe>, fd: int)
    ensures fd in ReadInterest(ps) <==> exists j :: 0 <= j < |ps| && InterestOf(ps[j]) == WantRead(fd)
    ensures fd in WriteInterest(ps) <==> exists j :: 0 <= j < |ps| && InterestOf(ps[j]) == WantWrite(fd)
  {
    if ps != [] {
      var init := ps[..|ps| - 1];
      InterestMembers(init, fd);
      assert forall j | 0 <= j < |init| :: init[j] == ps[j];
    }
  }

  // ---------------------------------------------------------------------------
  // One pipe's buffer
  // ---------------------------------------------------------------------------

  predicate Sound(p: Pipe)
  {
    0 <= p.pos && 0 <= p.len && p.pos + p.len <= |p.buf|
  }

  /** The buffered bytes not yet written, buf[pos .. pos + len). */
  function Pending(p: Pipe): (r: seq<byte>)
    ensures Sound(p) ==> |r| == p.len
  {
    if Sound(p) then p.buf[p.pos..p.pos + p.len] else []
  }

  function ReadData(got: ReadResult): seq<byte>
  {
    if got.Bytes? then got.data else []
  }

  /**
   * The effect of `len = read(...); pos = 0;` (tcpfilter.c:206-207), with
   * EINTR corrected: an interrupted read leaves the pipe awaiting a read.
   */
  function Receive(p: Pipe, got: ReadResult): (q: Pipe)
    requires got.Bytes? ==> |got.data| <= |p.buf|
    ensures q.infd == p.infd && q.outfd == p.outfd && q.dead == p.dead && |q.buf| == |p.buf|
    ensures got.Bytes? ==> q.len == |got.data| && q.pos == 0 && Pending(q) == got.data
    ensures got.ReadFailed? ==> q.len == -1
    ensures got.ReadInterrupted? ==> InterestOf(q) == InterestOf(p.(len := 0)) && Pending(q) == []
  {
    match got
    case Bytes(d) => p.(buf := d + p.buf[|d|..], len := |d|, pos := 0)
    case ReadFailed => p.(len := -1, pos := 0)
    case ReadInterrupted => p.(len := 0, pos := 0)
  }

  /**
   * The effect of `len = read(...); pos = 0;` as written: an interrupted
   * read stores -1 in `len` like an error, and the loop then `continue`s.
   */
  function ReceiveAsWritten(p: Pipe, got: ReadResult): (q: Pipe)
    requires got.Bytes? ==> |got.data| <= |p.buf|
    ensures got.ReadInterrupted? ==> q.len == -1 && q.pos == 0
  {
    match got
    case Bytes(d) => p.(buf := d + p.buf[|d|..], len := |d|, pos := 0)
    case _ => p.(len := -1, pos := 0)
  }

  /**
   * As written, a live pipe whose read is interrupted asks select() to write
   * on its next round, with a length of -1.
   */
  lemma InterruptedReadAsWritten(p: Pipe)
    requires !p.dead && p.len == 0
    ensures var q := ReceiveAsWritten(p, ReadInterrupted);
      InterestOf(q) == WantWrite(p.outfd) && q.len == -1 && !Sound(q)
  {
  }

  /** Corrected, an interrupted read leaves the pipe awaiting a read with nothing buffered. */
  lemma InterruptedReadRetries(p: Pipe)
    requires !p.dead && p.len == 0
    ensures var q := Receive(p, ReadInterrupted);
      InterestOf(q) == WantRead(p.infd) && Pending(q) == [] && (Sound(p) ==> Sound(q))
  {
  }

  /**
   * The accounting after a write of n bytes (tcpfilter.c:252-253): the next
   * write resumes at exactly the unwritten suffix, and the pipe goes back to
   * awaiting a read only when everything buffered has been written.
   */
  function AfterWrite(p: Pipe, n: int): (q: Pipe)
    requires Sound(p) && 0 < n <= p.len
    ensures Sound(q) && q.pos + q.len == p.pos + p.len
    ensures Pending(p) == Pending(p)[..n] + Pending(q)
    ensures q.len == 0 <==> n == p.len
    ensures q.infd == p.infd && q.outfd == p.outfd && q.dead == p.dead && q.buf == p.buf
  {
    var q := p.(len := p.len - n, pos := p.pos + n);
    assert Pending(q) == Pending(p)[n..];
    q
  }

  /**
   * The bytes handed to logtraffic after a write of n bytes, as written
   * (tcpfilter.c:249-251): everything that was pending before the write,
   * of which only the first n bytes were written.
   */
  function LogAsWritten(p: Pipe, n: int): (c: seq<byte>)
    requires Sound(p) && 0 < n <= p.len
    ensures c == Pending(p) && |c| == p.len && c[..n] == Pending(p)[..n]
    ensures c == Pending(p)[..n] <==> n == p.len
  {
    p.buf[p.pos..p.pos + p.len]
  }

  /**
   * As written, a chunk written in two halves is logged as the whole chunk
   * followed by its second half: the log of the hop shows "abcdcd" while
   * the destination received "abcd".  Logging the bytes written instead
   * shows exactly "abcd".
   */
  lemma PartialWriteLogsTwice()
    ensures var p := Pipe(5, 6, [0x61, 0x62, 0x63, 0x64], 4, 0, false);
      var q := AfterWrite(p, 2);
      && LogAsWritten(p, 2) + LogAsWritten(q, 2) == [0x61, 0x62, 0x63, 0x64, 0x63, 0x64]
      && Pending(p)[..2] + Pending(q)[..2] == [0x61, 0x62, 0x63, 0x64]
      && Pending(p)[..2] + Pending(q)[..2] == Pending(p)
  {
    var p := Pipe(5, 6, [0x61, 0x62, 0x63, 0x64], 4, 0, false);
    var q := AfterWrite(p, 2);
    assert q.pos == 2 && q.len == 2;
    assert Pending(q) == [0x63, 0x64];
  }

  // ---------------------------------------------------------------------------
  // One round
  // ---------------------------------------------------------------------------

  /** q is p, except that it may have been marked dead since. */
  predicate Marked(p: Pipe, q: Pipe)
  {
    q == p.(dead := q.dead) && (p.dead ==> q.dead)
  }

  /**
   * The inner teardown (tcpfilter.c:214-220 and 235-241): pipes 1 and 2
   * become dead and the in-filter's read end, the server socket and the
   * out-filter's write end are closed.
   */
  function KillInner(s: Mux): (r: Mux)
    requires |s.pipes| == 4
    ensures |r.pipes| == 4 && r.ops == s.ops && r.traffic == s.traffic && r.exited == s.exited
    ensures r.pipes[1].dead && r.pipes[2].dead
    ensures forall j | 0 <= j < 4 :: Marked(s.pipes[j], r.pipes[j])
  {
    s.(pipes := s.pipes[1 := s.pipes[1].(dead := true)][2 := s.pipes[2].(dead := true)],
       closed := s.closed + multiset{s.pipes[1].infd, s.pipes[2].infd, s.pipes[2].outfd})
  }

  /** End of stream or an error on pipe i: outer hops leave the loop, inner hops kill the inner pair. */
  function StreamEnd(s: Mux, i: nat): (r: Mux)
    requires |s.pipes| == 4 && i < 4
    ensures |r.pipes| == 4 && r.ops == s.ops && r.traffic == s.traffic
    ensures r.exited <==> s.exited || i == 0 || i == 3
    ensures forall j | 0 <= j < 4 :: Marked(s.pipes[j], r.pipes[j])
  {
    if i == 0 || i == 3 then s.(exited := true) else KillInner(s)
  }

  /** The read branch of the loop body (tcpfilter.c:205-225). */
  function DoRead(s: Mux, i: nat, got: ReadResult): (r: Mux)
    requires Shaped(s) && i < 4 && (got.Bytes? ==> |got.data| <= BUF_SIZE)
    ensures Shaped(r) && r.ops == s.ops + [ReadOp(i, ReadData(got))]
    ensures forall j | 0 <= j < 4 && j != i :: Marked(s.pipes[j], r.pipes[j])
  {
    var q := Receive(s.pipes[i], got);
    var s1 := s.(pipes := s.pipes[i := q], ops := s.ops + [ReadOp(i, ReadData(got))]);
    if got.ReadInterrupted? then s1
    else if q.len == 0 || q.len == -1 then StreamEnd(s1, i)
    else if i % 2 == 0 then s1.(traffic := s1.traffic + [Chunk(i, got.data)])
    else s1
  }

  /**
   * The write branch of the loop body (tcpfilter.c:226-253).  A write to the
   * server or the client (odd hops) hands logtraffic the n bytes written;
   * the program as written hands it all pending bytes (see LogAsWritten).
   */
  function DoWrite(s: Mux, i: nat, put: WriteResult): (r: Mux)
    requires Shaped(s) && i < 4
    ensures Shaped(r) && |r.ops| == |s.ops| + 1 && r.ops[..|s.ops|] == s.ops
    ensures r.ops[|s.ops|].WriteOp? && r.ops[|s.ops|].pipe == i
    ensures forall j | 0 <= j < 4 && j != i :: Marked(s.pipes[j], r.pipes[j])
  {
    var p := s.pipes[i];
    match put
    case WriteInterrupted => s.(ops := s.ops + [WriteOp(i, [])])
    case WriteFailed => StreamEnd(s.(ops := s.ops + [WriteOp(i, [])]), i)
    case Accepts(room) =>
      var pending := Pending(p);
      var n := if room < |pending| then room else |pending|;
      var s1 := s.(ops := s.ops + [WriteOp(i, pending[..n])]);
      if n == 0 then StreamEnd(s1, i)
      else
        var s2 := if i % 2 == 1 then s1.(traffic := s1.traffic + [Chunk(i, pending[..n])]) else s1;
        s2.(pipes := s2.pipes[i := AfterWrite(p, n)])
  }

  /**
   * The loop body for pipe i (tcpfilter.c:205-254): a read if its source is
   * ready, otherwise a write if its destination is ready.  A descriptor
   * of a pipe already torn down makes the call fail.
   */
  function Process(s: Mux, t: Tick, i: nat): (r: Mux)
    requires Shaped(s) && TickOk(t) && i < 4
    ensures Shaped(r)
    ensures forall j | 0 <= j < 4 && j != i :: Marked(s.pipes[j], r.pipes[j])
    ensures r.ops == s.ops
         || (&& |r.ops| == |s.ops| + 1 && r.ops[..|s.ops|] == s.ops && r.ops[|s.ops|].pipe == i
             && (r.ops[|s.ops|].ReadOp? ==> s.pipes[i].infd in t.readable)
             && (r.ops[|s.ops|].WriteOp? ==> s.pipes[i].outfd in t.writable))
  {
    var p := s.pipes[i];
    if p.infd in t.readable then
      DoRead(s, i, if p.dead then ReadFailed else t.onRead[i])
    else if p.outfd in t.writable then
      DoWrite(s, i, if p.dead then WriteFailed else t.onWrite[i])
    else s
  }

  /** Pipes 0 .. k-1 of a round processed in order, stopping at `goto end`. */
  function Partial(s: Mux, t: Tick, k: nat): (r: Mux)
    requires Shaped(s) && TickOk(t) && k <= 4
    ensures Shaped(r)
    ensures forall j | k <= j < 4 :: Marked(s.pipes[j], r.pipes[j])
  {
    if k == 0 then s
    else
      var prev := Partial(s, t, k - 1);
      if prev.exited then prev else Process(prev, t, k - 1)
  }

  /** select() answers only for descriptors it was asked about. */
  function Select(t: Tick, ps: seq<Pipe>): (u: Tick)
    ensures TickOk(t) ==> TickOk(u)
    ensures u.readable <= ReadInterest(ps) && u.writable <= WriteInterest(ps)
    ensures u.readable <= t.readable && u.writable <= t.writable
  {
    t.(readable := t.readable * ReadInterest(ps), writable := t.writable * WriteInterest(ps))
  }

  /** One iteration of the `for(;;)` loop (tcpfilter.c:184-256). */
  function Round(s: Mux, t: Tick): (r: Mux)
    requires Shaped(s) && TickOk(t)
    ensures Shaped(r)
  {
    if AllDead(s.pipes) then s.(exited := true)
    else Partial(s, Select(t, s.pipes), 4)
  }

  /** Rounds run one after another until the loop is left. */
  function Rounds(s: Mux, ts: seq<Tick>): (r: Mux)
    requires Shaped(s) && forall k | 0 <= k < |ts| :: TickOk(ts[k])
    ensures Shaped(r)
  {
    if ts == [] then s
    else
      var prev := Rounds(s, ts[..|ts| - 1]);
      if prev.exited then prev else Round(prev, ts[|ts| - 1])
  }

  /** The descriptors closed by the final loop (tcpfilter.c:258-261): both of every pipe. */
  function AllFds(ps: seq<Pipe>): multiset<int>
  {
    if ps == [] then multiset{} else AllFds(ps[..|ps| - 1]) + multiset{ps[|ps| - 1].infd, ps[|ps| - 1].outfd}
  }

  // ---------------------------------------------------------------------------
  // Observations: bytes moved and bytes logged
  // ---------------------------------------------------------------------------

  /** All bytes read by pipe i, in order. */
  function Received(ops: seq<Op>, i: nat): seq<byte>
  {
    if ops == [] then []
    else
      var o := ops[|ops| - 1];
      Received(ops[..|ops| - 1], i) + (if o.ReadOp? && o.pipe == i then o.data else [])
  }

  /** All bytes written by pipe i, in order. */
  function Delivered(ops: seq<Op>, i: nat): seq<byte>
  {
    if ops == [] then []
    else
      var o := ops[|ops| - 1];
      Delivered(ops[..|ops| - 1], i) + (if o.WriteOp? && o.pipe == i then o.data else [])
  }

  /** All bytes handed to logtraffic for hop h, in order. */
  function Logged(traffic: seq<Chunk>, h: int): seq<byte>
  {
    if traffic == [] then []
    else
      var c := traffic[|traffic| - 1];
      Logged(traffic[..|traffic| - 1], h) + (if c.hop == h then c.data else [])
  }

  lemma OpsSnoc(ops: seq<Op>, o: Op)
    ensures forall i: nat {:trigger Received(ops + [o], i)} ::
      Received(ops + [o], i) == Received(ops, i) + (if o.ReadOp? && o.pipe == i then o.data else [])
    ensures forall i: nat {:trigger Delivered(ops + [o], i)} ::
      Delivered(ops + [o], i) == Delivered(ops, i) + (if o.WriteOp? && o.pipe == i then o.data else [])
  {
    assert (ops + [o])[..|ops|] == ops;
  }

  lemma TrafficSnoc(traffic: seq<Chunk>, c: Chunk)
    ensures forall h {:trigger Logged(traffic + [c], h)} ::
      Logged(traffic + [c], h) == Logged(traffic, h) + (if c.hop == h then c.data else [])
  {
    assert (traffic + [c])[..|traffic|] == traffic;
  }

  // ---------------------------------------------------------------------------
  // The connection invariant
  // ---------------------------------------------------------------------------

  /**
   * The wiring of tcpfilter.c:125-128, 139-140 and 159-160: the client and
   * server sockets are each the source of one pipe and the destination of
   * another; the six descriptors are distinct and non-negative.
   */
  predicate Wired(ps: seq<Pipe>)
  {
    && |ps| == 4 && BuffersSized(ps)
    && ps[3].outfd == ps[0].infd
    && ps[2].infd == ps[1].outfd
    && var client, inW, inR, server, outW, outR :=
         ps[0].infd, ps[0].outfd, ps[1].infd, ps[1].outfd, ps[2].outfd, ps[3].infd;
       && 0 <= client && 0 <= inW && 0 <= inR && 0 <= server && 0 <= outW && 0 <= outR
       && client != inW && client != inR && client != server && client != outW && client != outR
       && inW != inR && inW != server && inW != outW && inW != outR
       && inR != server && inR != outW && inR != outR
       && server != outW && server != outR
       && outW != outR
  }

  /** Only the inner pair is ever marked dead, and always both together. */
  predicate Liveness(ps: seq<Pipe>)
    requires |ps| == 4
  {
    !ps[0].dead && !ps[3].dead && ps[1].dead == ps[2].dead
  }

  /** The three descriptors the inner teardown closes: the in-filter's read end, the server, the out-filter's write end. */
  function Inner(ps: seq<Pipe>): multiset<int>
    requires |ps| == 4
  {
    multiset{ps[1].infd, ps[2].infd, ps[2].outfd}
  }

  /**
   * The loop closes only the three inner descriptors, each as often as the
   * others (once per teardown), and at least once exactly when the inner
   * pair is dead.
   */
  predicate ClosedOk(ps: seq<Pipe>, closed: multiset<int>)
    requires |ps| == 4
  {
    && (forall fd | fd in closed :: fd == ps[1].infd || fd == ps[2].infd || fd == ps[2].outfd)
    && closed[ps[1].infd] == closed[ps[2].infd] == closed[ps[2].outfd]
    && (ps[1].dead <==> ps[1].infd in closed)
  }

  /**
   * While the loop runs, every live pipe's buffer is in range and holds
   * exactly the bytes it has read and not yet written: nothing is lost or
   * duplicated across partial writes.
   */
  predicate Flows(s: Mux, j: nat)
    requires |s.pipes| == 4 && j < 4
  {
    s.exited || s.pipes[j].dead
    || (Sound(s.pipes[j]) && Received(s.ops, j) == Delivered(s.ops, j) + Pending(s.pipes[j]))
  }

  /**
   * The log of every hop is exactly the bytes that hop moved, in order: what
   * was read from the client (hop 0) and from the server (hop 2), and what
   * was written to the server (hop 1) and to the client (hop 3).
   */
  predicate LogFaithful(s: Mux)
  {
    && Logged(s.traffic, 0) == Received(s.ops, 0) && Logged(s.traffic, 2) == Received(s.ops, 2)
    && Logged(s.traffic, 1) == Delivered(s.ops, 1) && Logged(s.traffic, 3) == Delivered(s.ops, 3)
  }

  predicate Inv(s: Mux)
  {
    && Wired(s.pipes)
    && Liveness(s.pipes)
    && ClosedOk(s.pipes, s.closed)
    && (forall j | 0 <= j < 4 :: Flows(s, j))
    && LogFaithful(s)
  }

  /**
   * Under the invariant a pipe's descriptors are closed exactly when the pipe
   * is dead, so testing the dead bit is testing for EBADF.
   */
  lemma DeadIffClosed(s: Mux, j: nat)
    requires Inv(s) && j < 4
    ensures s.pipes[j].dead <==> s.pipes[j].infd in s.closed
    ensures s.pipes[j].dead <==> s.pipes[j].outfd in s.closed
  {
    var ps := s.pipes;
    assert ps[0].infd !in s.closed && ps[0].outfd !in s.closed && ps[3].infd !in s.closed;
  }

  /** The state the connection starts the loop in (tcpfilter.c:124-132). */
  predicate Initial(s: Mux)
  {
    && Wired(s.pipes) && !s.exited && s.ops == [] && s.traffic == []
    && (forall j | 0 <= j < 4 :: s.pipes[j].len == 0 && s.pipes[j].pos == 0 && !s.pipes[j].dead)
    && s.closed == multiset{}
  }

  lemma InitialInv(s: Mux)
    requires Initial(s)
    ensures Inv(s)
  {
    forall j | 0 <= j < 4 ensures Flows(s, j) {
      assert Pending(s.pipes[j]) == [];
    }
  }

  // ---------------------------------------------------------------------------
  // Preservation of the invariant
  // ---------------------------------------------------------------------------

  /** The descriptors, buffer sizes and dead bits are unchanged. */
  predicate SameWiring(ps: seq<Pipe>, qs: seq<Pipe>)
    requires |ps| == 4 && |qs| == 4
  {
    forall j | 0 <= j < 4 ::
      qs[j].infd == ps[j].infd && qs[j].outfd == ps[j].outfd && |qs[j].buf| == |ps[j].buf| && qs[j].dead == ps[j].dead
  }

  lemma WiringKept(s: Mux, r: Mux)
    requires Wired(s.pipes) && Liveness(s.pipes) && ClosedOk(s.pipes, s.closed)
    requires |r.pipes| == 4 && r.closed == s.closed && SameWiring(s.pipes, r.pipes)
    ensures Wired(r.pipes) && Liveness(r.pipes) && ClosedOk(r.pipes, r.closed)
  {
    assert r.pipes[0].infd == s.pipes[0].infd && r.pipes[0].outfd == s.pipes[0].outfd;
    assert r.pipes[1].infd == s.pipes[1].infd && r.pipes[1].outfd == s.pipes[1].outfd;
    assert r.pipes[2].infd == s.pipes[2].infd && r.pipes[2].outfd == s.pipes[2].outfd;
    assert r.pipes[3].infd == s.pipes[3].infd && r.pipes[3].outfd == s.pipes[3].outfd;
  }

  lemma FlowKept(s: Mux, r: Mux, j: nat)
    requires |s.pipes| == 4 && |r.pipes| == 4 && j < 4 && Flows(s, j)
    requires r.pipes[j] == s.pipes[j] && r.exited == s.exited
    requires Received(r.ops, j) == Received(s.ops, j) && Delivered(r.ops, j) == Delivered(s.ops, j)
    ensures Flows(r, j)
  {
  }

  lemma KillInnerInv(s: Mux)
    requires Wired(s.pipes) && Liveness(s.pipes) && ClosedOk(s.pipes, s.closed) && LogFaithful(s)
    requires Flows(s, 0) && Flows(s, 3)
    ensures Inv(KillInner(s))
  {
    var r := KillInner(s);
    FlowKept(s, r, 0);
    FlowKept(s, r, 3);
  }

  /** An operation that moved no byte on pipe i and changed no pipe keeps the invariant. */
  lemma IdleOpInv(s: Mux, r: Mux, o: Op)
    requires Inv(s) && !s.exited
    requires r == s.(ops := s.ops + [o]) && o.data == []
    ensures Inv(r)
  {
    OpsSnoc(s.ops, o);
    forall j | 0 <= j < 4 ensures Flows(r, j) {
      FlowKept(s, r, j);
    }
  }

  /** End of stream, or an error, on pipe i, after an operation that moved no byte. */
  lemma StreamEndInv(s: Mux, i: nat, s1: Mux)
    requires Inv(s) && !s.exited && i < 4
    requires s1.closed == s.closed && s1.traffic == s.traffic && !s1.exited && |s1.pipes| == 4
    requires |s1.ops| == |s.ops| + 1 && s1.ops[..|s.ops|] == s.ops && s1.ops[|s.ops|].data == []
    requires SameWiring(s.pipes, s1.pipes)
    requires forall j | 0 <= j < 4 && j != i :: s1.pipes[j] == s.pipes[j]
    ensures Inv(StreamEnd(s1, i))
  {
    assert s1.ops == s.ops + [s1.ops[|s.ops|]];
    OpsSnoc(s.ops, s1.ops[|s.ops|]);
    WiringKept(s, s1);
    if i == 1 || i == 2 {
      FlowKept(s, s1, 0);
      FlowKept(s, s1, 3);
      KillInnerInv(s1);
    }
  }

  /** A read that returned bytes on a pipe awaiting a read (tcpfilter.c:206-224). */
  lemma ReadDataInv(s: Mux, i: nat, d: seq<byte>)
    requires Inv(s) && !s.exited && i < 4 && 0 < |d| <= BUF_SIZE
    requires !s.pipes[i].dead && s.pipes[i].len == 0
    ensures Inv(DoRead(s, i, Bytes(d)))
  {
    var p := s.pipes[i];
    var o := ReadOp(i, d);
    var s1 := s.(pipes := s.pipes[i := Receive(p, Bytes(d))], ops := s.ops + [o]);
    var r := DoRead(s, i, Bytes(d));
    assert r == if i % 2 == 0 then s1.(traffic := s1.traffic + [Chunk(i, d)]) else s1;
    OpsSnoc(s.ops, o);
    TrafficSnoc(s.traffic, Chunk(i, d));
    WiringKept(s, r);
    forall j | 0 <= j < 4 ensures Flows(r, j) {
      if j == i {
        assert Flows(s, i);
      } else {
        FlowKept(s, r, j);
      }
    }
  }

  /** A read interrupted by a signal (tcpfilter.c:208, corrected). */
  lemma ReadInterruptedInv(s: Mux, i: nat)
    requires Inv(s) && !s.exited && i < 4
    requires !s.pipes[i].dead && s.pipes[i].len == 0
    ensures Inv(DoRead(s, i, ReadInterrupted))
  {
    var r := DoRead(s, i, ReadInterrupted);
    OpsSnoc(s.ops, ReadOp(i, []));
    WiringKept(s, r);
    forall j | 0 <= j < 4 ensures Flows(r, j) {
      if j == i {
        assert Flows(s, i);
      } else {
        FlowKept(s, r, j);
      }
    }
  }

  lemma DoReadInv(s: Mux, i: nat, got: ReadResult)
    requires Inv(s) && !s.exited && i < 4 && (got.Bytes? ==> |got.data| <= BUF_SIZE)
    requires !s.pipes[i].dead ==> s.pipes[i].len == 0
    requires s.pipes[i].dead ==> got == ReadFailed
    ensures Inv(DoRead(s, i, got))
  {
    if got.ReadInterrupted? {
      ReadInterruptedInv(s, i);
    } else if got.Bytes? && got.data != [] {
      ReadDataInv(s, i, got.data);
    } else {
      var s1 := s.(pipes := s.pipes[i := Receive(s.pipes[i], got)], ops := s.ops + [ReadOp(i, [])]);
      StreamEndInv(s, i, s1);
    }
  }

  /** The bytes of pipe i still to be written after a write of n of them. */
  lemma WriteFlow(s: Mux, r: Mux, i: nat, n: nat)
    requires |s.pipes| == 4 && |r.pipes| == 4 && i < 4 && !s.exited && !r.exited && Flows(s, i) && !s.pipes[i].dead
    requires 0 < n <= s.pipes[i].len && r.pipes[i] == AfterWrite(s.pipes[i], n)
    requires r.ops == s.ops + [WriteOp(i, Pending(s.pipes[i])[..n])]
    ensures Flows(r, i)
  {
    var p := s.pipes[i];
    OpsSnoc(s.ops, WriteOp(i, Pending(p)[..n]));
    calc {
      Received(r.ops, i);
      Delivered(s.ops, i) + Pending(p);
      Delivered(s.ops, i) + (Pending(p)[..n] + Pending(r.pipes[i]));
      Delivered(r.ops, i) + Pending(r.pipes[i]);
    }
  }

  /** A write of w on pipe i, logged when i is an odd hop, keeps the log faithful. */
  lemma WriteLogged(s: Mux, r: Mux, i: nat, w: seq<byte>)
    requires LogFaithful(s) && i < 4
    requires r.ops == s.ops + [WriteOp(i, w)]
    requires r.traffic == if i % 2 == 1 then s.traffic + [Chunk(i, w)] else s.traffic
    ensures LogFaithful(r)
  {
    OpsSnoc(s.ops, WriteOp(i, w));
    TrafficSnoc(s.traffic, Chunk(i, w));
  }

  /** Writing n pending bytes of pipe i keeps every pipe's flow equation. */
  lemma WriteFlowsAll(s: Mux, r: Mux, i: nat, n: nat)
    requires |s.pipes| == 4 && i < 4 && !s.exited && !s.pipes[i].dead
    requires forall j | 0 <= j < 4 :: Flows(s, j)
    requires Sound(s.pipes[i]) && 0 < n <= s.pipes[i].len && r.exited == s.exited
    requires r.pipes == s.pipes[i := AfterWrite(s.pipes[i], n)]
    requires r.ops == s.ops + [WriteOp(i, Pending(s.pipes[i])[..n])]
    ensures forall j | 0 <= j < 4 :: Flows(r, j)
  {
    OpsSnoc(s.ops, WriteOp(i, Pending(s.pipes[i])[..n]));
    forall j | 0 <= j < 4 ensures Flows(r, j) {
      if j == i {
        WriteFlow(s, r, i, n);
      } else {
        FlowKept(s, r, j);
      }
    }
  }

  /** A write that the destination accepted, in whole or in part (tcpfilter.c:227-253). */
  lemma WriteDataInv(s: Mux, i: nat, room: nat)
    requires Inv(s) && !s.exited && i < 4 && !s.pipes[i].dead
    requires 0 < room && 0 < s.pipes[i].len
    ensures Inv(DoWrite(s, i, Accepts(room)))
  {
    var p := s.pipes[i];
    assert Flows(s, i);
    var pending := Pending(p);
    var n := if room < |pending| then room else |pending|;
    var s1 := s.(ops := s.ops + [WriteOp(i, pending[..n])]);
    var s2 := if i % 2 == 1 then s1.(traffic := s1.traffic + [Chunk(i, pending[..n])]) else s1;
    var r := s2.(pipes := s2.pipes[i := AfterWrite(p, n)]);
    assert DoWrite(s, i, Accepts(room)) == r;
    WriteLogged(s, r, i, pending[..n]);
    WiringKept(s, r);
    WriteFlowsAll(s, r, i, n);
  }

  lemma DoWriteInv(s: Mux, i: nat, put: WriteResult)
    requires Inv(s) && !s.exited && i < 4
    requires s.pipes[i].dead ==> put == WriteFailed
    ensures Inv(DoWrite(s, i, put))
  {
    match put
    case WriteInterrupted =>
      IdleOpInv(s, DoWrite(s, i, put), WriteOp(i, []));
    case WriteFailed =>
      StreamEndInv(s, i, s.(ops := s.ops + [WriteOp(i, [])]));
    case Accepts(room) =>
      assert Flows(s, i);
      var pending := Pending(s.pipes[i]);
      if room == 0 || pending == [] {
        assert pending[..0] == [];
        StreamEndInv(s, i, s.(ops := s.ops + [WriteOp(i, [])]));
      } else {
        WriteDataInv(s, i, room);
      }
  }

  /** Pipe i processed, when it wanted a read at the start of the round if its source is ready. */
  lemma ProcessInv(s: Mux, t: Tick, i: nat)
    requires Inv(s) && !s.exited && TickOk(t) && i < 4
    requires s.pipes[i].infd in t.readable ==> s.pipes[i].dead || s.pipes[i].len == 0
    ensures Inv(Process(s, t, i))
  {
    var p := s.pipes[i];
    if p.infd in t.readable {
      DoReadInv(s, i, if p.dead then ReadFailed else t.onRead[i]);
    } else if p.outfd in t.writable {
      DoWriteInv(s, i, if p.dead then WriteFailed else t.onWrite[i]);
    }
  }

  /** A descriptor select() may report readable is the source of exactly one pipe, one that wanted a read. */
  lemma ReadableOwner(ps: seq<Pipe>, i: nat)
    requires Wired(ps) && i < 4 && ps[i].infd in ReadInterest(ps)
    ensures !ps[i].dead && ps[i].len == 0
  {
    InterestMembers(ps, ps[i].infd);
  }

  /** The invariant holds after every prefix of a round. */
  lemma {:induction false} PartialInv(s: Mux, t: Tick, k: nat)
    requires Inv(s) && !s.exited && TickOk(t) && k <= 4
    requires t.readable <= ReadInterest(s.pipes)
    ensures Inv(Partial(s, t, k))
  {
    if k > 0 {
      PartialInv(s, t, k - 1);
      var prev := Partial(s, t, k - 1);
      if !prev.exited {
        var i := k - 1;
        if prev.pipes[i].infd in t.readable {
          ReadableOwner(s.pipes, i);
        }
        ProcessInv(prev, t, i);
      }
    }
  }

  /** Every round keeps the connection invariant. */
  lemma RoundInv(s: Mux, t: Tick)
    requires Inv(s) && !s.exited && TickOk(t)
    ensures Inv(Round(s, t))
  {
    if !AllDead(s.pipes) {
      PartialInv(s, Select(t, s.pipes), 4);
    }
  }

  /** Any number of rounds keeps the connection invariant. */
  lemma {:induction false} RoundsInv(s: Mux, ts: seq<Tick>)
    requires Inv(s) && !s.exited && forall k | 0 <= k < |ts| :: TickOk(ts[k])
    ensures Inv(Rounds(s, ts))
  {
    if ts != [] {
      RoundsInv(s, ts[..|ts| - 1]);
      var prev := Rounds(s, ts[..|ts| - 1]);
      if !prev.exited {
        RoundInv(prev, ts[|ts| - 1]);
      }
    }
  }

  // ---------------------------------------------------------------------------
  // Wiring a new connection
  // ---------------------------------------------------------------------------

  /** The two descriptors a pipe() call returns: fd[0] is the read end, fd[1] the write end. */
  datatype Channel = Channel(readEnd: int, writeEnd: int)

  /** The six descriptors the parent keeps: the two sockets and one end of each channel. */
  function Kept(client: int, server: int, toIn: Channel, fromIn: Channel, toOut: Channel, fromOut: Channel): seq<int>
  {
    [client, server, toIn.writeEnd, fromIn.readEnd, toOut.writeEnd, fromOut.readEnd]
  }

  /**
   * What the kernel guarantees of descriptors open at the same time:
   * non-negative and pairwise distinct.  Numbers closed before may be handed
   * out again, so only descriptors open together are distinct.
   */
  predicate Fresh(fds: seq<int>)
  {
    forall a, b | 0 <= a < |fds| && 0 <= b < |fds| :: 0 <= fds[a] && (a != b ==> fds[a] != fds[b])
  }

  /** The filters' ends of the four channels, which the parent closes (tcpfilter.c:152-153, 172-173). */
  function ChildEnds(toIn: Channel, fromIn: Channel, toOut: Channel, fromOut: Channel): (m: multiset<int>)
    ensures |m| == 4
    ensures toIn.readEnd in m && fromIn.writeEnd in m && toOut.readEnd in m && fromOut.writeEnd in m
  {
    multiset{toIn.readEnd, fromIn.writeEnd} + multiset{toOut.readEnd, fromOut.writeEnd}
  }

  /**
   * The connection as handle_client sets it up (tcpfilter.c:124-174): the
   * client socket is the source of pipe 0 and the destination of pipe 3, the
   * server socket the destination of pipe 1 and the source of pipe 2; each
   * filter is fed through one channel and drained through another, whose
   * child ends (ChildEnds) the parent closes before the loop.  The loop has
   * closed nothing yet.  Buffers and cursors, which the program leaves
   * uninitialised, start at zero.
   */
  function Wire(client: int, server: int, toIn: Channel, fromIn: Channel, toOut: Channel, fromOut: Channel): (s: Mux)
    ensures |s.pipes| == 4
    ensures s.pipes[0].infd == client && s.pipes[3].outfd == client
    ensures s.pipes[1].outfd == server && s.pipes[2].infd == server
    ensures s.pipes[0].outfd == toIn.writeEnd && s.pipes[1].infd == fromIn.readEnd
    ensures s.pipes[2].outfd == toOut.writeEnd && s.pipes[3].infd == fromOut.readEnd
    ensures s.closed == multiset{} && s.ops == [] && s.traffic == [] && !s.exited
  {
    var zero := seq(BUF_SIZE, _ => 0);
    Mux([Pipe(client, toIn.writeEnd, zero, 0, 0, false),
         Pipe(fromIn.readEnd, server, zero, 0, 0, false),
         Pipe(server, toOut.writeEnd, zero, 0, 0, false),
         Pipe(fromOut.readEnd, client, zero, 0, 0, false)],
        multiset{}, [], [], false)
  }

  /** A connection wired from six descriptors open together starts the loop with the invariant established. */
  lemma WireInitial(client: int, server: int, toIn: Channel, fromIn: Channel, toOut: Channel, fromOut: Channel)
    requires Fresh(Kept(client, server, toIn, fromIn, toOut, fromOut))
    ensures Initial(Wire(client, server, toIn, fromIn, toOut, fromOut))
    ensures Inv(Wire(client, server, toIn, fromIn, toOut, fromOut))
  {
    var f := Kept(client, server, toIn, fromIn, toOut, fromOut);
    var s := Wire(client, server, toIn, fromIn, toOut, fromOut);
    assert f[0] == client && f[1] == server && f[2] == toIn.writeEnd;
    assert f[3] == fromIn.readEnd && f[4] == toOut.writeEnd && f[5] == fromOut.readEnd;
    assert Wired(s.pipes);
    InitialInv(s);
  }

  /**
   * The usual allocation, lowest free number first: client 4 and server 3,
   * the in-filter's channels (5, 6) and (7, 8); after the parent closes 5
   * and 8, the out-filter's channels get (5, 8) and (9, 10).  The out-filter's
   * write end reuses the number of a closed child end, and the wiring is
   * still valid.
   */
  lemma NumbersReused()
    ensures var s := Wire(4, 3, Channel(5, 6), Channel(7, 8), Channel(5, 8), Channel(9, 10));
      && s.pipes[2].outfd in ChildEnds(Channel(5, 6), Channel(7, 8), Channel(5, 8), Channel(9, 10))
      && Initial(s) && Inv(s)
  {
    WireInitial(4, 3, Channel(5, 6), Channel(7, 8), Channel(5, 8), Channel(9, 10));
  }

  /**
   * On that wiring, pipe 2 with three bytes pending and descriptor 8 ready
   * for writing writes them: the reused number is an open descriptor.
   */
  lemma ReusedEndAcceptsWrites()
    ensures var s := Wire(4, 3, Channel(5, 6), Channel(7, 8), Channel(5, 8), Channel(9, 10));
      var s2 := s.(pipes := s.pipes[2 := s.pipes[2].(len := 3)]);
      var t := Tick({}, {8}, [ReadFailed, ReadFailed, ReadFailed, ReadFailed],
                    [WriteFailed, WriteFailed, Accepts(BUF_SIZE), WriteFailed]);
      var r := Process(s2, t, 2);
      && !r.exited && !r.pipes[1].dead && !r.pipes[2].dead
      && r.pipes[2].len == 0 && r.closed == multiset{}
  {
  }

  // ---------------------------------------------------------------------------
  // What one round does
  // ---------------------------------------------------------------------------

  /** The loop never runs out of live pipes: the `max == -1` break of tcpfilter.c:199 is never taken. */
  lemma LoopNeverDrains(s: Mux)
    requires Inv(s)
    ensures !AllDead(s.pipes)
    ensures s.pipes[0].infd in ReadInterest(s.pipes) || s.pipes[0].outfd in WriteInterest(s.pipes)
    ensures s.pipes[3].infd in ReadInterest(s.pipes) || s.pipes[3].outfd in WriteInterest(s.pipes)
  {
    InterestMembers(s.pipes, s.pipes[0].infd);
    InterestMembers(s.pipes, s.pipes[0].outfd);
    InterestMembers(s.pipes, s.pipes[3].infd);
    InterestMembers(s.pipes, s.pipes[3].outfd);
  }

  /** A descriptor select() may report writable is the destination of exactly one pipe, one that wanted a write. */
  lemma WritableOwner(ps: seq<Pipe>, i: nat)
    requires Wired(ps) && i < 4 && ps[i].outfd in WriteInterest(ps)
    ensures !ps[i].dead && ps[i].len != 0
  {
    InterestMembers(ps, ps[i].outfd);
  }

  /** A call made on pipe o.pipe was the kind of call that pipe asked select() for when the round began. */
  predicate Asked(o: Op, start: seq<Pipe>)
    requires |start| == 4
  {
    o.pipe < 4
    && InterestOf(start[o.pipe]) == if o.ReadOp? then WantRead(start[o.pipe].infd) else WantWrite(start[o.pipe].outfd)
  }

  /** The calls of a round: each of the kind its pipe asked for, in increasing pipe order. */
  predicate RoundCalls(calls: seq<Op>, start: seq<Pipe>, k: nat)
    requires |start| == 4
  {
    && (forall m | 0 <= m < |calls| :: calls[m].pipe < k && Asked(calls[m], start))
    && (forall m1, m2 | 0 <= m1 < m2 < |calls| :: calls[m1].pipe < calls[m2].pipe)
  }

  lemma RoundCallsSnoc(calls: seq<Op>, o: Op, start: seq<Pipe>, k: nat)
    requires |start| == 4 && RoundCalls(calls, start, k) && o.pipe == k && Asked(o, start)
    ensures RoundCalls(calls + [o], start, k + 1)
  {
  }

  /** Calls on strictly increasing pipes below k number at most k. */
  lemma {:induction false} RoundCallsBound(calls: seq<Op>, start: seq<Pipe>, k: nat)
    requires |start| == 4 && RoundCalls(calls, start, k)
    ensures |calls| <= k
    decreases |calls|
  {
    if calls != [] {
      var last := calls[|calls| - 1];
      var prefix := calls[..|calls| - 1];
      assert forall m | 0 <= m < |prefix| :: prefix[m] == calls[m];
      assert RoundCalls(prefix, start, last.pipe);
      RoundCallsBound(prefix, start, last.pipe);
    }
  }

  /** The call Process makes on pipe i, if any, is the one pipe i asked for at the start of the round. */
  lemma ProcessAsked(s: Mux, prev: Mux, t: Tick, i: nat)
    requires Wired(s.pipes) && Shaped(prev) && TickOk(t) && i < 4
    requires t.readable <= ReadInterest(s.pipes) && t.writable <= WriteInterest(s.pipes)
    requires Marked(s.pipes[i], prev.pipes[i])
    ensures var r := Process(prev, t, i);
      || r.ops == prev.ops
      || (r.ops == prev.ops + [r.ops[|prev.ops|]] && r.ops[|prev.ops|].pipe == i && Asked(r.ops[|prev.ops|], s.pipes))
  {
    var r := Process(prev, t, i);
    if r.ops != prev.ops {
      var o := r.ops[|prev.ops|];
      if o.ReadOp? {
        ReadableOwner(s.pipes, i);
      } else {
        WritableOwner(s.pipes, i);
      }
      assert r.ops == prev.ops + [o];
    }
  }

  /** One more pipe processed: its call, if any, extends the calls of the round so far. */
  lemma PartialCallsStep(s: Mux, t: Tick, prev: Mux, i: nat)
    requires Wired(s.pipes) && Shaped(prev) && TickOk(t) && i < 4
    requires t.readable <= ReadInterest(s.pipes) && t.writable <= WriteInterest(s.pipes)
    requires Marked(s.pipes[i], prev.pipes[i])
    requires |s.ops| <= |prev.ops| && prev.ops[..|s.ops|] == s.ops && RoundCalls(prev.ops[|s.ops|..], s.pipes, i)
    ensures var r := Process(prev, t, i);
      |s.ops| <= |r.ops| && r.ops[..|s.ops|] == s.ops && RoundCalls(r.ops[|s.ops|..], s.pipes, i + 1)
  {
    var before := prev.ops[|s.ops|..];
    var r := Process(prev, t, i);
    ProcessAsked(s, prev, t, i);
    if r.ops != prev.ops {
      var o := r.ops[|prev.ops|];
      RoundCallsSnoc(before, o, s.pipes, i);
      assert r.ops[|s.ops|..] == before + [o];
      assert r.ops[..|s.ops|] == prev.ops[..|s.ops|];
    } else {
      assert RoundCalls(before, s.pipes, i + 1);
    }
  }

  lemma {:induction false} PartialCalls(s: Mux, t: Tick, k: nat)
    requires Wired(s.pipes) && TickOk(t) && k <= 4
    requires t.readable <= ReadInterest(s.pipes) && t.writable <= WriteInterest(s.pipes)
    ensures var r := Partial(s, t, k);
      |s.ops| <= |r.ops| && r.ops[..|s.ops|] == s.ops && RoundCalls(r.ops[|s.ops|..], s.pipes, k)
  {
    if k > 0 {
      PartialCalls(s, t, k - 1);
      var prev := Partial(s, t, k - 1);
      if !prev.exited {
        PartialCallsStep(s, t, prev, k - 1);
      } else {
        assert RoundCalls(prev.ops[|s.ops|..], s.pipes, k);
      }
    }
  }

  /**
   * Each pipe makes at most one system call per round, in pipe order, and
   * only the call it asked select() for (tcpfilter.c:189-198, 204-226):
   * a read if it was awaiting a read, a write if it held pending bytes.
   */
  lemma OneCallPerPipe(s: Mux, t: Tick)
    requires Wired(s.pipes) && TickOk(t)
    ensures var r := Round(s, t);
      |s.ops| <= |r.ops| <= |s.ops| + 4 && r.ops[..|s.ops|] == s.ops && RoundCalls(r.ops[|s.ops|..], s.pipes, 4)
  {
    if !AllDead(s.pipes) {
      PartialCalls(s, Select(t, s.pipes), 4);
      var r := Round(s, t);
      RoundCallsBound(r.ops[|s.ops|..], s.pipes, 4);
    }
  }

  /** Once the inner pair is dead, only the client-side pipes 0 and 3 make calls. */
  lemma AfterInnerEndOnlyOuterHops(s: Mux, t: Tick)
    requires Inv(s) && s.pipes[1].dead && TickOk(t)
    ensures var r := Round(s, t);
      forall m | |s.ops| <= m < |r.ops| :: r.ops[m].pipe == 0 || r.ops[m].pipe == 3
  {
    OneCallPerPipe(s, t);
    var r := Round(s, t);
    forall m | |s.ops| <= m < |r.ops| ensures r.ops[m].pipe == 0 || r.ops[m].pipe == 3 {
      assert r.ops[m] == r.ops[|s.ops|..][m - |s.ops|];
    }
  }

  /** End of stream on the client or the out-filter (pipes 0, 3) leaves the loop at once (tcpfilter.c:210-212). */
  lemma OuterEndLeavesLoop(s: Mux, i: nat, got: ReadResult)
    requires Shaped(s) && (i == 0 || i == 3) && (got == Bytes([]) || got == ReadFailed)
    ensures var r := DoRead(s, i, got);
      r.exited && r.closed == s.closed && r.traffic == s.traffic
  {
  }

  /**
   * End of stream on the in-filter or the server (pipes 1, 2) marks the
   * inner pair dead, closes its three descriptors and stays in the loop
   * (tcpfilter.c:213-221); the client-side pipes are untouched.
   */
  lemma InnerEndKillsPair(s: Mux, i: nat, got: ReadResult)
    requires Shaped(s) && !s.exited && (i == 1 || i == 2) && (got == Bytes([]) || got == ReadFailed)
    ensures var r := DoRead(s, i, got);
      && !r.exited && r.pipes[1].dead && r.pipes[2].dead
      && r.pipes[0] == s.pipes[0] && r.pipes[3] == s.pipes[3]
      && r.closed == s.closed + multiset{s.pipes[1].infd, s.pipes[2].infd, s.pipes[2].outfd}
  {
  }

  /** A write that fails or moves nothing on the in-filter or the client (pipes 0, 3) leaves the loop (tcpfilter.c:230-233). */
  lemma OuterWriteEndLeavesLoop(s: Mux, i: nat, put: WriteResult)
    requires Shaped(s) && (i == 0 || i == 3) && (put == WriteFailed || put == Accepts(0))
    ensures var r := DoWrite(s, i, put);
      r.exited && r.closed == s.closed && r.traffic == s.traffic && r.pipes == s.pipes
  {
  }

  /**
   * A write that fails or moves nothing on the server or the out-filter
   * (pipes 1, 2) marks the inner pair dead, closes its three descriptors and
   * stays in the loop (tcpfilter.c:234-242); the client-side pipes are untouched.
   */
  lemma InnerWriteEndKillsPair(s: Mux, i: nat, put: WriteResult)
    requires Shaped(s) && !s.exited && (i == 1 || i == 2) && (put == WriteFailed || put == Accepts(0))
    ensures var r := DoWrite(s, i, put);
      && !r.exited && r.pipes[1].dead && r.pipes[2].dead
      && r.pipes[0] == s.pipes[0] && r.pipes[3] == s.pipes[3]
      && r.closed == s.closed + Inner(s.pipes) && r.traffic == s.traffic
  {
  }

  /**
   * When the in-filter's end of stream is read while the server is also
   * readable, pipe 2 reads from the server socket closed a moment before,
   * fails, and tears the inner pair down a second time: the three inner
   * descriptors are each closed twice in one round.
   */
  lemma InnerTeardownRepeats(s: Mux, t: Tick)
    requires Inv(s) && !s.exited && TickOk(t)
    requires !s.pipes[1].dead && s.pipes[1].len == 0 && s.pipes[2].len == 0
    requires t.readable == {s.pipes[1].infd, s.pipes[2].infd} && t.writable == {}
    requires t.onRead[1] == Bytes([])
    ensures var r := Round(s, t);
      var inner := multiset{s.pipes[1].infd, s.pipes[2].infd, s.pipes[2].outfd};
      && !r.exited && r.pipes[1].dead && r.pipes[2].dead
      && r.closed == s.closed + inner + inner
  {
    var ps := s.pipes;
    LoopNeverDrains(s);
    InterestMembers(ps, ps[1].infd);
    InterestMembers(ps, ps[2].infd);
    var sel := Select(t, ps);
    assert sel.readable == t.readable && sel.writable == {};
    TeardownTwiceInRound(s, sel);
  }

  /** The first half of InnerTeardownRepeats: pipe 0 is idle and pipe 1 reads the in-filter's end of stream. */
  lemma InFilterEndFirst(s: Mux, sel: Tick)
    requires Wired(s.pipes) && !s.exited && TickOk(sel)
    requires sel.readable == {s.pipes[1].infd, s.pipes[2].infd} && sel.writable == {}
    requires sel.onRead[1] == Bytes([]) && !s.pipes[1].dead
    ensures Partial(s, sel, 2) == DoRead(s, 1, Bytes([]))
  {
    var ps := s.pipes;
    assert ps[0].infd !in sel.readable && ps[0].outfd !in sel.writable;
    assert Partial(s, sel, 1) == s;
    assert Process(s, sel, 1) == DoRead(s, 1, Bytes([]));
  }

  lemma TeardownTwiceInRound(s: Mux, sel: Tick)
    requires Wired(s.pipes) && !s.exited && TickOk(sel) && !s.pipes[1].dead
    requires sel.readable == {s.pipes[1].infd, s.pipes[2].infd} && sel.writable == {}
    requires sel.onRead[1] == Bytes([])
    ensures var r := Partial(s, sel, 4);
      var inner := multiset{s.pipes[1].infd, s.pipes[2].infd, s.pipes[2].outfd};
      && !r.exited && r.pipes[1].dead && r.pipes[2].dead
      && r.closed == s.closed + inner + inner
  {
    var ps := s.pipes;
    InFilterEndFirst(s, sel);
    var p2 := DoRead(s, 1, Bytes([]));
    InnerEndKillsPair(s, 1, Bytes([]));
    assert p2.pipes[2].infd == ps[2].infd && p2.pipes[2].outfd == ps[2].outfd;
    assert p2.pipes[2].dead;
    var p3 := DoRead(p2, 2, ReadFailed);
    InnerEndKillsPair(p2, 2, ReadFailed);
    assert Partial(s, sel, 3) == p3 by {
      assert Process(p2, sel, 2) == p3;
    }
    assert p3.pipes[3] == ps[3];
    assert ps[3].infd !in sel.readable && ps[3].outfd !in sel.writable;
    assert Process(p3, sel, 3) == p3;
  }

  /** Once the loop has been left, the rest of the round does nothing. */
  lemma {:induction false} PartialStays(s: Mux, t: Tick, k: nat, m: nat)
    requires Shaped(s) && TickOk(t) && k <= m <= 4 && Partial(s, t, k).exited
    ensures Partial(s, t, m) == Partial(s, t, k)
  {
    if m > k {
      PartialStays(s, t, k, m - 1);
    }
  }

  /** Once the loop has been left, later rounds do nothing. */
  lemma {:induction false} RoundsStay(s: Mux, ts: seq<Tick>, k: nat)
    requires Shaped(s) && (forall j | 0 <= j < |ts| :: TickOk(ts[j])) && k <= |ts|
    requires Rounds(s, ts[..k]).exited
    ensures Rounds(s, ts) == Rounds(s, ts[..k])
  {
    if k < |ts| {
      assert ts[..|ts| - 1][..k] == ts[..k];
      RoundsStay(s, ts[..|ts| - 1], k);
    } else {
      assert ts[..k] == ts;
    }
  }

  // ---------------------------------------------------------------------------
  // The final close
  // ---------------------------------------------------------------------------

  lemma AllFdsFour(ps: seq<Pipe>)
    requires |ps| == 4
    ensures AllFds(ps) == multiset{ps[0].infd, ps[0].outfd} + multiset{ps[1].infd, ps[1].outfd}
                        + multiset{ps[2].infd, ps[2].outfd} + multiset{ps[3].infd, ps[3].outfd}
  {
    var a, b, c := ps[..1], ps[..2], ps[..3];
    assert a[..0] == [] && a[0] == ps[0];
    assert AllFds(a) == multiset{ps[0].infd, ps[0].outfd};
    assert b[..1] == a && b[1] == ps[1];
    assert AllFds(b) == AllFds(a) + multiset{ps[1].infd, ps[1].outfd};
    assert c[..2] == b && c[2] == ps[2];
    assert AllFds(c) == AllFds(b) + multiset{ps[2].infd, ps[2].outfd};
    assert ps[..3] == c;
  }

  /**
   * The closing loop of tcpfilter.c:258-261 closes the client and the server
   * socket twice each (each is the source of one pipe and the destination of
   * another) and every channel end once.  When the inner pair was torn down
   * before, its three descriptors are closed again.
   */
  lemma TeardownCloses(s: Mux)
    requires Inv(s)
    ensures var c := s.closed + AllFds(s.pipes);
      var ps := s.pipes;
      && c[ps[0].infd] == 2 && c[ps[0].outfd] == 1 && c[ps[3].infd] == 1
      && (!ps[1].dead ==> c[ps[1].infd] == 1 && c[ps[1].outfd] == 2 && c[ps[2].outfd] == 1)
      && (ps[1].dead ==> c[ps[1].infd] >= 2 && c[ps[1].outfd] >= 3 && c[ps[2].outfd] >= 2)
  {
    AllFdsFour(s.pipes);
  }
}
