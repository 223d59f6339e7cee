/**
 * The state and the loop of handle_client (tcpfilter.c:124-262): the four
 * pipe_t records live in an array that the loop updates in place, the
 * close() calls are counted, and logtraffic's static digest state is a
 * Logger owned by the connection.
 *
 * The class runs the corrected behaviour of the two defects recorded in
 * Multiplexer (an interrupted read is retried, and a partial write logs the
 * bytes written); ReceiveAsWritten and LogAsWritten state what the program
 * as written does instead.
 *
 * Each method is proved to have exactly the effect of the corresponding
 * function of the Multiplexer module on the snapshot State(), so every
 * property proved there holds of the running connection.
 */
module Connection {
  import opened Render
  import opened TrafficLog
  import opened Multiplexer

  class Connection {
    /** struct pipe_t pipes[4] */
    const pipes: array<Pipe>
    /** The logtraffic state of this connection's process. */
    const logger: Logger
    /** The filters' ends of the channels, closed by the parent before the loop. */
    const childEnds: multiset<int>
    /** Every descriptor closed from the loop on, with multiplicity. */
    var closed: multiset<int>
    /** The read and write calls issued so far. */
    ghost var ops: seq<Op>
    /** Whether the loop has been left. */
    var exited: bool

    ghost function State(): Mux
      reads this, pipes, logger
    {
      Mux(pipes[..], closed, logger.calls, ops, exited)
    }

    /** The representation is in shape: four pipes with full-size buffers, and a consistent logger. */
    ghost predicate Ready()
      reads this, pipes, logger
    {
      pipes.Length == 4 && Shaped(State()) && logger.Valid()
    }

    ghost predicate Valid()
      reads this, pipes, logger
    {
      Ready() && Inv(State())
    }

    /**
     * The wiring of tcpfilter.c:124-174, given the connected client and
     * server sockets and the four channels created by pipe(): the parent
     * keeps the write end of the channel into each filter and the read end
     * of the channel out of it, and closes the other two (childEnds).
     * Only the six descriptors kept open together need be distinct: the
     * second pair of channels may reuse the numbers closed after the first.
     */
    constructor (client: int, server: int, toIn: Channel, fromIn: Channel, toOut: Channel, fromOut: Channel,
                 hash: seq<byte> -> Digest)
      requires Fresh(Kept(client, server, toIn, fromIn, toOut, fromOut))
      ensures Valid() && State() == Wire(client, server, toIn, fromIn, toOut, fromOut)
      ensures childEnds == ChildEnds(toIn, fromIn, toOut, fromOut)
      ensures fresh(pipes) && fresh(logger) && logger.hash == hash && logger.output == []
    {
      var zero: seq<byte> := seq(BUF_SIZE, _ => 0);
      var a := new Pipe[4](_ => Pipe(-1, -1, zero, 0, 0, false));
      a[0] := a[0].(infd := client);
      a[1] := a[1].(outfd := server);
      a[2] := a[2].(infd := server);
      a[3] := a[3].(outfd := client);
      // the in-filter
      a[0] := a[0].(outfd := toIn.writeEnd);
      a[1] := a[1].(infd := fromIn.readEnd);
      var c := multiset{toIn.readEnd, fromIn.writeEnd};
      // the out-filter
      a[2] := a[2].(outfd := toOut.writeEnd);
      a[3] := a[3].(infd := fromOut.readEnd);
      c := c + multiset{toOut.readEnd, fromOut.writeEnd};
      pipes := a;
      logger := new Logger(hash);
      childEnds := c;
      closed := multiset{};
      ops := [];
      exited := false;
      new;
      assert pipes[..] == [pipes[0], pipes[1], pipes[2], pipes[3]];
      WireInitial(client, server, toIn, fromIn, toOut, fromOut);
    }

    /**
     * The interest sets and the highest descriptor handed to select()
     * (tcpfilter.c:186-198); max stays -1 exactly when every pipe is dead.
     */
    method Interests() returns (rfds: set<int>, wfds: set<int>, max: int)
      requires Valid()
      ensures rfds == ReadInterest(pipes[..]) && wfds == WriteInterest(pipes[..])
      ensures max == -1 <==> AllDead(pipes[..])
      ensures forall fd | fd in rfds + wfds :: fd <= max
      ensures max == -1 || max in rfds + wfds
    {
      assert forall j | 0 <= j < 4 :: 0 <= pipes[j].infd && 0 <= pipes[j].outfd;
      rfds, wfds, max := {}, {}, -1;
      for i := 0 to 4
        invariant rfds == ReadInterest(pipes[..i]) && wfds == WriteInterest(pipes[..i])
        invariant max == -1 <==> AllDead(pipes[..i])
        invariant forall fd | fd in rfds + wfds :: fd <= max
        invariant max == -1 || max in rfds + wfds
      {
        assert pipes[..i + 1][..i] == pipes[..i] && pipes[..i + 1][i] == pipes[i];
        var p := pipes[i];
        if p.dead {
          continue;
        }
        if p.len == 0 {
          rfds := rfds + {p.infd};
          max := if p.infd > max then p.infd else max;
        } else {
          wfds := wfds + {p.outfd};
          max := if p.outfd > max then p.outfd else max;
        }
      }
      assert pipes[..4] == pipes[..];
    }

    /** End of stream or an error on pipe i (tcpfilter.c:209-221 and 230-242). */
    method EndOfStream(i: nat)
      requires Ready() && i < 4
      modifies this, pipes
      ensures Ready() && State() == StreamEnd(old(State()), i)
    {
      if i == 0 || i == 3 {
        exited := true;   // goto end
        return;
      }
      pipes[1] := pipes[1].(dead := true);
      closed := closed + multiset{pipes[1].infd};
      pipes[2] := pipes[2].(dead := true);
      closed := closed + multiset{pipes[2].infd};
      closed := closed + multiset{pipes[2].outfd};
    }

    /** The read branch for pipe i (tcpfilter.c:205-225), given what read() returns. */
    method ReadPipe(i: nat, got: ReadResult)
      requires Ready() && i < 4 && (got.Bytes? ==> |got.data| <= BUF_SIZE)
      modifies this, pipes, logger
      ensures Ready() && State() == DoRead(old(State()), i, got)
    {
      var q := Receive(pipes[i], got);
      pipes[i] := q;
      ops := ops + [ReadOp(i, ReadData(got))];
      if got.ReadInterrupted? {
        return;
      }
      if q.len == 0 || q.len == -1 {
        EndOfStream(i);
        return;
      }
      if i % 2 == 0 {
        logger.Log(i, got.data);
      }
    }

    /** The write branch for pipe i (tcpfilter.c:226-253), given what write() does. */
    method WritePipe(i: nat, put: WriteResult)
      requires Ready() && i < 4
      modifies this, pipes, logger
      ensures Ready() && State() == DoWrite(old(State()), i, put)
    {
      match put
      case WriteInterrupted =>
        ops := ops + [WriteOp(i, [])];
      case WriteFailed =>
        ops := ops + [WriteOp(i, [])];
        EndOfStream(i);
      case Accepts(room) =>
        WriteAccepted(i, room);
    }

    /** A write the destination accepts up to `room` bytes of: write() returns min(room, len). */
    method WriteAccepted(i: nat, room: nat)
      requires Ready() && i < 4
      modifies this, pipes, logger
      ensures Ready() && State() == DoWrite(old(State()), i, Accepts(room))
    {
      var p := pipes[i];
      var pending := Pending(p);
      var n := if room < |pending| then room else |pending|;
      ops := ops + [WriteOp(i, pending[..n])];
      if n == 0 {
        EndOfStream(i);
        return;
      }
      if i % 2 == 1 {
        logger.Log(i, pending[..n]);
      }
      ghost var before := pipes[..];
      pipes[i] := p.(len := p.len - n, pos := p.pos + n);
      assert pipes[..] == before[i := AfterWrite(p, n)];
    }

    /** The loop body for pipe i (tcpfilter.c:205-254). */
    method ProcessPipe(i: nat, t: Tick)
      requires Ready() && i < 4 && TickOk(t)
      modifies this, pipes, logger
      ensures Ready() && State() == Process(old(State()), t, i)
    {
      var p := pipes[i];
      if p.infd in t.readable {
        ReadPipe(i, if p.dead then ReadFailed else t.onRead[i]);  // EBADF
      } else if p.outfd in t.writable {
        WritePipe(i, if p.dead then WriteFailed else t.onWrite[i]);  // EBADF
      }
    }

    /** One iteration of the `for(;;)` loop (tcpfilter.c:184-256), given select()'s answer and the calls' results. */
    method Step(t: Tick)
      requires Valid() && !exited && TickOk(t)
      modifies this, pipes, logger
      ensures Valid() && State() == Round(old(State()), t)
    {
      ghost var s0 := State();
      var rfds, wfds, max := Interests();
      LoopNeverDrains(s0);
      assert max != -1;   // so the `break` of tcpfilter.c:199 is never taken
      var sel := Tick(t.readable * rfds, t.writable * wfds, t.onRead, t.onWrite);
      assert sel == Select(t, s0.pipes);
      RoundInv(s0, t);
      var i := 0;
      while i < 4 && !exited
        invariant 0 <= i <= 4 && Ready()
        invariant State() == Partial(s0, sel, i)
      {
        ProcessPipe(i, sel);
        i := i + 1;
      }
      if exited {
        PartialStays(s0, sel, i, 4);
      }
    }

    /** The loop run over a schedule of rounds, until it is left or the schedule ends. */
    method Run(schedule: seq<Tick>)
      requires Valid() && !exited && forall k | 0 <= k < |schedule| :: TickOk(schedule[k])
      modifies this, pipes, logger
      ensures Valid() && State() == Rounds(old(State()), schedule)
    {
      ghost var s0 := State();
      var k := 0;
      while k < |schedule| && !exited
        invariant 0 <= k <= |schedule|
        invariant Valid() && State() == Rounds(s0, schedule[..k])
      {
        assert schedule[..k + 1][..k] == schedule[..k];
        Step(schedule[k]);
        k := k + 1;
      }
      if exited {
        RoundsStay(s0, schedule, k);
      } else {
        assert schedule[..k] == schedule;
      }
    }

    /** The closing loop after `end:` (tcpfilter.c:258-261): both descriptors of every pipe. */
    method Close()
      requires pipes.Length == 4
      modifies this
      ensures closed == old(closed) + AllFds(pipes[..])
      ensures ops == old(ops) && exited == old(exited)
    {
      ghost var ps := pipes[..];
      ghost var before := closed;
      for i := 0 to 4
        invariant closed == before + AllFds(ps[..i])
        invariant ops == old(ops) && exited == old(exited)
      {
        var p := pipes[i];
        assert ps[i] == p;
        ClosePrefix(ps, i);
        CloseTwo(before, AllFds(ps[..i]), p.infd, p.outfd);
        closed := closed + multiset{p.infd};
        closed := closed + multiset{p.outfd};
      }
      assert ps[..4] == ps;
    }
  }

  lemma ClosePrefix(ps: seq<Pipe>, i: nat)
    requires i < |ps|
    ensures AllFds(ps[..i + 1]) == AllFds(ps[..i]) + multiset{ps[i].infd, ps[i].outfd}
  {
    assert ps[..i + 1][..i] == ps[..i];
  }

  lemma CloseTwo(m: multiset<int>, n: multiset<int>, a: int, b: int)
    ensures m + n + multiset{a} + multiset{b} == m + (n + multiset{a, b})
  {
  }
}
