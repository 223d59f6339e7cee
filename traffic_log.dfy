/**
 * The deduplicating traffic logger, logtraffic (tcpfilter.c:300-345).
 *
 * logtraffic keeps two function-static digest buffers, `lasthash` and
 * `newhash`.  The first call in a process computes the digest of its chunk
 * into `lasthash` and renders the chunk.  Every later call computes the
 * digest into `newhash`, swaps the two buffers, and, when the two digests are
 * equal, prints only a COPY header.  The digest state is shared by every hop
 * of the connection: a chunk is a repeat when it has the digest of the chunk
 * of the immediately preceding call, whatever that call's hop was.
 *
 * MD5 is not modelled: the digest function is a parameter of the logger
 * (`hash`), about which nothing is assumed.  Equality of two digests stands
 * for the memcmp of tcpfilter.c:317.
 */
module TrafficLog {
  import opened Render

  /** MD5_DIGEST_LENGTH: the size of each digest buffer. */
  const DIGEST_LENGTH: nat := 16

  /** The contents of one digest buffer. */
  type Digest = d: seq<byte> | |d| == DIGEST_LENGTH witness seq(DIGEST_LENGTH, _ => 0)

  /** One call of logtraffic: the hop id and the chunk handed over. */
  datatype Chunk = Chunk(hop: int, data: seq<byte>)

  /**
   * What one call prints, given the calls made before it: a COPY header when
   * the previous call's chunk has the same digest, the rendered chunk otherwise.
   */
  function Entry(hash: seq<byte> -> Digest, earlier: seq<Chunk>, c: Chunk): (r: seq<Token>)
    ensures r != [] && (r[0] == Copy(c.hop) <==> earlier != [] && hash(earlier[|earlier| - 1].data) == hash(c.data))
  {
    if earlier != [] && hash(earlier[|earlier| - 1].data) == hash(c.data) then [Copy(c.hop)]
    else RenderChunk(c.hop, c.data)
  }

  /** Everything logtraffic prints over a sequence of calls in one process. */
  function Transcript(hash: seq<byte> -> Digest, calls: seq<Chunk>): seq<Token>
  {
    if calls == [] then []
    else Transcript(hash, calls[..|calls| - 1]) + Entry(hash, calls[..|calls| - 1], calls[|calls| - 1])
  }

  lemma TranscriptSnoc(hash: seq<byte> -> Digest, calls: seq<Chunk>, c: Chunk)
    ensures Transcript(hash, calls + [c]) == Transcript(hash, calls) + Entry(hash, calls, c)
  {
    assert (calls + [c])[..|calls|] == calls;
  }

  /** The first call in a process never reports a repeat. */
  lemma FirstCallRenders(hash: seq<byte> -> Digest, c: Chunk)
    ensures Transcript(hash, [c]) == RenderChunk(c.hop, c.data)
  {
    TranscriptSnoc(hash, [], c);
  }

  /**
   * A call prints only a COPY header exactly when an earlier call exists and
   * the immediately preceding chunk has the same digest, whatever its hop.
   */
  lemma RepeatIffSameDigest(hash: seq<byte> -> Digest, calls: seq<Chunk>, c: Chunk)
    ensures Transcript(hash, calls + [c]) == Transcript(hash, calls) + [Copy(c.hop)]
        <==> calls != [] && hash(calls[|calls| - 1].data) == hash(c.data)
  {
    TranscriptSnoc(hash, calls, c);
    var before := Transcript(hash, calls);
    if !(calls != [] && hash(calls[|calls| - 1].data) == hash(c.data)) {
      RenderChunkShape(c.hop, c.data);
      var after := Transcript(hash, calls + [c]);
      assert after[|before|] == Header(c.hop);
      assert (before + [Copy(c.hop)])[|before|] == Copy(c.hop);
    }
  }

  /** A chunk repeated verbatim right after itself is reported as a copy, on any pair of hops. */
  lemma VerbatimRepeatIsCopy(hash: seq<byte> -> Digest, calls: seq<Chunk>, hop: int, data: seq<byte>)
    requires calls != [] && calls[|calls| - 1].data == data
    ensures Transcript(hash, calls + [Chunk(hop, data)]) == Transcript(hash, calls) + [Copy(hop)]
  {
    RepeatIffSameDigest(hash, calls, Chunk(hop, data));
  }

  /**
   * A chunk that differs from the previous one is rendered in full, unless
   * the two chunks' digests collide.
   */
  lemma DifferentChunkIsRendered(hash: seq<byte> -> Digest, calls: seq<Chunk>, c: Chunk)
    requires calls != [] && calls[|calls| - 1].data != c.data
    requires hash(calls[|calls| - 1].data) != hash(c.data)
    ensures Transcript(hash, calls + [c]) == Transcript(hash, calls) + RenderChunk(c.hop, c.data)
  {
    TranscriptSnoc(hash, calls, c);
  }

  /**
   * "hello\n" read from the client (hop 0) and then written unchanged to the
   * server (hop 1): the read is rendered in full, and the write, having the
   * same digest as the call just before it, is logged as a copy.
   */
  lemma HelloThenCopy(hash: seq<byte> -> Digest)
    ensures var hello: seq<byte> := [0x68, 0x65, 0x6C, 0x6C, 0x6F, LF];
      Transcript(hash, [Chunk(0, hello), Chunk(1, hello)])
      == [Header(0), Plain(0x68), Plain(0x65), Plain(0x6C), Plain(0x6C), Plain(0x6F), Plain(LF), Copy(1)]
  {
    var hello: seq<byte> := [0x68, 0x65, 0x6C, 0x6C, 0x6F, LF];
    FirstCallRenders(hash, Chunk(0, hello));
    HelloIsPlain(0);
    VerbatimRepeatIsCopy(hash, [Chunk(0, hello)], 1, hello);
    assert [Chunk(0, hello)] + [Chunk(1, hello)] == [Chunk(0, hello), Chunk(1, hello)];
  }

  /** The concatenation of the chunks of a sequence of calls. */
  function Flatten(calls: seq<Chunk>): seq<byte>
  {
    if calls == [] then [] else Flatten(calls[..|calls| - 1]) + calls[|calls| - 1].data
  }

  /** No two consecutive calls have chunks with the same digest. */
  ghost predicate NoRepeats(hash: seq<byte> -> Digest, calls: seq<Chunk>)
  {
    forall k | 0 < k < |calls| :: hash(calls[k - 1].data) != hash(calls[k].data)
  }

  /**
   * When no call is a repeat, the transcript shows every byte of every chunk,
   * once and in order.
   */
  lemma {:induction false} TranscriptShowsAllBytes(hash: seq<byte> -> Digest, calls: seq<Chunk>)
    requires NoRepeats(hash, calls)
    ensures Unrender(Transcript(hash, calls)) == Flatten(calls)
  {
    if calls != [] {
      var init := calls[..|calls| - 1];
      var c := calls[|calls| - 1];
      assert NoRepeats(hash, init) by {
        forall k | 0 < k < |init| ensures hash(init[k - 1].data) != hash(init[k].data) {
          assert init[k - 1] == calls[k - 1] && init[k] == calls[k];
        }
      }
      TranscriptShowsAllBytes(hash, init);
      assert init != [] ==> init[|init| - 1] == calls[|calls| - 2];
      assert Entry(hash, init, c) == RenderChunk(c.hop, c.data);
      RenderChunkShape(c.hop, c.data);
      UnrenderAppend(Transcript(hash, init), RenderChunk(c.hop, c.data));
    }
  }

  /** A digest buffer as set by memset(.., '\0', ..). */
  function ZeroDigest(): (d: Digest)
    ensures forall k | 0 <= k < |d| :: d[k] == 0
  {
    seq(DIGEST_LENGTH, _ => 0)
  }

  /** The logger of one process: the two static digest buffers and what has been printed. */
  class Logger {
    const hash: seq<byte> -> Digest
    var lastHash: Digest
    var newHash: Digest
    /** `lasthash != NULL`: a digest has been computed before. */
    var primed: bool
    var output: seq<Token>
    /** The calls made so far. */
    ghost var calls: seq<Chunk>

    ghost predicate Valid()
      reads this
    {
      && (primed <==> calls != [])
      && (primed ==> lastHash == hash(calls[|calls| - 1].data))
      && output == Transcript(hash, calls)
    }

    constructor (hash: seq<byte> -> Digest)
      ensures Valid() && this.hash == hash && calls == [] && output == []
    {
      this.hash := hash;
      lastHash, newHash := ZeroDigest(), ZeroDigest();
      primed := false;
      output := [];
      calls := [];
    }

    /** logtraffic(addr, hop, chunk) */
    method Log(hop: int, chunk: seq<byte>)
      requires Valid()
      modifies this
      ensures Valid()
      ensures calls == old(calls) + [Chunk(hop, chunk)]
      ensures output == old(output) + Entry(hash, old(calls), Chunk(hop, chunk))
    {
      TranscriptSnoc(hash, calls, Chunk(hop, chunk));
      var repeat := false;
      if !primed {
        lastHash, newHash := ZeroDigest(), ZeroDigest();
        lastHash := hash(chunk);
        primed := true;
      } else {
        newHash := hash(chunk);
        lastHash, newHash := newHash, lastHash;
        repeat := lastHash == newHash;
      }
      calls := calls + [Chunk(hop, chunk)];
      if repeat {
        output := output + [Copy(hop)];
        return;
      }
      var shown := [Header(hop)];
      if |chunk| != 0 {
        var body := PrintBytes(chunk);
        shown := shown + body;
        if chunk[|chunk| - 1] != LF {
          shown := shown + [MissingNewline];
        }
      }
      assert shown == RenderChunk(hop, chunk);
      output := output + shown;
    }
  }
}
