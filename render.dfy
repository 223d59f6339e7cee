/**
 * The per-byte traffic renderer of logtraffic (tcpfilter.c:324-344).
 *
 * The renderer turns a chunk of bytes into terminal output.  Instead of the
 * ANSI strings the program prints, the model produces a sequence of tokens:
 * one token per byte (the byte itself, a short `\r` marker, or a `\xHH`
 * escape), a `$` marker in front of a newline that follows a space, and a
 * `$$` marker (plus a real newline) after a chunk that does not end in a
 * newline.  The header line that starts every rendered chunk is the opaque
 * token Header(hop); a deduplicated chunk is the opaque token Copy(hop).
 *
 * The program walks the chunk through a plain `char *`.  This model fixes
 * signed-char semantics: bytes 0x80-0xFF are negative, compare below 0x20
 * and are therefore hex-escaped (printed as `b & 0xFF`).
 */
module Render {

  newtype byte = x: int | 0 <= x < 256

  const LF: byte := 0x0A
  const CR: byte := 0x0D
  const SPACE: byte := 0x20
  const DEL: byte := 0x7F

  datatype Token =
    | Plain(b: byte)        // the byte itself (putchar)
    | CarriageReturn        // the short `\r` marker
    | Hex(b: byte)          // `\xHH`, two upper-case hex digits of the byte
    | TrailingSpaceMark     // `$` printed before a newline that follows a space
    | MissingNewline        // `$$` and a newline after a chunk not ending in a newline
    | Header(hop: int)      // the header line written by logging(addr, hop, NULL)
    | Copy(hop: int)        // the header line written by logging(addr, hop, "COPY")

  /** The value of a byte read through a signed `char`. */
  function SignedChar(b: byte): int
  {
    if b < 0x80 then b as int else b as int - 0x100
  }

  /** The test of tcpfilter.c:330 under signed-char semantics. */
  predicate Escaped(b: byte)
  {
    (SignedChar(b) < 0x20 && b != LF) || b == DEL
  }

  /** Which bytes the renderer escapes, stated on unsigned byte values. */
  lemma EscapedBytes(b: byte)
    ensures Escaped(b) <==> (b < 0x20 && b != LF) || 0x7F <= b
  {
  }

  /** The token printed for one byte, not counting the `$` marker. */
  function EscapeByte(b: byte): (t: Token)
    ensures t.Plain? <==> !Escaped(b)
    ensures t == CarriageReturn <==> b == CR
    ensures t.Hex? ==> Escaped(b) && t.b == b
    ensures Decode(t) == [b]
  {
    if Escaped(b) then
      if b == CR then CarriageReturn else Hex(b)
    else
      Plain(b)
  }

  /** The tokens printed for one byte, given whether the previous byte was a space. */
  function RenderByte(b: byte, afterSpace: bool): seq<Token>
  {
    (if b == LF && afterSpace then [TrailingSpaceMark] else []) + [EscapeByte(b)]
  }

  /** A token the byte loop may print: never an unescaped control byte, never a header. */
  predicate Safe(t: Token)
  {
    match t
    case Plain(b) => !Escaped(b)
    case CarriageReturn => true
    case Hex(b) => Escaped(b) && b != CR
    case TrailingSpaceMark => true
    case _ => false
  }

  /**
   * The byte loop of tcpfilter.c:325-341: `afterSpace` is the loop's
   * `space` flag, true when the previous byte was 0x20.
   */
  function RenderBytes(s: seq<byte>, afterSpace: bool): seq<Token>
  {
    if s == [] then []
    else RenderByte(s[0], afterSpace) + RenderBytes(s[1..], s[0] == SPACE)
  }

  /** The byte loop of tcpfilter.c:325-341, printing into `out`. */
  method PrintBytes(chunk: seq<byte>) returns (out: seq<Token>)
    ensures out == RenderBytes(chunk, false)
  {
    out := [];
    var space := false;
    var k := 0;
    while k < |chunk|
      invariant 0 <= k <= |chunk|
      invariant space == (k > 0 && chunk[k - 1] == SPACE)
      invariant out == RenderBytes(chunk[..k], false)
    {
      var b := chunk[k];
      ghost var printed := out;
      if b == LF && space {
        out := out + [TrailingSpaceMark];
      }
      if Escaped(b) {
        if b == CR {
          out := out + [CarriageReturn];
        } else {
          out := out + [Hex(b)];
        }
      } else {
        out := out + [Plain(b)];
      }
      assert out == printed + RenderByte(b, space);
      RenderSnoc(chunk[..k], b);
      assert chunk[..k + 1] == chunk[..k] + [b];
      space := b == SPACE;
      k := k + 1;
    }
    assert chunk[..k] == chunk;
  }

  /** The whole output of logtraffic for a chunk that is not a repeat (tcpfilter.c:323-344). */
  function RenderChunk(hop: int, chunk: seq<byte>): seq<Token>
  {
    [Header(hop)]
    + if chunk == [] then []
      else RenderBytes(chunk, false) + (if chunk[|chunk| - 1] != LF then [MissingNewline] else [])
  }

  /** The bytes a token stands for; markers and headers stand for none. */
  function Decode(t: Token): seq<byte>
  {
    match t
    case Plain(b) => [b]
    case CarriageReturn => [CR]
    case Hex(b) => [b]
    case _ => []
  }

  /** The bytes a token sequence stands for. */
  function Unrender(ts: seq<Token>): seq<byte>
  {
    if ts == [] then [] else Decode(ts[0]) + Unrender(ts[1..])
  }

  lemma {:induction false} UnrenderAppend(a: seq<Token>, b: seq<Token>)
    ensures Unrender(a + b) == Unrender(a) + Unrender(b)
  {
    if a == [] {
      assert a + b == b;
    } else {
      assert (a + b)[1..] == a[1..] + b;
      UnrenderAppend(a[1..], b);
    }
  }

  /** Rendering loses and duplicates no byte: the escapes decode back to the chunk. */
  lemma {:induction false} RenderBytesLossless(s: seq<byte>, afterSpace: bool)
    ensures Unrender(RenderBytes(s, afterSpace)) == s
  {
    if s != [] {
      var head := RenderByte(s[0], afterSpace);
      UnrenderAppend(head, RenderBytes(s[1..], s[0] == SPACE));
      RenderBytesLossless(s[1..], s[0] == SPACE);
      if s[0] == LF && afterSpace {
        UnrenderAppend([TrailingSpaceMark], [EscapeByte(s[0])]);
      }
      assert Unrender([EscapeByte(s[0])]) == [s[0]];
      assert Unrender(head) == [s[0]];
      assert s == [s[0]] + s[1..];
    }
  }

  /** The byte loop prints only safe tokens: no unescaped control byte, no header, no `$$` marker. */
  lemma {:induction false} RenderBytesSafe(s: seq<byte>, afterSpace: bool)
    ensures forall k | 0 <= k < |RenderBytes(s, afterSpace)| :: Safe(RenderBytes(s, afterSpace)[k])
  {
    if s != [] {
      RenderBytesSafe(s[1..], s[0] == SPACE);
      var head := RenderByte(s[0], afterSpace);
      var tail := RenderBytes(s[1..], s[0] == SPACE);
      assert RenderBytes(s, afterSpace) == head + tail;
      forall k | 0 <= k < |head + tail| ensures Safe((head + tail)[k]) {
        if k >= |head| {
          assert (head + tail)[k] == tail[k - |head|];
        }
      }
    }
  }

  /** The last token the byte loop prints is the escape of the chunk's last byte. */
  lemma {:induction false} RenderBytesLast(s: seq<byte>, afterSpace: bool)
    requires s != []
    ensures var r := RenderBytes(s, afterSpace); |r| > 0 && r[|r| - 1] == EscapeByte(s[|s| - 1])
  {
    var head := RenderByte(s[0], afterSpace);
    var tail := RenderBytes(s[1..], s[0] == SPACE);
    assert RenderBytes(s, afterSpace) == head + tail;
    if |s| > 1 {
      RenderBytesLast(s[1..], s[0] == SPACE);
      assert s[1..][|s[1..]| - 1] == s[|s| - 1];
    }
  }

  /** Rendering a concatenation renders the second part with the space flag the first part leaves. */
  lemma {:induction false} RenderBytesAppend(a: seq<byte>, b: seq<byte>, afterSpace: bool)
    ensures RenderBytes(a + b, afterSpace)
         == RenderBytes(a, afterSpace) + RenderBytes(b, if a == [] then afterSpace else a[|a| - 1] == SPACE)
  {
    if a != [] {
      assert (a + b)[0] == a[0];
      assert (a + b)[1..] == a[1..] + b;
      RenderBytesAppend(a[1..], b, a[0] == SPACE);
    } else {
      assert a + b == b;
    }
  }

  /** Rendering one more byte appends that byte's tokens, flagged by the byte before it. */
  lemma RenderSnoc(a: seq<byte>, b: byte)
    ensures RenderBytes(a + [b], false) == RenderBytes(a, false) + RenderByte(b, a != [] && a[|a| - 1] == SPACE)
  {
    var flag := if a == [] then false else a[|a| - 1] == SPACE;
    RenderBytesAppend(a, [b], false);
    assert [b][0] == b && [b][1..] == [];
    assert RenderBytes([b], flag) == RenderByte(b, flag) + RenderBytes([], b == SPACE);
  }

  /**
   * The rendering of byte k depends only on that byte and the byte before it:
   * a newline gets the `$` marker exactly when the previous byte is a space
   * (for the first byte, when the incoming flag is set).
   */
  lemma RenderAt(s: seq<byte>, k: nat, afterSpace: bool)
    requires k < |s|
    ensures RenderBytes(s, afterSpace)
         == RenderBytes(s[..k], afterSpace)
            + RenderByte(s[k], if k == 0 then afterSpace else s[k - 1] == SPACE)
            + RenderBytes(s[k + 1..], s[k] == SPACE)
  {
    var pre, rest := s[..k], s[k..];
    assert s == pre + rest;
    RenderBytesAppend(pre, rest, afterSpace);
    var flag := if k == 0 then afterSpace else s[k - 1] == SPACE;
    assert flag == if pre == [] then afterSpace else pre[|pre| - 1] == SPACE;
    assert rest != [] && rest[0] == s[k] && rest[1..] == s[k + 1..];
    assert RenderBytes(rest, flag) == RenderByte(s[k], flag) + RenderBytes(s[k + 1..], s[k] == SPACE);
  }

  /** The shape of a rendered chunk (tcpfilter.c:323-344). */
  lemma RenderChunkShape(hop: int, chunk: seq<byte>)
    ensures var r := RenderChunk(hop, chunk);
      && r[0] == Header(hop)
      && (chunk == [] ==> r == [Header(hop)])
      && (chunk != [] ==> (r[|r| - 1] == MissingNewline <==> chunk[|chunk| - 1] != LF))
      && (forall k | 1 <= k < |r| :: Safe(r[k]) || (k == |r| - 1 && r[k] == MissingNewline))
      && Unrender(r) == chunk
  {
    var r := RenderChunk(hop, chunk);
    if chunk != [] {
      var body := RenderBytes(chunk, false);
      var tail := if chunk[|chunk| - 1] != LF then [MissingNewline] else [];
      assert r == [Header(hop)] + body + tail;
      RenderBytesLossless(chunk, false);
      UnrenderAppend([Header(hop)], body + tail);
      UnrenderAppend(body, tail);
      RenderBytesSafe(chunk, false);
      assert forall k | 1 <= k < 1 + |body| :: r[k] == body[k - 1];
    }
  }

  /** A bell byte (0x07) is shown as a hex escape and the chunk gets the missing-newline marker. */
  lemma BellIsHexEscaped(hop: int)
    ensures RenderChunk(hop, [0x07]) == [Header(hop), Hex(0x07), MissingNewline]
  {
  }

  /** In "a\r\n" the carriage return is shown as the short `\r` marker. */
  lemma CarriageReturnMarked(hop: int)
    ensures RenderChunk(hop, [0x61, CR, LF]) == [Header(hop), Plain(0x61), CarriageReturn, Plain(LF)]
  {
    var s: seq<byte> := [0x61, CR, LF];
    assert s[1..] == [CR, LF] && s[1..][1..] == [LF] && s[1..][1..][1..] == [];
    assert RenderBytes([LF], false) == [Plain(LF)];
    assert RenderBytes([CR, LF], false) == [CarriageReturn, Plain(LF)];
    assert RenderBytes(s, false) == [Plain(0x61), CarriageReturn, Plain(LF)];
  }

  /** In "a \n" the space right before the newline gets the `$` marker. */
  lemma TrailingSpaceMarked(hop: int)
    ensures RenderChunk(hop, [0x61, SPACE, LF])
         == [Header(hop), Plain(0x61), Plain(SPACE), TrailingSpaceMark, Plain(LF)]
  {
    var t: seq<byte> := [0x61, SPACE, LF];
    assert t[1..] == [SPACE, LF] && t[1..][1..] == [LF] && t[1..][1..][1..] == [];
    assert RenderBytes([LF], true) == [TrailingSpaceMark, Plain(LF)];
    assert RenderBytes([SPACE, LF], false) == [Plain(SPACE), TrailingSpaceMark, Plain(LF)];
    assert RenderBytes(t, false) == [Plain(0x61), Plain(SPACE), TrailingSpaceMark, Plain(LF)];
  }

  /** "hello\n" is rendered as the header followed by the six bytes, with no marker. */
  lemma HelloIsPlain(hop: int)
    ensures RenderChunk(hop, [0x68, 0x65, 0x6C, 0x6C, 0x6F, LF])
         == [Header(hop), Plain(0x68), Plain(0x65), Plain(0x6C), Plain(0x6C), Plain(0x6F), Plain(LF)]
  {
    var s: seq<byte> := [0x68, 0x65, 0x6C, 0x6C, 0x6F, LF];
    assert s[1..] == [0x65, 0x6C, 0x6C, 0x6F, LF];
    assert s[1..][1..] == [0x6C, 0x6C, 0x6F, LF];
    assert s[1..][1..][1..] == [0x6C, 0x6F, LF];
    assert s[1..][1..][1..][1..] == [0x6F, LF];
    assert s[1..][1..][1..][1..][1..] == [LF];
    assert s[1..][1..][1..][1..][1..][1..] == [];
    assert RenderBytes([LF], false) == [Plain(LF)];
    assert RenderBytes([0x6F, LF], false) == [Plain(0x6F), Plain(LF)];
    assert RenderBytes([0x6C, 0x6F, LF], false) == [Plain(0x6C), Plain(0x6F), Plain(LF)];
    assert RenderBytes([0x6C, 0x6C, 0x6F, LF], false) == [Plain(0x6C), Plain(0x6C), Plain(0x6F), Plain(LF)];
    assert RenderBytes([0x65, 0x6C, 0x6C, 0x6F, LF], false)
        == [Plain(0x65), Plain(0x6C), Plain(0x6C), Plain(0x6F), Plain(LF)];
  }

  /** A byte above 0x7F is hex-escaped, because it is negative as a signed char. */
  lemma HighByteIsHexEscaped(hop: int)
    ensures RenderChunk(hop, [0xC3, LF]) == [Header(hop), Hex(0xC3), Plain(LF)]
  {
    var s: seq<byte> := [0xC3, LF];
    assert s[1..] == [LF] && s[1..][1..] == [];
    assert RenderBytes([LF], false) == [Plain(LF)];
    assert RenderBytes(s, false) == [Hex(0xC3), Plain(LF)];
  }
}
