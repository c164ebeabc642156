/** The chunked transfer coding: the sink that writes it and a decoder per section 7.1 of RFC 9112. */
module Chunked {
  import opened Prelude
  import opened Digits

  const CRLF: string := "\r\n"

  // ---- Writing ----

  /** What do_put appends to the connection for one buffer; nothing for an empty one. */
  function Chunk(buf: string): string {
    if buf == "" then "" else Print(|buf|, Hex) + CRLF + buf + CRLF
  }

  function Chunks(bufs: seq<string>): string {
    if bufs == [] then "" else Chunk(bufs[0]) + Chunks(bufs[1..])
  }

  /** A sequence of puts writes the chunks of its buffers. */
  lemma {:induction false} ChunksAppend(bufs: seq<string>, buf: string)
    ensures Chunks(bufs + [buf]) == Chunks(bufs) + Chunk(buf)
  {
    var last := Chunk(buf);
    if bufs == [] {
      assert last + "" == "" + last;
      assert bufs + [buf] == [buf] && [buf][1..] == [];
    } else {
      var more := bufs + [buf];
      ChunksAppend(bufs[1..], buf);
      assert more[0] == bufs[0] && more[1..] == bufs[1..] + [buf];
      Associates(Chunk(bufs[0]), Chunks(bufs[1..]), last);
    }
  }

  class ChunkedSink {
    /** The bytes handed to the connection's output stream. */
    var out: string

    constructor ()
      ensures out == ""
    {
      out := "";
    }

    method WriteSize(size: nat)
      modifies this
      ensures out == old(out) + Print(size, Hex) + CRLF
    {
      out := out + Print(size, Hex) + CRLF;
    }

    method Put(buf: string)
      modifies this
      ensures out == old(out) + Chunk(buf)
    {
      if |buf| == 0 {
        return;
      }
      WriteSize(|buf|);
      out := out + buf;
      out := out + CRLF;
      assert out == old(out) + (Print(|buf|, Hex) + CRLF + buf + CRLF);
    }

    /** The puts of one stream, one after the other: what they write is what the decoder below reads. */
    method PutAll(bufs: seq<string>)
      modifies this
      ensures out == old(out) + Chunks(bufs)
    {
      assert bufs[..0] == [];
      for i := 0 to |bufs|
        invariant out == old(out) + Chunks(bufs[..i])
      {
        Put(bufs[i]);
        ChunksAppend(bufs[..i], bufs[i]);
        Associates(old(out), Chunks(bufs[..i]), Chunk(bufs[i]));
        assert bufs[..i + 1] == bufs[..i] + [bufs[i]];
      }
      assert bufs[..|bufs|] == bufs;
    }
  }

  // ---- Reading: RFC 9112, section 7.1 ----

  /** The position of the first CRLF. */
  function FindCrlf(s: string): (r: Option<nat>)
    ensures r.Some? ==> r.value + 2 <= |s| && s[r.value..r.value + 2] == CRLF
    decreases |s|
  {
    if |s| < 2 then None
    else if s[..2] == CRLF then Some(0)
    else
      match FindCrlf(s[1..])
      case Some(n) => assert s[1..][n..n + 2] == s[n + 1..n + 3]; Some(n + 1)
      case None => None
  }

  /** chunk-size [ chunk-ext ]: hex digits, then nothing or an extension. */
  function ChunkSize(line: string): Option<nat> {
    var n := DigitRun(line, Hex);
    if n == 0 then None
    else if n == |line| || line[n] == ';' || line[n] == ' ' || line[n] == '\t' then Some(Value(line[..n], Hex))
    else None
  }

  /** trailer-section CRLF: lines up to an empty one; the text after it. */
  function SkipTrailer(s: string): (rest: Option<string>)
    ensures rest.Some? ==> |rest.value| < |s|
    decreases |s|
  {
    match FindCrlf(s)
    case None => None
    case Some(n) => if n == 0 then Some(s[2..]) else SkipTrailer(s[n + 2..])
  }

  /** The data of the chunks, in order, and what follows the message. */
  datatype Decoded = Decoded(chunks: seq<string>, rest: string)

  function Decode(s: string): Option<Decoded>
    decreases |s|
  {
    match FindCrlf(s)
    case None => None
    case Some(n) =>
      match ChunkSize(s[..n])
      case None => None
      case Some(size) =>
        var body := s[n + 2..];
        if size == 0 then
          match SkipTrailer(body)
          case Some(rest) => Some(Decoded([], rest))
          case None => None
        else if |body| < size + 2 || body[size..size + 2] != CRLF then None
        else
          match Decode(body[size + 2..])
          case Some(d) => Some(Decoded([body[..size]] + d.chunks, d.rest))
          case None => None
  }

  // ---- Round trip ----

  lemma {:induction false} FindCrlfAfterDigits(digits: string, tail: string)
    requires AllDigits(digits, Hex)
    ensures FindCrlf(digits + CRLF + tail) == Some(|digits|)
  {
    var s := digits + CRLF + tail;
    if digits == "" {
      assert s[..2] == CRLF;
    } else {
      FindCrlfAfterDigits(digits[1..], tail);
      assert s[1..] == digits[1..] + CRLF + tail;
      assert s[0] == digits[0] && DigitValue('\r') == 16;
      assert s[..2][0] != CRLF[0];
    }
  }

  /** A chunk header reads back as the size it was printed from. */
  lemma HeaderReads(size: nat, tail: string)
    ensures var digits := Print(size, Hex);
      var s := digits + CRLF + tail;
      FindCrlf(s) == Some(|digits|) && s[..|digits|] == digits && s[|digits| + 2..] == tail
      && ChunkSize(digits) == Some(size)
  {
    var digits := Print(size, Hex);
    PrintRoundTrip(size, Hex);
    FindCrlfAfterDigits(digits, tail);
    assert digits[..|digits|] == digits;
    DigitRunUnique(digits, |digits|, Hex);
  }

  /** One round of the decoder on a data chunk. */
  lemma DecodeStep(s: string, n: nat, size: nat, body: string, d: Decoded)
    requires FindCrlf(s) == Some(n) && ChunkSize(s[..n]) == Some(size) && s[n + 2..] == body
    requires 0 < size && size + 2 <= |body| && body[size..size + 2] == CRLF
    requires Decode(body[size + 2..]) == Some(d)
    ensures Decode(s) == Some(Decoded([body[..size]] + d.chunks, d.rest))
  {
  }

  lemma SplitBody(data: string, tail: string)
    ensures var body, n := data + CRLF + tail, |data|;
      n + 2 <= |body| && body[..n] == data && body[n..n + 2] == CRLF && body[n + 2..] == tail
  {
  }

  lemma RegroupFive(a: string, b: string, c: string, d: string, e: string)
    ensures a + b + c + d + e == a + b + (c + d + e)
  {
  }

  lemma ChunkHeader(buf: string, tail: string)
    requires buf != ""
    ensures var s, n := Chunk(buf) + tail, |Print(|buf|, Hex)|;
      FindCrlf(s) == Some(n) && ChunkSize(s[..n]) == Some(|buf|) && s[n + 2..] == buf + CRLF + tail
  {
    HeaderReads(|buf|, buf + CRLF + tail);
    RegroupFive(Print(|buf|, Hex), CRLF, buf, CRLF, tail);
  }

  /** Where the parts of a chunk are. */
  lemma ChunkParts(buf: string, tail: string) returns (n: nat, body: string)
    requires buf != ""
    ensures var s, size := Chunk(buf) + tail, |buf|;
      && FindCrlf(s) == Some(n) && ChunkSize(s[..n]) == Some(size) && s[n + 2..] == body
      && size + 2 <= |body| && body[..size] == buf && body[size..size + 2] == CRLF && body[size + 2..] == tail
  {
    ChunkHeader(buf, tail);
    SplitBody(buf, tail);
    n, body := |Print(|buf|, Hex)|, buf + CRLF + tail;
  }

  lemma DecodeChunk(s: string, buf: string, tail: string, d: Decoded)
    requires s == Chunk(buf) + tail && buf != "" && Decode(tail) == Some(d)
    ensures Decode(s) == Some(Decoded([buf] + d.chunks, d.rest))
  {
    var n, body := ChunkParts(buf, tail);
    DecodeStep(s, n, |buf|, body, d);
  }

  /** The end of a chunked message as the server appends it: a zero chunk and no trailer. */
  const LAST_CHUNK: string := "0\r\n\r\n"

  lemma DecodeLast(rest: string)
    ensures Decode(LAST_CHUNK + rest) == Some(Decoded([], rest))
  {
    var tail := CRLF + rest;
    HeaderReads(0, tail);
    assert Print(0, Hex) == "0";
    assert LAST_CHUNK + rest == Print(0, Hex) + CRLF + tail;
    assert tail[..2] == CRLF && tail[2..] == rest;
  }

  function NonEmpty(bufs: seq<string>): seq<string> {
    if bufs == [] then []
    else if bufs[0] == "" then NonEmpty(bufs[1..])
    else [bufs[0]] + NonEmpty(bufs[1..])
  }

  lemma Regroup(a: string, b: string, c: string, d: string)
    ensures a + b + c + d == a + (b + c + d)
  {
  }

  /** A decoder sees exactly the non-empty buffers as chunks: no zero chunk ends the message early. */
  lemma {:induction false} ChunksDecode(bufs: seq<string>, rest: string)
    ensures Decode(Chunks(bufs) + LAST_CHUNK + rest) == Some(Decoded(NonEmpty(bufs), rest))
  {
    if bufs == [] {
      DecodeLast(rest);
      assert "" + LAST_CHUNK + rest == LAST_CHUNK + rest;
    } else {
      ChunksDecode(bufs[1..], rest);
      var first, tail := Chunk(bufs[0]), Chunks(bufs[1..]) + LAST_CHUNK + rest;
      Regroup(first, Chunks(bufs[1..]), LAST_CHUNK, rest);
      if bufs[0] == "" {
        assert first + tail == tail;
      } else {
        DecodeChunk(first + tail, bufs[0], tail, Decoded(NonEmpty(bufs[1..]), rest));
      }
    }
  }

  lemma {:induction false} ConcatNonEmpty(bufs: seq<string>)
    ensures Concat(NonEmpty(bufs)) == Concat(bufs)
  {
    if bufs != [] {
      ConcatNonEmpty(bufs[1..]);
      if bufs[0] == "" {
        assert "" + Concat(bufs[1..]) == Concat(bufs[1..]);
      } else {
        assert NonEmpty(bufs)[1..] == NonEmpty(bufs[1..]);
      }
    }
  }
}
