/** The two codecs composed, as a client of a stream undoes them. */
module StreamCodec {
  import opened Prelude
  import opened Chunked
  import opened EventStream

  /** Decode the chunked coding, then parse the event stream. */
  function Receive(wire: string): Option<seq<Event>> {
    match Decode(wire)
    case Some(d) => if d.rest == "" then Some(EventStream.Parse(Concat(d.chunks))) else None
    case None => None
  }

  /**
   Stream codec round trip: whatever buffers the output stream cuts the frames into, empty ones
   included, the client gets exactly the messages.
   */
  lemma StreamRoundTrip(msgs: seq<string>, bufs: seq<string>)
    requires forall m | m in msgs :: Carriable(m)
    requires Concat(bufs) == Frames(msgs)
    ensures Receive(Chunks(bufs) + LAST_CHUNK) == Some(AsEvents(msgs))
  {
    ChunksDecode(bufs, "");
    assert Chunks(bufs) + LAST_CHUNK + "" == Chunks(bufs) + LAST_CHUNK;
    ConcatNonEmpty(bufs);
    FramesParse(msgs);
  }

  /** The round trip for GET /sse. */
  lemma EndpointStreamRoundTrip(id: string, msgs: seq<string>, bufs: seq<string>)
    requires OneLine(id) && forall m | m in msgs :: Carriable(m)
    requires Concat(bufs) == EndpointFrame(id) + Frames(msgs)
    ensures Receive(Chunks(bufs) + LAST_CHUNK)
         == Some([Event("endpoint", "/message?sessionId=" + id)] + AsEvents(msgs))
  {
    ChunksDecode(bufs, "");
    assert Chunks(bufs) + LAST_CHUNK + "" == Chunks(bufs) + LAST_CHUNK;
    ConcatNonEmpty(bufs);
    EndpointStreamParse(id, msgs);
  }
}
