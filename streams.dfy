/** The byte buffer that one encode cycle writes into: a ByteArrayOutputStream
    seen through the OutputStream interface, whose write and close may throw. */
module Streams {
  import opened Types

  class Buffer {
    var bytes: seq<Byte>
    var closed: bool

    /** A fresh ByteArrayOutputStream: empty and open. */
    constructor ()
      ensures bytes == [] && !closed
    {
      bytes := [];
      closed := false;
    }

    /** write(data): the bytes are appended when the call returns normally;
        a write that throws leaves the contents as they were. */
    method Write(data: seq<Byte>, outcome: Status)
      modifies this
      ensures bytes == if outcome == Done then old(bytes) + data else old(bytes)
      ensures closed == old(closed)
    {
      if outcome == Done {
        bytes := bytes + data;
      }
    }

    /** close(): marks the stream closed unless the call throws; the contents
        stay readable either way, as toByteArray() reads them after close. */
    method Close(outcome: Status)
      modifies this
      ensures closed == (old(closed) || outcome == Done)
      ensures bytes == old(bytes)
    {
      if outcome == Done {
        closed := true;
      }
    }
  }
}
