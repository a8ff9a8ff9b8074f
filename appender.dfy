/** EncodingStringAppender: the fields the Java class updates in place, and
    one method per operation. Each method is proved to take the appender from
    old(View()) to the state the matching step function of Semantics gives. */
module Appender {
  import opened Types
  import opened Streams
  import opened Semantics

  class EncodingStringAppender<E, P> {
    /** The `started` flag inherited from logback's UnsynchronizedAppenderBase. */
    var started: bool
    var charset: Charset
    var binary: bool
    var encoder: Option<Encoder>
    var converter: Option<Converter<P>>
    /** The buffer slot: the stream the current encode cycle writes into. */
    var stream: Buffer?
    /** The status sink that addInfo and addError report to. */
    var diagnostics: seq<Diagnostic>
    /** The start() and stop() calls made on encoders, in order. */
    var encoderLog: seq<EncoderCall>
    /** The (event, payload) pairs passed to the subclass's handle, in order. */
    var handled: seq<(E, P)>

    /** The appender's state as a value. */
    function View(): State<E, P>
      reads this, stream
    {
      State(started, charset, binary, encoder, converter,
            if stream == null then None else Some(Slot(stream.bytes, stream.closed)),
            diagnostics, encoderLog, handled)
    }

    constructor ()
      ensures View() == Initial()
    {
      started := false;
      charset := UTF8;
      binary := false;
      encoder := None;
      converter := None;
      stream := null;
      diagnostics := [];
      encoderLog := [];
      handled := [];
    }

    method SetCharset(c: Charset)
      modifies this
      ensures charset == c && encoder == Propagate(old(encoder), c)
      ensures View() == SetCharsetStep(old(View()), c)
    {
      match encoder {
        case Some(enc) =>
          if CharsetAware(enc) {
            encoder := Some(enc.(charset := Some(c)));
          }
        case None =>
      }
      charset := c;
    }

    method SetBinary(b: bool)
      modifies this
      ensures View() == SetBinaryStep(old(View()), b)
    {
      if b {
        diagnostics := diagnostics + [Info(BinaryMode)];
      }
      binary := b;
    }

    method SetEncoder(enc: Option<Encoder>)
      modifies this
      ensures encoder == Propagate(enc, charset) && charset == old(charset)
      ensures View() == SetEncoderStep(old(View()), enc)
    {
      encoder := enc;
      SetCharset(charset);
    }

    method SetLayout(layout: Layout)
      modifies this
      ensures encoder == Some(Encoder(LayoutWrapping(Some(layout)), Some(charset)))
      ensures View() == SetLayoutStep(old(View()), layout)
    {
      var enc := Encoder(LayoutWrapping(Some(layout)), None);
      SetEncoder(Some(enc));
    }

    method SetConverter(c: Option<Converter<P>>)
      modifies this
      ensures converter == c
      ensures View() == SetConverterStep(old(View()), c)
    {
      converter := c;
    }

    method Start()
      modifies this
      ensures old(encoder).None? ==> started == old(started) && encoderLog == old(encoderLog)
      ensures old(encoder).Some? && old(converter).Some? ==>
        started && encoderLog == old(encoderLog) + [StartEncoder(old(encoder).value)]
      ensures View() == StartStep(old(View()))
    {
      if encoder.None? {
        diagnostics := diagnostics + [Error(EncoderNotSet)];
        return;
      }
      if converter.None? {
        diagnostics := diagnostics + [Error(ConverterNotSet)];
        return;
      }
      encoderLog := encoderLog + [StartEncoder(encoder.value)];
      started := true;
    }

    method Stop()
      modifies this
      ensures !started
      ensures View() == StopStep(old(View()))
    {
      started := false;
      if encoder.Some? {
        encoderLog := encoderLog + [StopEncoder(encoder.value)];
      }
    }

    /** The catch blocks' common action. */
    method ReportFailure(k: ErrorKind)
      modifies this
      ensures stream == old(stream)
      ensures View() == Fail(old(View()), k)
    {
      started := false;
      diagnostics := diagnostics + [Error(k)];
    }

    method EncoderInit(buf: Buffer, close: Status)
      requires buf != stream
      modifies this, stream
      ensures stream == (if old(stream) == null || close == Done then buf else old(stream))
      ensures old(stream) != null && close == Done ==> old(stream).closed
      ensures View() == InitStep(old(View()), Slot(buf.bytes, buf.closed), close).0
    {
      if stream == null {
        stream := buf;
      } else {
        stream.Close(close);
        if close == Done {
          stream := buf;
        } else {
          ReportFailure(InitFailed);
        }
      }
    }

    method DoEncode(e: E, write: Status, encode: (Encoder, E) -> seq<Byte>) returns (escaped: Option<Uncaught>)
      modifies this, stream
      ensures stream == old(stream)
      ensures (View(), escaped) == EncodeStep(old(View()), e, write, encode)
    {
      if encoder.None? {
        return Some(NullEncoder);
      }
      var bytes := encode(encoder.value, e);
      if stream == null {
        return Some(NullStream);
      }
      stream.Write(bytes, write);
      if write == Threw {
        ReportFailure(EncodeFailed);
      }
      return None;
    }

    method EncoderClose(close: Status)
      modifies this, stream
      ensures stream == old(stream)
      ensures View() == CloseStep(old(View()), close)
    {
      if stream == null {
        ReportFailure(CloseFailed);
        return;
      }
      stream.Close(close);
      if close == Threw {
        ReportFailure(CloseFailed);
      }
    }

    /** The private encode(event, stream) of the Java class. */
    method Encode(e: E, buf: Buffer, f: Faults, encode: (Encoder, E) -> seq<Byte>)
      returns (escaped: Option<Uncaught>)
      requires buf != stream
      modifies this, stream, buf
      ensures var r := EncodeCycle(old(View()), Slot(old(buf.bytes), old(buf.closed)), e, f, encode);
        View() == r.0 && buf.bytes == r.1 && escaped == r.2
    {
      ghost var incoming := Slot(buf.bytes, buf.closed);
      EncoderInit(buf, f.swapClose);
      ghost var adopted := stream == buf;
      escaped := DoEncode(e, f.write, encode);
      EncoderClose(f.finalClose);
      assert adopted ==> stream == buf;
      assert !adopted ==> buf.bytes == incoming.bytes;
    }

    method DoHandle(e: E, payload: Option<P>, outcome: Status)
      modifies this
      ensures View() == HandleStep(old(View()), e, payload, outcome)
    {
      if payload.Some? {
        handled := handled + [(e, payload.value)];
        if outcome == Threw {
          ReportFailure(HandleFailed);
        }
      }
    }

    method Append(e: E, f: Faults, encode: (Encoder, E) -> seq<Byte>) returns (escaped: Option<Uncaught>)
      modifies this, stream
      ensures escaped.None? <==> old(encoder).Some? && old(converter).Some?
      ensures (View(), escaped) == AppendStep(old(View()), e, f, encode)
    {
      var buf := new Buffer();
      escaped := Encode(e, buf, f, encode);
      if escaped.Some? {
        return;
      }
      var payload := ConvertStep(View(), buf.bytes);
      if payload.None? {
        return Some(NullConverter);
      }
      DoHandle(e, payload.value, f.handle);
    }
  }
}
