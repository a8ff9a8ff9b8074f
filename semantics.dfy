/** The appender as a state machine on values: one step function per operation
    of EncodingStringAppender, and Run over a sequence of operations. The class
    in module Appender is proved to move between exactly these states. */
module Semantics {
  import opened Types

  /** What the buffer in the `stream` slot holds. */
  datatype Slot = Slot(bytes: seq<Byte>, closed: bool)

  /** A new, empty ByteArrayOutputStream. */
  const EmptySlot := Slot([], false)

  /** Everything the appender's methods read or change: the inherited `started`
      flag, its configuration, the buffer slot, the status sink, the lifecycle
      calls made on encoders, and the (event, payload) pairs handed to `handle`. */
  datatype State<E, P> = State(
    started: bool,
    charset: Charset,
    binary: bool,
    encoder: Option<Encoder>,
    converter: Option<Converter<P>>,
    slot: Option<Slot>,
    diagnostics: seq<Diagnostic>,
    encoderLog: seq<EncoderCall>,
    handled: seq<(E, P)>)

  /** The state of a newly constructed appender (field initialisers). */
  function Initial<E, P>(): (s: State<E, P>)
    ensures !s.started && s.encoder.None? && s.converter.None? && s.slot.None?
    ensures s.charset == UTF8 && !s.binary
  {
    State(false, UTF8, false, None, None, None, [], [], [])
  }

  /** Whether each collaborator call of one append ends normally: closing the
      previous buffer, writing the encoded event, closing the buffer at the end
      of the cycle, and the subclass's handle. */
  datatype Faults = Faults(swapClose: Status, write: Status, finalClose: Status, handle: Status)

  const NoFaults := Faults(Done, Done, Done, Done)

  /** The failure policy shared by every catch block: clear `started`, report. */
  function Fail<E, P>(s: State<E, P>, k: ErrorKind): (r: State<E, P>)
    ensures !r.started && r.diagnostics == s.diagnostics + [Error(k)]
    ensures r.(started := s.started, diagnostics := s.diagnostics) == s
  {
    s.(started := false, diagnostics := s.diagnostics + [Error(k)])
  }

  // ---- configuration ----

  function SetCharsetStep<E, P>(s: State<E, P>, c: Charset): (r: State<E, P>)
    ensures r.charset == c && r.encoder == Propagate(s.encoder, c)
    ensures r.(charset := s.charset, encoder := s.encoder) == s
  {
    s.(encoder := Propagate(s.encoder, c), charset := c)
  }

  function SetBinaryStep<E, P>(s: State<E, P>, b: bool): (r: State<E, P>)
    ensures r.binary == b
    ensures r.diagnostics == s.diagnostics + (if b then [Info(BinaryMode)] else [])
    ensures r.(binary := s.binary, diagnostics := s.diagnostics) == s
  {
    s.(diagnostics := s.diagnostics + (if b then [Info(BinaryMode)] else []), binary := b)
  }

  /** setEncoder binds the encoder, then re-applies the current charset to it. */
  function SetEncoderStep<E, P>(s: State<E, P>, enc: Option<Encoder>): (r: State<E, P>)
    ensures r.encoder == Propagate(enc, s.charset)
    ensures r.(encoder := s.encoder) == s
  {
    SetCharsetStep(s.(encoder := enc), s.charset)
  }

  /** The encoder setLayout creates: a LayoutWrappingEncoder around the layout. */
  function LayoutEncoder(layout: Layout): Encoder
  {
    Encoder(LayoutWrapping(Some(layout)), None)
  }

  function SetLayoutStep<E, P>(s: State<E, P>, layout: Layout): (r: State<E, P>)
    ensures r.encoder == Some(Encoder(LayoutWrapping(Some(layout)), Some(s.charset)))
    ensures r.(encoder := s.encoder) == s
  {
    SetEncoderStep(s, Some(LayoutEncoder(layout)))
  }

  function SetConverterStep<E, P>(s: State<E, P>, c: Option<Converter<P>>): (r: State<E, P>)
    ensures r.converter == c
    ensures r.(converter := s.converter) == s
  {
    s.(converter := c)
  }

  // ---- lifecycle ----

  /** start: refuse without an encoder, then without a converter; otherwise
      start the encoder and set `started`. */
  function StartStep<E, P>(s: State<E, P>): (r: State<E, P>)
    ensures r.started == (s.started || (s.encoder.Some? && s.converter.Some?))
    ensures r.encoderLog
         == s.encoderLog + (if s.encoder.Some? && s.converter.Some? then [StartEncoder(s.encoder.value)] else [])
    ensures s.encoder.None? ==> r.diagnostics == s.diagnostics + [Error(EncoderNotSet)]
    ensures s.encoder.Some? && s.converter.None? ==> r.diagnostics == s.diagnostics + [Error(ConverterNotSet)]
    ensures s.encoder.Some? && s.converter.Some? ==> r.diagnostics == s.diagnostics
    ensures r.(started := s.started, encoderLog := s.encoderLog, diagnostics := s.diagnostics) == s
  {
    if s.encoder.None? then
      s.(diagnostics := s.diagnostics + [Error(EncoderNotSet)])
    else if s.converter.None? then
      s.(diagnostics := s.diagnostics + [Error(ConverterNotSet)])
    else
      s.(encoderLog := s.encoderLog + [StartEncoder(s.encoder.value)], started := true)
  }

  /** stop: clear `started`, then stop the encoder if one is bound. */
  function StopStep<E, P>(s: State<E, P>): (r: State<E, P>)
    ensures !r.started
    ensures r.encoderLog == s.encoderLog + (if s.encoder.Some? then [StopEncoder(s.encoder.value)] else [])
    ensures r.(started := s.started, encoderLog := s.encoderLog) == s
  {
    s.(started := false,
       encoderLog := s.encoderLog + (if s.encoder.Some? then [StopEncoder(s.encoder.value)] else []))
  }

  // ---- one encode cycle ----

  /** encoderInit: adopt `incoming` when the slot is empty; otherwise close the old
      buffer first, and adopt `incoming` only if that close returned normally.
      The boolean says whether `incoming` was adopted. */
  function InitStep<E, P>(s: State<E, P>, incoming: Slot, close: Status): (r: (State<E, P>, bool))
    ensures r.1 <==> s.slot.None? || close == Done
    ensures r.1 ==> r.0 == s.(slot := Some(incoming))
    ensures !r.1 ==> r.0 == Fail(s, InitFailed)
  {
    if s.slot.None? then (s.(slot := Some(incoming)), true)
    else if close == Done then (s.(slot := Some(incoming)), true)
    else (Fail(s, InitFailed), false)
  }

  /** doEncode: write the encoder's bytes for `e` into the slot buffer. A write
      that throws an IOException is caught; a missing encoder or buffer raises a
      NullPointerException that is not caught. */
  function EncodeStep<E, P>(s: State<E, P>, e: E, write: Status, encode: (Encoder, E) -> seq<Byte>)
    : (r: (State<E, P>, Option<Uncaught>))
    ensures r.1.None? <==> s.encoder.Some? && s.slot.Some?
    ensures r.1.Some? ==> r.0 == s
    ensures r.1.None? && write == Done ==>
      r.0 == s.(slot := Some(s.slot.value.(bytes := s.slot.value.bytes + encode(s.encoder.value, e))))
    ensures r.1.None? && write == Threw ==> r.0 == Fail(s, EncodeFailed)
  {
    if s.encoder.None? then (s, Some(NullEncoder))
    else if s.slot.None? then (s, Some(NullStream))
    else if write == Threw then (Fail(s, EncodeFailed), None)
    else
      var buf := s.slot.value;
      (s.(slot := Some(buf.(bytes := buf.bytes + encode(s.encoder.value, e)))), None)
  }

  /** encoderClose: close the slot buffer; any exception, including the
      NullPointerException of an empty slot, is caught and reported. */
  function CloseStep<E, P>(s: State<E, P>, close: Status): (r: State<E, P>)
    ensures s.slot.Some? && close == Done ==> r == s.(slot := Some(s.slot.value.(closed := true)))
    ensures s.slot.None? || close == Threw ==> r == Fail(s, CloseFailed)
  {
    if s.slot.None? || close == Threw then Fail(s, CloseFailed)
    else s.(slot := Some(s.slot.value.(closed := true)))
  }

  /** The private encode(event, stream): encoderInit, then doEncode, then
      encoderClose whether or not doEncode failed. Returns the new state, the
      bytes left in `incoming` (the stream append reads), and what escaped. */
  function EncodeCycle<E, P>(s: State<E, P>, incoming: Slot, e: E, f: Faults, encode: (Encoder, E) -> seq<Byte>)
    : (r: (State<E, P>, seq<Byte>, Option<Uncaught>))
    ensures r.2.None? <==> s.encoder.Some?
    ensures r.0.encoder == s.encoder && r.0.converter == s.converter && r.0.handled == s.handled
    ensures r.0.encoderLog == s.encoderLog && s.diagnostics <= r.0.diagnostics
    ensures r.0.started ==> s.started
  {
    var (s1, adopted) := InitStep(s, incoming, f.swapClose);
    var (s2, escaped) := EncodeStep(s1, e, f.write, encode);
    var s3 := CloseStep(s2, f.finalClose);
    (s3, if adopted then s3.slot.value.bytes else incoming.bytes, escaped)
  }

  /** doHandle: a None payload is suppressed; otherwise `handle` is called once,
      and an exception from it is caught and reported. */
  function HandleStep<E, P>(s: State<E, P>, e: E, payload: Option<P>, outcome: Status): (r: State<E, P>)
    ensures r.handled == s.handled + (if payload.Some? then [(e, payload.value)] else [])
    ensures r.started == (s.started && (payload.None? || outcome == Done))
    ensures r.diagnostics == s.diagnostics + (if payload.Some? && outcome == Threw then [Error(HandleFailed)] else [])
    ensures r.(handled := s.handled, started := s.started, diagnostics := s.diagnostics) == s
  {
    if payload.None? then s
    else
      var s1 := s.(handled := s.handled + [(e, payload.value)]);
      if outcome.Threw? then Fail(s1, HandleFailed) else s1
  }

  /** convert: the bound converter applied to the bytes; None when no converter
      is bound (the NullPointerException of `converter.convert`). */
  function ConvertStep<E, P>(s: State<E, P>, bytes: seq<Byte>): (r: Option<Option<P>>)
    ensures r.None? <==> s.converter.None?
    ensures r.Some? ==> r.value == s.converter.value(bytes)
  {
    match s.converter
    case None => None
    case Some(c) => Some(c(bytes))
  }

  /** append: encode `e` into a new, empty buffer, convert the buffer's bytes, hand
      the payload on. Returns the new state and what escaped to the caller. */
  function AppendStep<E, P>(s: State<E, P>, e: E, f: Faults, encode: (Encoder, E) -> seq<Byte>)
    : (r: (State<E, P>, Option<Uncaught>))
    ensures r.0.encoderLog == s.encoderLog
    ensures s.diagnostics <= r.0.diagnostics && s.handled <= r.0.handled
  {
    var (s1, bytes, escaped) := EncodeCycle(s, EmptySlot, e, f, encode);
    if escaped.Some? then (s1, escaped)
    else match ConvertStep(s1, bytes)
      case None => (s1, Some(NullConverter))
      case Some(payload) => (HandleStep(s1, e, payload, f.handle), None)
  }

  // ---- runs of operations ----

  /** One public operation of the appender. */
  datatype Op<E, P> =
    | SetCharset(charset: Charset)
    | SetBinary(binary: bool)
    | SetEncoder(encoder: Option<Encoder>)
    | SetLayout(layout: Layout)
    | SetConverter(converter: Option<Converter<P>>)
    | Start
    | Stop
    | Append(event: E, faults: Faults)

  function Step<E, P>(s: State<E, P>, op: Op<E, P>, encode: (Encoder, E) -> seq<Byte>): (r: State<E, P>)
    ensures s.diagnostics <= r.diagnostics
    ensures s.encoderLog <= r.encoderLog
    ensures s.handled <= r.handled
  {
    match op
    case SetCharset(c) => SetCharsetStep(s, c)
    case SetBinary(b) => SetBinaryStep(s, b)
    case SetEncoder(enc) => SetEncoderStep(s, enc)
    case SetLayout(layout) => SetLayoutStep(s, layout)
    case SetConverter(c) => SetConverterStep(s, c)
    case Start => StartStep(s)
    case Stop => StopStep(s)
    case Append(e, f) => AppendStep(s, e, f, encode).0
  }

  /** The state after performing `ops` in order, starting from `s`. */
  function Run<E, P>(s: State<E, P>, ops: seq<Op<E, P>>, encode: (Encoder, E) -> seq<Byte>): (r: State<E, P>)
    ensures s.diagnostics <= r.diagnostics
    ensures s.encoderLog <= r.encoderLog
    ensures s.handled <= r.handled
    decreases |ops|
  {
    if ops == [] then s else Run(Step(s, ops[0], encode), ops[1..], encode)
  }
}
