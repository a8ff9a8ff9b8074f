/** Values the appender works with: bytes, charsets, encoders, diagnostics,
    and the outcomes of calls into collaborators it cannot see. */
module Types {

  /** One byte of an encoded log event. */
  newtype Byte = b: int | 0 <= b < 256

  /** A character set, known here only by its name. */
  type Charset = string

  /** The charset an appender is created with. */
  const UTF8: Charset := "UTF-8"

  datatype Option<+T> = None | Some(value: T)

  /** How a call into a collaborator ends: normally, or by throwing
      (an IOException from a stream, an Exception from the subclass's handler). */
  datatype Status = Done | Threw

  /** A logback layout, known here only by its pattern. */
  datatype Layout = Layout(pattern: string)

  /** The encoder variants the appender tells apart: logback's
      LayoutWrappingEncoder, this library's CharacterEncoder, and any other encoder. */
  datatype EncoderKind =
    | LayoutWrapping(layout: Option<Layout>)
    | CharacterEncoding(name: string)
    | OtherEncoding(name: string)

  /** An encoder and the charset it has been told to use, if any. */
  datatype Encoder = Encoder(kind: EncoderKind, charset: Option<Charset>)

  /** The two variants that accept a charset. */
  predicate CharsetAware(enc: Encoder)
  {
    enc.kind.LayoutWrapping? || enc.kind.CharacterEncoding?
  }

  /** What the appender's setCharset does to the bound encoder: a charset-aware
      encoder is told the charset, any other encoder (or none) is left alone. */
  function Propagate(enc: Option<Encoder>, c: Charset): (r: Option<Encoder>)
    ensures r.Some? <==> enc.Some?
    ensures r.Some? ==> r.value.kind == enc.value.kind
    ensures r.Some? && CharsetAware(enc.value) ==> r.value.charset == Some(c)
    ensures enc.Some? && !CharsetAware(enc.value) ==> r == enc
  {
    match enc
    case None => None
    case Some(e) => if CharsetAware(e) then Some(e.(charset := Some(c))) else enc
  }

  /** A PayloadConverter: encoded bytes to a payload, or None (Java null) to suppress delivery. */
  type Converter<P> = seq<Byte> -> Option<P>

  datatype InfoKind = BinaryMode

  datatype ErrorKind =
    | EncoderNotSet
    | ConverterNotSet
    | HandleFailed
    | EncodeFailed
    | InitFailed
    | CloseFailed

  /** An entry of the status sink (addInfo / addError); message texts are not modelled. */
  datatype Diagnostic = Info(info: InfoKind) | Error(error: ErrorKind)

  /** Lifecycle calls the appender makes on its encoder. */
  datatype EncoderCall = StartEncoder(started: Encoder) | StopEncoder(stopped: Encoder)

  /** The NullPointerExceptions that escape from append and doEncode uncaught. */
  datatype Uncaught = NullEncoder | NullStream | NullConverter
}
