/** What EncodingStringAppender promises, proved about the step functions of
    Semantics (and so, through the methods' postconditions, about the class). */
module Properties {
  import opened Types
  import opened Semantics

  // ---- start and stop ----

  /** Without an encoder, start reports only the missing encoder (even when the
      converter is missing too), leaves `started` alone and starts no encoder. */
  lemma StartWithoutEncoder<E, P>(s: State<E, P>)
    requires s.encoder.None?
    ensures StartStep(s) == s.(diagnostics := s.diagnostics + [Error(EncoderNotSet)])
  {
  }

  /** With an encoder but no converter, start reports the missing converter and
      changes nothing else. */
  lemma StartWithoutConverter<E, P>(s: State<E, P>)
    requires s.encoder.Some? && s.converter.None?
    ensures StartStep(s) == s.(diagnostics := s.diagnostics + [Error(ConverterNotSet)])
  {
  }

  /** With both bound, start calls the encoder's start exactly once, then sets
      `started`, and reports nothing. */
  lemma StartWithBoth<E, P>(s: State<E, P>)
    requires s.encoder.Some? && s.converter.Some?
    ensures StartStep(s).started
    ensures StartStep(s).encoderLog == s.encoderLog + [StartEncoder(s.encoder.value)]
    ensures StartStep(s).(started := s.started, encoderLog := s.encoderLog) == s
  {
  }

  /** stop always clears `started`; it calls the encoder's stop exactly when an
      encoder is bound and changes nothing else; a second stop leaves `started`
      as the first one did. */
  lemma StopClearsStarted<E, P>(s: State<E, P>)
    ensures !StopStep(s).started && !StopStep(StopStep(s)).started
    ensures s.encoder.Some? ==> StopStep(s).encoderLog == s.encoderLog + [StopEncoder(s.encoder.value)]
    ensures s.encoder.None? ==> StopStep(s) == s.(started := false)
    ensures StopStep(s).(started := s.started, encoderLog := s.encoderLog) == s
  {
  }

  /** Run performs the first operation, then the rest. */
  lemma RunFirst<E, P>(s: State<E, P>, ops: seq<Op<E, P>>, encode: (Encoder, E) -> seq<Byte>)
    requires ops != []
    ensures Run(s, ops, encode) == Run(Step(s, ops[0], encode), ops[1..], encode)
  {
  }

  /** stop then start, with both collaborators bound, runs again: the encoder's
      stop and then its start were each called once, in that order. */
  lemma StopThenStart<E, P>(s: State<E, P>, encode: (Encoder, E) -> seq<Byte>)
    requires s.encoder.Some? && s.converter.Some?
    ensures Run(s, [Stop, Start], encode).started
    ensures Run(s, [Stop, Start], encode).encoderLog
         == s.encoderLog + [StopEncoder(s.encoder.value), StartEncoder(s.encoder.value)]
  {
    var s1 := StopStep(s);
    var ops: seq<Op<E, P>> := [Stop, Start];
    assert ops[0] == Stop && ops[1..] == [Start];
    RunFirst(s, ops, encode);
    assert Step(s, Stop, encode) == s1;
    RunFirst(s1, [Start], encode);
    assert Run(s, ops, encode) == StartStep(s1);
  }

  // ---- the buffer slot ----

  /** encoderInit has three outcomes: an empty slot adopts the new buffer
      silently; an occupied slot whose buffer closes adopts it silently; an
      occupied slot whose close throws keeps the old buffer, clears `started`
      and reports one error. */
  lemma InitOutcomes<E, P>(s: State<E, P>, incoming: Slot, close: Status)
    ensures s.slot.None? ==> InitStep(s, incoming, close) == (s.(slot := Some(incoming)), true)
    ensures s.slot.Some? && close == Done ==> InitStep(s, incoming, close) == (s.(slot := Some(incoming)), true)
    ensures s.slot.Some? && close == Threw ==>
      var r := InitStep(s, incoming, close).0;
      r.slot == s.slot && !r.started && r.diagnostics == s.diagnostics + [Error(InitFailed)]
  {
  }

  /** One encode cycle with both buffer closes succeeding: the buffer append
      reads holds exactly the encoder's bytes for the event when the write
      succeeds, and nothing when it throws; in the latter case `started` is
      cleared and one error is reported. The final close runs either way. */
  lemma EncodeCycleWrites<E, P>(s: State<E, P>, e: E, f: Faults, encode: (Encoder, E) -> seq<Byte>)
    requires s.encoder.Some?
    requires f.swapClose == Done && f.finalClose == Done
    ensures var r := EncodeCycle(s, EmptySlot, e, f, encode);
      r.0.slot.Some? && r.0.slot.value.closed && r.1 == r.0.slot.value.bytes
    ensures var r := EncodeCycle(s, EmptySlot, e, f, encode);
      f.write == Done ==> r.1 == encode(s.encoder.value, e) && r.0.started == s.started
                          && r.0.diagnostics == s.diagnostics
    ensures var r := EncodeCycle(s, EmptySlot, e, f, encode);
      f.write == Threw ==> r.1 == [] && !r.0.started && r.0.diagnostics == s.diagnostics + [Error(EncodeFailed)]
  {
  }

  /** A failed final close clears `started` and reports it, whatever the write did. */
  lemma FinalCloseFailure<E, P>(s: State<E, P>, e: E, f: Faults, encode: (Encoder, E) -> seq<Byte>)
    requires f.finalClose == Threw
    ensures var r := EncodeCycle(s, EmptySlot, e, f, encode);
      !r.0.started && r.0.diagnostics[|r.0.diagnostics| - 1] == Error(CloseFailed)
  {
  }

  /** When closing the previous buffer throws, the event's bytes go into that
      previous buffer, which stays in the slot, while append converts the bytes
      of the new buffer it created: none. `handle` still runs, with the
      converter's payload for the empty byte sequence. */
  lemma SwapFailureConvertsEmptyBuffer<E, P>(s: State<E, P>, e: E, f: Faults, encode: (Encoder, E) -> seq<Byte>)
    requires s.encoder.Some? && s.converter.Some? && s.slot.Some?
    requires f.swapClose == Threw && f.write == Done && f.handle == Done
    ensures var r := AppendStep(s, e, f, encode).0;
      && r.slot.Some?
      && r.slot.value.bytes == s.slot.value.bytes + encode(s.encoder.value, e)
      && !r.started
      && Error(InitFailed) in r.diagnostics
      && r.handled == s.handled + (match s.converter.value([]) case None => [] case Some(p) => [(e, p)])
  {
  }

  // ---- delivery ----

  /** A None payload never reaches `handle` and is not an error. */
  lemma NullPayloadSuppressed<E, P>(s: State<E, P>, e: E, outcome: Status)
    ensures HandleStep(s, e, None, outcome) == s
  {
  }

  /** One append where no buffer operation fails: the slot ends up holding the
      closed buffer with exactly the event's encoded bytes, and what follows is
      doHandle on the converter's payload for those bytes. Nothing escapes. */
  lemma AppendWithoutIoFailure<E, P>(s: State<E, P>, e: E, f: Faults, encode: (Encoder, E) -> seq<Byte>)
    requires s.encoder.Some? && s.converter.Some?
    requires f.swapClose == Done && f.write == Done && f.finalClose == Done
    ensures var bytes := encode(s.encoder.value, e);
      AppendStep(s, e, f, encode)
        == (HandleStep(s.(slot := Some(Slot(bytes, true))), e, s.converter.value(bytes), f.handle), None)
  {
    var bytes := encode(s.encoder.value, e);
    var (s1, adopted) := InitStep(s, EmptySlot, f.swapClose);
    assert adopted && s1 == s.(slot := Some(EmptySlot));
    assert [] + bytes == bytes;
    var (s2, escaped) := EncodeStep(s1, e, f.write, encode);
    assert s2 == s.(slot := Some(Slot(bytes, false))) && escaped.None?;
  }

  /** A write that throws does not end the append: `started` clears and the
      failure is reported, the buffer is still closed, and the bytes it holds,
      none, are converted and handed to doHandle. */
  lemma WriteFailureStillHandles<E, P>(s: State<E, P>, e: E, f: Faults, encode: (Encoder, E) -> seq<Byte>)
    requires s.encoder.Some? && s.converter.Some?
    requires f.swapClose == Done && f.write == Threw && f.finalClose == Done
    ensures AppendStep(s, e, f, encode)
         == (HandleStep(Fail(s.(slot := Some(Slot([], true))), EncodeFailed), e, s.converter.value([]), f.handle), None)
  {
  }

  /** An exception from `handle` clears `started` and is reported, append
      returns normally, and the next append still returns normally. */
  lemma HandleFailureContained<E, P>(s: State<E, P>, e: E, next: E, f: Faults, g: Faults, encode: (Encoder, E) -> seq<Byte>)
    requires s.encoder.Some? && s.converter.Some?
    requires f == NoFaults.(handle := Threw)
    requires s.converter.value(encode(s.encoder.value, e)).Some?
    ensures var r := AppendStep(s, e, f, encode);
      && r.1.None?
      && !r.0.started
      && r.0.diagnostics == s.diagnostics + [Error(HandleFailed)]
      && AppendStep(r.0, next, g, encode).1.None?
  {
    AppendWithoutIoFailure(s, e, f, encode);
  }

  /** The operations that append each event in turn, with no collaborator failing. */
  function Appends<E, P>(events: seq<E>): (ops: seq<Op<E, P>>)
    ensures |ops| == |events|
  {
    if events == [] then [] else [Append(events[0], NoFaults)] + Appends(events[1..])
  }

  /** What `handle` receives for one event encoded on its own: the event and its
      payload, or nothing when the converter suppresses it. */
  function Delivery<E, P>(enc: Encoder, c: Converter<P>, encode: (Encoder, E) -> seq<Byte>, e: E)
    : seq<(E, P)>
  {
    match c(encode(enc, e))
    case None => []
    case Some(p) => [(e, p)]
  }

  /** An independent account of delivery: the deliveries of the events taken
      one at a time, concatenated in order. */
  function Deliveries<E, P>(enc: Encoder, c: Converter<P>, encode: (Encoder, E) -> seq<Byte>, events: seq<E>)
    : (d: seq<(E, P)>)
    ensures |d| <= |events|
  {
    if events == [] then []
    else Delivery(enc, c, encode, events[0]) + Deliveries(enc, c, encode, events[1..])
  }

  /** One append with nothing failing delivers that event and changes neither
      `started`, the status sink, nor the bound collaborators. */
  lemma AppendOne<E, P>(s: State<E, P>, e: E, encode: (Encoder, E) -> seq<Byte>)
    requires s.encoder.Some? && s.converter.Some?
    ensures var r := Step(s, Append(e, NoFaults), encode);
      && r.handled == s.handled + Delivery(s.encoder.value, s.converter.value, encode, e)
      && r.started == s.started && r.diagnostics == s.diagnostics
      && r.encoder == s.encoder && r.converter == s.converter
  {
    AppendWithoutIoFailure(s, e, NoFaults, encode);
  }

  /** Appending a non-empty list of events is one fault-free append of the first
      event, which delivers that event alone and keeps the bindings and
      `started`, followed by the appends of the rest. */
  lemma AppendsFirst<E, P>(s: State<E, P>, events: seq<E>, encode: (Encoder, E) -> seq<Byte>)
    requires s.encoder.Some? && s.converter.Some? && events != []
    ensures var s1 := Step(s, Append(events[0], NoFaults), encode);
      && Run(s, Appends(events), encode) == Run(s1, Appends(events[1..]), encode)
      && s1.handled == s.handled + Delivery(s.encoder.value, s.converter.value, encode, events[0])
      && s1.started == s.started && s1.diagnostics == s.diagnostics
      && s1.encoder == s.encoder && s1.converter == s.converter
  {
    var ops := Appends<E, P>(events);
    assert ops[0] == Append(events[0], NoFaults) && ops[1..] == Appends(events[1..]);
    RunFirst(s, ops, encode);
    AppendOne(s, events[0], encode);
  }

  /** Appending events one after another, with nothing failing, changes neither
      `started`, the status sink, nor the bound collaborators. */
  lemma {:induction false} AppendsKeepRunning<E, P>(s: State<E, P>, events: seq<E>, encode: (Encoder, E) -> seq<Byte>)
    requires s.encoder.Some? && s.converter.Some?
    ensures var r := Run(s, Appends(events), encode);
      && r.started == s.started && r.diagnostics == s.diagnostics
      && r.encoder == s.encoder && r.converter == s.converter
    decreases |events|
  {
    if events != [] {
      AppendsFirst(s, events, encode);
      AppendsKeepRunning(Step(s, Append(events[0], NoFaults), encode), events[1..], encode);
    }
  }

  /** Appending events one after another, with nothing failing, hands `handle`
      exactly the deliveries above, in order: each call's payload comes from its
      own event's bytes and no other's. */
  lemma {:induction false} AppendsDeliver<E, P>(s: State<E, P>, events: seq<E>, encode: (Encoder, E) -> seq<Byte>)
    requires s.encoder.Some? && s.converter.Some?
    ensures Run(s, Appends(events), encode).handled
         == s.handled + Deliveries(s.encoder.value, s.converter.value, encode, events)
    decreases |events|
  {
    if events != [] {
      AppendsFirst(s, events, encode);
      var s1 := Step(s, Append(events[0], NoFaults), encode);
      AppendsDeliver(s1, events[1..], encode);
      var head := Delivery(s.encoder.value, s.converter.value, encode, events[0]);
      var rest := Deliveries(s.encoder.value, s.converter.value, encode, events[1..]);
      calc {
        Run(s, Appends(events), encode).handled;
        Run(s1, Appends(events[1..]), encode).handled;
        s1.handled + rest;
        (s.handled + head) + rest;
        s.handled + (head + rest);
        s.handled + Deliveries(s.encoder.value, s.converter.value, encode, events);
      }
    }
  }

  /** A converter that never returns None delivers every event, in order. */
  lemma {:induction false} TotalConverterDeliversAll<E, P>(enc: Encoder, c: Converter<P>, encode: (Encoder, E) -> seq<Byte>, events: seq<E>)
    requires forall b :: c(b).Some?
    ensures var d := Deliveries(enc, c, encode, events);
      |d| == |events| && forall i :: 0 <= i < |events| ==> d[i] == (events[i], c(encode(enc, events[i])).value)
    decreases |events|
  {
    if events != [] {
      TotalConverterDeliversAll(enc, c, encode, events[1..]);
    }
  }

  /** A converter that always returns None delivers nothing. */
  lemma {:induction false} SuppressingConverterDeliversNothing<E, P>(enc: Encoder, c: Converter<P>, encode: (Encoder, E) -> seq<Byte>, events: seq<E>)
    requires forall b :: c(b).None?
    ensures Deliveries(enc, c, encode, events) == []
    decreases |events|
  {
    if events != [] {
      SuppressingConverterDeliversNothing(enc, c, encode, events[1..]);
    }
  }

  // ---- the lifecycle over whole runs ----

  /** Running means the last lifecycle call made on an encoder was a start. */
  predicate EncoderStartedWhileRunning<E, P>(s: State<E, P>)
  {
    s.started ==> |s.encoderLog| > 0 && s.encoderLog[|s.encoderLog| - 1].StartEncoder?
  }

  /** Every operation keeps that invariant: only start sets `started`, and it
      starts the encoder first; stop clears `started` before stopping it. */
  lemma StepKeepsEncoderStarted<E, P>(s: State<E, P>, op: Op<E, P>, encode: (Encoder, E) -> seq<Byte>)
    requires EncoderStartedWhileRunning(s)
    ensures EncoderStartedWhileRunning(Step(s, op, encode))
  {
    match op
    case Append(e, f) =>
      var r := AppendStep(s, e, f, encode);
      assert r.0.started ==> s.started;
    case _ =>
  }

  lemma {:induction false} RunKeepsEncoderStarted<E, P>(s: State<E, P>, ops: seq<Op<E, P>>, encode: (Encoder, E) -> seq<Byte>)
    requires EncoderStartedWhileRunning(s)
    ensures EncoderStartedWhileRunning(Run(s, ops, encode))
    decreases |ops|
  {
    if ops != [] {
      StepKeepsEncoderStarted(s, ops[0], encode);
      RunKeepsEncoderStarted(Step(s, ops[0], encode), ops[1..], encode);
    }
  }

  /** Every state reachable from a new appender satisfies the invariant. */
  lemma ReachableEncoderStarted<E, P>(ops: seq<Op<E, P>>, encode: (Encoder, E) -> seq<Byte>)
    ensures EncoderStartedWhileRunning(Run(Initial(), ops, encode))
  {
    RunKeepsEncoderStarted(Initial(), ops, encode);
  }

  /** No operation other than start sets `started`: once stopped or failed,
      an appender stays so until start is called. */
  lemma {:induction false} NoRecoveryWithoutStart<E, P>(s: State<E, P>, ops: seq<Op<E, P>>, encode: (Encoder, E) -> seq<Byte>)
    requires !s.started
    requires forall i :: 0 <= i < |ops| ==> !ops[i].Start?
    ensures !Run(s, ops, encode).started
    decreases |ops|
  {
    if ops != [] {
      var s1 := Step(s, ops[0], encode);
      if ops[0].Append? {
        assert AppendStep(s, ops[0].event, ops[0].faults, encode).0.started ==> s.started;
      }
      NoRecoveryWithoutStart(s1, ops[1..], encode);
    }
  }

  /** setEncoder leaves a charset-aware encoder carrying the appender's charset,
      and binds any other encoder as given. */
  lemma SetEncoderCarriesCharset<E, P>(s: State<E, P>, enc: Encoder)
    ensures CharsetAware(enc) ==> SetEncoderStep(s, Some(enc)).encoder == Some(enc.(charset := Some(s.charset)))
    ensures !CharsetAware(enc) ==> SetEncoderStep(s, Some(enc)).encoder == Some(enc)
  {
  }

  /** Running does not mean the bound encoder was started: setEncoder while
      running binds an encoder that no start call ever reached, and the
      appender stays started. */
  lemma SetEncoderWhileRunning<E, P>(s: State<E, P>, b: Encoder, encode: (Encoder, E) -> seq<Byte>)
    requires s.started && s.encoder.Some? && s.encoderLog == [StartEncoder(s.encoder.value)]
    requires b.kind != s.encoder.value.kind
    ensures var r := Step(s, SetEncoder(Some(b)), encode);
      && r.started
      && r.encoder.Some? && r.encoder.value.kind == b.kind
      && EncoderStartedWhileRunning(r)
      && StartEncoder(r.encoder.value) !in r.encoderLog
  {
  }

  /** A converter that suppresses everything leaves `handle` uncalled and the
      appender running: a None payload is not an error. */
  lemma SuppressingConverterKeepsRunning<E, P>(s: State<E, P>, events: seq<E>, encode: (Encoder, E) -> seq<Byte>)
    requires s.encoder.Some? && s.converter.Some?
    requires forall b :: s.converter.value(b).None?
    ensures Run(s, Appends(events), encode).handled == s.handled
    ensures Run(s, Appends(events), encode).started == s.started
  {
    AppendsDeliver(s, events, encode);
    AppendsKeepRunning(s, events, encode);
    SuppressingConverterDeliversNothing(s.encoder.value, s.converter.value, encode, events);
  }

  /** Running two sequences of operations one after the other is running their concatenation. */
  lemma {:induction false} RunConcat<E, P>(s: State<E, P>, a: seq<Op<E, P>>, b: seq<Op<E, P>>, encode: (Encoder, E) -> seq<Byte>)
    ensures Run(s, a + b, encode) == Run(Run(s, a, encode), b, encode)
    decreases |a|
  {
    if a == [] {
      assert a + b == b;
    } else {
      assert (a + b)[0] == a[0];
      assert (a + b)[1..] == a[1..] + b;
      RunConcat(Step(s, a[0], encode), a[1..], b, encode);
    }
  }

  // ---- a worked scenario ----

  /** An encoder that writes the ASCII upper case of the event's characters. */
  function AsciiUpper(e: string): (r: seq<Byte>)
    ensures |r| == |e|
  {
    if e == [] then []
    else
      var ch := e[0] as int;
      [(if 'a' as int <= ch <= 'z' as int then ch - 32 else ch % 256) as Byte] + AsciiUpper(e[1..])
  }

  /** Configure an upper-casing encoder and an identity converter, start, and
      append "a" then "b": `handle` receives ("a", "A") and then ("b", "B"),
      and the appender is still running. */
  lemma UppercaseScenario()
    ensures
      var enc := Encoder(OtherEncoding("uppercase"), None);
      var id: Converter<seq<Byte>> := b => Some(b);
      var setup: seq<Op<string, seq<Byte>>> := [SetEncoder(Some(enc)), SetConverter(Some(id)), Start];
      var r := Run(Initial(), setup + Appends(["a", "b"]), (_, e) => AsciiUpper(e));
      r.handled == [("a", [65]), ("b", [66])] && r.started
  {
    var enc := Encoder(OtherEncoding("uppercase"), None);
    var id: Converter<seq<Byte>> := b => Some(b);
    var upper: (Encoder, string) -> seq<Byte> := (_, e) => AsciiUpper(e);
    var setup: seq<Op<string, seq<Byte>>> := [SetEncoder(Some(enc)), SetConverter(Some(id)), Start];
    var s0 := Initial<string, seq<Byte>>();
    var s1 := Step(s0, setup[0], upper);
    var s2 := Step(s1, setup[1], upper);
    var s3 := Step(s2, setup[2], upper);
    assert setup[1..][0] == setup[1] && setup[1..][1..] == [Start];
    assert Run(s2, [Start], upper) == Run(s3, [], upper) == s3;
    assert Run(s1, setup[1..], upper) == Run(s2, [Start], upper);
    assert Run(s0, setup, upper) == s3;
    assert s3.started && s3.handled == [] && s3.encoder.Some? && s3.converter == Some(id);
    RunConcat(s0, setup, Appends(["a", "b"]), upper);
    AppendsDeliver(s3, ["a", "b"], upper);
    AppendsKeepRunning(s3, ["a", "b"], upper);
    var events := ["a", "b"];
    assert events[1..] == ["b"] && events[1..][1..] == [];
    assert AsciiUpper("a") == [65] && AsciiUpper("b") == [66];
    assert Deliveries(s3.encoder.value, id, upper, events) == [("a", [65]), ("b", [66])];
  }
}
