# EncodingStringAppender, modelled in Dafny

`EncodingStringAppender` is the abstract logback appender at the centre of
logback-ext. It turns a log event into a delivery-ready payload in three steps:

1. The bound `Encoder` writes the event's bytes into a buffer, a
   `ByteArrayOutputStream` that the appender keeps in its `stream` slot.
2. The bound `PayloadConverter` turns those bytes into a payload `P`. It may
   return `null`, which means "do not deliver".
3. The subclass's `handle(event, payload)` delivers the payload.

Around these steps the class keeps a small lifecycle. `start` refuses to run
unless both an encoder and a converter are bound. `stop` always clears the
inherited `started` flag. Apart from a missing encoder or converter, no
failure reaches the caller: a failing buffer write or close, or an exception
from `handle`, is caught, reported to the status sink with `addError`, and
clears `started`.

The project has five modules:

- `Types` (types.dfy): bytes, charsets, the encoder variants, diagnostics, and
  `Propagate`, the charset propagation that `setCharset` performs.
- `Streams` (streams.dfy): the class `Buffer`, the output stream. Its `write`
  and `close` may throw.
- `Semantics` (semantics.dfy): the appender as a state machine on values. It has
  one step function per operation, and `Run` applies a sequence of operations.
- `Appender` (appender.dfy): the class `EncodingStringAppender`. It has the Java
  class's fields and one method per Java method, except `convert`, a read of
  the bound converter, which `Append` takes from `Semantics.ConvertStep`. Each
  method is proved to move the object from `old(View())` to the state the
  matching step function gives.
- `Properties` (properties.dfy): the lemmas about the step functions and about
  runs of operations.

Calls into code outside this class become parameters:

- `encode: (Encoder, E) -> seq<Byte>` stands for `Encoder.encode`.
- A `Status` value (`Done` or `Threw`) says how each call that may throw ends.
  This covers the buffer's write and close and the subclass's `handle`. One
  append receives these outcomes as a `Faults` record.
- The converter is a function `seq<Byte> -> Option<P>`, where `None` is Java's
  `null`.
- The status sink becomes the field `diagnostics`, which records the kind of
  each report.
- The encoders' `start` and `stop` calls go to `encoderLog`.
- The pairs passed to `handle` go to `handled`.

Behaviour of the code worth knowing:

- When closing the previous buffer throws, `encoderInit` keeps the old buffer
  in the slot. `doEncode` then writes the event into that old buffer. `append`,
  however, converts the new buffer it created, which is still empty, and calls
  `handle` with that payload (`SwapFailureConvertsEmptyBuffer`).
- A failed write does not end the `append` call. The empty buffer is still
  converted and, if the payload is not `null`, handed to `handle`
  (`WriteFailureStillHandles`).
- There is no failed state distinct from stopped: after a failure, as after
  `stop`, the only trace in the lifecycle is `started == false`.
- `setEncoder` may be called while the appender runs. The new encoder is bound
  without being started, and the appender stays started
  (`SetEncoderWhileRunning`). So "running" means only that the last lifecycle
  call made on an encoder was a start (`RunKeepsEncoderStarted`), not that the
  bound encoder was started.
- `start` does not check whether the encoder started successfully.
- `append` returns normally only while an encoder and a converter are bound.
  Otherwise a `NullPointerException` escapes, shown as `Uncaught`.

## Model

| member | source | states |
|---|---|---|
| Types.Propagate | logback-ext-core/src/main/java/org/eluder/logback/ext/core/EncodingStringAppender.java:54-59 | a LayoutWrappingEncoder or CharacterEncoder is told the charset and keeps its kind; any other encoder, or none, is left unchanged |
| Streams.Buffer.constructor | logback-ext-core/src/main/java/org/eluder/logback/ext/core/EncodingStringAppender.java:140 | a new stream is empty and open |
| Streams.Buffer.Write | logback-ext-core/src/main/java/org/eluder/logback/ext/core/EncodingStringAppender.java:178 | a write that returns appends exactly the given bytes; one that throws leaves the contents unchanged |
| Streams.Buffer.Close | logback-ext-core/src/main/java/org/eluder/logback/ext/core/EncodingStringAppender.java:190 | a close that returns marks the stream closed; the contents are unchanged either way |
| Semantics.Initial | logback-ext-core/src/main/java/org/eluder/logback/ext/core/EncodingStringAppender.java:48-52 | a new appender is not started, has no encoder, converter or buffer, uses UTF-8 and is not in binary mode |
| Semantics.Fail | logback-ext-core/src/main/java/org/eluder/logback/ext/core/EncodingStringAppender.java:170-172 | the catch blocks' policy: `started` becomes false, exactly one error is appended, nothing else changes |
| Semantics.SetCharsetStep | logback-ext-core/src/main/java/org/eluder/logback/ext/core/EncodingStringAppender.java:54-61 | the charset is always stored; the encoder changes only as Propagate says; nothing else changes |
| Semantics.SetBinaryStep | logback-ext-core/src/main/java/org/eluder/logback/ext/core/EncodingStringAppender.java:63-68 | the flag is stored; one info is reported exactly when binary mode is switched on |
| Semantics.SetEncoderStep | logback-ext-core/src/main/java/org/eluder/logback/ext/core/EncodingStringAppender.java:70-74 | the new encoder is bound carrying the appender's current charset when it is charset-aware; nothing else changes |
| Semantics.SetConverterStep | logback-ext-core/src/main/java/org/eluder/logback/ext/core/EncodingStringAppender.java:82-84 | the converter is bound as given; nothing else changes |
| Semantics.StartStep | logback-ext-core/src/main/java/org/eluder/logback/ext/core/EncodingStringAppender.java:106-123 | `started` is set, and the encoder started once, exactly when both an encoder and a converter are bound; otherwise one report, "encoder not set" checked first, then "converter not set"; nothing else changes |
| Semantics.StopStep | logback-ext-core/src/main/java/org/eluder/logback/ext/core/EncodingStringAppender.java:125-136 | `started` is false afterwards; the encoder's stop is called exactly when one is bound; nothing else changes |
| Semantics.SetLayoutStep | logback-ext-core/src/main/java/org/eluder/logback/ext/core/EncodingStringAppender.java:76-80 | the bound encoder becomes a LayoutWrappingEncoder around the layout, using the appender's charset |
| Semantics.InitStep | logback-ext-core/src/main/java/org/eluder/logback/ext/core/EncodingStringAppender.java:185-197 | the new buffer is adopted exactly when the slot is empty or the old buffer's close returns; otherwise Fail(InitFailed) and the old buffer stays |
| Semantics.EncodeStep | logback-ext-core/src/main/java/org/eluder/logback/ext/core/EncodingStringAppender.java:176-183 | nothing escapes exactly when an encoder and a buffer are present; a successful write appends the encoder's bytes; a failed one is Fail(EncodeFailed) and writes nothing |
| Semantics.CloseStep | logback-ext-core/src/main/java/org/eluder/logback/ext/core/EncodingStringAppender.java:199-206 | a successful close marks the slot buffer closed; a throwing close, or a missing buffer, is Fail(CloseFailed) |
| Semantics.EncodeCycle | logback-ext-core/src/main/java/org/eluder/logback/ext/core/EncodingStringAppender.java:145-157 | nothing escapes exactly when an encoder is bound; the cycle never sets `started`, never calls `handle` and never rebinds collaborators |
| Semantics.ConvertStep | logback-ext-core/src/main/java/org/eluder/logback/ext/core/EncodingStringAppender.java:161-163 | the bound converter's result for the bytes; None (a NullPointerException) exactly when no converter is bound |
| Semantics.HandleStep | logback-ext-core/src/main/java/org/eluder/logback/ext/core/EncodingStringAppender.java:165-174 | `handle` is called once exactly for a non-null payload; `started` clears and one error is added exactly when it throws; nothing else changes |
| Semantics.AppendStep | logback-ext-core/src/main/java/org/eluder/logback/ext/core/EncodingStringAppender.java:138-143 | append never calls an encoder's start or stop; the status sink and the handled pairs only grow |
| Semantics.Step | logback-ext-core/src/main/java/org/eluder/logback/ext/core/EncodingStringAppender.java:54-143 | every public operation only appends to the status sink, the encoder call log and the handled pairs |
| Semantics.Run | logback-ext-core/src/main/java/org/eluder/logback/ext/core/EncodingStringAppender.java:54-143 | the same holds for any sequence of operations |
| Appender.EncodingStringAppender.constructor | logback-ext-core/src/main/java/org/eluder/logback/ext/core/EncodingStringAppender.java:46-52 | the new object's state is Semantics.Initial |
| Appender.EncodingStringAppender.SetCharset | logback-ext-core/src/main/java/org/eluder/logback/ext/core/EncodingStringAppender.java:54-61 | stores the charset and propagates it as Propagate says; new state is SetCharsetStep of the old |
| Appender.EncodingStringAppender.SetBinary | logback-ext-core/src/main/java/org/eluder/logback/ext/core/EncodingStringAppender.java:63-68 | new state is SetBinaryStep of the old |
| Appender.EncodingStringAppender.SetEncoder | logback-ext-core/src/main/java/org/eluder/logback/ext/core/EncodingStringAppender.java:70-74 | binds the encoder with the current charset propagated; new state is SetEncoderStep of the old |
| Appender.EncodingStringAppender.SetLayout | logback-ext-core/src/main/java/org/eluder/logback/ext/core/EncodingStringAppender.java:76-80 | binds a LayoutWrappingEncoder around the layout carrying the charset; new state is SetLayoutStep of the old |
| Appender.EncodingStringAppender.SetConverter | logback-ext-core/src/main/java/org/eluder/logback/ext/core/EncodingStringAppender.java:82-84 | binds the converter and changes nothing else |
| Appender.EncodingStringAppender.Start | logback-ext-core/src/main/java/org/eluder/logback/ext/core/EncodingStringAppender.java:106-123 | without an encoder neither `started` nor the encoder log changes; with both bound the encoder is started once and `started` is set; new state is StartStep of the old |
| Appender.EncodingStringAppender.Stop | logback-ext-core/src/main/java/org/eluder/logback/ext/core/EncodingStringAppender.java:125-136 | `started` is false afterwards; new state is StopStep of the old |
| Appender.EncodingStringAppender.ReportFailure | logback-ext-core/src/main/java/org/eluder/logback/ext/core/EncodingStringAppender.java:170-172 | new state is Fail of the old; the buffer slot is untouched |
| Appender.EncodingStringAppender.EncoderInit | logback-ext-core/src/main/java/org/eluder/logback/ext/core/EncodingStringAppender.java:185-197 | the slot holds the new buffer exactly when it was empty or the old one closed; an old buffer that is replaced was closed first; new state is InitStep of the old |
| Appender.EncodingStringAppender.DoEncode | logback-ext-core/src/main/java/org/eluder/logback/ext/core/EncodingStringAppender.java:176-183 | writes into the slot buffer, keeping the slot; new state and escape are EncodeStep of the old |
| Appender.EncodingStringAppender.EncoderClose | logback-ext-core/src/main/java/org/eluder/logback/ext/core/EncodingStringAppender.java:199-206 | closes the slot buffer, keeping the slot; new state is CloseStep of the old |
| Appender.EncodingStringAppender.Encode | logback-ext-core/src/main/java/org/eluder/logback/ext/core/EncodingStringAppender.java:145-157 | init, write, then close whatever the write did; new state, the bytes left in the caller's stream, and the escape are EncodeCycle of the old |
| Appender.EncodingStringAppender.DoHandle | logback-ext-core/src/main/java/org/eluder/logback/ext/core/EncodingStringAppender.java:165-174 | new state is HandleStep of the old |
| Appender.EncodingStringAppender.Append | logback-ext-core/src/main/java/org/eluder/logback/ext/core/EncodingStringAppender.java:138-143 | nothing escapes exactly when an encoder and a converter are bound; new state and escape are AppendStep of the old |
| Properties.StartWithoutEncoder | logback-ext-core/src/main/java/org/eluder/logback/ext/core/EncodingStringAppender.java:107-111 | without an encoder, start only reports "encoder not set", even if the converter is missing too; `started` and the encoder are untouched |
| Properties.StartWithoutConverter | logback-ext-core/src/main/java/org/eluder/logback/ext/core/EncodingStringAppender.java:112-115 | with an encoder but no converter, start only reports "converter not set" |
| Properties.StartWithBoth | logback-ext-core/src/main/java/org/eluder/logback/ext/core/EncodingStringAppender.java:116-122 | with both bound, start calls the encoder's start exactly once, sets `started` and changes nothing else |
| Properties.StopClearsStarted | logback-ext-core/src/main/java/org/eluder/logback/ext/core/EncodingStringAppender.java:126-136 | stop leaves `started` false, twice as once; it calls the encoder's stop exactly when one is bound and changes nothing else |
| Properties.StopThenStart | logback-ext-core/src/main/java/org/eluder/logback/ext/core/EncodingStringAppender.java:106-136 | stop then start with both bound runs again, the encoder's stop and start each called once, in that order |
| Properties.InitOutcomes | logback-ext-core/src/main/java/org/eluder/logback/ext/core/EncodingStringAppender.java:185-197 | the three outcomes of encoderInit: silent adoption into an empty slot, silent swap after a good close, and keep-old with one error after a failed close |
| Properties.EncodeCycleWrites | logback-ext-core/src/main/java/org/eluder/logback/ext/core/EncodingStringAppender.java:145-157 | with good closes the buffer read back is closed and holds exactly encode(event), or nothing plus one error and `started` cleared when the write throws |
| Properties.FinalCloseFailure | logback-ext-core/src/main/java/org/eluder/logback/ext/core/EncodingStringAppender.java:199-206 | a failing final close clears `started` and reports a close error, whatever the write did |
| Properties.SwapFailureConvertsEmptyBuffer | logback-ext-core/src/main/java/org/eluder/logback/ext/core/EncodingStringAppender.java:185-197 | after a failed swap close the event's bytes land in the old buffer, and `handle` gets the converter's payload for no bytes |
| Properties.NullPayloadSuppressed | logback-ext-core/src/main/java/org/eluder/logback/ext/core/EncodingStringAppender.java:165-169 | a null payload calls no handler, reports nothing and leaves `started` as it was |
| Properties.AppendWithoutIoFailure | logback-ext-core/src/main/java/org/eluder/logback/ext/core/EncodingStringAppender.java:138-157 | with no buffer failure, append leaves a closed buffer holding exactly encode(event) and hands convert(encode(event)) to doHandle; nothing escapes |
| Properties.WriteFailureStillHandles | logback-ext-core/src/main/java/org/eluder/logback/ext/core/EncodingStringAppender.java:138-157 | a throwing write clears `started` and reports one error, the buffer is still closed, and doHandle gets the converter's payload for no bytes; nothing escapes |
| Properties.HandleFailureContained | logback-ext-core/src/main/java/org/eluder/logback/ext/core/EncodingStringAppender.java:165-174 | an exception from `handle` clears `started` and adds one error, append returns normally, and so does the next append |
| Properties.AppendOne | logback-ext-core/src/main/java/org/eluder/logback/ext/core/EncodingStringAppender.java:138-143 | one fault-free append delivers that event's payload, if any, and changes neither `started`, the sink nor the bindings |
| Properties.AppendsFirst | logback-ext-core/src/main/java/org/eluder/logback/ext/core/EncodingStringAppender.java:138-143 | fault-free appends of a list are the append of its first event, which delivers that event alone and keeps `started` and the bindings, then the appends of the rest |
| Properties.AppendsKeepRunning | logback-ext-core/src/main/java/org/eluder/logback/ext/core/EncodingStringAppender.java:138-157 | successive fault-free appends change neither `started`, the status sink nor the bindings |
| Properties.AppendsDeliver | logback-ext-core/src/main/java/org/eluder/logback/ext/core/EncodingStringAppender.java:138-143 | successive fault-free appends hand `handle` exactly each event with the conversion of its own bytes, in order |
| Properties.TotalConverterDeliversAll | logback-ext-core/src/main/java/org/eluder/logback/ext/core/EncodingStringAppender.java:161-169 | a converter that never returns null delivers every event, in order, with convert(encode(event)) |
| Properties.SuppressingConverterDeliversNothing | logback-ext-core/src/main/java/org/eluder/logback/ext/core/EncodingStringAppender.java:165-169 | a converter that always returns null delivers nothing |
| Properties.SuppressingConverterKeepsRunning | logback-ext-core/src/main/java/org/eluder/logback/ext/core/EncodingStringAppender.java:165-169 | with such a converter, appends leave `handle` uncalled and `started` unchanged |
| Properties.StepKeepsEncoderStarted | logback-ext-core/src/main/java/org/eluder/logback/ext/core/EncodingStringAppender.java:116-136 | every operation keeps "started implies the last encoder lifecycle call was a start" |
| Properties.RunKeepsEncoderStarted | logback-ext-core/src/main/java/org/eluder/logback/ext/core/EncodingStringAppender.java:116-136 | so does every sequence of operations |
| Properties.ReachableEncoderStarted | logback-ext-core/src/main/java/org/eluder/logback/ext/core/EncodingStringAppender.java:46-136 | every state reachable from a new appender satisfies it |
| Properties.NoRecoveryWithoutStart | logback-ext-core/src/main/java/org/eluder/logback/ext/core/EncodingStringAppender.java:165-206 | once `started` is false, no sequence of operations without start sets it again |
| Properties.SetEncoderCarriesCharset | logback-ext-core/src/main/java/org/eluder/logback/ext/core/EncodingStringAppender.java:70-74 | setEncoder binds a charset-aware encoder carrying the appender's charset and any other encoder unchanged |
| Properties.SetEncoderWhileRunning | logback-ext-core/src/main/java/org/eluder/logback/ext/core/EncodingStringAppender.java:70-74 | setEncoder while running keeps `started` and binds an encoder that no start call reached, while the run invariant still holds |
| Properties.UppercaseScenario | logback-ext-core/src/main/java/org/eluder/logback/ext/core/EncodingStringAppender.java:106-143 | upper-casing encoder, identity converter, start, append "a" and "b": `handle` gets ("a","A") then ("b","B") and the appender keeps running |

## Left out

- The `ReentrantLock` (line 46) and its lock/unlock pairs: each locked region is one method body. Concurrent producers, fairness and reentrancy are not modelled.
- `setContext` (lines 86-92) and the context handed to the encoder in `setEncoder`: this is a forwarding call into logback.
- The getters `getCharset`, `isBinary` and `getEncoder` (lines 94-104): they return a field, which the model reads directly.
- The message texts, the appender name and the exception attached to each report: `diagnostics` records only the kind of each report.
- `Charset.forName`: a charset is its name. The Base64 conversion behind binary mode lives in subclasses, so `setBinary` only stores the flag and reports.
- logback's `doAppend`, which calls `append` only while `started` holds. It is not part of this model, so `Append` models `append` itself, callable in any state.
- Runtime exceptions thrown from inside `Encoder.encode`, `PayloadConverter.convert` or `handle`, other than the `Exception` that `doHandle` catches. Also `Error`s. Only the null references of the class's own fields are modelled as escaping.
- Exceptions that escape from encoder calls: `encoder.start()` throwing (line 118), which skips `super.start()` so `started` stays false and the exception reaches the caller; `encoder.stop()` throwing (line 131); and the encoder's `setCharset` throwing (lines 56 and 58). The model takes each of these calls to return normally.
- A non-IOException from closing the previous buffer in `encoderInit` (line 189): the catch at line 192 takes only `IOException`, and the call happens before the try/finally of `encode`, so `encoderClose` does not run. The model's `Threw` for that close is the caught `IOException`.
- Appender.EncodingStringAppender.EncoderInit: requires the new buffer to be a different object from the one in the slot. Its only caller, `encode`, always passes a freshly created stream.
- The encoder is held as a value, so `start`, `stop` and `setCharset` on a shared encoder object are not modelled as aliasing. `start` and `stop` calls are recorded in `encoderLog`. The propagated charset is recorded in the bound encoder value.
- Streams.Buffer.Write: a write that throws is taken to have written nothing; partial writes are not modelled.
