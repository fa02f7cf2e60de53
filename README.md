# python-midi-telemetry core, modelled in Dafny

This project models the three pieces of python-midi-telemetry that decide what
telemetry is emitted and when:

- **The note correlator** (`process_midi_message`). It keeps a registry of
  sounding notes. Each entry maps a note number to the span opened for the note
  and the note's start time. A note-on with positive velocity for an idle note
  opens a span and registers the note. A note-off, or a note-on of velocity 0,
  for a sounding note removes the entry and reports the elapsed time. Both
  anomalies are logged as warnings and otherwise ignored: an overlapping
  note-on, and a note-off for a note that is not sounding.
- **The audio sink encoder and batcher** (`encode_audio_chunks`, up to the
  video conversion). It drains the chunk queue up to the `None` sentinel. It
  writes every chunk to the WAV sink in order and base 64 encodes each one.
  Every ten chunks it sends one OTLP record and one local log line. After the
  sentinel, a partial group gets one final record and line. Every record
  carries at most fifty characters of base 64 text. The module also builds the
  sink path and the video path.
- **The dynamics bucket** (`velocity_to_dynamics`). It is a total threshold
  function from velocity to `pp`, `mf`, `f` or `ff`.

## Layout

- `wrappers.dfy`: `Option`. It models the queue's `None` sentinel and the
  decoder's failure.
- `text.dfy`: the string operations the core uses:
  - `str(int)` in f-strings;
  - `format(n, '032x')` and `format(n, '016x')`;
  - `f"{x:.3f}"` for a duration;
  - `s[:n]`;
  - `str.replace`.
- `base64.dfy`: `base64.b64encode`, following section 4 of RFC 4648. A strict
  decoder is its partner, and the encoding is proved to round-trip in both
  directions.
- `telemetry.dfy`: the `Emitter` class, which stands for the telemetry
  collaborators. `send_otlp_log` appends an OTLP record, the local logger
  appends a line, and each span operation appends a span event. The module also
  holds the span handle and context types.
- `helpers.dfy`: `velocity_to_dynamics`.
- `midi_processor.dfy`:
  - `Correlate`, a pure step function over the registry, which serves as the
    specification;
  - the `NoteCorrelator` class, which owns the registry and has one method call
    per event, proved against `Correlate`;
  - lemmas about event sequences.
- `audio.dfy`:
  - the `WavWriter` class;
  - the value-level specification: `Drained`, `Encoded`, `FullBatches` and
    `Batches`;
  - the drain loop as a method with loop invariants, proved against that
    specification;
  - lemmas about the batches and the paths.

The clock, the span identifiers the tracing SDK would assign, and the queue's
contents are all inputs:

- The clock is an integer number of milliseconds.
- The span identifiers are a `SpanContext` passed to each call.
- The queue is the sequence of values the consumer would dequeue, sentinel
  included.

Two points where the code's behaviour is easy to misread:

- **Span lifetime.** The code opens the note's span with
  `start_as_current_span` (midi_processor.py:22). That call ends the span when
  the note-on branch's `with` block exits (midi_processor.py:58), so a note-on
  requests an open and an end. The note-off's `with span:` block then sets the
  elapsed time and status OK on the stored handle and ends it once more
  (midi_processor.py:72-93). All three calls reach a span that has already
  ended. The model records every request as a span event on the handle's
  context. It does not claim the span stays open between note-on and note-off.
- **Order of the last two steps.** "Audio saved to …" is logged before the sink
  is closed, as in audio.py:90.

## Model

| member | source | states |
|---|---|---|
| Helpers.DynamicsBuckets | helpers.py:10-18 | every velocity gets one of the four labels; "pp" exactly below 40, "mf" exactly on [40, 70), "f" exactly on [70, 100), "ff" exactly from 100 |
| Helpers.DynamicsByThresholds | helpers.py:10-18 | the label is the one indexed by how many of the thresholds 40, 70, 100 the velocity reaches |
| Helpers.ReachedMonotone | helpers.py:11-17 | a louder velocity reaches at least as many thresholds |
| Helpers.DynamicsMonotone | helpers.py:10-18 | the bucket rank never decreases as velocity grows |
| Helpers.DynamicsBoundaries | helpers.py:11-18 | 39 gives pp, 40 mf, 69 mf, 70 f, 99 f, 100 ff |
| Helpers.Rank | helpers.py:12-18 | the rank of a label is its position among pp, mf, f, ff |
| Text.NatToDecimal | midi_processor.py:43 | `str(n)` is a non-empty digit string with no leading zero that denotes n |
| Text.IntToDecimal | midi_processor.py:18 | `str(i)` is non-empty and starts with '-' exactly when i is negative |
| Text.IntToDecimalValue | midi_processor.py:43 | the digits of `str(i)` after the sign denote the magnitude of i |
| Text.Take | audio.py:71 | `s[:n]` has the length of s capped at n and is a prefix of s |
| Text.LeftPad | midi_processor.py:28-29 | zero padding lengthens to the width and no further |
| Text.LeftPadShape | midi_processor.py:28-29 | padding puts only pad characters before the string and nothing after it |
| Text.FormatMillis | midi_processor.py:82 | `.3f` seconds: at least five characters, a '-' exactly for negative durations, a point four from the end; the whole seconds are given by `Text.FormatMillisWhole` and the fraction by `Text.FormatMillisFraction` |
| Text.FormatMillisWhole | midi_processor.py:82 | the digits between any sign and the point denote the whole seconds, magnitude div 1000 |
| Text.FormatMillisFraction | midi_processor.py:82 | the last three characters are the thousandths of the duration's magnitude |
| Text.Thousandths | midi_processor.py:82 | exactly three decimal digits denoting m mod 1000 |
| Text.ToHex | midi_processor.py:28-29 | `format(n, 'x')` is non-empty lower-case hex that denotes n |
| Text.FormatHex | midi_processor.py:28-29 | `format(n, '0Nx')` has at least N characters, all lower-case hex |
| Text.FormatHexRoundTrip | midi_processor.py:28-29 | the zero-padded rendering still denotes n |
| Text.FormatHexFixedWidth | midi_processor.py:28-29 | a value below 16^N renders in exactly N digits |
| Text.ToHexLength | midi_processor.py:28-29 | a value below 16^k has at most k hex digits |
| Text.ReplaceAll | audio.py:93 | `str.replace` with a same-length replacement keeps the length; a string shorter than the pattern is unchanged; for ".wav" to ".mp4" the content is given by `Audio.ReplaceLeavesNoWav`, `Audio.ReplaceWithoutWav` and `Audio.ReplaceTrailingWav` |
| Base64.Symbols | audio.py:59 | the encoding has 4 * ceil(n / 3) symbols |
| Base64.Encode | audio.py:59 | `b64encode` yields 4 * ceil(n / 3) characters |
| Base64.DecodeSymbolsOf | audio.py:59 | strict decoding of the symbols of some bytes gives back those bytes |
| Base64.SymbolsOfDecode | audio.py:59 | symbols that decode are exactly the symbols of what they decode to |
| Base64.DecodeEncode | audio.py:59 | decoding an encoding gives back the chunk's bytes |
| Base64.EncodeDecode | audio.py:59 | every string that strictly decodes is the encoding of its decoding |
| Base64.EncodeInjective | audio.py:59 | different chunks have different base 64 texts |
| Base64.EncodeAlphabet | audio.py:59 | every character of an encoding is in the RFC 4648 alphabet or is '=' |
| Base64.ReadSpell | audio.py:59 | reading back the characters of symbols gives the symbols |
| Base64.SpellRead | audio.py:59 | symbols read from a string spell that string |
| Base64.SextetCharInverse | audio.py:59 | the alphabet character of a 6-bit value denotes that value |
| Base64.CharSextetInverse | audio.py:59 | every alphabet character is the character of the value it denotes |
| Base64.DecodeSymbols | audio.py:59 | a successful strict decoding has ceil(n / 3) groups of four symbols |
| Telemetry.ContextHex | midi_processor.py:28-29 | valid trace and span ids render as exactly 32 and 16 lower-case hex digits that read back as the ids |
| Telemetry.ContextHexInjective | midi_processor.py:87-88 | rendered identifier strings determine the span context |
| Telemetry.Emitter.SendOtlpLog | helpers.py:21-47 | one record with the given ids, message and attributes at severity INFO; nothing else changes |
| Telemetry.Emitter.Log | midi_processor.py:42-45 | one local log line with the given level and message; nothing else changes |
| Telemetry.Emitter.Trace | midi_processor.py:22-26 | one span operation appended; nothing else changes |
| Telemetry.Emitter.constructor | helpers.py:21-52 | nothing emitted yet |
| MidiProcessor.Kind | midi_processor.py:16-60 | Start exactly for note_on with velocity > 0; End exactly for note_off or note_on with velocity 0 |
| MidiProcessor.CorrelateEffect | midi_processor.py:16-93 | each of the five outcomes happens exactly under its own condition. A start for an idle note adds exactly that note with the new span and the current time, keeping all other entries. An end for a sounding note removes exactly that note, keeps the others and reports now minus the stored start time. Overlap, orphan and unrelated messages leave the registry unchanged. |
| MidiProcessor.NoteCorrelator.constructor | midi_processor.py:10 | the registry starts empty |
| MidiProcessor.NoteCorrelator.ProcessMidiMessage | midi_processor.py:13-93 | the new registry is the `Correlate` step of the old. The records, log lines and span operations appended are exactly those of the step's outcome: for a start, the open and the end at the `with` exit; for an end, the elapsed time, status OK and a second end on the stored handle. |
| MidiProcessor.NoteCorrelator.StartNote | midi_processor.py:22-58 | registers the note with the tagged span and the current time. Opens that span, logs the note-on line, sends one record carrying the span's ids, the note and the velocity, and ends the span as the `with` block exits. |
| MidiProcessor.NoteCorrelator.EndNote | midi_processor.py:65-93 | removes exactly the note. Requests the elapsed time and status OK on the stored, already ended handle, logs the note-off line, sends one record with the stored span's ids and the elapsed time, and requests `end()` on the handle again at the exit of `with span:`. |
| MidiProcessor.CorrelatePreservesWellFormed | midi_processor.py:22-35 | every entry's span stays named and tagged after its own note |
| MidiProcessor.RunPreservesWellFormed | midi_processor.py:13-93 | any sequence of events keeps the registry well-formed |
| MidiProcessor.RunKeepsUntouched | midi_processor.py:13-93 | events about other notes leave a note's entry, or its absence, as it was |
| MidiProcessor.NoteLifecycle | midi_processor.py:16-69 | an idle note's start, then events about other notes, then its end: the end reports exactly the span the start opened and end time minus start time, and the note is idle again |
| MidiProcessor.StartSpanRequests | midi_processor.py:22-58 | a note-on for an idle note opens the tagged span and ends it before the call returns |
| MidiProcessor.EndSpanRequests | midi_processor.py:72-93 | a note-off for a sounding note sets the elapsed time and status OK on the stored handle and ends it, all on that handle's context |
| MidiProcessor.RecordsShareIds | midi_processor.py:28-88 | the note-on and note-off records of one span carry the same trace and span id strings, those of the span's context |
| MidiProcessor.OverlapKeepsOriginal | midi_processor.py:17-19 | an overlapping note-on keeps the registry, the original span ids and the start time. It sends no record and no span operation, and logs one warning. |
| MidiProcessor.OrphanCreatesNothing | midi_processor.py:60-63 | an orphaned note-off creates no entry and changes nothing. It sends no record and no span operation, and logs one warning. |
| MidiProcessor.NoteSpanAttributes | midi_processor.py:22-26 | the span carries stream_id, note, velocity_on and the dynamics bucket of the velocity, in that order |
| Audio.ReplaceTrailingWav | audio.py:93 | the `.wav` that ends a string is always replaced, whatever precedes it |
| Audio.Mp4PathOfSink | audio.py:41-93 | the video path is the sink path with every `.wav` replaced and its final `.wav` turned into `.mp4`; it is as long as the sink path and holds no `.wav` |
| Audio.Mp4PathPlain | audio.py:41-93 | when neither the prefix nor the stream id contains `.wav`, the video path is them followed by `.mp4` |
| Audio.ReplaceLeavesNoWav | audio.py:93 | after `.replace(".wav", ".mp4")` no `.wav` is left at any position, including one the replacement could have formed |
| Audio.ReplaceWithoutWav | audio.py:93 | a string with no `.wav` in it is left unchanged |
| Audio.Enqueued | audio.py:50-53 | a queue of the given chunks has no sentinel |
| Audio.DrainedStopsAtSentinel | audio.py:50-53 | exactly the chunks before the first sentinel are dequeued; nothing after it is |
| Audio.DrainedStep | audio.py:50-53 | draining stops at a sentinel or takes the chunk there and goes on |
| Audio.DrainedAdvance | audio.py:50-56 | taking one more chunk keeps the drained chunks split between those taken and those still queued |
| Audio.WavWriter.Open | audio.py:42 | a fresh writer on the path, no header field set, nothing written |
| Audio.WavWriter.SetNChannels | audio.py:43 | sets the channel count and nothing else |
| Audio.WavWriter.SetSampWidth | audio.py:44 | sets the sample width and nothing else |
| Audio.WavWriter.SetFrameRate | audio.py:45 | sets the frame rate and nothing else |
| Audio.WavWriter.WriteFrames | audio.py:56 | appends the chunk's bytes to the frames, unchanged and in order |
| Audio.WavWriter.Close | audio.py:42-90 | closes the writer, keeping header and frames |
| Audio.Encoded | audio.py:59 | one base 64 text per chunk |
| Audio.FullBatches | audio.py:65-77 | one full batch per complete group of ten texts |
| Audio.FullBatchesSnoc | audio.py:62-77 | one more text adds a batch of its last ten texts exactly when the count reaches a multiple of ten |
| Audio.OpenGroupSnoc | audio.py:60-77 | the accumulator grows by the new text, or at ten texts it holds exactly the last ten and is reset |
| Audio.LoopStepOpen | audio.py:56-62 | a chunk that leaves fewer than ten accumulated keeps the loop invariant and emits nothing |
| Audio.LoopStepClose | audio.py:56-77 | a chunk that makes the accumulator hold ten keeps the loop invariant and emits exactly the next full batch |
| Audio.LoopExit | audio.py:51-53 | at the sentinel every chunk before it has been taken |
| Audio.FinalStep | audio.py:79-88 | the final batch is emitted exactly when the accumulator is not empty, and it holds the texts of the last partial group |
| Audio.SendBatch | audio.py:65-73 | a full accumulator gives one record whose excerpt is the first 50 characters of its ten joined texts, and one "Batch Log sent" line |
| Audio.SendFinalBatch | audio.py:80-88 | a non-empty leftover accumulator gives one final record with the first 50 characters of its joined texts, and one "Final Batch Log sent" line with its size |
| Audio.FlushGroup | audio.py:65-77 | flushing a full accumulator appends exactly the next batch to those emitted |
| Audio.ConsumeChunk | audio.py:51-77 | one loop iteration keeps the loop invariant: sink holds the taken chunks, accumulator is the open group (fewer than ten), one batch per closed group, header unchanged |
| Audio.DrainQueue | audio.py:47-77 | the sink gets exactly the chunks before the sentinel, concatenated in order. One full batch is sent per complete group of ten. The accumulator is left with the open group, and no span is touched. |
| Audio.EncodeAudioChunks | audio.py:37-93 | the sink is at the sink path with header 1 channel, width 2, rate 44100, and holds exactly the dequeued chunks in order, and it is closed. The records and lines are exactly the batches of those chunks, then "Audio saved to". The video path is the sink path with `.wav` replaced. |
| Audio.BatchCount | audio.py:65-88 | n chunks give floor(n / 10) batches, plus one more exactly when n mod 10 is not 0 |
| Audio.BatchAt | audio.py:65-88 | batch j covers the j-th group of at most ten chunks. It is final exactly when that group is partial, and its count is 1 to 10. Its excerpt has at most 50 characters and is a prefix of the group's joined base 64 text. |
| Audio.FullBatchAt | audio.py:65-77 | the j-th full batch covers texts 10j to 10j + 10 |
| Audio.FullBatchOfChunks | audio.py:65-77 | a batch inside the complete groups covers ten chunks and is not final |
| Audio.FinalBatchAt | audio.py:79-88 | the batch after the complete groups holds the remaining texts and is final |
| Audio.FinalBatchOfChunks | audio.py:79-88 | the batch after the complete groups covers the remaining chunks and is final |
| Audio.EncodedSlice | audio.py:59 | the texts of a slice of chunks are that slice of the texts |
| Audio.FullBatchesTotal | audio.py:65-77 | the full batches count every chunk except the remainder |
| Audio.BatchTotal | audio.py:65-88 | every dequeued chunk is counted in exactly one batch: the counts add up to the number of chunks |
| Audio.TenChunks | audio.py:65-88 | ten chunks give one batch of ten and no empty final batch |
| Audio.TwentyThreeChunks | audio.py:65-88 | twenty-three chunks give two full batches of ten and a final batch of three |

## Left out

- **Audio capture.** `start_audio_recording` and `audio_callback` (audio.py:19-34) are device callbacks, a threading event and a cross-thread queue. Their effect is the sentinel-terminated input sequence of `Audio.EncodeAudioChunks`.
- **Video conversion and upload.** `convert_wav_to_mp4` and `upload_to_imgur` are external libraries and HTTP, and so is the Imgur link log line (audio.py:94-99). Only the video path string is modelled.
- **Log transport.** The HTTP POST, the nanosecond timestamp, the resource and scope wrapper, and the "Log sent" and "Failed to send log" lines of `send_otlp_log` (helpers.py:25-52) are left out. `Telemetry.Emitter.SendOtlpLog` records only the payload the caller decides.
- **Logging and tracing setup.** `logging_setup` and `tracing_setup` are configuration of Python logging and the OpenTelemetry SDK. The `extra={"stream_id": …}` field of the local log lines is not modelled.
- **Span lifecycle.** The SDK's handling of span requests and `attach`/`detach` of the span context are left out. The note-off's `set_attribute`, `set_status` and `end()` (midi_processor.py:72-74, 93) act on a span the note-on's `with` block already ended. The OpenTelemetry SDK ignores such calls with a warning, so the elapsed time never reaches the exported span. The model records the requests and does not decide their effect. Span identifiers are inputs, not generated.
- **Emission order.** `Telemetry.Emitter` keeps records, log lines and span requests in three separate sequences. The order between them is not modelled, for example that audio.py:67-73 sends the record before the "Batch Log sent" line, or that midi_processor.py:42-56 logs before it sends.
- **Shared emitter.** The encoder thread and the correlator share one logger and one collector. `Audio.EncodeAudioChunks` and `MidiProcessor.NoteCorrelator.ProcessMidiMessage` state exactly what each appends, and assume nothing else emits during the call.
- **Failed sends.** `requests.post` (helpers.py:49) is not guarded. An unreachable collector raises out of `send_otlp_log`, which ends the drain loop at the first batch (audio.py:67) and the caller's MIDI loop. The model assumes every send returns.
- **Header errors.** `wave` raises `wave.Error` for a bad header value, or for setting one after frames are written. The source reaches neither case, so `Audio.WavWriter` does not model them.
- **Orchestration.** main.py's argument parsing, MIDI ports, file playback and threads are not part of this model.
- **Numeric types.** `time.time()` is a float. The model uses integer milliseconds, so elapsed time is an exact integer difference, and `f"{elapsed:.3f}"` is rendered from it exactly.
- **Missing sentinel.** `Audio.EncodeAudioChunks` requires a sentinel in the queue. Without one the source blocks forever on `audio_queue.get()`.
- **Empty patterns.** `Text.ReplaceAll` requires a non-empty pattern. The source only replaces ".wav".
- **WAV header bytes.** The RIFF header and the frame count that `wave` writes are left out. The writer records the header fields and the frames.
- **Loop-body split.** The loop body of `encode_audio_chunks` is split into the step methods `Audio.ConsumeChunk` and `Audio.FlushGroup`. The batch log line uses the accumulator's size, which the loop invariant ties to the source's `chunk_counter`.
