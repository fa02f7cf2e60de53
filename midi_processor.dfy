/**
 * The note correlator: a registry of the notes that are sounding, each with the
 * span opened for it and the time it started. A note-on opens a span and
 * registers the note; a note-off (or a note-on of velocity 0) removes it and
 * reports how long it sounded; an overlapping note-on and an orphaned note-off
 * are logged as warnings and otherwise ignored.
 */
module MidiProcessor {
  import opened Text
  import opened Telemetry
  import opened Helpers

  /** The `type` of a MIDI message; every type other than note_on and note_off is `OtherType`. */
  datatype MessageType = NoteOn | NoteOff | OtherType(name: string)

  datatype MidiMessage = MidiMessage(msgType: MessageType, note: int, velocity: int)

  /** One event as delivered: the message, the clock reading (milliseconds) and the ids the SDK would give a new span. */
  datatype TimedMessage = TimedMessage(msg: MidiMessage, now: int, ctx: SpanContext)

  /** What a message means to the correlator. */
  datatype EventKind = Start | End | Unrelated

  /** A registry entry: the span handle and the start time. */
  datatype Entry = Entry(span: Span, startTime: int)

  type Registry = map<int, Entry>

  datatype Outcome =
    | Started(span: Span)
    | Overlapping
    | Ended(entry: Entry, elapsed: int)
    | Orphaned
    | Skipped

  datatype Step = Step(registry: Registry, outcome: Outcome)

  /** A note-on with positive velocity starts a note; a note-off or a note-on of velocity 0 ends one. */
  function Kind(msg: MidiMessage): (k: EventKind)
    ensures k == Start <==> msg.msgType == NoteOn && msg.velocity > 0
    ensures k == End <==> msg.msgType == NoteOff || (msg.msgType == NoteOn && msg.velocity == 0)
  {
    if msg.msgType == NoteOn && msg.velocity > 0 then Start
    else if msg.msgType == NoteOff || (msg.msgType == NoteOn && msg.velocity == 0) then End
    else Unrelated
  }

  /** Whether a message starts or ends note `n`. */
  predicate Concerns(msg: MidiMessage, n: int) {
    Kind(msg) != Unrelated && msg.note == n
  }

  /** The span a note-on opens: named after the note and tagged with stream, note, velocity and dynamics. */
  function NoteSpan(msg: MidiMessage, streamId: string, ctx: SpanContext): Span {
    Span("note_" + IntToDecimal(msg.note), ctx,
         [ Attribute("stream_id", StringValue(streamId)),
           Attribute("note", IntValue(msg.note)),
           Attribute("velocity_on", IntValue(msg.velocity)),
           Attribute("dynamics", StringValue(VelocityToDynamics(msg.velocity))) ])
  }

  /** The effect of one message on the registry and what the correlator reports about it. */
  function Correlate(registry: Registry, msg: MidiMessage, streamId: string, now: int, ctx: SpanContext): Step {
    match Kind(msg)
    case Start =>
      if msg.note in registry then Step(registry, Overlapping)
      else
        var span := NoteSpan(msg, streamId, ctx);
        Step(registry[msg.note := Entry(span, now)], Started(span))
    case End =>
      if msg.note !in registry then Step(registry, Orphaned)
      else
        var entry := registry[msg.note];
        Step(registry - {msg.note}, Ended(entry, now - entry.startTime))
    case Unrelated => Step(registry, Skipped)
  }

  /**
   * A start for an idle note adds exactly that note, holding the new span and
   * the current time; a start for an active note changes nothing; an end for an
   * active note removes exactly that note and reports now minus its start time;
   * an end for an idle note and any other message change nothing.
   */
  lemma CorrelateEffect(registry: Registry, msg: MidiMessage, streamId: string, now: int, ctx: SpanContext)
    ensures var r := Correlate(registry, msg, streamId, now, ctx);
      && (r.outcome.Started? <==> Kind(msg) == Start && msg.note !in registry)
      && (r.outcome == Overlapping <==> Kind(msg) == Start && msg.note in registry)
      && (r.outcome.Ended? <==> Kind(msg) == End && msg.note in registry)
      && (r.outcome == Orphaned <==> Kind(msg) == End && msg.note !in registry)
      && (r.outcome == Skipped <==> Kind(msg) == Unrelated)
    ensures var r := Correlate(registry, msg, streamId, now, ctx);
      r.outcome.Started? ==>
        && r.outcome.span == NoteSpan(msg, streamId, ctx)
        && r.registry.Keys == registry.Keys + {msg.note}
        && r.registry[msg.note] == Entry(r.outcome.span, now)
        && forall n | n in registry :: r.registry[n] == registry[n]
    ensures var r := Correlate(registry, msg, streamId, now, ctx);
      r.outcome.Ended? ==>
        && r.outcome.entry == registry[msg.note]
        && r.outcome.elapsed == now - registry[msg.note].startTime
        && r.registry.Keys == registry.Keys - {msg.note}
        && forall n | n in r.registry :: r.registry[n] == registry[n]
    ensures var r := Correlate(registry, msg, streamId, now, ctx);
      !r.outcome.Started? && !r.outcome.Ended? ==> r.registry == registry
  {
  }

  /** The OTLP record of a note-on: the new span's ids, the note and the velocity. */
  function NoteOnRecord(msg: MidiMessage, span: Span): OtlpLog {
    OtlpLog(TraceIdHex(span.context), SpanIdHex(span.context), "INFO",
            "Note On received for Note: " + IntToDecimal(msg.note),
            [Attribute("note", IntValue(msg.note)), Attribute("velocity", IntValue(msg.velocity))])
  }

  /** The OTLP record of a note-off: the stored span's ids and the elapsed time. */
  function NoteOffRecord(msg: MidiMessage, entry: Entry, elapsed: int): OtlpLog {
    OtlpLog(TraceIdHex(entry.span.context), SpanIdHex(entry.span.context), "INFO",
            "Note Off processed for Note: " + IntToDecimal(msg.note),
            [Attribute("elapsed_time", MillisValue(elapsed))])
  }

  function Records(msg: MidiMessage, outcome: Outcome): seq<OtlpLog> {
    match outcome
    case Started(span) => [NoteOnRecord(msg, span)]
    case Ended(entry, elapsed) => [NoteOffRecord(msg, entry, elapsed)]
    case _ => []
  }

  /** The info line of a note that starts. */
  function NoteOnMessage(msg: MidiMessage): string {
    "Note On - Note: " + IntToDecimal(msg.note) + ", Velocity: " + IntToDecimal(msg.velocity)
    + ", Dynamics: " + VelocityToDynamics(msg.velocity)
  }

  /** The warning about a start for a note that is already sounding. */
  function OverlapMessage(msg: MidiMessage): string {
    "Overlapping note_on for Note: " + IntToDecimal(msg.note) + ". Ignoring."
  }

  /** The info line of a note that ends, with the elapsed time in seconds. */
  function NoteOffMessage(msg: MidiMessage, elapsed: int): string {
    "Note Off - Note: " + IntToDecimal(msg.note) + ", Elapsed: " + FormatMillis(elapsed) + " seconds"
  }

  /** The warning about an end for a note that is not sounding. */
  function OrphanMessage(msg: MidiMessage): string {
    "Note Off received without a corresponding Note On for Note: " + IntToDecimal(msg.note)
  }

  function Lines(msg: MidiMessage, outcome: Outcome): seq<LogLine> {
    match outcome
    case Started(_) => [LogLine(Info, NoteOnMessage(msg))]
    case Overlapping => [LogLine(Warning, OverlapMessage(msg))]
    case Ended(_, elapsed) => [LogLine(Info, NoteOffMessage(msg, elapsed))]
    case Orphaned => [LogLine(Warning, OrphanMessage(msg))]
    case Skipped => []
  }

  /**
   * The span requests of a note-on: the span is opened with its attributes,
   * and the exit of the `with` block that opened it ends it again before the
   * call returns.
   */
  function OpenRequests(span: Span): seq<SpanEvent> {
    [SpanOpened(span), SpanEnded(span.context)]
  }

  /**
   * The span requests of a note-off on the stored handle: the elapsed time as
   * an attribute and status OK, then `end()` at the exit of `with span:`. The
   * handle is the one a note-on already ended.
   */
  function CloseRequests(entry: Entry, elapsed: int): seq<SpanEvent> {
    [ SpanAmended(entry.span.context, [Attribute("elapsed_time", MillisValue(elapsed))], Ok),
      SpanEnded(entry.span.context) ]
  }

  function SpanEvents(outcome: Outcome): seq<SpanEvent> {
    match outcome
    case Started(span) => OpenRequests(span)
    case Ended(entry, elapsed) => CloseRequests(entry, elapsed)
    case _ => []
  }

  /** The registry after a sequence of events, processed strictly in order. */
  function Run(registry: Registry, streamId: string, events: seq<TimedMessage>): Registry
    decreases |events|
  {
    if events == [] then registry
    else
      var e := events[0];
      Run(Correlate(registry, e.msg, streamId, e.now, e.ctx).registry, streamId, events[1..])
  }

  /** Every entry's span is the one opened for its own note. */
  ghost predicate WellFormed(registry: Registry) {
    forall n | n in registry ::
      registry[n].span.name == "note_" + IntToDecimal(n)
      && |registry[n].span.attributes| == 4
      && registry[n].span.attributes[1] == Attribute("note", IntValue(n))
  }

  /** The registry of the source: the notes that are sounding. */
  class NoteCorrelator {
    var activeNotes: Registry

    constructor ()
      ensures activeNotes == map[]
    {
      activeNotes := map[];
    }

    /**
     * `process_midi_message`: applies one message to the registry and emits
     * the log lines, the OTLP record and the span operations that go with it.
     * The clock reading and the ids of a span that would be opened are inputs.
     */
    method ProcessMidiMessage(msg: MidiMessage, streamId: string, now: int, ctx: SpanContext, tel: Emitter)
      modifies this, tel
      ensures activeNotes == Correlate(old(activeNotes), msg, streamId, now, ctx).registry
      ensures tel.records == old(tel.records) + Records(msg, Correlate(old(activeNotes), msg, streamId, now, ctx).outcome)
      ensures tel.lines == old(tel.lines) + Lines(msg, Correlate(old(activeNotes), msg, streamId, now, ctx).outcome)
      ensures tel.spans == old(tel.spans) + SpanEvents(Correlate(old(activeNotes), msg, streamId, now, ctx).outcome)
    {
      if msg.msgType == NoteOn && msg.velocity > 0 {
        if msg.note in activeNotes {
          assert Correlate(activeNotes, msg, streamId, now, ctx) == Step(activeNotes, Overlapping);
          tel.Log(Warning, OverlapMessage(msg));
          return;
        }
        StartIdle(activeNotes, msg, streamId, now, ctx);
        StartNote(msg, streamId, now, ctx, tel);
      } else if msg.msgType == NoteOff || (msg.msgType == NoteOn && msg.velocity == 0) {
        if msg.note !in activeNotes {
          assert Correlate(activeNotes, msg, streamId, now, ctx) == Step(activeNotes, Orphaned);
          tel.Log(Warning, OrphanMessage(msg));
          return;
        }
        EndActive(activeNotes, msg, streamId, now, ctx);
        EndNote(msg, now, tel);
      } else {
        assert Correlate(activeNotes, msg, streamId, now, ctx) == Step(activeNotes, Skipped);
      }
    }

    /**
     * The note-on branch for an idle note: open the span, register the note,
     * log and send its record, and end the span as the `with` block exits.
     */
    method StartNote(msg: MidiMessage, streamId: string, now: int, ctx: SpanContext, tel: Emitter)
      requires msg.note !in activeNotes
      modifies this, tel
      ensures activeNotes == old(activeNotes)[msg.note := Entry(NoteSpan(msg, streamId, ctx), now)]
      ensures tel.records == old(tel.records) + [NoteOnRecord(msg, NoteSpan(msg, streamId, ctx))]
      ensures tel.lines == old(tel.lines) + [LogLine(Info, NoteOnMessage(msg))]
      ensures tel.spans == old(tel.spans) + OpenRequests(NoteSpan(msg, streamId, ctx))
    {
      var span := Span("note_" + IntToDecimal(msg.note), ctx, []);
      span := span.(attributes := span.attributes + [Attribute("stream_id", StringValue(streamId))]);
      span := span.(attributes := span.attributes + [Attribute("note", IntValue(msg.note))]);
      span := span.(attributes := span.attributes + [Attribute("velocity_on", IntValue(msg.velocity))]);
      span := span.(attributes := span.attributes + [Attribute("dynamics", StringValue(VelocityToDynamics(msg.velocity)))]);
      assert span == NoteSpan(msg, streamId, ctx);
      tel.Trace(SpanOpened(span));
      var traceId := FormatHex(span.context.traceId, 32);
      var spanId := FormatHex(span.context.spanId, 16);
      activeNotes := activeNotes[msg.note := Entry(span, now)];
      tel.Log(Info, NoteOnMessage(msg));
      tel.SendOtlpLog(traceId, spanId, "Note On received for Note: " + IntToDecimal(msg.note),
                      [Attribute("note", IntValue(msg.note)), Attribute("velocity", IntValue(msg.velocity))]);
      tel.Trace(SpanEnded(span.context));
    }

    /**
     * The note-off branch for a sounding note: unregister it, set the elapsed
     * time and status OK on its stored handle and end it, log and send the
     * elapsed time.
     */
    method EndNote(msg: MidiMessage, now: int, tel: Emitter)
      requires msg.note in activeNotes
      modifies this, tel
      ensures activeNotes == old(activeNotes) - {msg.note}
      ensures tel.records == old(tel.records) + [NoteOffRecord(msg, old(activeNotes)[msg.note], now - old(activeNotes)[msg.note].startTime)]
      ensures tel.lines == old(tel.lines) + [LogLine(Info, NoteOffMessage(msg, now - old(activeNotes)[msg.note].startTime))]
      ensures tel.spans == old(tel.spans) + CloseRequests(old(activeNotes)[msg.note], now - old(activeNotes)[msg.note].startTime)
    {
      var noteData := activeNotes[msg.note];
      activeNotes := activeNotes - {msg.note};
      var span := noteData.span;
      var elapsedTime := now - noteData.startTime;
      tel.Trace(SpanAmended(span.context, [Attribute("elapsed_time", MillisValue(elapsedTime))], Ok));
      tel.Log(Info, NoteOffMessage(msg, elapsedTime));
      tel.SendOtlpLog(FormatHex(span.context.traceId, 32), FormatHex(span.context.spanId, 16),
                      "Note Off processed for Note: " + IntToDecimal(msg.note),
                      [Attribute("elapsed_time", MillisValue(elapsedTime))]);
      tel.Trace(SpanEnded(span.context));
    }
  }

  // ---------------------------------------------------------------------------
  // Properties of sequences of events
  // ---------------------------------------------------------------------------

  /** Each message keeps every entry's span tied to its own note. */
  lemma CorrelatePreservesWellFormed(registry: Registry, msg: MidiMessage, streamId: string, now: int, ctx: SpanContext)
    requires WellFormed(registry)
    ensures WellFormed(Correlate(registry, msg, streamId, now, ctx).registry)
  {
  }

  /** A start for an idle note registers it with the span it opens. */
  lemma StartIdle(registry: Registry, msg: MidiMessage, streamId: string, now: int, ctx: SpanContext)
    requires Kind(msg) == Start && msg.note !in registry
    ensures Correlate(registry, msg, streamId, now, ctx)
      == Step(registry[msg.note := Entry(NoteSpan(msg, streamId, ctx), now)], Started(NoteSpan(msg, streamId, ctx)))
  {
  }

  /** An end for a sounding note unregisters it and reports its entry and elapsed time. */
  lemma EndActive(registry: Registry, msg: MidiMessage, streamId: string, now: int, ctx: SpanContext)
    requires Kind(msg) == End && msg.note in registry
    ensures Correlate(registry, msg, streamId, now, ctx)
      == Step(registry - {msg.note}, Ended(registry[msg.note], now - registry[msg.note].startTime))
  {
  }

  /** Events that neither start nor end note `n` leave its entry, or its absence, as it was. */
  lemma {:induction false} RunKeepsUntouched(registry: Registry, streamId: string, events: seq<TimedMessage>, n: int)
    requires forall k | 0 <= k < |events| :: !Concerns(events[k].msg, n)
    ensures n in Run(registry, streamId, events) <==> n in registry
    ensures n in registry ==> Run(registry, streamId, events)[n] == registry[n]
    decreases |events|
  {
    if events != [] {
      var e := events[0];
      var next := Correlate(registry, e.msg, streamId, e.now, e.ctx).registry;
      assert !Concerns(e.msg, n);
      assert n in next <==> n in registry;
      assert n in registry ==> next[n] == registry[n];
      RunKeepsUntouched(next, streamId, events[1..], n);
    }
  }

  /** Any sequence of events starting from a well-formed registry keeps it well-formed. */
  lemma {:induction false} RunPreservesWellFormed(registry: Registry, streamId: string, events: seq<TimedMessage>)
    requires WellFormed(registry)
    ensures WellFormed(Run(registry, streamId, events))
    decreases |events|
  {
    if events != [] {
      var e := events[0];
      CorrelatePreservesWellFormed(registry, e.msg, streamId, e.now, e.ctx);
      RunPreservesWellFormed(Correlate(registry, e.msg, streamId, e.now, e.ctx).registry, streamId, events[1..]);
    }
  }

  /** The registry once note-on `on` has registered its note with the span it opens. */
  function Opened(registry: Registry, streamId: string, on: TimedMessage): Registry {
    registry[on.msg.note := Entry(NoteSpan(on.msg, streamId, on.ctx), on.now)]
  }

  /**
   * A start and a matching end for an idle note, with only events about other
   * notes between them: the start registers the span it opens, and the end
   * closes exactly that span, reports end time minus start time and leaves
   * the note idle again.
   */
  lemma NoteLifecycle(registry: Registry, streamId: string, on: TimedMessage, between: seq<TimedMessage>, off: TimedMessage)
    requires Kind(on.msg) == Start && on.msg.note !in registry
    requires Kind(off.msg) == End && off.msg.note == on.msg.note
    requires forall k | 0 <= k < |between| :: !Concerns(between[k].msg, on.msg.note)
    ensures Correlate(registry, on.msg, streamId, on.now, on.ctx)
      == Step(Opened(registry, streamId, on), Started(NoteSpan(on.msg, streamId, on.ctx)))
    ensures Correlate(Run(Opened(registry, streamId, on), streamId, between), off.msg, streamId, off.now, off.ctx).outcome
      == Ended(Entry(NoteSpan(on.msg, streamId, on.ctx), on.now), off.now - on.now)
    ensures on.msg.note !in Correlate(Run(Opened(registry, streamId, on), streamId, between), off.msg, streamId, off.now, off.ctx).registry
  {
    StartIdle(registry, on.msg, streamId, on.now, on.ctx);
    RunKeepsUntouched(Opened(registry, streamId, on), streamId, between, on.msg.note);
    EndActive(Run(Opened(registry, streamId, on), streamId, between), off.msg, streamId, off.now, off.ctx);
  }

  /** The span requests of a note-on for an idle note: it opens the span and ends it before it returns. */
  lemma StartSpanRequests(registry: Registry, msg: MidiMessage, streamId: string, now: int, ctx: SpanContext)
    requires Kind(msg) == Start && msg.note !in registry
    ensures SpanEvents(Correlate(registry, msg, streamId, now, ctx).outcome)
      == [SpanOpened(NoteSpan(msg, streamId, ctx)), SpanEnded(ctx)]
  {
    StartIdle(registry, msg, streamId, now, ctx);
  }

  /**
   * The span requests of a note-off for a sounding note: the elapsed time,
   * status OK and a second `end()`, all on the stored handle.
   */
  lemma EndSpanRequests(registry: Registry, msg: MidiMessage, streamId: string, now: int, ctx: SpanContext)
    requires Kind(msg) == End && msg.note in registry
    ensures SpanEvents(Correlate(registry, msg, streamId, now, ctx).outcome)
      == [ SpanAmended(registry[msg.note].span.context, [Attribute("elapsed_time", MillisValue(now - registry[msg.note].startTime))], Ok),
           SpanEnded(registry[msg.note].span.context) ]
  {
    EndActive(registry, msg, streamId, now, ctx);
  }

  /** The note-on and note-off records of one span carry the same identifier strings, those of the span's context. */
  lemma RecordsShareIds(onMsg: MidiMessage, offMsg: MidiMessage, streamId: string, ctx: SpanContext, start: int, elapsed: int)
    ensures var span := NoteSpan(onMsg, streamId, ctx);
      var onRecord := NoteOnRecord(onMsg, span);
      var offRecord := NoteOffRecord(offMsg, Entry(span, start), elapsed);
      && onRecord.traceId == offRecord.traceId == TraceIdHex(ctx)
      && onRecord.spanId == offRecord.spanId == SpanIdHex(ctx)
  {
  }

  /** A start for a note that is already sounding keeps its original span and start time. */
  lemma OverlapKeepsOriginal(registry: Registry, msg: MidiMessage, streamId: string, now: int, ctx: SpanContext)
    requires Kind(msg) == Start && msg.note in registry
    ensures var r := Correlate(registry, msg, streamId, now, ctx);
      && r.registry == registry
      && r.registry[msg.note].span.context == registry[msg.note].span.context
      && r.registry[msg.note].startTime == registry[msg.note].startTime
      && Records(msg, r.outcome) == [] && SpanEvents(r.outcome) == []
      && |Lines(msg, r.outcome)| == 1 && Lines(msg, r.outcome)[0].level == Warning
  {
  }

  /** An end for a note that is not sounding creates no entry and only logs a warning. */
  lemma OrphanCreatesNothing(registry: Registry, msg: MidiMessage, streamId: string, now: int, ctx: SpanContext)
    requires Kind(msg) == End && msg.note !in registry
    ensures var r := Correlate(registry, msg, streamId, now, ctx);
      && r.registry == registry && msg.note !in r.registry
      && Records(msg, r.outcome) == [] && SpanEvents(r.outcome) == []
      && |Lines(msg, r.outcome)| == 1 && Lines(msg, r.outcome)[0].level == Warning
  {
  }

  /** The span a note-on opens carries the stream, the note, the velocity and its dynamics bucket. */
  lemma NoteSpanAttributes(msg: MidiMessage, streamId: string, ctx: SpanContext)
    ensures var span := NoteSpan(msg, streamId, ctx);
      && span.context == ctx
      && span.attributes == [ Attribute("stream_id", StringValue(streamId)),
                               Attribute("note", IntValue(msg.note)),
                               Attribute("velocity_on", IntValue(msg.velocity)),
                               Attribute("dynamics", StringValue(VelocityToDynamics(msg.velocity))) ]
  {
  }

}
