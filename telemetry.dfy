/**
 * What the core hands to its telemetry collaborators: OTLP log records (the
 * payload of one `send_otlp_log` call), lines for the local logger, and the
 * span operations it asks of the tracing SDK. Delivery, retries, timestamps and
 * the JSON wire shape belong to those collaborators; here each is an append to
 * a sequence that the `Emitter` object owns.
 */
module Telemetry {
  import opened Text

  /** The value half of an OTLP key/value attribute. */
  datatype AttrValue =
    | IntValue(i: int)
    | StringValue(s: string)
      /** A `doubleValue` holding seconds, kept as an integer number of milliseconds. */
    | MillisValue(ms: int)

  datatype Attribute = Attribute(key: string, value: AttrValue)

  /** The identifiers the tracing SDK gives a span when it opens. */
  datatype SpanContext = SpanContext(traceId: nat, spanId: nat)

  /** An opaque span handle: its name, its identifiers and the attributes set on it. */
  datatype Span = Span(name: string, context: SpanContext, attributes: seq<Attribute>)

  datatype Status = Ok

  /**
   * A span operation requested of the SDK, on the handle with the given
   * context. Whether the SDK honours a request on a span that has already
   * ended is the SDK's concern, not the caller's.
   */
  datatype SpanEvent =
      /** `start_as_current_span(name)` followed by the `set_attribute` calls on the new span. */
    | SpanOpened(span: Span)
      /** `set_attribute` and `set_status` calls on an existing handle. */
    | SpanAmended(context: SpanContext, attributes: seq<Attribute>, status: Status)
      /** `end()`, as the exit of a `with` block over the span performs it. */
    | SpanEnded(context: SpanContext)

  datatype Level = Info | Warning

  /** One line for the local logger. */
  datatype LogLine = LogLine(level: Level, message: string)

  /** One log record as `send_otlp_log` builds it (the timestamp is the transport's). */
  datatype OtlpLog = OtlpLog(traceId: string, spanId: string, severity: string, message: string, attributes: seq<Attribute>)

  /** OpenTelemetry identifiers: a non-zero 128-bit trace id and a non-zero 64-bit span id. */
  predicate ValidContext(ctx: SpanContext) {
    0 < ctx.traceId < Pow16(32) && 0 < ctx.spanId < Pow16(16)
  }

  /** `format(trace_id, '032x')`. */
  function TraceIdHex(ctx: SpanContext): string {
    FormatHex(ctx.traceId, 32)
  }

  /** `format(span_id, '016x')`. */
  function SpanIdHex(ctx: SpanContext): string {
    FormatHex(ctx.spanId, 16)
  }

  /**
   * The identifiers of a valid span render as exactly 32 and 16 lower-case hex
   * digits, and read back as the same identifiers: the rendering is the join key
   * between log records and spans.
   */
  lemma ContextHex(ctx: SpanContext)
    requires ValidContext(ctx)
    ensures |TraceIdHex(ctx)| == 32 && AllLowerHex(TraceIdHex(ctx)) && HexValue(TraceIdHex(ctx)) == ctx.traceId
    ensures |SpanIdHex(ctx)| == 16 && AllLowerHex(SpanIdHex(ctx)) && HexValue(SpanIdHex(ctx)) == ctx.spanId
  {
    FormatHexFixedWidth(ctx.traceId, 32);
    FormatHexFixedWidth(ctx.spanId, 16);
    FormatHexRoundTrip(ctx.traceId, 32);
    FormatHexRoundTrip(ctx.spanId, 16);
  }

  /** Two contexts render to the same identifier strings only if they are the same context. */
  lemma ContextHexInjective(a: SpanContext, b: SpanContext)
    requires TraceIdHex(a) == TraceIdHex(b) && SpanIdHex(a) == SpanIdHex(b)
    ensures a == b
  {
    FormatHexRoundTrip(a.traceId, 32);
    FormatHexRoundTrip(b.traceId, 32);
    FormatHexRoundTrip(a.spanId, 16);
    FormatHexRoundTrip(b.spanId, 16);
  }

  /** The sink for everything the core emits, shared by the encoder and the correlator. */
  class Emitter {
    var records: seq<OtlpLog>
    var lines: seq<LogLine>
    var spans: seq<SpanEvent>

    constructor ()
      ensures records == [] && lines == [] && spans == []
    {
      records, lines, spans := [], [], [];
    }

    /** `send_otlp_log(trace_id, span_id, message, attributes=...)` with the default level. */
    method SendOtlpLog(traceId: string, spanId: string, message: string, attributes: seq<Attribute>)
      modifies this
      ensures records == old(records) + [OtlpLog(traceId, spanId, "INFO", message, attributes)]
      ensures lines == old(lines) && spans == old(spans)
    {
      records := records + [OtlpLog(traceId, spanId, "INFO", message, attributes)];
    }

    /** A call on the local logger. */
    method Log(level: Level, message: string)
      modifies this
      ensures lines == old(lines) + [LogLine(level, message)]
      ensures records == old(records) && spans == old(spans)
    {
      lines := lines + [LogLine(level, message)];
    }

    /** A span operation handed to the tracing SDK. */
    method Trace(event: SpanEvent)
      modifies this
      ensures spans == old(spans) + [event]
      ensures records == old(records) && lines == old(lines)
    {
      spans := spans + [event];
    }
  }

}
