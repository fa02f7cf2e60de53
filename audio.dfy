/**
 * The audio sink encoder and batcher. It drains the chunk queue up to the
 * `None` sentinel, writes every chunk to the WAV sink in arrival order, and
 * every ten chunks emits one OTLP record holding at most fifty characters of
 * the batch's base 64 text; after the sentinel it emits one final record for a
 * partial batch, if there is one. The queue is the sequence of values the
 * consumer would dequeue, sentinel included.
 */
module Audio {
  import opened Wrappers
  import opened Text
  import opened Base64
  import opened Telemetry

  /** The raw bytes of one captured buffer, as the sink and the encoder see them. */
  type Chunk = seq<Byte>

  /** The most characters of base 64 text one record carries. */
  const ExcerptLimit: nat := 50

  // ---------------------------------------------------------------------------
  // Output paths
  // ---------------------------------------------------------------------------

  /** `f"{output_file}{stream_id}.wav"`. */
  function SinkPath(outputFile: string, streamId: string): string {
    outputFile + streamId + ".wav"
  }

  /** `output_file.replace(".wav", ".mp4")`. */
  function Mp4Path(wavPath: string): string {
    ReplaceAll(wavPath, ".wav", ".mp4")
  }

  /** The `.wav` that ends a string is always replaced; no earlier occurrence can overlap it. */
  lemma {:induction false} ReplaceTrailingWav(x: string)
    ensures ReplaceAll(x + ".wav", ".wav", ".mp4") == ReplaceAll(x, ".wav", ".mp4") + ".mp4"
    decreases |x|
  {
    var s := x + ".wav";
    if |x| == 0 {
      assert s == ".wav";
      assert s[4..] == [];
    } else if |x| < 4 {
      assert s[|x|] == '.' && ".wav"[|x|] != '.';
      assert s[..4] != ".wav";
      assert s[1..] == x[1..] + ".wav";
      ReplaceTrailingWav(x[1..]);
      assert [x[0]] + x[1..] == x;
    } else if x[..4] == ".wav" {
      assert s[..4] == x[..4];
      assert s[4..] == x[4..] + ".wav";
      ReplaceTrailingWav(x[4..]);
      assert ReplaceAll(s, ".wav", ".mp4") == ".mp4" + ReplaceAll(x[4..] + ".wav", ".wav", ".mp4");
      assert ReplaceAll(x, ".wav", ".mp4") == ".mp4" + ReplaceAll(x[4..], ".wav", ".mp4");
    } else {
      assert s[..4] == x[..4];
      assert s[1..] == x[1..] + ".wav";
      ReplaceTrailingWav(x[1..]);
      assert ReplaceAll(s, ".wav", ".mp4") == [x[0]] + ReplaceAll(x[1..] + ".wav", ".wav", ".mp4");
      assert ReplaceAll(x, ".wav", ".mp4") == [x[0]] + ReplaceAll(x[1..], ".wav", ".mp4");
    }
  }

  /** The four characters of `s` from position `i`. */
  function Window(s: string, i: nat): string
    requires i + 4 <= |s|
  {
    s[i..i + 4]
  }

  /** No four consecutive characters of `s` spell `.wav`. */
  predicate NoWav(s: string) {
    forall i: nat | i + 4 <= |s| :: Window(s, i) != ".wav"
  }

  /** Replacement only puts `.` where `.mp4` begins: any other first character is the input's, and the rest follows from the rest. */
  lemma HeadChar(t: string)
    requires |t| >= 1
    ensures ReplaceAll(t, ".wav", ".mp4")[0] != '.' ==>
      ReplaceAll(t, ".wav", ".mp4")[0] == t[0] &&
      ReplaceAll(t, ".wav", ".mp4")[1..] == ReplaceAll(t[1..], ".wav", ".mp4")
  {
    if |t| >= 4 && t[..4] == ".wav" {
      assert ReplaceAll(t, ".wav", ".mp4")[0] == '.';
    }
  }

  /** A string starts with `wav` exactly when its first three characters are `w`, `a`, `v`. */
  lemma WavChars(r: string)
    requires |r| >= 3
    ensures r[..3] == "wav" <==> r[0] == 'w' && r[1] == 'a' && r[2] == 'v'
  {
    if r[0] == 'w' && r[1] == 'a' && r[2] == 'v' {
      assert r[..3] == [r[0], r[1], r[2]];
    }
  }

  /** `.wav` is a point followed by `wav`. */
  lemma DotWav(c: char, x: string)
    requires |x| == 3
    ensures [c] + x == ".wav" <==> c == '.' && x == "wav"
  {
    WavChars(x);
    assert [c] + x == [c, x[0], x[1], x[2]];
    if [c] + x == ".wav" {
      assert x == ([c] + x)[1..];
    }
  }

  /** A result that starts with `wav` comes from an input that starts with `wav`. */
  lemma KeptWav(t: string)
    requires |t| >= 3
    ensures ReplaceAll(t, ".wav", ".mp4")[..3] == "wav" ==> t[..3] == "wav"
  {
    var r := ReplaceAll(t, ".wav", ".mp4");
    WavChars(r);
    WavChars(t);
    if r[0] == 'w' && r[1] == 'a' && r[2] == 'v' {
      HeadChar(t);
      var r1 := ReplaceAll(t[1..], ".wav", ".mp4");
      assert r1 == r[1..] && r1[0] == 'a' && r1[1] == 'v';
      HeadChar(t[1..]);
      var r2 := ReplaceAll(t[2..], ".wav", ".mp4");
      assert t[1..][1..] == t[2..];
      assert r2 == r1[1..] && r2[0] == 'v';
      HeadChar(t[2..]);
    }
  }

  /** After `.replace(".wav", ".mp4")` no `.wav` is left anywhere, including one the replacement could have formed. */
  lemma {:induction false} ReplaceLeavesNoWav(s: string)
    ensures NoWav(ReplaceAll(s, ".wav", ".mp4"))
    decreases |s|
  {
    var r := ReplaceAll(s, ".wav", ".mp4");
    if |s| >= 4 {
      if s[..4] == ".wav" {
        var r' := ReplaceAll(s[4..], ".wav", ".mp4");
        assert r == ".mp4" + r';
        ReplaceLeavesNoWav(s[4..]);
        assert r[1] == 'm' && r[2] == 'p' && r[3] == '4';
        forall i: nat | i + 4 <= |r|
          ensures Window(r, i) != ".wav"
        {
          if i >= 4 {
            assert Window(r, i) == Window(r', i - 4);
          } else if i > 0 {
            assert Window(r, i)[0] == r[i];
          }
        }
      } else {
        var r' := ReplaceAll(s[1..], ".wav", ".mp4");
        assert r == [s[0]] + r';
        ReplaceLeavesNoWav(s[1..]);
        KeptWav(s[1..]);
        forall i: nat | i + 4 <= |r|
          ensures Window(r, i) != ".wav"
        {
          if i >= 1 {
            assert Window(r, i) == Window(r', i - 1);
          } else {
            assert Window(r, 0) == [s[0]] + r'[..3];
            assert s[..4] == [s[0]] + s[1..][..3];
            DotWav(s[0], r'[..3]);
            DotWav(s[0], s[1..][..3]);
          }
        }
      }
    }
  }

  /** A string with no `.wav` in it is left as it is. */
  lemma {:induction false} ReplaceWithoutWav(s: string)
    requires NoWav(s)
    ensures ReplaceAll(s, ".wav", ".mp4") == s
    decreases |s|
  {
    if |s| >= 4 {
      assert Window(s, 0) == s[..4];
      assert NoWav(s[1..]) by {
        forall i: nat | i + 4 <= |s[1..]|
          ensures Window(s[1..], i) != ".wav"
        {
          assert Window(s[1..], i) == Window(s, i + 1);
        }
      }
      ReplaceWithoutWav(s[1..]);
      assert [s[0]] + s[1..] == s;
    }
  }

  /**
   * The video path is the sink path with its trailing `.wav` turned into `.mp4`
   * (and any other `.wav` in the prefix or stream id replaced too); it is as
   * long as the sink path, and no `.wav` is left in it.
   */
  lemma Mp4PathOfSink(outputFile: string, streamId: string)
    ensures Mp4Path(SinkPath(outputFile, streamId)) == ReplaceAll(outputFile + streamId, ".wav", ".mp4") + ".mp4"
    ensures |Mp4Path(SinkPath(outputFile, streamId))| == |SinkPath(outputFile, streamId)|
    ensures NoWav(Mp4Path(SinkPath(outputFile, streamId)))
  {
    ReplaceTrailingWav(outputFile + streamId);
    ReplaceLeavesNoWav(SinkPath(outputFile, streamId));
  }

  /** When neither the prefix nor the stream id contains `.wav`, the video path is them followed by `.mp4`. */
  lemma Mp4PathPlain(outputFile: string, streamId: string)
    requires NoWav(outputFile + streamId)
    ensures Mp4Path(SinkPath(outputFile, streamId)) == outputFile + streamId + ".mp4"
  {
    ReplaceTrailingWav(outputFile + streamId);
    ReplaceWithoutWav(outputFile + streamId);
  }

  // ---------------------------------------------------------------------------
  // The queue and the sink
  // ---------------------------------------------------------------------------

  /** The chunks the consumer dequeues: those before the first sentinel. */
  function Drained(queue: seq<Option<Chunk>>): seq<Chunk>
    decreases |queue|
  {
    if queue == [] then []
    else match queue[0]
      case None => []
      case Some(chunk) => [chunk] + Drained(queue[1..])
  }

  /** The queue holding the given chunks, in order. */
  function Enqueued(chunks: seq<Chunk>): (q: seq<Option<Chunk>>)
    ensures |q| == |chunks| && None !in q
  {
    seq(|chunks|, i requires 0 <= i < |chunks| => Some(chunks[i]))
  }

  /** Exactly the chunks before the sentinel are dequeued; nothing after it is. */
  lemma {:induction false} DrainedStopsAtSentinel(chunks: seq<Chunk>, after: seq<Option<Chunk>>)
    ensures Drained(Enqueued(chunks) + [None] + after) == chunks
    decreases |chunks|
  {
    var q := Enqueued(chunks) + [None] + after;
    if chunks != [] {
      assert q[0] == Some(chunks[0]);
      assert q[1..] == Enqueued(chunks[1..]) + [None] + after;
      DrainedStopsAtSentinel(chunks[1..], after);
      assert [chunks[0]] + chunks[1..] == chunks;
    }
  }

  /** Draining from position `i` either stops at a sentinel there or takes that chunk and goes on. */
  lemma DrainedStep(queue: seq<Option<Chunk>>, i: nat)
    requires i < |queue|
    ensures Drained(queue[i..]) == match queue[i]
      case None => []
      case Some(chunk) => [chunk] + Drained(queue[i + 1..])
  {
    assert queue[i..][0] == queue[i];
    assert queue[i..][1..] == queue[i + 1..];
  }

  /** Taking one more chunk keeps the drained chunks split between those taken and those still queued. */
  lemma DrainedAdvance(queue: seq<Option<Chunk>>, i: nat, taken: seq<Chunk>)
    requires i < |queue| && queue[i].Some? && None in queue[i..]
    requires Drained(queue) == taken + Drained(queue[i..])
    ensures Drained(queue) == (taken + [queue[i].value]) + Drained(queue[i + 1..])
    ensures None in queue[i + 1..]
  {
    DrainedStep(queue, i);
    assert queue[i..] == [queue[i]] + queue[i + 1..];
  }

  /** The concatenation of a sequence of sequences, as `b"".join` or `"".join`. */
  function Concat<T>(parts: seq<seq<T>>): seq<T>
    decreases |parts|
  {
    if parts == [] then [] else Concat(parts[..|parts| - 1]) + parts[|parts| - 1]
  }

  lemma ConcatSnoc<T>(parts: seq<seq<T>>, part: seq<T>)
    ensures Concat(parts + [part]) == Concat(parts) + part
  {
    assert (parts + [part])[..|parts|] == parts;
  }

  /** A `wave` writer: the header fields set on it and the frames written to it. */
  class WavWriter {
    const path: string
    var nchannels: int
    var sampwidth: int
    var framerate: int
    var frames: seq<Byte>
    var closed: bool

    /** `wave.open(path, "wb")`: no header field set yet, nothing written. */
    constructor Open(path: string)
      ensures this.path == path
      ensures nchannels == 0 && sampwidth == 0 && framerate == 0 && frames == [] && !closed
    {
      this.path := path;
      nchannels, sampwidth, framerate, frames, closed := 0, 0, 0, [], false;
    }

    method SetNChannels(n: int)
      modifies this
      ensures nchannels == n
      ensures sampwidth == old(sampwidth) && framerate == old(framerate) && frames == old(frames) && closed == old(closed)
    {
      nchannels := n;
    }

    method SetSampWidth(n: int)
      modifies this
      ensures sampwidth == n
      ensures nchannels == old(nchannels) && framerate == old(framerate) && frames == old(frames) && closed == old(closed)
    {
      sampwidth := n;
    }

    method SetFrameRate(n: int)
      modifies this
      ensures framerate == n
      ensures nchannels == old(nchannels) && sampwidth == old(sampwidth) && frames == old(frames) && closed == old(closed)
    {
      framerate := n;
    }

    /** `writeframes(data)`: the raw bytes are appended, never reordered. */
    method WriteFrames(data: Chunk)
      requires !closed
      modifies this
      ensures frames == old(frames) + data
      ensures nchannels == old(nchannels) && sampwidth == old(sampwidth) && framerate == old(framerate) && closed == old(closed)
    {
      frames := frames + data;
    }

    /** Leaving the `with` block closes the writer. */
    method Close()
      modifies this
      ensures closed
      ensures nchannels == old(nchannels) && sampwidth == old(sampwidth) && framerate == old(framerate) && frames == old(frames)
    {
      closed := true;
    }
  }

  // ---------------------------------------------------------------------------
  // Batches
  // ---------------------------------------------------------------------------

  /** One emitted batch: whether it is the final flush, how many chunks it covers and its logged excerpt. */
  datatype Batch = Batch(final: bool, count: nat, excerpt: string)

  /** The base 64 text of each chunk, in order. */
  function Encoded(chunks: seq<Chunk>): (texts: seq<string>)
    ensures |texts| == |chunks|
  {
    seq(|chunks|, i requires 0 <= i < |chunks| => Encode(chunks[i]))
  }

  /** The first fifty characters of the joined texts. */
  function Excerpt(texts: seq<string>): string {
    Take(Concat(texts), ExcerptLimit)
  }

  /** The batches flushed inside the loop: one per complete group of ten texts, in order. */
  function FullBatches(texts: seq<string>): (batches: seq<Batch>)
    ensures |batches| == |texts| / 10
    decreases |texts|
  {
    if |texts| < 10 then []
    else [Batch(false, 10, Excerpt(texts[..10]))] + FullBatches(texts[10..])
  }

  /** All batches of a stream: the complete groups, then the remainder if it is not empty. */
  function Batches(texts: seq<string>): seq<Batch> {
    var rest := |texts| % 10;
    FullBatches(texts) + if rest != 0 then [Batch(true, rest, Excerpt(texts[|texts| - rest..]))] else []
  }

  /** The OTLP record of a batch. */
  function BatchRecord(streamId: string, batch: Batch): OtlpLog {
    OtlpLog("", "", "INFO",
            (if batch.final then "Final audio chunk batch for stream " else "Audio chunk batch for stream ") + streamId,
            [Attribute("encoded_audio_batch", StringValue(batch.excerpt))])
  }

  /** The local log line of a batch. */
  function BatchLine(streamId: string, batch: Batch): LogLine {
    LogLine(Info, (if batch.final then "Final Batch Log sent: " else "Batch Log sent: ")
                  + NatToDecimal(batch.count) + " chunks for stream " + streamId)
  }

  function BatchRecords(streamId: string, batches: seq<Batch>): (r: seq<OtlpLog>)
    ensures |r| == |batches|
  {
    seq(|batches|, i requires 0 <= i < |batches| => BatchRecord(streamId, batches[i]))
  }

  function BatchLines(streamId: string, batches: seq<Batch>): (r: seq<LogLine>)
    ensures |r| == |batches|
  {
    seq(|batches|, i requires 0 <= i < |batches| => BatchLine(streamId, batches[i]))
  }

  function TotalCount(batches: seq<Batch>): nat
    decreases |batches|
  {
    if batches == [] then 0 else batches[0].count + TotalCount(batches[1..])
  }

  /** Appending one text adds a batch exactly when it completes a group of ten. */
  lemma {:induction false} FullBatchesSnoc(texts: seq<string>, text: string)
    ensures var all := texts + [text];
      FullBatches(all) ==
        if |all| % 10 == 0 then FullBatches(texts) + [Batch(false, 10, Excerpt(all[|all| - 10..]))]
        else FullBatches(texts)
    decreases |texts|
  {
    var all := texts + [text];
    if |texts| == 9 {
      assert all[..10] == all && all[10..] == [] && all[|all| - 10..] == all;
    } else if |texts| >= 10 {
      var head, tail := Batch(false, 10, Excerpt(texts[..10])), texts[10..];
      assert all[..10] == texts[..10];
      assert all[10..] == tail + [text];
      assert FullBatches(all) == [head] + FullBatches(tail + [text]);
      assert FullBatches(texts) == [head] + FullBatches(tail);
      FullBatchesSnoc(tail, text);
      assert |tail + [text]| % 10 == |all| % 10;
      if |all| % 10 == 0 {
        var last := Batch(false, 10, Excerpt(all[|all| - 10..]));
        assert (tail + [text])[|tail + [text]| - 10..] == all[|all| - 10..];
        assert FullBatches(tail + [text]) == FullBatches(tail) + [last];
        assert [head] + (FullBatches(tail) + [last]) == ([head] + FullBatches(tail)) + [last];
        assert FullBatches(all) == FullBatches(texts) + [last];
      } else {
        assert FullBatches(tail + [text]) == FullBatches(tail);
        assert FullBatches(all) == FullBatches(texts);
      }
    }
  }

  /** Encoding a chunk more appends its text. */
  lemma EncodedSnoc(chunks: seq<Chunk>, chunk: Chunk)
    ensures Encoded(chunks + [chunk]) == Encoded(chunks) + [Encode(chunk)]
  {
  }

  lemma BatchRecordsSnoc(streamId: string, batches: seq<Batch>, batch: Batch)
    ensures BatchRecords(streamId, batches + [batch]) == BatchRecords(streamId, batches) + [BatchRecord(streamId, batch)]
    ensures BatchLines(streamId, batches + [batch]) == BatchLines(streamId, batches) + [BatchLine(streamId, batch)]
  {
  }

  /** The accumulator holds the texts after the last complete group of ten. */
  ghost predicate OpenGroup(texts: seq<string>, accumulator: seq<string>) {
    |accumulator| == |texts| % 10 && accumulator == texts[|texts| - |accumulator|..]
  }

  /**
   * The value-level state of the consumer loop after `i` dequeues: `taken` is
   * what was dequeued, `texts` its encodings, the accumulator holds those of
   * the open group (fewer than ten), and `emitted` holds one batch per closed
   * group.
   */
  ghost predicate LoopState(queue: seq<Option<Chunk>>, i: nat, taken: seq<Chunk>, texts: seq<string>,
                            accumulator: seq<string>, emitted: seq<Batch>) {
    i <= |queue| && None in queue[i..] &&
    Drained(queue) == taken + Drained(queue[i..]) &&
    texts == Encoded(taken) && OpenGroup(texts, accumulator) && emitted == FullBatches(texts)
  }

  /** One more text lengthens the open group by that text, or closes it at ten. */
  lemma OpenGroupSnoc(texts: seq<string>, accumulator: seq<string>, text: string)
    requires OpenGroup(texts, accumulator)
    ensures |accumulator| + 1 < 10 ==> OpenGroup(texts + [text], accumulator + [text])
    ensures |accumulator| + 1 >= 10 ==> |accumulator| + 1 == 10 && OpenGroup(texts + [text], [])
    ensures var all := texts + [text]; |accumulator| + 1 == 10 ==> all[|all| - 10..] == accumulator + [text]
  {
    var all := texts + [text];
    var k := |accumulator|;
    assert all[|all| - (k + 1)..] == accumulator + [text];
    assert all[|all|..] == [];
  }

  /** A chunk that leaves the open group short of ten keeps `LoopState` with no new batch. */
  lemma LoopStepOpen(queue: seq<Option<Chunk>>, i: nat, taken: seq<Chunk>, texts: seq<string>,
                     accumulator: seq<string>, emitted: seq<Batch>, chunk: Chunk, text: string)
    requires LoopState(queue, i, taken, texts, accumulator, emitted) && i < |queue| && queue[i] == Some(chunk)
    requires text == Encode(chunk) && |accumulator| + 1 < 10
    ensures LoopState(queue, i + 1, taken + [chunk], texts + [text], accumulator + [text], emitted)
  {
    DrainedAdvance(queue, i, taken);
    EncodedSnoc(taken, chunk);
    OpenGroupSnoc(texts, accumulator, text);
    FullBatchesSnoc(texts, text);
  }

  /** A chunk that completes a group of ten closes exactly the next full batch. */
  lemma LoopStepClose(queue: seq<Option<Chunk>>, i: nat, taken: seq<Chunk>, texts: seq<string>,
                      accumulator: seq<string>, emitted: seq<Batch>, chunk: Chunk, text: string)
    requires LoopState(queue, i, taken, texts, accumulator, emitted) && i < |queue| && queue[i] == Some(chunk)
    requires text == Encode(chunk) && |accumulator| + 1 >= 10
    ensures |accumulator| + 1 == 10
    ensures LoopState(queue, i + 1, taken + [chunk], texts + [text], [],
                      emitted + [Batch(false, 10, Excerpt(accumulator + [text]))])
  {
    DrainedAdvance(queue, i, taken);
    EncodedSnoc(taken, chunk);
    OpenGroupSnoc(texts, accumulator, text);
    FullBatchesSnoc(texts, text);
  }

  /** When the loop stops at the sentinel everything before it has been taken. */
  lemma LoopExit(queue: seq<Option<Chunk>>, i: nat, taken: seq<Chunk>, texts: seq<string>,
                 accumulator: seq<string>, emitted: seq<Batch>)
    requires LoopState(queue, i, taken, texts, accumulator, emitted) && i < |queue| && queue[i].None?
    ensures taken == Drained(queue)
  {
    DrainedStep(queue, i);
    assert taken + [] == taken;
  }

  /** After the sentinel: the leftover accumulator is the final batch, if it is not empty. */
  lemma FinalStep(streamId: string, texts: seq<string>, accumulator: seq<string>)
    requires OpenGroup(texts, accumulator)
    ensures accumulator == [] ==> Batches(texts) == FullBatches(texts)
    ensures accumulator != [] ==>
      var batch := Batch(true, |accumulator|, Excerpt(accumulator));
      BatchRecords(streamId, Batches(texts)) == BatchRecords(streamId, FullBatches(texts)) + [BatchRecord(streamId, batch)] &&
      BatchLines(streamId, Batches(texts)) == BatchLines(streamId, FullBatches(texts)) + [BatchLine(streamId, batch)]
  {
    var rest := |texts| % 10;
    if accumulator == [] {
      assert rest == 0;
      assert Batches(texts) == FullBatches(texts) + [];
    } else {
      var batch := Batch(true, |accumulator|, Excerpt(accumulator));
      assert texts[|texts| - rest..] == accumulator;
      assert Batches(texts) == FullBatches(texts) + [batch];
      BatchRecordsSnoc(streamId, FullBatches(texts), batch);
    }
  }

  /** The in-loop flush of a full accumulator: one OTLP record, then one local line. */
  method SendBatch(tel: Emitter, streamId: string, accumulator: seq<string>)
    requires |accumulator| == 10
    modifies tel
    ensures var batch := Batch(false, 10, Excerpt(accumulator));
      tel.records == old(tel.records) + [BatchRecord(streamId, batch)] &&
      tel.lines == old(tel.lines) + [BatchLine(streamId, batch)]
    ensures tel.spans == old(tel.spans)
  {
    assert accumulator[..10] == accumulator;
    var combinedData := Concat(accumulator[..10]);
    tel.SendOtlpLog("", "", "Audio chunk batch for stream " + streamId,
                    [Attribute("encoded_audio_batch", StringValue(Take(combinedData, ExcerptLimit)))]);
    tel.Log(Info, "Batch Log sent: " + NatToDecimal(|accumulator|) + " chunks for stream " + streamId);
  }

  /** The flush after the sentinel of a non-empty partial accumulator. */
  method SendFinalBatch(tel: Emitter, streamId: string, accumulator: seq<string>)
    requires accumulator != []
    modifies tel
    ensures var batch := Batch(true, |accumulator|, Excerpt(accumulator));
      tel.records == old(tel.records) + [BatchRecord(streamId, batch)] &&
      tel.lines == old(tel.lines) + [BatchLine(streamId, batch)]
    ensures tel.spans == old(tel.spans)
  {
    var combinedData := Concat(accumulator);
    tel.SendOtlpLog("", "", "Final audio chunk batch for stream " + streamId,
                    [Attribute("encoded_audio_batch", StringValue(Take(combinedData, ExcerptLimit)))]);
    tel.Log(Info, "Final Batch Log sent: " + NatToDecimal(|accumulator|) + " chunks for stream " + streamId);
  }

  /** The telemetry side of the loop state: one record and one line per emitted batch, no span. */
  ghost predicate Logged(tel: Emitter, streamId: string, records: seq<OtlpLog>, lines: seq<LogLine>,
                         spans: seq<SpanEvent>, emitted: seq<Batch>)
    reads tel
  {
    tel.records == records + BatchRecords(streamId, emitted) &&
    tel.lines == lines + BatchLines(streamId, emitted) &&
    tel.spans == spans
  }

  /** The sink side of the loop state: the writer is open and holds the taken chunks after what it held before. */
  ghost predicate Sunk(wf: WavWriter, frames: seq<Byte>, taken: seq<Chunk>)
    reads wf
  {
    !wf.closed && wf.frames == frames + Concat(taken)
  }

  /** Flushing a full accumulator emits the next batch. */
  method FlushGroup(tel: Emitter, streamId: string, accumulator: seq<string>, ghost emitted: seq<Batch>,
                    ghost records: seq<OtlpLog>, ghost lines: seq<LogLine>, ghost spans: seq<SpanEvent>)
    returns (ghost emitted': seq<Batch>)
    requires |accumulator| == 10 && Logged(tel, streamId, records, lines, spans, emitted)
    modifies tel
    ensures emitted' == emitted + [Batch(false, 10, Excerpt(accumulator))]
    ensures Logged(tel, streamId, records, lines, spans, emitted')
  {
    var batch := Batch(false, 10, Excerpt(accumulator));
    BatchRecordsSnoc(streamId, emitted, batch);
    emitted' := emitted + [batch];
    SendBatch(tel, streamId, accumulator);
  }

  /**
   * The body of the consumer loop for one dequeued chunk: write it to the sink,
   * append its encoding, and flush the accumulator once it holds ten.
   */
  method ConsumeChunk(wf: WavWriter, tel: Emitter, streamId: string, data: Chunk, accumulator: seq<string>, chunkCounter: nat,
                      ghost queue: seq<Option<Chunk>>, ghost i: nat, ghost taken: seq<Chunk>, ghost texts: seq<string>,
                      ghost emitted: seq<Batch>, ghost frames: seq<Byte>, ghost records: seq<OtlpLog>,
                      ghost lines: seq<LogLine>, ghost spans: seq<SpanEvent>)
    returns (accumulator': seq<string>, chunkCounter': nat, ghost taken': seq<Chunk>, ghost texts': seq<string>,
             ghost emitted': seq<Batch>)
    requires i < |queue| && queue[i] == Some(data)
    requires LoopState(queue, i, taken, texts, accumulator, emitted) && chunkCounter == |accumulator|
    requires Sunk(wf, frames, taken) && Logged(tel, streamId, records, lines, spans, emitted)
    modifies wf, tel
    ensures LoopState(queue, i + 1, taken', texts', accumulator', emitted') && chunkCounter' == |accumulator'|
    ensures Sunk(wf, frames, taken') && Logged(tel, streamId, records, lines, spans, emitted')
    ensures wf.nchannels == old(wf.nchannels) && wf.sampwidth == old(wf.sampwidth) && wf.framerate == old(wf.framerate)
  {
    ConcatSnoc(taken, data);
    taken' := taken + [data];
    wf.WriteFrames(data);

    var base64Chunk := Encode(data);
    texts' := texts + [base64Chunk];
    accumulator' := accumulator + [base64Chunk];
    chunkCounter' := chunkCounter + 1;

    if chunkCounter' >= 10 {
      LoopStepClose(queue, i, taken, texts, accumulator, emitted, data, base64Chunk);
      emitted' := FlushGroup(tel, streamId, accumulator', emitted, records, lines, spans);
      chunkCounter' := 0;
      accumulator' := [];
    } else {
      LoopStepOpen(queue, i, taken, texts, accumulator, emitted, data, base64Chunk);
      emitted' := emitted;
    }
  }

  /**
   * The consumer loop: dequeue until the sentinel, write each chunk to the sink,
   * encode it, and flush every complete group of ten. What is left in the
   * accumulator is the encoding of the trailing partial group.
   */
  method DrainQueue(wf: WavWriter, streamId: string, queue: seq<Option<Chunk>>, tel: Emitter)
    returns (accumulator: seq<string>)
    requires None in queue && !wf.closed
    modifies wf, tel
    ensures wf.frames == old(wf.frames) + Concat(Drained(queue))
    ensures OpenGroup(Encoded(Drained(queue)), accumulator)
    ensures tel.records == old(tel.records) + BatchRecords(streamId, FullBatches(Encoded(Drained(queue))))
    ensures tel.lines == old(tel.lines) + BatchLines(streamId, FullBatches(Encoded(Drained(queue))))
    ensures tel.spans == old(tel.spans)
    ensures !wf.closed && wf.nchannels == old(wf.nchannels) && wf.sampwidth == old(wf.sampwidth) && wf.framerate == old(wf.framerate)
  {
    var chunkCounter := 0;
    accumulator := [];
    ghost var taken: seq<Chunk> := [];
    ghost var texts: seq<string> := [];
    ghost var emitted: seq<Batch> := [];
    var i := 0;
    while true
      invariant LoopState(queue, i, taken, texts, accumulator, emitted) && chunkCounter == |accumulator|
      invariant Sunk(wf, old(wf.frames), taken) && Logged(tel, streamId, old(tel.records), old(tel.lines), old(tel.spans), emitted)
      invariant wf.nchannels == old(wf.nchannels) && wf.sampwidth == old(wf.sampwidth) && wf.framerate == old(wf.framerate)
      decreases |queue| - i
    {
      var data := queue[i];
      if data.None? {
        LoopExit(queue, i, taken, texts, accumulator, emitted);
        break;
      }
      accumulator, chunkCounter, taken, texts, emitted :=
        ConsumeChunk(wf, tel, streamId, data.value, accumulator, chunkCounter, queue, i, taken, texts, emitted,
                     old(wf.frames), old(tel.records), old(tel.lines), old(tel.spans));
      i := i + 1;
    }
  }

  /** `encode_audio_chunks`, everything before the video conversion and upload. */
  method EncodeAudioChunks(outputFile: string, streamId: string, queue: seq<Option<Chunk>>, tel: Emitter)
    returns (wf: WavWriter, mp4Output: string)
    requires None in queue
    modifies tel
    ensures fresh(wf)
    ensures wf.path == SinkPath(outputFile, streamId)
    ensures wf.nchannels == 1 && wf.sampwidth == 2 && wf.framerate == 44100 && wf.closed
    ensures wf.frames == Concat(Drained(queue))
    ensures tel.records == old(tel.records) + BatchRecords(streamId, Batches(Encoded(Drained(queue))))
    ensures tel.lines == old(tel.lines) + BatchLines(streamId, Batches(Encoded(Drained(queue)))) + [LogLine(Info, "Audio saved to " + wf.path)]
    ensures tel.spans == old(tel.spans)
    ensures mp4Output == Mp4Path(wf.path)
  {
    var outputPath := outputFile + streamId + ".wav";
    wf := new WavWriter.Open(outputPath);
    wf.SetNChannels(1);
    wf.SetSampWidth(2);
    wf.SetFrameRate(44100);

    var accumulator := DrainQueue(wf, streamId, queue, tel);
    FinalStep(streamId, Encoded(Drained(queue)), accumulator);
    if accumulator != [] {
      SendFinalBatch(tel, streamId, accumulator);
    }
    tel.Log(Info, "Audio saved to " + outputPath);
    wf.Close();

    mp4Output := ReplaceAll(outputPath, ".wav", ".mp4");
  }

  // ---------------------------------------------------------------------------
  // Properties of the batches
  // ---------------------------------------------------------------------------

  /** n chunks give floor(n / 10) full batches and one more exactly when n is not a multiple of ten. */
  lemma BatchCount(chunks: seq<Chunk>)
    ensures |Batches(Encoded(chunks))| == |chunks| / 10 + (if |chunks| % 10 != 0 then 1 else 0)
  {
  }

  /** The `j`-th group of (at most) ten items. */
  function Group<T>(items: seq<T>, j: nat): seq<T>
    requires j * 10 <= |items|
  {
    var end := if (j + 1) * 10 <= |items| then (j + 1) * 10 else |items|;
    items[j * 10..end]
  }

  /** The texts of a slice of chunks are the same slice of their texts. */
  lemma EncodedSlice(chunks: seq<Chunk>, lo: nat, hi: nat)
    requires lo <= hi <= |chunks|
    ensures Encoded(chunks)[lo..hi] == Encoded(chunks[lo..hi])
  {
  }

  /** The `j`-th full batch covers texts `10 j` to `10 j + 10`. */
  lemma {:induction false} FullBatchAt(texts: seq<string>, j: nat)
    requires j < |texts| / 10
    ensures j * 10 + 10 <= |texts|
    ensures FullBatches(texts)[j] == Batch(false, 10, Excerpt(texts[j * 10..j * 10 + 10]))
    decreases j
  {
    if j > 0 {
      FullBatchAt(texts[10..], j - 1);
      assert texts[10..][(j - 1) * 10..(j - 1) * 10 + 10] == texts[j * 10..j * 10 + 10];
    }
  }

  /** A batch inside the complete groups covers ten chunks and is not final. */
  lemma FullBatchOfChunks(chunks: seq<Chunk>, j: nat)
    requires j < |chunks| / 10
    ensures (j + 1) * 10 <= |chunks| && |Group(chunks, j)| == 10
    ensures Batches(Encoded(chunks))[j] == Batch(false, 10, Excerpt(Encoded(Group(chunks, j))))
  {
    var texts := Encoded(chunks);
    FullBatchAt(texts, j);
    assert Batches(texts)[j] == FullBatches(texts)[j];
    EncodedSlice(chunks, j * 10, j * 10 + 10);
    assert Group(chunks, j) == chunks[j * 10..j * 10 + 10];
  }

  /** The batch after the complete groups holds the remaining texts and is final. */
  lemma FinalBatchAt(texts: seq<string>, j: nat)
    requires |texts| / 10 <= j < |Batches(texts)|
    ensures j == |texts| / 10 && |texts| % 10 != 0
    ensures Batches(texts)[j] == Batch(true, |texts| % 10, Excerpt(texts[|texts| - |texts| % 10..]))
  {
  }

  /** The batch after the complete groups covers the remainder and is final. */
  lemma FinalBatchOfChunks(chunks: seq<Chunk>, j: nat)
    requires |chunks| / 10 <= j < |Batches(Encoded(chunks))|
    ensures j * 10 < |chunks| && |Group(chunks, j)| == |chunks| % 10 > 0
    ensures Batches(Encoded(chunks))[j] == Batch(true, |Group(chunks, j)|, Excerpt(Encoded(Group(chunks, j))))
  {
    var n := |chunks|;
    var rest := n % 10;
    var texts := Encoded(chunks);
    FinalBatchAt(texts, j);
    assert j * 10 == n - rest && n < j * 10 + 10;
    var g := chunks[n - rest..n];
    assert Group(chunks, j) == g;
    EncodedSlice(chunks, n - rest, n);
    assert texts[n - rest..] == texts[n - rest..n];
    assert Encoded(g) == texts[n - rest..];
  }

  /**
   * The `j`-th batch covers the `j`-th group of (at most) ten chunks: it is final
   * exactly when the group is a partial remainder, its count is the group's
   * size, and its excerpt is the first fifty characters of the group's joined
   * base 64 text.
   */
  lemma BatchAt(chunks: seq<Chunk>, j: nat)
    requires j < |Batches(Encoded(chunks))|
    ensures j * 10 < |chunks|
    ensures var g := Group(chunks, j);
      Batches(Encoded(chunks))[j] == Batch(|g| < 10, |g|, Excerpt(Encoded(g)))
    ensures 0 < Batches(Encoded(chunks))[j].count <= 10
    ensures |Batches(Encoded(chunks))[j].excerpt| <= ExcerptLimit
    ensures Batches(Encoded(chunks))[j].excerpt <= Concat(Encoded(Group(chunks, j)))
  {
    if j < |chunks| / 10 {
      FullBatchOfChunks(chunks, j);
    } else {
      FinalBatchOfChunks(chunks, j);
    }
  }

  lemma {:induction false} TotalCountAppend(a: seq<Batch>, b: seq<Batch>)
    ensures TotalCount(a + b) == TotalCount(a) + TotalCount(b)
    decreases |a|
  {
    if a == [] {
      assert a + b == b;
    } else {
      assert (a + b)[0] == a[0];
      assert (a + b)[1..] == a[1..] + b;
      TotalCountAppend(a[1..], b);
    }
  }

  lemma {:induction false} FullBatchesTotal(texts: seq<string>)
    ensures TotalCount(FullBatches(texts)) == |texts| - |texts| % 10
    decreases |texts|
  {
    if |texts| >= 10 {
      var head := [Batch(false, 10, Excerpt(texts[..10]))];
      FullBatchesTotal(texts[10..]);
      TotalCountAppend(head, FullBatches(texts[10..]));
    }
  }

  /** Every dequeued chunk is accounted for in exactly one batch: the counts add up to the number of chunks. */
  lemma BatchTotal(chunks: seq<Chunk>)
    ensures TotalCount(Batches(Encoded(chunks))) == |chunks|
  {
    var texts := Encoded(chunks);
    var rest := |texts| % 10;
    FullBatchesTotal(texts);
    var tail := if rest != 0 then [Batch(true, rest, Excerpt(texts[|texts| - rest..]))] else [];
    TotalCountAppend(FullBatches(texts), tail);
  }

  /** Ten chunks then the sentinel give one batch of ten and no empty final batch. */
  lemma TenChunks(chunks: seq<Chunk>)
    requires |chunks| == 10
    ensures Batches(Encoded(chunks)) == [Batch(false, 10, Excerpt(Encoded(chunks)))]
  {
    var texts := Encoded(chunks);
    assert texts[..10] == texts && texts[10..] == [];
  }

  /** Twenty-three chunks give two full batches of ten and a final batch of three. */
  lemma TwentyThreeChunks(chunks: seq<Chunk>)
    requires |chunks| == 23
    ensures |Batches(Encoded(chunks))| == 3
    ensures Batches(Encoded(chunks))[0].count == 10 && !Batches(Encoded(chunks))[0].final
    ensures Batches(Encoded(chunks))[1].count == 10 && !Batches(Encoded(chunks))[1].final
    ensures Batches(Encoded(chunks))[2].count == 3 && Batches(Encoded(chunks))[2].final
  {
    BatchCount(chunks);
    BatchAt(chunks, 0);
    BatchAt(chunks, 1);
    BatchAt(chunks, 2);
  }

}
