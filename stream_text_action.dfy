/**
 * The streaming action: the single-flight guard, one streaming session from the
 * API-key check to the last flush, the cleanup paths, and the rate-limit countdown
 * that retries the action when it runs out.
 */
module StreamTextAction {
  import opened Wrappers
  import opened KotlinStrings
  import opened Json
  import opened Extraction
  import opened Cancellation
  import opened Chunking
  import opened Countdown
  import opened EditorText

  // ---------------------------------------------------------------- requests and responses

  const Endpoint: string := "https://openrouter.ai/api/v1/chat/completions"
  const ApiKeyMessage: string := "Please configure your OpenRouter API key in Settings -> Tools -> Inline AI Chat Settings\n"
  const NoErrorDetails: string := "No error details available"

  /** The settings a session reads: the key, the selected model and the system prompt. */
  datatype SettingsView = SettingsView(apiKey: string, model: string, systemPrompt: string)

  datatype Message = Message(role: string, content: string)

  /** The chat-completion request: endpoint, bearer header and the JSON body's fields. */
  datatype Request = Request(url: string, authorization: string, model: string, messages: seq<Message>, stream: bool)

  /** A response body, read either whole (`string()`) or line by line (`readUtf8Line()`). */
  datatype Body = Body(text: string, lines: seq<Line>)

  datatype Response = Response(code: int, body: Option<Body>)

  function BuildRequest(settings: SettingsView, context: string): (r: Request)
    ensures r.url == Endpoint && r.authorization == "Bearer " + settings.apiKey
    ensures r.model == settings.model && r.stream
    ensures r.messages == [Message("system", settings.systemPrompt), Message("user", context)]
  {
    Request(Endpoint, "Bearer " + settings.apiKey, settings.model,
            [Message("system", settings.systemPrompt), Message("user", context)], true)
  }

  /** OkHttp's `isSuccessful`: a 2xx status, so never 429. */
  predicate IsSuccessful(code: int): (ok: bool)
    ensures ok ==> code != TooManyRequests
    ensures code == 200 ==> ok
  {
    200 <= code < 300
  }

  /** `response.body?.string() ?: "No error details available"`: the body's text, or a fixed note without a body. */
  function ErrorBody(response: Response): (r: string)
    ensures response.body.None? ==> r == NoErrorDetails
    ensures response.body.Some? ==> r == response.body.value.text
  {
    match response.body
    case Some(b) => b.text
    case None => NoErrorDetails
  }

  /** The text inserted when the first frame has none of the recognised keys. */
  function UnknownFormatMessage(model: string): string
  {
    "\nError: Unexpected response format from model.\nPlease report this issue with the model name: " + model + "\n"
  }

  // ---------------------------------------------------------------- what a session does

  datatype SessionEnd =
    | MissingApiKey                 // message inserted, no request sent
    | CancelledBeforeRequest        // the poll before `execute()`
    | HttpRateLimit(seconds: int)   // status 429: a countdown of `seconds`
    | HttpFailure(code: int)        // any other unsuccessful status
    | NoResponseBody
    | Streamed(outcome: Outcome)    // the read loop ran

  /** The session ended by an exception: the marker is removed and an error is reported. */
  predicate Failed(end: SessionEnd)
  {
    match end
    case CancelledBeforeRequest => true
    case HttpFailure(_) => true
    case NoResponseBody => true
    case Streamed(o) => !LeftNormally(o.stop) && !o.stop.InBandRateLimit?
    case _ => false
  }

  /** How a session ends, given the settings, the context, the server and the user. */
  function SessionResult(settings: SettingsView, context: string, server: Request -> Response,
                         parse: string -> Frame, cancel: CancelPoint): (end: SessionEnd)
    ensures end == MissingApiKey <==> settings.apiKey == []
    ensures end.HttpRateLimit? ==> IsInt32(end.seconds)
  {
    if settings.apiKey == [] then MissingApiKey
    else if Canceled(cancel, 0) then CancelledBeforeRequest
    else ResponseResult(server(BuildRequest(settings, context)), parse, cancel)
  }

  /** How a session that sent its request ends, given the response. */
  function ResponseResult(response: Response, parse: string -> Frame, cancel: CancelPoint): (end: SessionEnd)
    ensures end.HttpRateLimit? ==> IsInt32(end.seconds)
    ensures end.HttpRateLimit? || end.HttpFailure? <==> !IsSuccessful(response.code)
    ensures end.HttpRateLimit? <==> response.code == TooManyRequests
    ensures end.HttpRateLimit? ==> end.seconds == RetrySecondsTransport(parse(ErrorBody(response)))
    ensures !IsSuccessful(response.code) && response.code != TooManyRequests ==> end == HttpFailure(response.code)
    ensures IsSuccessful(response.code) && response.body.None? ==> end == NoResponseBody
    ensures IsSuccessful(response.code) && response.body.Some? ==>
      end.Streamed? && end.outcome == Stream(Effects(response.body.value.lines, parse), cancel)
  {
    if !IsSuccessful(response.code) then
      if response.code == TooManyRequests then HttpRateLimit(RetrySecondsTransport(parse(ErrorBody(response))))
      else HttpFailure(response.code)
    else if response.body.None? then NoResponseBody
    else Streamed(Stream(Effects(response.body.value.lines, parse), cancel))
  }

  /** The document after a streaming session: the written text at the start offset, or the padding removed. */
  function StreamedDoc(doc: string, init: nat, written: string): string
    requires init <= |doc|
  {
    if written == [] then doc[..init] else Inserted(doc, init, written)
  }

  /**
   * The document after a session that started at `init`: the text before the start
   * offset is never touched, and only the API-key hint or streamed text changes it.
   */
  function DocAfter(doc: string, init: nat, end: SessionEnd): (r: string)
    requires init <= |doc|
    ensures init <= |r| && r[..init] == doc[..init]
    ensures !end.MissingApiKey? && !end.Streamed? ==> r == doc
    ensures end.Streamed? && end.outcome.written == [] ==> r == doc[..init]
    ensures end.Streamed? && end.outcome.written != [] ==> |r| == |doc| + |end.outcome.written|
  {
    match end
    case MissingApiKey => InsertedParts(doc, init, ApiKeyMessage); Inserted(doc, init, ApiKeyMessage)
    case Streamed(o) => InsertedParts(doc, init, o.written); StreamedDoc(doc, init, o.written)
    case _ => doc
  }

  /**
   * What a session inserts at the start offset: the API-key hint when the key is
   * missing, and the written text after a stream that wrote some; the rest of the
   * document follows unchanged.
   */
  lemma DocAfterInserts(doc: string, init: nat, end: SessionEnd)
    requires init <= |doc|
    ensures var r := DocAfter(doc, init, end);
      end.Streamed? && end.outcome.written != [] ==>
        && r[init..init + |end.outcome.written|] == end.outcome.written
        && r[init + |end.outcome.written|..] == doc[init..]
    ensures var r := DocAfter(doc, init, end);
      end.MissingApiKey? ==>
        && |r| == |doc| + |ApiKeyMessage|
        && r[init..init + |ApiKeyMessage|] == ApiKeyMessage && r[init + |ApiKeyMessage|..] == doc[init..]
  {
    match end
    case MissingApiKey => InsertedParts(doc, init, ApiKeyMessage);
    case Streamed(o) => InsertedParts(doc, init, o.written);
    case _ =>
  }

  /** The gutter markers after a session: the new one stays unless the session failed. */
  function MarkersAfter(markers: set<int>, init: int, end: SessionEnd): (r: set<int>)
    ensures init in r <==> !Failed(end)
    ensures r - {init} == markers - {init}
  {
    if Failed(end) then markers - {init} else markers + {init}
  }

  datatype CountdownTask = CountdownTask(id: nat, seconds: int)

  /** `isRateLimited`, `rateLimitTask`, and the identity the next task will get. */
  datatype RateLimiter = RateLimiter(limited: bool, task: Option<CountdownTask>, nextId: nat)

  /** `startRateLimitCountdown`: a no-op while a countdown is pending. */
  function StartCountdown(l: RateLimiter, seconds: int): (r: RateLimiter)
    ensures r.limited
    ensures l.limited ==> r == l
    ensures !l.limited ==> r.task == Some(CountdownTask(l.nextId, seconds)) && r.nextId == l.nextId + 1
  {
    if l.limited then l else RateLimiter(true, Some(CountdownTask(l.nextId, seconds)), l.nextId + 1)
  }

  /** `cleanupRateLimit` */
  function ClearCountdown(l: RateLimiter): (r: RateLimiter)
    ensures !r.limited && r.task.None? && r.nextId == l.nextId
  {
    l.(limited := false, task := None)
  }

  /** The rate limiter after the read loop stopped: an in-band 429 starts a countdown, a cancelled read clears it. */
  function StopLimiter(l: RateLimiter, stop: Stop): RateLimiter
  {
    match stop
    case InBandRateLimit(seconds) => StartCountdown(l, seconds)
    case CancelledReading => ClearCountdown(l)
    case _ => l
  }

  /**
   * The rate limiter after a session: a 429 (HTTP or in-band) leaves it limited,
   * a cancelled read clears it, and every other ending leaves it alone.
   */
  function LimiterAfter(l: RateLimiter, end: SessionEnd): (r: RateLimiter)
    ensures l.nextId <= r.nextId
    ensures end.HttpRateLimit? || (end.Streamed? && end.outcome.stop.InBandRateLimit?) ==> r.limited
    ensures end.Streamed? && end.outcome.stop == CancelledReading ==> !r.limited && r.task.None?
    ensures !end.HttpRateLimit? && !(end.Streamed? && (end.outcome.stop.InBandRateLimit? || end.outcome.stop == CancelledReading))
      ==> r == l
  {
    match end
    case HttpRateLimit(seconds) => StartCountdown(l, seconds)
    case Streamed(o) => StopLimiter(l, o.stop)
    case _ => l
  }

  /** `isStreaming` after the read loop stopped: an in-band 429 and a cancelled read clear it. */
  function StopStreaming(streaming: bool, stop: Stop): bool
  {
    if stop.InBandRateLimit? || stop == CancelledReading then false else streaming
  }

  /** `isStreaming` after a session, before the caller's `finally` resets it. */
  function StreamingAfter(streaming: bool, end: SessionEnd): bool
  {
    match end
    case MissingApiKey => false
    case Streamed(o) => StopStreaming(streaming, o.stop)
    case _ => streaming
  }

  datatype ActionEnd = NoProject | NoEditor | AlreadyStreaming | Ran(end: SessionEnd)

  // ---------------------------------------------------------------- the start offset

  /** Counts the newlines at the end of `text`, from the last character backwards. */
  method CountTrailingNewlines(text: string) returns (k: nat)
    ensures k == TrailingNewlines(text)
  {
    k := 0;
    var pos := |text| - 1;
    while pos >= 0 && text[pos] == '\n'
      invariant -1 <= pos < |text|
      invariant k == |text| - 1 - pos
      invariant forall i :: pos < i < |text| ==> text[i] == '\n'
      decreases pos
    {
      k := k + 1;
      pos := pos - 1;
    }
    TrailingNewlinesUnique(text, k);
  }

  // ---------------------------------------------------------------- the action

  class StreamSession {
    var doc: string
    var markers: set<int>
    var isStreaming: bool
    var limiter: RateLimiter  // `isRateLimited` and `rateLimitTask`, both changed under `rateLimitLock`

    constructor(doc: string)
      ensures this.doc == doc && markers == {}
      ensures !isStreaming && limiter == RateLimiter(false, None, 0)
    {
      this.doc := doc;
      markers := {};
      isStreaming := false;
      limiter := RateLimiter(false, None, 0);
    }

    /** `update`: the action is enabled only with an editor, and neither streaming nor rate limited. */
    function Update(hasEditor: bool): (enabled: bool)
      reads this
      ensures enabled ==> hasEditor && !isStreaming && !limiter.limited
      ensures !enabled ==> !hasEditor || isStreaming || limiter.limited
    {
      hasEditor && !isStreaming && !limiter.limited
    }

    /** Pads the document to end with four newlines and returns the offset before the last two. */
    method CalculateStartOffset() returns (start: int)
      modifies this`doc
      ensures doc == old(doc) + Padding(old(doc))
      ensures start == |doc| - 2
    {
      var existing := CountTrailingNewlines(doc);
      var toAdd := 4 - existing as int;
      if toAdd < 0 {
        toAdd := 0;
      }
      if toAdd > 0 {
        doc := doc + Newlines(toAdd);
      }
      start := |doc| - 2;
      PaddingEndsWithFour(old(doc));
    }

    method WriteToEditor(offset: int, text: string) returns (newOffset: int)
      requires 0 <= offset <= |doc|
      modifies this`doc
      ensures doc == Inserted(old(doc), offset, text)
      ensures newOffset == offset + |text|
    {
      doc := Inserted(doc, offset, text);
      newOffset := offset + |text|;
    }

    method CleanupNewlines(init: int, cur: int)
      modifies this`doc
      ensures doc == CleanedUp(old(doc), init, cur)
    {
      var documentLength := |doc|;
      if init >= documentLength {
        return;
      }
      var safeEnd := if cur < documentLength then cur else documentLength;
      if safeEnd > init && init >= 0 {
        doc := doc[..init] + doc[safeEnd..];
      }
    }

    method StartRateLimitCountdown(seconds: int) returns (started: Option<CountdownTask>)
      modifies this`limiter
      ensures limiter == StartCountdown(old(limiter), seconds)
      ensures started == if old(limiter.limited) then None else limiter.task
    {
      if limiter.limited {
        return None;
      }
      var task := CountdownTask(limiter.nextId, seconds);
      limiter := RateLimiter(true, Some(task), limiter.nextId + 1);
      started := Some(task);
    }

    method CleanupRateLimit()
      modifies this`limiter
      ensures limiter == ClearCountdown(old(limiter))
    {
      limiter := limiter.(task := None, limited := false);
    }

    /**
     * One pass of the read loop's body, on the loop variables `p`: the cancellation
     * poll, reading line `p.next`, the `data: ` prefix, `[DONE]`, and the frame; the
     * rate-limit check, the content extraction and the chunked write at `currentOffset`.
     * `message` is the text inserted for a frame in an unknown format; `flushed` is
     * the text this pass wrote.
     */
    method ReadLine(ghost es: seq<LineEffect>, lines: seq<Line>, parse: string -> Frame,
                    cancel: CancelPoint, message: string, init: int, p: Progress, currentOffset: int)
      returns (r: StepResult, newOffset: int, flushed: string)
      requires es == Effects(lines, parse) && p.next < |lines|
      requires isStreaming && 0 <= currentOffset <= |doc|
      modifies this`doc, this`isStreaming, this`limiter
      ensures r == Step(es, cancel, p)
      ensures r.p.written == p.written + flushed && newOffset == currentOffset + |flushed|
      ensures flushed != [] ==> r.Continue? && doc == Inserted(old(doc), currentOffset, flushed)
      ensures flushed == [] && !(r.Halt? && r.why.UnknownFormat?) ==> doc == old(doc)
      ensures r.Halt? && r.why.UnknownFormat? ==> doc == Inserted(old(doc), currentOffset, message)
      ensures r.Continue? ==> limiter == old(limiter) && isStreaming
      ensures r.Halt? ==> limiter == StopLimiter(old(limiter), r.why) && isStreaming == StopStreaming(true, r.why)
    {
      newOffset, flushed := currentOffset, [];
      if Canceled(cancel, p.poll) {
        isStreaming := false;
        CleanupRateLimit();
        return Halt(p.(poll := p.poll + 1), CancelledReading), newOffset, flushed;
      }
      var p1 := p.(next := p.next + 1, poll := p.poll + 1);
      var line := lines[p.next];
      EffectAt(lines, parse, p.next);
      r := Continue(p1);
      if line.Some? && StartsWith(line.value, DataPrefix) {
        var l := line.value;
        var data := SubstringAfter(l, DataPrefix);
        InterpretLine(line, parse);
        DataAfterPrefix(l);
        assert l == DataPrefix + data;
        if data == DoneToken {
          return Halt(p1, Terminated), newOffset, flushed;
        }
        var x := Extract(parse(data));
        assert es[p.next] == FrameEffect(x);
        r, newOffset, flushed := HandleFrame(es, x, p.next + 1 == |lines|, cancel, message, init, p, currentOffset);
      }
    }

    /**
     * `handleRateLimit` once it has found an error object with code 429: start the
     * countdown, give back the (empty) space at the offset, and stop streaming.
     */
    method HandleRateLimit(seconds: int, totalCharsWritten: int, currentOffset: int)
      modifies this`doc, this`isStreaming, this`limiter
      ensures limiter == StartCountdown(old(limiter), seconds)
      ensures doc == old(doc) && !isStreaming
    {
      var _ := StartRateLimitCountdown(seconds);
      if totalCharsWritten == 0 {
        CleanupNewlines(currentOffset, currentOffset);
      }
      isStreaming := false;
    }

    /**
     * The body of the read loop from the parsed frame `x` on: the rate-limit check,
     * the content extraction and the chunked write at `currentOffset`.
     */
    method HandleFrame(ghost es: seq<LineEffect>, x: Extracted, lastLine: bool,
                       cancel: CancelPoint, message: string, init: int, p: Progress, currentOffset: int)
      returns (r: StepResult, newOffset: int, flushed: string)
      requires p.next < |es| && es[p.next] == FrameEffect(x)
      requires lastLine <==> p.next + 1 == |es|
      requires !Canceled(cancel, p.poll)
      requires isStreaming && 0 <= currentOffset <= |doc|
      modifies this`doc, this`isStreaming, this`limiter
      ensures r == Step(es, cancel, p)
      ensures r.p.written == p.written + flushed && newOffset == currentOffset + |flushed|
      ensures flushed != [] ==> r.Continue? && doc == Inserted(old(doc), currentOffset, flushed)
      ensures flushed == [] && !(r.Halt? && r.why.UnknownFormat?) ==> doc == old(doc)
      ensures r.Halt? && r.why.UnknownFormat? ==> doc == Inserted(old(doc), currentOffset, message)
      ensures r.Continue? ==> limiter == old(limiter) && isStreaming
      ensures r.Halt? ==> limiter == StopLimiter(old(limiter), r.why) && isStreaming == StopStreaming(true, r.why)
    {
      newOffset, flushed := currentOffset, [];
      var p1 := p.(next := p.next + 1, poll := p.poll + 1);
      if x == Malformed {
        // the JSONException handler; the caller's `finally` does the rest
        if Utf16Length(p.written) == 0 {
          CleanupNewlines(init, init);
        }
        return Halt(p1, ParseFailure), newOffset, flushed;
      }
      if x.RateLimit? {
        HandleRateLimit(x.seconds, Utf16Length(p.written), currentOffset);
        return Halt(p1, InBandRateLimit(x.seconds)), newOffset, flushed;
      }
      if x.Unrecognised? {
        if Utf16Length(p.written) == 0 {
          doc := Inserted(doc, currentOffset, message);
          return Halt(p1, UnknownFormat(x.keys)), newOffset, flushed;
        }
        // no content from this frame
        return Continue(p1), newOffset, flushed;
      }
      r, newOffset, flushed := AddContent(es, x.text, lastLine, cancel, p, currentOffset);
    }

    /**
     * The content of a frame in a recognised shape: a non-empty content goes to the
     * buffer, and a buffer of `ChunkSize` code units or more, or the last line's, is written out
     * after a cancellation poll.
     */
    method AddContent(ghost es: seq<LineEffect>, content: string, lastLine: bool,
                      cancel: CancelPoint, p: Progress, currentOffset: int)
      returns (r: StepResult, newOffset: int, flushed: string)
      requires p.next < |es| && es[p.next] == Text(content)
      requires lastLine <==> p.next + 1 == |es|
      requires !Canceled(cancel, p.poll)
      requires 0 <= currentOffset <= |doc|
      modifies this`doc
      ensures r == Step(es, cancel, p)
      ensures r.Halt? ==> r.why == CancelledWriting
      ensures r.p.written == p.written + flushed && newOffset == currentOffset + |flushed|
      ensures flushed != [] ==> r.Continue? && doc == Inserted(old(doc), currentOffset, flushed)
      ensures flushed == [] ==> doc == old(doc)
    {
      newOffset, flushed := currentOffset, [];
      var p1 := p.(next := p.next + 1, poll := p.poll + 1);
      r := Continue(p1);
      if content != [] {
        var buffer := p.buffer + content;
        if Utf16Length(buffer) >= ChunkSize || lastLine {
          if Canceled(cancel, p1.poll) {
            return Halt(p1.(buffer := buffer, poll := p1.poll + 1), CancelledWriting), newOffset, flushed;
          }
          newOffset := WriteToEditor(currentOffset, buffer);
          flushed := buffer;
          r := Continue(p1.(buffer := [], written := p.written + buffer, poll := p1.poll + 1));
        } else {
          r := Continue(p1.(buffer := buffer));
        }
      }
    }

    /**
     * After the read loop: the final flush when the loop left normally (unless the
     * indicator is cancelled), then the `finally` that deletes from the start offset
     * to the end when nothing was written. `shown` is the text at the start offset:
     * what was written, or the unknown-format message.
     */
    method FinishStream(init: int, cancel: CancelPoint, q: Progress, why: Stop, currentOffset: int,
                        ghost start: string, ghost shown: string)
      returns (written: string)
      requires 0 <= init <= |start| && currentOffset == init + |q.written|
      requires doc == Inserted(start, init, shown)
      requires shown == q.written || (q.written == [] && !LeftNormally(why))
      modifies this`doc
      ensures Outcome(written, why) == Finish(cancel, q, why)
      ensures doc == StreamedDoc(start, init, written)
    {
      written := q.written;
      if LeftNormally(why) && q.buffer != [] {
        if !Canceled(cancel, q.poll) {
          var _ := WriteToEditor(currentOffset, q.buffer);
          InsertedTwice(start, init, q.written, q.buffer);
          written := written + q.buffer;
        }
      }
      if Utf16Length(written) == 0 {
        // finally
        CleanupNewlines(init, |doc|);
        CleanedUpToEnd(Inserted(start, init, shown), init);
      }
    }

    /**
     * One pass of the read loop, with the text at the start offset tracked in `shown`:
     * what was written, or the unknown-format message when the loop stopped on it.
     */
    method TrackLine(ghost es: seq<LineEffect>, lines: seq<Line>, parse: string -> Frame, cancel: CancelPoint,
                     message: string, init: int, p: Progress, currentOffset: int, ghost start: string, ghost shown: string)
      returns (r: StepResult, newOffset: int, ghost newShown: string)
      requires es == Effects(lines, parse) && p.next < |lines|
      requires isStreaming && 0 <= init <= |start| && currentOffset == init + |p.written|
      requires doc == Inserted(start, init, shown) && shown == p.written
      modifies this`doc, this`isStreaming, this`limiter
      ensures r == Step(es, cancel, p)
      ensures Run(es, cancel, p) == if r.Continue? then Run(es, cancel, r.p) else (r.p, r.why)
      ensures doc == Inserted(start, init, newShown) && newOffset == init + |r.p.written|
      ensures newShown == r.p.written || (r.p.written == [] && r.Halt? && r.why.UnknownFormat?)
      ensures r.Continue? ==> limiter == old(limiter) && isStreaming
      ensures r.Halt? ==> limiter == StopLimiter(old(limiter), r.why) && isStreaming == StopStreaming(true, r.why)
    {
      var flushed;
      r, newOffset, flushed := ReadLine(es, lines, parse, cancel, message, init, p, currentOffset);
      RunUnfold(es, cancel, p);
      newShown := shown;
      if r.Halt? && r.why.UnknownFormat? {
        InsertedTwice(start, init, [], message);
        assert [] + message == message;
        newShown := message;
      } else if flushed != [] {
        InsertedTwice(start, init, p.written, flushed);
        newShown := r.p.written;
      }
    }

    /**
     * The read loop with its `finally`: reads the lines, writes the buffered text at
     * the moving offset, and deletes from the start offset to the end when nothing
     * was written. `message` is the text inserted for a frame in an unknown format.
     */
    method StreamLines(init: int, lines: seq<Line>, parse: string -> Frame, cancel: CancelPoint, message: string)
      returns (written: string, stop: Stop)
      requires 0 <= init <= |doc|
      requires isStreaming
      modifies this`doc, this`isStreaming, this`limiter
      ensures Outcome(written, stop) == Stream(Effects(lines, parse), cancel)
      ensures doc == StreamedDoc(old(doc), init, written)
      ensures limiter == StopLimiter(old(limiter), stop)
      ensures isStreaming == StopStreaming(true, stop)
    {
      ghost var es := Effects(lines, parse);
      ghost var start := doc;
      ghost var shown: string := [];  // the text at the start offset: what was written, or the unknown-format message
      var p := Start;
      var currentOffset := init;
      var halted := false;  // a `break`, a `return` or an exception left the loop
      stop := Exhausted;
      while p.next < |lines| && isStreaming && !halted
        invariant p.next <= |lines|
        invariant !halted ==> isStreaming && stop == Exhausted
        invariant !halted ==> Run(es, cancel, p) == Run(es, cancel, Start) && limiter == old(limiter)
        invariant halted ==> Run(es, cancel, Start) == (p, stop)
        invariant halted ==> limiter == StopLimiter(old(limiter), stop) && isStreaming == StopStreaming(true, stop)
        invariant doc == Inserted(start, init, shown) && currentOffset == init + |p.written|
        invariant shown == p.written || (p.written == [] && stop.UnknownFormat?)
        decreases |lines| - p.next, if halted then 0 else 1
      {
        var r, cur;
        r, cur, shown := TrackLine(es, lines, parse, cancel, message, init, p, currentOffset, start, shown);
        if r.Halt? {
          halted, stop := true, r.why;
        }
        p, currentOffset := r.p, cur;
      }
      written := FinishStream(init, cancel, p, stop, currentOffset, start, shown);
    }

    /**
     * `streamAIResponse`: place the marker at the start offset, then either insert
     * the API-key message, or send the request and handle its response: a 429 starts
     * the countdown, other failures and a missing body are errors, and a body is
     * streamed into the document. An error removes the marker again.
     */
    method StreamAIResponse(init: int, context: string, settings: SettingsView,
                            server: Request -> Response, parse: string -> Frame, cancel: CancelPoint)
      returns (end: SessionEnd)
      requires isStreaming && 0 <= init <= |doc|
      modifies this`doc, this`markers, this`isStreaming, this`limiter
      ensures end == SessionResult(settings, context, server, parse, cancel)
      ensures doc == DocAfter(old(doc), init, end)
      ensures markers == MarkersAfter(old(markers), init, end)
      ensures limiter == LimiterAfter(old(limiter), end)
      ensures isStreaming == StreamingAfter(true, end)
    {
      // any earlier marker at this offset is replaced by the new one
      markers := markers + {init};
      if settings.apiKey == [] {
        ReportMissingApiKey(init);
        return MissingApiKey;
      }
      end := RequestAndStream(init, context, settings, server, parse, cancel);
      if Failed(end) {
        markers := markers - {init};
      }
    }

    /** The part of `streamAIResponse` that sends the request and handles the response. */
    method RequestAndStream(init: int, context: string, settings: SettingsView,
                            server: Request -> Response, parse: string -> Frame, cancel: CancelPoint)
      returns (end: SessionEnd)
      requires isStreaming && 0 <= init <= |doc| && settings.apiKey != []
      modifies this`doc, this`isStreaming, this`limiter
      ensures end == SessionResult(settings, context, server, parse, cancel)
      ensures doc == DocAfter(old(doc), init, end)
      ensures limiter == LimiterAfter(old(limiter), end)
      ensures isStreaming == StreamingAfter(true, end)
    {
      var request := BuildRequest(settings, context);
      if Canceled(cancel, 0) {
        return CancelledBeforeRequest;
      }
      var response := server(request);
      end := HandleResponse(init, response, parse, cancel, settings.model);
    }

    /** Without an API key the session writes the configuration hint at the start offset and stops. */
    method ReportMissingApiKey(init: int)
      requires 0 <= init <= |doc|
      modifies this`doc, this`isStreaming
      ensures doc == DocAfter(old(doc), init, MissingApiKey)
      ensures isStreaming == StreamingAfter(true, MissingApiKey)
    {
      doc := Inserted(doc, init, ApiKeyMessage);
      isStreaming := false;
    }

    /** The part of `streamAIResponse` after the request was sent. */
    method HandleResponse(init: int, response: Response, parse: string -> Frame, cancel: CancelPoint, model: string)
      returns (end: SessionEnd)
      requires isStreaming && 0 <= init <= |doc|
      modifies this`doc, this`isStreaming, this`limiter
      ensures end == ResponseResult(response, parse, cancel)
      ensures doc == DocAfter(old(doc), init, end)
      ensures limiter == LimiterAfter(old(limiter), end)
      ensures isStreaming == StreamingAfter(true, end)
    {
      if !IsSuccessful(response.code) {
        if response.code == TooManyRequests {
          var retrySeconds := RetrySecondsTransport(parse(ErrorBody(response)));
          var _ := StartRateLimitCountdown(retrySeconds);
          return HttpRateLimit(retrySeconds);
        }
        return HttpFailure(response.code);
      }
      if response.body.None? {
        return NoResponseBody;
      }
      var outcome := StreamBody(init, response.body.value.lines, parse, cancel, model);
      end := Streamed(outcome);
    }

    /** Reading a successful response's body; an unknown format is reported with the model's name. */
    method StreamBody(init: int, lines: seq<Line>, parse: string -> Frame, cancel: CancelPoint, model: string)
      returns (outcome: Outcome)
      requires isStreaming && 0 <= init <= |doc|
      modifies this`doc, this`isStreaming, this`limiter
      ensures outcome == Stream(Effects(lines, parse), cancel)
      ensures doc == StreamedDoc(old(doc), init, outcome.written)
      ensures limiter == StopLimiter(old(limiter), outcome.stop)
      ensures isStreaming == StopStreaming(true, outcome.stop)
    {
      var written, stop := StreamLines(init, lines, parse, cancel, UnknownFormatMessage(model));
      outcome := Outcome(written, stop);
    }

    /**
     * `actionPerformed`: with a project and an editor, pad the document, take the
     * selection (or the padded document) as context, claim the streaming flag, run
     * the session, and release the flag whatever happened.
     */
    method ActionPerformed(hasProject: bool, hasEditor: bool, selection: Option<string>, settings: SettingsView,
                           server: Request -> Response, parse: string -> Frame, cancel: CancelPoint)
      returns (result: ActionEnd)
      modifies this`doc, this`markers, this`isStreaming, this`limiter
      ensures !hasProject ==> result == NoProject
      ensures hasProject && !hasEditor ==> result == NoEditor
      ensures !hasProject || !hasEditor ==> doc == old(doc) && isStreaming == old(isStreaming)
      ensures hasProject && hasEditor && old(isStreaming) ==>
        result == AlreadyStreaming && doc == old(doc) + Padding(old(doc)) && isStreaming
      ensures !result.Ran? ==> markers == old(markers) && limiter == old(limiter)
      ensures hasProject && hasEditor && !old(isStreaming) ==>
        var padded := old(doc) + Padding(old(doc));
        var init := |padded| - 2;
        && init >= 0
        && result == Ran(SessionResult(settings, selection.GetOr(padded), server, parse, cancel))
        && doc == DocAfter(padded, init, result.end)
        && markers == MarkersAfter(old(markers), init, result.end)
        && limiter == LimiterAfter(old(limiter), result.end)
        && !isStreaming
    {
      if !hasProject {
        return NoProject;
      }
      if !hasEditor {
        return NoEditor;
      }
      var startOffset := CalculateStartOffset();
      PaddingEndsWithFour(old(doc));
      var context := selection.GetOr(doc);
      if isStreaming {
        return AlreadyStreaming;
      }
      isStreaming := true;
      var end := StreamAIResponse(startOffset, context, settings, server, parse, cancel);
      // finally
      isStreaming := false;
      result := Ran(end);
    }

    /**
     * The countdown task's `run` and the retry it schedules: count down, then, if the
     * wait completed, this is still the current task, the project is open and an
     * editor is selected, clear the rate limit and ask for the action to run again.
     * Every other ending clears the rate limit too.
     */
    method RunRateLimitTask(task: CountdownTask, cancel: CancelPoint, projectDisposed: bool, hasEditor: bool)
      returns (completed: bool, retry: bool)
      modifies this`limiter
      ensures retry <==> completed && old(limiter.task) == Some(task) && !projectDisposed && hasEditor
      ensures limiter == ClearCountdown(old(limiter))
      ensures NeverCanceled(cancel) ==> completed
    {
      var remaining, shown, fractions;
      completed, remaining, shown, fractions := RunCountdown(task.seconds, cancel);
      retry := false;
      if completed {
        if limiter.task == Some(task) && !projectDisposed {
          CleanupRateLimit();
          retry := hasEditor;
        } else {
          CleanupRateLimit();
        }
      } else {
        CleanupRateLimit();
      }
    }
  }

  // ---------------------------------------------------------------- what a session guarantees

  /**
   * A session that wrote text leaves the document as it was before the start
   * offset, then exactly the written text, then the rest of the document.
   */
  lemma WrittenTextAtStart(doc: string, init: nat, end: SessionEnd)
    requires init <= |doc| && end.Streamed? && end.outcome.written != []
    ensures var r := DocAfter(doc, init, end);
      var w := end.outcome.written;
      && |r| == |doc| + |w|
      && r[..init] == doc[..init]
      && r[init..init + |w|] == w
      && r[init + |w|..] == doc[init..]
  {
    InsertedParts(doc, init, end.outcome.written);
  }

  /**
   * A session that wrote nothing removes the padding from the start offset on:
   * the document ends in two newlines fewer than the padded one, and a text that
   * ended with at most two newlines gets exactly two.
   */
  lemma NothingWrittenRemovesPadding(text: string, end: SessionEnd)
    requires end.Streamed? && end.outcome.written == []
    ensures var padded := text + Padding(text);
      var k := TrailingNewlines(text);
      && |padded| >= 2
      && DocAfter(padded, |padded| - 2, end) == padded[..|padded| - 2]
      && (k <= 2 ==> padded[..|padded| - 2] == text + Newlines(2 - k))
      && TrailingNewlines(DocAfter(padded, |padded| - 2, end)) == (if k < 4 then 4 else k) - 2
  {
    PaddingEndsWithFour(text);
    PaddingRemoved(text);
    var padded := text + Padding(text);
    var k := TrailingNewlines(text);
    if k <= 2 {
      assert padded[..|padded| - 2] == text + Newlines(2 - k);
    }
  }

  /**
   * With a key, no cancellation, a successful response with a body, and only
   * content or skipped lines in it, the session writes the content of every line,
   * in order, and ends without an error.
   */
  lemma CleanSessionWritesEverything(settings: SettingsView, context: string, server: Request -> Response,
                                     parse: string -> Frame, cancel: CancelPoint, response: Response)
    requires settings.apiKey != [] && NeverCanceled(cancel)
    requires response == server(BuildRequest(settings, context))
    requires IsSuccessful(response.code) && response.body.Some?
    requires forall j :: 0 <= j < |response.body.value.lines| ==>
      Benign(Effects(response.body.value.lines, parse)[j])
    ensures var es := Effects(response.body.value.lines, parse);
      var end := SessionResult(settings, context, server, parse, cancel);
      && end == Streamed(Outcome(Deltas(es, 0, |es|), Exhausted))
      && !Failed(end)
  {
    var es := Effects(response.body.value.lines, parse);
    StreamWritesEverything(es, cancel);
  }

  /** A cancellation before the request is an error: nothing is written and the marker is removed. */
  lemma CancelBeforeRequestFails(settings: SettingsView, context: string, server: Request -> Response,
                                 parse: string -> Frame, cancel: CancelPoint,
                                 doc: string, init: nat, markers: set<int>)
    requires settings.apiKey != [] && Canceled(cancel, 0) && init <= |doc|
    ensures var end := SessionResult(settings, context, server, parse, cancel);
      && Failed(end)
      && DocAfter(doc, init, end) == doc
      && init !in MarkersAfter(markers, init, end)
      && LimiterAfter(RateLimiter(false, None, 0), end) == RateLimiter(false, None, 0)
  {
  }

  /** Identities of countdown tasks are below `nextId`, and a pending task means rate limited. */
  predicate LimiterValid(l: RateLimiter)
  {
    l.task.Some? ==> l.limited && l.task.value.id < l.nextId
  }

  /** Every change a session makes to the rate limiter keeps it valid. */
  lemma LimiterAfterValid(l: RateLimiter, end: SessionEnd)
    requires LimiterValid(l)
    ensures LimiterValid(LimiterAfter(l, end))
    ensures LimiterValid(ClearCountdown(l))
  {
  }

  /**
   * A countdown started after the rate limit was cleared is a new task: a task that
   * belonged to the limiter before never again passes the "still the current task"
   * test, so it does not retry.
   */
  lemma StaleTaskIsNotCurrent(l: RateLimiter, t: CountdownTask, seconds: int)
    requires LimiterValid(l)
    requires l.task == Some(t)
    ensures StartCountdown(ClearCountdown(l), seconds).task != Some(t)
  {
  }
}
