/**
 * The read loop of `streamAIResponse` as a function of its inputs: which line is
 * read, what each line contributes, when the buffer is flushed into the document
 * and why the loop stops. `StreamTextAction.StreamSession.StreamLines` is proved
 * to do exactly what `Stream` says.
 */
module Chunking {
  import opened Wrappers
  import opened KotlinStrings
  import opened Json
  import opened Extraction
  import opened Cancellation

  /** A buffer at least this long (in UTF-16 code units, `buffer.length`) is written out. */
  const ChunkSize: nat := 10

  /**
   * The loop variables: the next line to read, the text not yet written, the text
   * written so far (`totalCharsWritten` is its `Utf16Length`) and the next poll of `isCanceled`.
   */
  datatype Progress = Progress(next: nat, buffer: string, written: string, poll: nat)

  datatype Stop =
    | Exhausted                       // the source has no more lines
    | Terminated                      // `data: [DONE]`
    | CancelledReading                // cancelled at the top of an iteration
    | CancelledWriting                // cancelled just before a flush
    | InBandRateLimit(seconds: int)   // an error frame with code 429
    | UnknownFormat(keys: set<string>) // no recognised key while nothing was written
    | ParseFailure                    // a JSONException

  /** What one line means to the loop, whatever the loop's state. */
  datatype LineEffect =
    | Ignore                          // a null read or a line without the `data: ` prefix
    | Done                            // `data: [DONE]`
    | Text(c: string)                 // a frame in one of the four recognised shapes
    | Broken                          // a frame org.json cannot read
    | Limit(seconds: int)             // an error frame with code 429
    | Unknown(keys: set<string>)      // a frame with none of the recognised keys

  /** What a parsed frame means to the loop. */
  function FrameEffect(x: Extracted): LineEffect
  {
    match x
    case Content(c) => Text(c)
    case Malformed => Broken
    case RateLimit(seconds) => Limit(seconds)
    case Unrecognised(keys) => Unknown(keys)
  }

  /** The classification of a line followed by the extraction from its frame. */
  function Interpret(line: Line, parse: string -> Frame): (e: LineEffect)
    ensures e == Ignore <==> Classify(line) == Skip
    ensures e == Done <==> Classify(line) == Terminator
  {
    match Classify(line)
    case Skip => Ignore
    case Terminator => Done
    case Payload(data) => FrameEffect(Extract(parse(data)))
  }

  /**
   * A line `data: X` is the terminator when X is `[DONE]` and otherwise means
   * whatever the frame parsed from X yields; any other line is ignored.
   */
  lemma InterpretLine(line: Line, parse: string -> Frame)
    ensures line.None? ==> Interpret(line, parse) == Ignore
    ensures line.Some? && !StartsWith(line.value, DataPrefix) ==> Interpret(line, parse) == Ignore
    ensures forall data :: line == Some(DataPrefix + data) ==>
      Interpret(line, parse) == if data == DoneToken then Done else FrameEffect(Extract(parse(data)))
  {
    forall data | line == Some(DataPrefix + data)
      ensures Interpret(line, parse) == if data == DoneToken then Done else FrameEffect(Extract(parse(data)))
    {
      var l := DataPrefix + data;
      assert StartsWith(l, DataPrefix);
      assert l[|DataPrefix|..] == data;
      if data != DoneToken {
        assert l != DataPrefix + DoneToken;
      }
    }
  }

  /** The meaning of every line of a response, in order. */
  function Effects(lines: seq<Line>, parse: string -> Frame): (es: seq<LineEffect>)
    ensures |es| == |lines|
    decreases |lines|
  {
    if lines == [] then [] else [Interpret(lines[0], parse)] + Effects(lines[1..], parse)
  }

  /** Line `i` of a response means what `Interpret` makes of it. */
  lemma {:induction false} EffectAt(lines: seq<Line>, parse: string -> Frame, i: nat)
    requires i < |lines|
    ensures Effects(lines, parse)[i] == Interpret(lines[i], parse)
    decreases i
  {
    if i > 0 {
      EffectAt(lines[1..], parse, i - 1);
    }
  }

  datatype StepResult = Continue(p: Progress) | Halt(p: Progress, why: Stop)

  /** One iteration of the `while` loop, reading line `p.next`. */
  function Step(es: seq<LineEffect>, cancel: CancelPoint, p: Progress): (r: StepResult)
    requires p.next < |es|
    ensures p.next <= r.p.next <= |es|
    ensures r.Continue? ==> r.p.next == p.next + 1 && (Utf16Length(r.p.buffer) < ChunkSize || r.p.buffer == p.buffer)
    ensures r.Halt? && r.why == CancelledReading ==> r.p == p.(poll := p.poll + 1)
  {
    if Canceled(cancel, p.poll) then Halt(p.(poll := p.poll + 1), CancelledReading)
    else
      var p1 := p.(next := p.next + 1, poll := p.poll + 1);
      match es[p.next]
      case Ignore => Continue(p1)
      case Done => Halt(p1, Terminated)
      case Broken => Halt(p1, ParseFailure)
      case Limit(seconds) => Halt(p1, InBandRateLimit(seconds))
      case Unknown(keys) => if p.written == [] then Halt(p1, UnknownFormat(keys)) else Continue(p1)
      case Text(c) =>
        if c == [] then Continue(p1)
        else
          var b := p.buffer + c;
          if Utf16Length(b) >= ChunkSize || p1.next == |es| then
            if Canceled(cancel, p1.poll) then Halt(p1.(buffer := b, poll := p1.poll + 1), CancelledWriting)
            else Continue(p1.(buffer := [], written := p.written + b, poll := p1.poll + 1))
          else Continue(p1.(buffer := b))
  }

  /** The loop from `p` until it stops: it ends exhausted exactly when a line-by-line run reaches the end. */
  function Run(es: seq<LineEffect>, cancel: CancelPoint, p: Progress): (r: (Progress, Stop))
    requires p.next <= |es|
    decreases |es| - p.next
    ensures p.next <= r.0.next <= |es|
    ensures r.1 == Exhausted ==> r.0.next == |es|
  {
    if p.next == |es| then (p, Exhausted)
    else
      match Step(es, cancel, p)
      case Continue(q) => Run(es, cancel, q)
      case Halt(q, why) => (q, why)
  }

  /** The loop from `p` is one step followed by the loop from where that step leaves it, unless the step stops. */
  lemma RunUnfold(es: seq<LineEffect>, cancel: CancelPoint, p: Progress)
    requires p.next < |es|
    ensures Step(es, cancel, p).Continue? ==> Run(es, cancel, p) == Run(es, cancel, Step(es, cancel, p).p)
    ensures Step(es, cancel, p).Halt? ==> Run(es, cancel, p) == (Step(es, cancel, p).p, Step(es, cancel, p).why)
  {
  }

  /** The loop left normally (exhausted or `[DONE]`), so the remainder is flushed. */
  predicate LeftNormally(why: Stop)
  {
    why == Exhausted || why == Terminated
  }

  datatype Outcome = Outcome(written: string, stop: Stop)

  /**
   * After a normal exit a non-empty remainder is written unless the indicator is
   * cancelled; a cancelled remainder is dropped without an error.
   */
  function Finish(cancel: CancelPoint, q: Progress, why: Stop): (o: Outcome)
    ensures o.stop == why
    ensures o.written == q.written || (LeftNormally(why) && o.written == q.written + q.buffer)
  {
    if LeftNormally(why) && q.buffer != [] && !Canceled(cancel, q.poll) then Outcome(q.written + q.buffer, why)
    else Outcome(q.written, why)
  }

  /** The loop starts after the first poll (the one before the request is sent). */
  const Start: Progress := Progress(0, [], [], 1)

  /**
   * What the read loop writes in total, and why it stops: always a prefix of the
   * concatenated contributions of all lines, in order.
   */
  function Stream(es: seq<LineEffect>, cancel: CancelPoint): (o: Outcome)
    ensures o.written <= Deltas(es, 0, |es|)
    ensures o.stop == Run(es, cancel, Start).1
  {
    var (q, why) := Run(es, cancel, Start);
    RunAccounts(es, cancel, Start);
    DeltasSplit(es, 0, q.next, |es|);
    var all := Deltas(es, 0, |es|);
    assert all == (q.written + q.buffer) + Deltas(es, q.next, |es|);
    assert all[..|q.written + q.buffer|] == q.written + q.buffer;
    assert all[..|q.written|] == q.written;
    Finish(cancel, q, why)
  }

  // ---------------------------------------------------------------- contributions

  /** The text one line contributes: its content, if it has any. */
  function Delta(e: LineEffect): string
  {
    if e.Text? then e.c else []
  }

  /** The contributions of lines `from` up to `to`, in order. */
  function Deltas(es: seq<LineEffect>, from: nat, to: nat): string
    requires from <= to <= |es|
    decreases (to as int) - from
  {
    if from == to then [] else Delta(es[from]) + Deltas(es, from + 1, to)
  }

  /** A line the loop reads past whatever the state: ignored, or carrying content. */
  predicate Benign(e: LineEffect)
  {
    e.Ignore? || e.Text?
  }

  /** How a line stops the loop whatever was written before it, if it does. */
  function LineStop(e: LineEffect): Option<Stop>
  {
    match e
    case Done => Some(Terminated)
    case Broken => Some(ParseFailure)
    case Limit(seconds) => Some(InBandRateLimit(seconds))
    case _ => None
  }

  // ---------------------------------------------------------------- one step

  /** Every step keeps the account: written text plus buffer grows by the line's contribution. */
  lemma StepAccounts(es: seq<LineEffect>, cancel: CancelPoint, p: Progress)
    requires p.next < |es|
    ensures var r := Step(es, cancel, p);
      && r.p.next in {p.next, p.next + 1}
      && (r.p.next == p.next ==> r.p.written + r.p.buffer == p.written + p.buffer)
      && (r.p.next == p.next + 1 ==> r.p.written + r.p.buffer == p.written + p.buffer + Delta(es[p.next]))
      && p.written <= r.p.written
  {
  }

  lemma DeltasOne(es: seq<LineEffect>, a: nat)
    requires a < |es|
    ensures Deltas(es, a, a + 1) == Delta(es[a])
  {
    assert Deltas(es, a + 1, a + 1) == [];
  }

  /** An ignored line changes nothing but the position and the polls. */
  lemma IgnoredLineChangesNothing(es: seq<LineEffect>, cancel: CancelPoint, p: Progress)
    requires p.next < |es| && es[p.next] == Ignore
    requires !Canceled(cancel, p.poll)
    ensures Step(es, cancel, p) == Continue(p.(next := p.next + 1, poll := p.poll + 1))
  {
  }

  /**
   * A frame with no recognised key stops the loop exactly when nothing has been
   * written yet; later it contributes nothing and the loop goes on.
   */
  lemma UnknownFormatOnlyFirst(es: seq<LineEffect>, cancel: CancelPoint, p: Progress)
    requires p.next < |es| && es[p.next].Unknown?
    requires !Canceled(cancel, p.poll)
    ensures Step(es, cancel, p).Halt? <==> p.written == []
    ensures p.written == [] ==> Step(es, cancel, p).why == UnknownFormat(es[p.next].keys)
    ensures p.written != [] ==> Step(es, cancel, p) == Continue(p.(next := p.next + 1, poll := p.poll + 1))
  {
  }

  /** A frame org.json cannot read stops the loop whatever was written before it. */
  lemma ParseFailureAlwaysStops(es: seq<LineEffect>, cancel: CancelPoint, p: Progress)
    requires p.next < |es| && es[p.next] == Broken
    requires !Canceled(cancel, p.poll)
    ensures Step(es, cancel, p) == Halt(p.(next := p.next + 1, poll := p.poll + 1), ParseFailure)
  {
  }

  /**
   * A flush writes the whole buffer plus the new content, and happens only when
   * that text has reached `ChunkSize` code units or the line was the last one.
   */
  lemma FlushRule(es: seq<LineEffect>, cancel: CancelPoint, p: Progress)
    requires p.next < |es|
    requires Step(es, cancel, p).Continue?
    ensures var q := Step(es, cancel, p).p;
      q.written != p.written ==>
        && q.written == p.written + p.buffer + Delta(es[p.next])
        && q.buffer == []
        && (Utf16Length(q.written) - Utf16Length(p.written) >= ChunkSize || q.next == |es|)
        && Delta(es[p.next]) != []
  {
    var q := Step(es, cancel, p).p;
    if q.written != p.written {
      var e := es[p.next];
      assert !Canceled(cancel, p.poll) && e.Text? && e.c != [];
      var b := p.buffer + e.c;
      assert q.written == p.written + b;
      Utf16LengthAppend(p.written, b);
    }
  }

  // ---------------------------------------------------------------- whole runs

  lemma AppendAssociative(a: string, b: string, c: string)
    ensures (a + b) + c == a + (b + c)
  {
  }

  lemma {:induction false} DeltasSplit(es: seq<LineEffect>, a: nat, b: nat, c: nat)
    requires a <= b <= c <= |es|
    ensures Deltas(es, a, c) == Deltas(es, a, b) + Deltas(es, b, c)
    decreases b - a
  {
    if a < b {
      DeltasSplit(es, a + 1, b, c);
      AppendAssociative(Delta(es[a]), Deltas(es, a + 1, b), Deltas(es, b, c));
    } else {
      assert Deltas(es, a, b) == [];
    }
  }

  /**
   * Over a whole run the written text and the buffer together hold the in-order
   * contributions of the lines read.
   */
  lemma {:induction false} RunAccounts(es: seq<LineEffect>, cancel: CancelPoint, p: Progress)
    requires p.next <= |es|
    ensures var q := Run(es, cancel, p).0;
      && p.next <= q.next <= |es|
      && q.written + q.buffer == p.written + p.buffer + Deltas(es, p.next, q.next)
    decreases |es| - p.next
  {
    if p.next < |es| {
      StepAccounts(es, cancel, p);
      var r := Step(es, cancel, p);
      if r.Continue? {
        assert Run(es, cancel, p) == Run(es, cancel, r.p);
        RunAccounts(es, cancel, r.p);
        var q := Run(es, cancel, r.p).0;
        DeltasSplit(es, p.next, r.p.next, q.next);
        DeltasOne(es, p.next);
        AppendAssociative(p.written + p.buffer, Delta(es[p.next]), Deltas(es, r.p.next, q.next));
      } else {
        assert Run(es, cancel, p) == (r.p, r.why);
        if r.p.next == p.next {
          assert Deltas(es, p.next, p.next) == [];
        } else {
          DeltasOne(es, p.next);
        }
      }
    }
  }

  /** Text once written is never taken back: it stays a prefix of everything written later. */
  lemma {:induction false} RunKeepsWritten(es: seq<LineEffect>, cancel: CancelPoint, p: Progress)
    requires p.next <= |es|
    ensures p.written <= Run(es, cancel, p).0.written
    decreases |es| - p.next
  {
    if p.next < |es| {
      var r := Step(es, cancel, p);
      StepAccounts(es, cancel, p);
      if r.Continue? {
        RunKeepsWritten(es, cancel, r.p);
      }
    }
  }

  /**
   * Without cancellation, a run over lines that are all ignored or carry content
   * reads every line and ends with everything written (the remainder by the final flush).
   */
  lemma {:induction false} RunWritesEverything(es: seq<LineEffect>, cancel: CancelPoint, p: Progress)
    requires p.next <= |es|
    requires NeverCanceled(cancel)
    requires forall j :: p.next <= j < |es| ==> Benign(es[j])
    ensures var (q, why) := Run(es, cancel, p);
      && why == Exhausted && q.next == |es|
      && Finish(cancel, q, why).written == p.written + p.buffer + Deltas(es, p.next, |es|)
    decreases |es| - p.next
  {
    RunAccounts(es, cancel, p);
    if p.next < |es| {
      assert Benign(es[p.next]);
      RunWritesEverything(es, cancel, Step(es, cancel, p).p);
    }
  }

  /** The read loop writes the whole response when nothing is cancelled and no frame stops it. */
  lemma StreamWritesEverything(es: seq<LineEffect>, cancel: CancelPoint)
    requires NeverCanceled(cancel)
    requires forall j :: 0 <= j < |es| ==> Benign(es[j])
    ensures Stream(es, cancel) == Outcome(Deltas(es, 0, |es|), Exhausted)
  {
    RunWritesEverything(es, cancel, Start);
  }

  /**
   * Without cancellation the first line that stops the loop whatever the state
   * (`[DONE]`, a malformed frame, an in-band 429) decides how it stops; the lines
   * after it are never read.
   */
  lemma {:induction false} RunStopsAtFirstStop(es: seq<LineEffect>, cancel: CancelPoint, p: Progress, k: nat)
    requires p.next <= k < |es|
    requires NeverCanceled(cancel)
    requires forall j :: p.next <= j < k ==> Benign(es[j])
    requires LineStop(es[k]).Some?
    ensures var (q, why) := Run(es, cancel, p);
      why == LineStop(es[k]).value && q.next == k + 1
    decreases k - p.next
  {
    if p.next < k {
      assert Benign(es[p.next]);
      RunStopsAtFirstStop(es, cancel, Step(es, cancel, p).p, k);
    }
  }

  /**
   * Five U+1F600 are ten code units, so they are flushed at once and a parse failure
   * after them finds text written (and the clean-up keeps it).
   */
  lemma SurrogatePairsFillTheBuffer(cancel: CancelPoint)
    requires NeverCanceled(cancel)
    ensures var e := "\U{1F600}\U{1F600}\U{1F600}\U{1F600}\U{1F600}";
      Stream([Text(e), Broken], cancel) == Outcome(e, ParseFailure)
  {
    Utf16LengthExample();
    var e := "\U{1F600}\U{1F600}\U{1F600}\U{1F600}\U{1F600}";
    var es := [Text(e), Broken];
    assert [] + e == e && [] + ([] + e) == e;
    var p1 := Step(es, cancel, Start).p;
    assert p1 == Progress(1, [], e, 3);
    assert Run(es, cancel, Start) == Run(es, cancel, p1);
  }

  /** After `[DONE]` the remainder is flushed, so every contribution before it is written. */
  lemma TerminatorWritesPrefix(es: seq<LineEffect>, cancel: CancelPoint, k: nat)
    requires k < |es| && es[k] == Done
    requires NeverCanceled(cancel)
    requires forall j :: 0 <= j < k ==> Benign(es[j])
    ensures Stream(es, cancel) == Outcome(Deltas(es, 0, k), Terminated)
  {
    RunStopsAtFirstStop(es, cancel, Start, k);
    RunAccounts(es, cancel, Start);
    DeltasSplit(es, 0, k, k + 1);
    DeltasOne(es, k);
    var (q, why) := Run(es, cancel, Start);
    assert q.written + q.buffer == Deltas(es, 0, k);
  }
}
