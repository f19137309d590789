/**
 * What one line of the streamed response means: the `data: ` framing, the
 * `[DONE]` terminator, the in-band rate-limit signal, the four response shapes,
 * and the retry time read from a 429 error text.
 */
module Extraction {
  import opened Wrappers
  import opened KotlinStrings
  import opened Json

  const DataPrefix: string := "data: "
  const DoneToken: string := "[DONE]"
  const TooManyRequests: int := 429

  const RetryPhrase: string := "Retry after"
  const RetryUnit: string := "seconds"
  /** Seconds added to a retry time announced in a 429 HTTP response. */
  const TransportSafetyMargin: int := 2
  const TransportDefaultSeconds: int := 62
  const InBandDefaultSeconds: int := 60

  /** A line as `readUtf8Line()` returns it; `None` is a null read. */
  type Line = Option<string>

  datatype LineKind = Skip | Terminator | Payload(data: string)

  /** How the read loop treats one line. */
  function Classify(line: Line): (k: LineKind)
    ensures line.None? ==> k == Skip
    ensures line.Some? && !StartsWith(line.value, DataPrefix) ==> k == Skip
    ensures k == Terminator <==> line == Some(DataPrefix + DoneToken)
    ensures k.Payload? ==> line == Some(DataPrefix + k.data)
    ensures line.Some? && StartsWith(line.value, DataPrefix) && line.value != DataPrefix + DoneToken
            ==> k == Payload(line.value[|DataPrefix|..])
  {
    match line
    case None => Skip
    case Some(l) =>
      if !StartsWith(l, DataPrefix) then Skip
      else
        DataAfterPrefix(l);
        assert l == DataPrefix + l[|DataPrefix|..];
        var data := SubstringAfter(l, DataPrefix);
        if data == DoneToken then Terminator else Payload(data)
  }

  /** On a line that starts with `data: `, `substringAfter` takes exactly the rest of the line. */
  lemma DataAfterPrefix(l: string)
    requires StartsWith(l, DataPrefix)
    ensures SubstringAfter(l, DataPrefix) == l[|DataPrefix|..]
  {
    IndexOfFirst(l, DataPrefix, 0);
  }

  // ---------------------------------------------------------------- retry time

  /** The integer between "Retry after" and "seconds" in a raw error text, if there is one. */
  function RetryAfter(raw: string): (r: Option<int>)
    ensures r.Some? ==> Contains(raw, RetryPhrase) && IsInt32(r.value)
    ensures !Contains(raw, RetryPhrase) ==> r.None?
  {
    if Contains(raw, RetryPhrase) then
      ToIntOrNull(Trim(SubstringBefore(SubstringAfter(raw, RetryPhrase), RetryUnit)))
    else None
  }

  /** `error.metadata.raw`, or "" when there is no `metadata` object. */
  function RawError(error: map<string, JVal>): string
  {
    match ObjectAt(error, "metadata")
    case Some(metadata) => OptString(metadata, "raw")
    case None => ""
  }

  /** The countdown length after a 429 HTTP response whose body parsed to `body`. */
  function RetrySecondsTransport(body: Frame): (r: int)
    ensures IsInt32(r)
  {
    match body
    case ParseError => TransportDefaultSeconds
    case Obj(m) =>
      match ObjectAt(m, "error")
      case None => TransportDefaultSeconds
      case Some(error) =>
        match RetryAfter(RawError(error))
        case Some(n) => ToInt32(n + TransportSafetyMargin)
        case None => TransportDefaultSeconds
  }

  /** The countdown length after a 429 error frame inside a 200 stream. */
  function RetrySecondsInBand(raw: string): (r: int)
    ensures IsInt32(r)
    ensures RetryAfter(raw).None? ==> r == InBandDefaultSeconds
    ensures !Contains(raw, RetryPhrase) ==> r == InBandDefaultSeconds
  {
    RetryAfter(raw).GetOr(InBandDefaultSeconds)
  }

  /**
   * "Retry after N seconds" is read back as N, for every `Int` N, whatever text
   * precedes the phrase (as long as the phrase does not occur in it) and whatever follows.
   */
  lemma RetryAfterReadsNumber(lead: string, n: int, rest: string)
    requires IndexOf(lead + RetryPhrase, RetryPhrase) == Some(|lead|)
    requires IsInt32(n)
    ensures RetryAfter(lead + RetryPhrase + " " + IntToString(n) + " " + RetryUnit + rest) == Some(n)
  {
    var tail := " " + IntToString(n) + " " + RetryUnit + rest;
    assert lead + RetryPhrase + " " + IntToString(n) + " " + RetryUnit + rest == lead + RetryPhrase + tail;
    AfterPhrase(lead, tail);
    NumberBeforeUnit(n, rest);
  }

  /** `substringAfter` takes the text after the first occurrence of the phrase. */
  lemma AfterPhrase(lead: string, tail: string)
    requires IndexOf(lead + RetryPhrase, RetryPhrase) == Some(|lead|)
    ensures Contains(lead + RetryPhrase + tail, RetryPhrase)
    ensures SubstringAfter(lead + RetryPhrase + tail, RetryPhrase) == tail
  {
    var head := lead + RetryPhrase;
    var raw := head + tail;
    forall j: nat | j <= |lead| ensures OccursAt(raw, RetryPhrase, j) == OccursAt(head, RetryPhrase, j) {
      assert raw[j..j + |RetryPhrase|] == head[j..j + |RetryPhrase|];
    }
    assert FirstAt(raw, RetryPhrase, |lead|);
    IndexOfFirst(raw, RetryPhrase, |lead|);
    assert raw[|head|..] == tail;
  }

  /** A number between spaces before "seconds" is what `substringBefore`, `trim` and `toIntOrNull` read. */
  lemma NumberBeforeUnit(n: int, rest: string)
    requires IsInt32(n)
    ensures ToIntOrNull(Trim(SubstringBefore(" " + IntToString(n) + " " + RetryUnit + rest, RetryUnit))) == Some(n)
  {
    var number := IntToString(n);
    var after := " " + number + " " + RetryUnit + rest;
    var k := |number| + 2;
    assert OccursAt(after, RetryUnit, k);
    forall j: nat | j < k ensures !OccursAt(after, RetryUnit, j) {
      if j == 0 || j == k - 1 {
        assert after[j] == ' ';
      } else {
        assert after[j] == number[j - 1];
        assert number[j - 1] == '-' || IsDigit(number[j - 1]);
      }
      assert after[j] != RetryUnit[0];
    }
    IndexOfFirst(after, RetryUnit, k);
    var before := SubstringBefore(after, RetryUnit);
    assert before == " " + number + " ";
    NatToStringAscii(if n < 0 then -n else n);
    assert number[0] == '-' || '0' <= number[0] <= '9';
    assert '0' <= number[|number| - 1] <= '9';
    TrimAround(" ", number, " ");
    ToIntOrNullOfIntToString(n);
  }

  /** The phrase occurs first right after a text without its first letter. */
  lemma PhraseAfterLead(lead: string)
    requires RetryPhrase[0] !in lead
    ensures IndexOf(lead + RetryPhrase, RetryPhrase) == Some(|lead|)
  {
    var head := lead + RetryPhrase;
    forall j: nat | j < |lead| ensures !OccursAt(head, RetryPhrase, j) {
      assert head[j] == lead[j];
    }
    assert head[|lead|..] == RetryPhrase;
    IndexOfFirst(head, RetryPhrase, |lead|);
  }

  /** The two sources read the same text; the HTTP one adds a margin and has a larger default. */
  lemma TransportAndInBandDiffer(error: map<string, JVal>)
    ensures var raw := RawError(error);
      RetryAfter(raw).Some? ==>
        && RetrySecondsInBand(raw) == RetryAfter(raw).value
        && RetrySecondsTransport(Obj(map["error" := JObj(error)])) == ToInt32(RetryAfter(raw).value + 2)
    ensures var raw := RawError(error);
      RetryAfter(raw).None? ==>
        && RetrySecondsInBand(raw) == 60
        && RetrySecondsTransport(Obj(map["error" := JObj(error)])) == 62
  {
    var m := map["error" := JObj(error)];
    assert ObjectAt(m, "error") == Some(error);
  }

  // ---------------------------------------------------------------- frames

  datatype Extracted =
    | RateLimit(seconds: int)          // an "error" object with code 429
    | Content(text: string)            // one of the four recognised shapes
    | Unrecognised(keys: set<string>)  // none of them: the keys present
    | Malformed                        // org.json threw a JSONException

  /**
   * The "error" key, checked before any content key: `None` lets the frame through,
   * which happens exactly without the key or with an error object whose integer
   * code is not 429.
   */
  function ErrorSignal(m: map<string, JVal>): (r: Option<Extracted>)
    ensures "error" !in m ==> r.None?
    ensures r.Some? ==> r.value.Malformed? || r.value.RateLimit?
    ensures r == Some(Malformed) <==>
      "error" in m && (ObjectAt(m, "error").None? || IntAt(ObjectAt(m, "error").value, "code").None?)
    ensures (r.Some? && r.value.RateLimit?) <==>
      ObjectAt(m, "error").Some? && IntAt(ObjectAt(m, "error").value, "code") == Some(TooManyRequests)
  {
    if "error" !in m then None
    else
      match ObjectAt(m, "error")
      case None => Some(Malformed)
      case Some(error) =>
        match IntAt(error, "code")
        case None => Some(Malformed)
        case Some(code) =>
          if code == TooManyRequests then Some(RateLimit(RetrySecondsInBand(RawError(error)))) else None
  }

  /** `choices[0].delta.content`, the OpenAI shape. */
  function ChoicesContent(m: map<string, JVal>): Extracted
  {
    match ArrayAt(m, "choices")
    case None => Malformed
    case Some(choices) =>
      if choices == [] || !choices[0].JObj? then Malformed
      else
        match ObjectAt(choices[0].fields, "delta")
        case None => Malformed
        case Some(delta) => Content(OptString(delta, "content"))
  }

  /** A string-valued shape such as `response`. */
  function StringContent(m: map<string, JVal>, key: string): Extracted
  {
    match StringAt(m, key)
    case Some(s) => Content(s)
    case None => Malformed
  }

  /** None of the four content keys is present. */
  predicate NoContentKey(m: map<string, JVal>)
  {
    "choices" !in m && "response" !in m && "text" !in m && "content" !in m
  }

  /**
   * The content keys in priority order: the first one present decides, and a frame
   * without any of them is unrecognised, with its keys.
   */
  function ShapeContent(m: map<string, JVal>): (r: Extracted)
    ensures r.Unrecognised? <==> NoContentKey(m)
    ensures r.Unrecognised? ==> r.keys == m.Keys
    ensures !r.RateLimit?
  {
    if "choices" in m then ChoicesContent(m)
    else if "response" in m then StringContent(m, "response")
    else if "text" in m then StringContent(m, "text")
    else if "content" in m then StringContent(m, "content")
    else Unrecognised(m.Keys)
  }

  /**
   * What one parsed data frame yields: an unrecognised frame is exactly a parsed
   * object with no error signal and none of the four content keys.
   */
  function Extract(frame: Frame): (r: Extracted)
    ensures frame.ParseError? ==> r == Malformed
    ensures r.Unrecognised? ==>
      && frame.Obj? && r.keys == frame.fields.Keys
      && "choices" !in r.keys && "response" !in r.keys && "text" !in r.keys && "content" !in r.keys
    ensures frame.Obj? && ErrorSignal(frame.fields).None? && NoContentKey(frame.fields) ==>
      r == Unrecognised(frame.fields.Keys)
    ensures frame.Obj? && ErrorSignal(frame.fields).Some? ==> r == ErrorSignal(frame.fields).value
  {
    match frame
    case ParseError => Malformed
    case Obj(m) =>
      match ErrorSignal(m)
      case Some(e) => e
      case None => ShapeContent(m)
  }

  /** A 429 error object wins over every content key present beside it. */
  lemma RateLimitBeforeContent(m: map<string, JVal>, error: map<string, JVal>)
    requires "error" in m && m["error"] == JObj(error)
    requires IntAt(error, "code") == Some(TooManyRequests)
    ensures Extract(Obj(m)) == RateLimit(RetrySecondsInBand(RawError(error)))
  {
  }

  /** An "error" key that is not an object with an integer code makes the frame malformed. */
  lemma BadErrorIsMalformed(m: map<string, JVal>)
    requires "error" in m
    requires ObjectAt(m, "error").None? || IntAt(ObjectAt(m, "error").value, "code").None?
    ensures Extract(Obj(m)) == Malformed
  {
  }

  /**
   * Without an error signal the first present key among `choices`, `response`,
   * `text`, `content` decides, whatever the later ones hold.
   */
  lemma FirstShapeWins(m: map<string, JVal>, key: string, v: JVal)
    requires ErrorSignal(m).None?
    requires key != "error"
    requires "choices" in m || ("response" in m && key != "choices")
      || ("text" in m && key != "choices" && key != "response")
    requires key in {"response", "text", "content"} ==> key !in m
    requires key !in {"choices", "response", "text"} || key !in m
    ensures Extract(Obj(m[key := v])) == Extract(Obj(m))
  {
    var m' := m[key := v];
    assert ErrorSignal(m') == ErrorSignal(m);
    if "choices" in m {
      assert ArrayAt(m', "choices") == ArrayAt(m, "choices");
    } else if "response" in m {
      assert StringAt(m', "response") == StringAt(m, "response");
    } else {
      assert StringAt(m', "text") == StringAt(m, "text");
    }
  }

  /**
   * Without an error signal, a frame whose first present content key is a string
   * key yields that string, and anything else under that key makes it malformed.
   */
  lemma StringShapeYields(m: map<string, JVal>, key: string)
    requires ErrorSignal(m).None?
    requires key == "response" || key == "text" || key == "content"
    requires key in m && "choices" !in m
    requires key != "response" ==> "response" !in m
    requires key == "content" ==> "text" !in m
    ensures m[key].JStr? ==> Extract(Obj(m)) == Content(m[key].s)
    ensures !m[key].JStr? ==> Extract(Obj(m)) == Malformed
  {
  }

  /**
   * Without an error signal, a frame with `choices` yields `choices[0].delta.content`
   * (through `optString`) when `choices` is a non-empty array whose first element
   * is an object with a `delta` object, and is malformed otherwise.
   */
  lemma ChoicesShapeYields(m: map<string, JVal>)
    requires ErrorSignal(m).None? && "choices" in m
    ensures var ok := m["choices"].JArr? && m["choices"].items != [] && m["choices"].items[0].JObj?
                      && ObjectAt(m["choices"].items[0].fields, "delta").Some?;
      && (ok ==> Extract(Obj(m)) == Content(OptString(m["choices"].items[0].fields["delta"].fields, "content")))
      && (!ok ==> Extract(Obj(m)) == Malformed)
  {
  }

  /** The worked example: "Retry after 5 seconds" is read as 5. */
  lemma RetryExample()
    ensures RetryAfter("Retry after 5 seconds") == Some(5)
  {
    assert IntToString(5) == "5";
    assert "Retry after 5 seconds" == "" + RetryPhrase + " " + IntToString(5) + " " + RetryUnit + "";
    PhraseAfterLead("");
    RetryAfterReadsNumber("", 5, "");
  }

  /** The phrase is found after other text: "Too many requests. Retry after 30 seconds." is read as 30. */
  lemma RetryAfterLeadExample()
    ensures RetryAfter("Too many requests. Retry after 30 seconds.") == Some(30)
  {
    var lead := "Too many requests. ";
    assert IntToString(30) == "30";
    assert "Too many requests. Retry after 30 seconds." == lead + RetryPhrase + " " + IntToString(30) + " " + RetryUnit + ".";
    PhraseAfterLead(lead);
    RetryAfterReadsNumber(lead, 30, ".");
  }

  /**
   * An error whose `metadata.raw` announces N seconds after a text without the phrase:
   * an in-band frame waits N seconds, an HTTP 429 response N + 2 (as a 32-bit `Int` sum).
   */
  lemma AnnouncedRetrySeconds(lead: string, n: int, rest: string, error: map<string, JVal>)
    requires IsInt32(n) && IndexOf(lead + RetryPhrase, RetryPhrase) == Some(|lead|)
    requires ObjectAt(error, "metadata").Some?
    requires var metadata := ObjectAt(error, "metadata").value;
      "raw" in metadata && metadata["raw"] == JStr(lead + RetryPhrase + " " + IntToString(n) + " " + RetryUnit + rest)
    ensures RetrySecondsInBand(RawError(error)) == n
    ensures RetrySecondsTransport(Obj(map["error" := JObj(error)])) == ToInt32(n + TransportSafetyMargin)
  {
    var raw := lead + RetryPhrase + " " + IntToString(n) + " " + RetryUnit + rest;
    assert RawError(error) == raw;
    RetryAfterReadsNumber(lead, n, rest);
    TransportAndInBandDiffer(error);
  }
}
