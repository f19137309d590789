# Inline AI Chat: a Dafny model of the streaming action and the model catalogue

This project models the two cores of the Inline AI Chat IntelliJ plugin (roscrl/inline-ai-chat)
and proves their properties.

**The streaming action** (`StreamTextAction`) works like this:
- It pads the document so it ends with four newlines, and picks an insertion point two characters before the end.
- It sends the selection, or the whole document, to the OpenRouter chat-completion endpoint.
- It reads the response as server-sent-event lines. Only lines that start with `data: ` count, and `data: [DONE]` ends the stream.
- It pulls a text delta out of each JSON frame, trying the shapes in a fixed order.
- It buffers the deltas and inserts them into the document in chunks of at least ten UTF-16 code units (`String.length`).
- It turns an HTTP 429, or an in-band error with code 429, into a countdown. When the countdown finishes, the action runs again.

Only one session runs at a time: the `isStreaming` and `isRateLimited` flags guard this. When nothing was written, the session cleans up after itself.

**The model catalogue** is the persisted settings (`InlineAIChatSettingsState`) and the rules the dialogs apply to them:
- the settings hold an API key, a selected model with change listeners, a system prompt, and a set of model ids kept in insertion order;
- the quick model-switch dialog (`QuickSettingsAction`) and the settings page with its model management dialog (`InlineAIChatSettingsConfigurable`) add, remove and select models;
- the settings page copies values in and out with `isModified`/`apply`/`reset`.

## Structure

How the pieces are represented:
- **The document** is a `string`. The response is a status code plus an optional body, which can be read whole or as a sequence of lines (`Option<string>`, where `None` is a null read).
- **Parsed JSON frames** are abstract values: a parse error, or an object whose fields are a `map` from key to value. The parser is a function parameter.
- **Cancellation** is an input. It gives the first poll of `isCanceled` that answers true; every later poll answers true as well.
- **State** the source changes in place lives in classes with `modifies` frames:
  - `StreamTextAction.StreamSession` holds the document, the gutter markers, `isStreaming` and the rate limiter;
  - `SettingsState.Settings` holds the settings;
  - the dialogs' lists and fields live in the dialog classes.

Each imperative method is proved against a function of its inputs:
- The read loop (`StreamLines`) is proved to do exactly what `Chunking.Stream` says.
- A whole session (`StreamAIResponse`) is proved to end as `SessionResult` says and to leave the document as `DocAfter` says.
- The lemmas in `Chunking`, `EditorText` and `StreamTextAction` then state what those functions promise.

The modules:
- `Wrappers`, `KotlinStrings`, `StringOrder`: the Kotlin standard-library operations the code relies on. These are `trim`, `substringAfter`/`substringBefore`, `toIntOrNull`, `Int` wrap-around, `String.compareTo` and `sorted()`.
- `Json`: org.json's accessors over parsed frames.
- `Cancellation`: the cancellation input.
- `Extraction`: line classification, content extraction, and retry seconds.
- `Chunking`: the read loop as a function.
- `Countdown`: the countdown loop and its display.
- `EditorText`: padding, insertion and clean-up on the document.
- `StreamTextAction`: the action and the session.
- `SettingsState`: the settings.
- `ModelCatalogue`: the add and remove rules both dialogs share.
- `QuickSettings`, `SettingsConfigurable`: the dialogs.

Strings and characters:
- A Dafny `char` is a Unicode scalar value. On the JVM a character outside the Basic Multilingual Plane is two UTF-16 code units, and `String.length`, `compareTo` and `Character.digit` work on code units.
- `KotlinStrings.Utf16Length` counts code units. The flush threshold of the read loop counts them (`Chunking.Step`, `SurrogatePairsFillTheBuffer`).
- `StringOrder.LexLe` compares strings by their UTF-16 encodings (`LexLeIsUnitOrder`), so U+1F600 sorts before U+FF21 (`SurrogatesBeforeHighPlane`).
- `KotlinStrings.DigitOf` is `Character.digit(c, 10)`. It accepts the ASCII digits and the decimal-digit runs of the Basic Multilingual Plane, from a table of their zeros. A supplementary character is two surrogate code units and is never a digit.

Behaviour of the code that the model follows:
- **A JSON parse failure always ends the session**, even after text has been written. Only the clean-up depends on how much was written.
- **Frames with no recognised key**: when nothing has been written yet, such a frame ends the session. The error message it inserts is deleted again by the `finally` clean-up, together with the padding after the insertion point. The document therefore ends as the padded text cut two characters before its end, not as it was before the action (`NothingWrittenRemovesPadding`).
- **Cancellation is reported as an error.** It is thrown as an exception, so it removes the gutter marker even when text was written, and the caller reports it as an error (`Failed`, `MarkersAfter`).
- **Retry times differ by path.** A 429 HTTP status retries after N + 2 seconds, or 62. An in-band 429 retries after N seconds, or 60 (`TransportAndInBandDiffer`).
- **A countdown task can clear a newer countdown.** A task that finishes after it was replaced still calls `cleanupRateLimit`, which clears the newer countdown. It never retries, though (`RunRateLimitTask`, `StaleTaskIsNotCurrent`).
- **`loadState` uses the setter.** `XmlSerializerUtil.copyBean` copies bean properties through their accessors. The selected model is therefore copied through the `selectedModel` setter, which can notify the listeners, and the private `_selectedModel` field is not copied directly.
- **The combo box and the lists are non-editable Swing components.** Asking them to select an entry they do not list leaves the selection unchanged, for the combo box and for the list alike (`ComboSelect`, `QuickSettingsDialog.Highlight`). The management dialog never selects a list entry itself: its selection is the user's click (`ManageModelsDialog.Highlight`). So `reset` leaves the settings page unmodified only when the combo box can show the stored model (`Configurable.Reset`).

## Model

Source paths are relative to the repository root.

| member | source | states |
|---|---|---|
| Wrappers.FirstOrNull | src/main/kotlin/com/github/roscrl/inlineaichat/settings/InlineAIChatSettingsState.kt:22 | `firstOrNull` is empty exactly for the empty list and is otherwise its first element |
| KotlinStrings.ToInt32 | src/main/kotlin/com/github/roscrl/inlineaichat/actions/StreamTextAction.kt:229 | `Int` arithmetic wraps: the result is a 32-bit value congruent to the exact one modulo 2^32, and equal to it when it fits |
| KotlinStrings.Utf16Length | src/main/kotlin/com/github/roscrl/inlineaichat/actions/StreamTextAction.kt:332 | `String.length` counts UTF-16 code units: between one and two per character, and zero only for the empty string |
| KotlinStrings.Utf16LengthAppend | src/main/kotlin/com/github/roscrl/inlineaichat/actions/StreamTextAction.kt:341 | the code-unit length of a concatenation is the sum of the lengths |
| KotlinStrings.Utf16LengthExample | src/main/kotlin/com/github/roscrl/inlineaichat/actions/StreamTextAction.kt:332 | five U+1F600 are five characters but ten code units |
| KotlinStrings.Trim | src/main/kotlin/com/github/roscrl/inlineaichat/actions/StreamTextAction.kt:228 | `trim` gives a string no longer than its input that neither starts nor ends with whitespace |
| KotlinStrings.TrimAround | src/main/kotlin/com/github/roscrl/inlineaichat/actions/StreamTextAction.kt:228 | trimming whitespace-only text from around a core that has no whitespace at its ends gives exactly that core |
| KotlinStrings.IndexOfFirst | src/main/kotlin/com/github/roscrl/inlineaichat/actions/StreamTextAction.kt:226 | `indexOf` finds the first occurrence: an occurrence at `i` with none before it is the index returned |
| KotlinStrings.SubstringAfter | src/main/kotlin/com/github/roscrl/inlineaichat/actions/StreamTextAction.kt:226 | `substringAfter` is the rest after the first occurrence of the delimiter, or the whole string when there is none |
| KotlinStrings.SubstringBefore | src/main/kotlin/com/github/roscrl/inlineaichat/actions/StreamTextAction.kt:227 | `substringBefore` is the prefix before the first occurrence of the delimiter, or the whole string when there is none |
| KotlinStrings.SignedDigits | src/main/kotlin/com/github/roscrl/inlineaichat/actions/StreamTextAction.kt:229 | a number is read exactly from a non-empty run of Unicode decimal digits whose value, with its sign, fits in an `Int` |
| KotlinStrings.ToIntOrNull | src/main/kotlin/com/github/roscrl/inlineaichat/actions/StreamTextAction.kt:229 | `toIntOrNull` yields only 32-bit values and yields null for the empty string |
| KotlinStrings.DigitOf | src/main/kotlin/com/github/roscrl/inlineaichat/actions/StreamTextAction.kt:229 | `Character.digit(c, 10)`: a value below ten; the ASCII digits give their value; other characters below U+0660 and every supplementary character give none |
| KotlinStrings.ToIntOrNullExamples | src/main/kotlin/com/github/roscrl/inlineaichat/actions/StreamTextAction.kt:229 | `toIntOrNull` reads Arabic-Indic digits ("٥" is 5, "-٤٢" is -42) and refuses a supplementary digit such as U+1D7D3 |
| KotlinStrings.NatToStringAscii | src/main/kotlin/com/github/roscrl/inlineaichat/actions/StreamTextAction.kt:229 | the decimal rendering of a number is made of ASCII digits only |
| KotlinStrings.DigitsValueOfNatToString | src/main/kotlin/com/github/roscrl/inlineaichat/actions/StreamTextAction.kt:229 | the digits of a non-negative number's decimal rendering read back as that number |
| KotlinStrings.ToIntOrNullOfIntToString | src/main/kotlin/com/github/roscrl/inlineaichat/actions/StreamTextAction.kt:229 | `toIntOrNull` reads back the decimal rendering of every `Int`, negative ones included |
| StringOrder.LexLeReflexive | src/main/kotlin/com/github/roscrl/inlineaichat/settings/InlineAIChatSettingsState.kt:71 | `String.compareTo` order: every string is at most itself |
| StringOrder.LexLeAntisymmetric | src/main/kotlin/com/github/roscrl/inlineaichat/settings/InlineAIChatSettingsState.kt:71 | two strings each at most the other are equal |
| StringOrder.LexLeTransitive | src/main/kotlin/com/github/roscrl/inlineaichat/settings/InlineAIChatSettingsState.kt:71 | the order is transitive |
| StringOrder.LexLeTotal | src/main/kotlin/com/github/roscrl/inlineaichat/settings/InlineAIChatSettingsState.kt:71 | any two strings are comparable |
| StringOrder.Utf16RankOrder | src/main/kotlin/com/github/roscrl/inlineaichat/settings/InlineAIChatSettingsState.kt:71 | ranking characters by their UTF-16 encoding is injective, orders by first code unit, and orders two supplementary characters by code point |
| StringOrder.LexLeIsUnitOrder | src/main/kotlin/com/github/roscrl/inlineaichat/settings/InlineAIChatSettingsState.kt:71 | `String.compareTo` order on strings is exactly lexicographic order on their UTF-16 code units |
| StringOrder.SurrogatesBeforeHighPlane | src/main/kotlin/com/github/roscrl/inlineaichat/settings/InlineAIChatSettingsState.kt:71 | U+1F600 sorts before U+FF21 although its code point is larger |
| StringOrder.Insert | src/main/kotlin/com/github/roscrl/inlineaichat/settings/InlineAIChatSettingsState.kt:71 | inserting into a sorted list keeps it sorted and adds exactly that element |
| StringOrder.Sort | src/main/kotlin/com/github/roscrl/inlineaichat/settings/InlineAIChatSettingsState.kt:71 | `sorted()` is sorted and a permutation of its input |
| StringOrder.SortKeepsElements | src/main/kotlin/com/github/roscrl/inlineaichat/settings/InlineAIChatSettingsState.kt:71 | sorting keeps the length and the elements, and sorts a list without duplicates strictly |
| StringOrder.SortedHeadIsLeast | src/main/kotlin/com/github/roscrl/inlineaichat/settings/InlineAIChatSettingsState.kt:22 | the first element of a sorted list is at most every element |
| Json.OptString | src/main/kotlin/com/github/roscrl/inlineaichat/actions/StreamTextAction.kt:224 | `optString` is "" for a missing key, the string for a string value, and a number's rendering for an `Int` value |
| Json.IntAt | src/main/kotlin/com/github/roscrl/inlineaichat/actions/StreamTextAction.kt:408 | `getInt` yields a 32-bit value |
| Extraction.Classify | src/main/kotlin/com/github/roscrl/inlineaichat/actions/StreamTextAction.kt:271-278 | null reads and lines without `data: ` are skipped; `data: [DONE]` and only it terminates; any other `data: ` line's payload is the rest of the line after the prefix |
| Extraction.DataAfterPrefix | src/main/kotlin/com/github/roscrl/inlineaichat/actions/StreamTextAction.kt:274 | on a line that starts with `data: `, `substringAfter("data: ")` drops exactly the prefix |
| Extraction.RetrySecondsTransport | src/main/kotlin/com/github/roscrl/inlineaichat/actions/StreamTextAction.kt:221-236 | the retry time of a 429 HTTP response is a 32-bit value |
| Extraction.RetryAfter | src/main/kotlin/com/github/roscrl/inlineaichat/actions/StreamTextAction.kt:412-418 | a number is read only from text containing "Retry after", and is a 32-bit value |
| Extraction.RetrySecondsInBand | src/main/kotlin/com/github/roscrl/inlineaichat/actions/StreamTextAction.kt:412-422 | the in-band retry time is a 32-bit value, and 60 when no number is found or the phrase is absent |
| Extraction.RetryAfterReadsNumber | src/main/kotlin/com/github/roscrl/inlineaichat/actions/StreamTextAction.kt:225-229 | any text whose first "Retry after" is followed by " N seconds…" yields N, for every `Int` N and whatever text comes before |
| Extraction.TransportAndInBandDiffer | src/main/kotlin/com/github/roscrl/inlineaichat/actions/StreamTextAction.kt:221-236 | for the same error object, the HTTP path waits N + 2 (wrapping) and the in-band path waits N, or 62 and 60 when no number is found |
| Extraction.AnnouncedRetrySeconds | src/main/kotlin/com/github/roscrl/inlineaichat/actions/StreamTextAction.kt:412-422 | an error whose `metadata.raw` announces N seconds, whatever other metadata it has, gives N in-band and N + 2 (wrapping) over HTTP |
| Extraction.RetryExample | src/main/kotlin/com/github/roscrl/inlineaichat/actions/StreamTextAction.kt:225-229 | "Retry after 5 seconds" announces 5 |
| Extraction.RetryAfterLeadExample | src/main/kotlin/com/github/roscrl/inlineaichat/actions/StreamTextAction.kt:412-418 | "Too many requests. Retry after 30 seconds." announces 30 |
| Extraction.ErrorSignal | src/main/kotlin/com/github/roscrl/inlineaichat/actions/StreamTextAction.kt:406-408 | an `error` key that is not an object or has no integer `code` makes the frame malformed, an integer code 429 makes it a rate limit, and no `error` key means no signal |
| Extraction.ShapeContent | src/main/kotlin/com/github/roscrl/inlineaichat/actions/StreamTextAction.kt:287-326 | the content shapes leave a frame unrecognised exactly when it has none of the four content keys, and then report all its keys; they never yield a rate limit |
| Extraction.Extract | src/main/kotlin/com/github/roscrl/inlineaichat/actions/StreamTextAction.kt:283-326 | an unparsable frame is malformed; an error signal takes precedence; a frame with no error signal is unrecognised exactly when it has none of `choices`, `response`, `text`, `content`, and then its keys are reported |
| Extraction.RateLimitBeforeContent | src/main/kotlin/com/github/roscrl/inlineaichat/actions/StreamTextAction.kt:406-422 | an `error` object with code 429 is a rate limit whatever content keys the frame also has |
| Extraction.BadErrorIsMalformed | src/main/kotlin/com/github/roscrl/inlineaichat/actions/StreamTextAction.kt:406-408 | an `error` key that is not an object, or whose object has no integer `code`, makes the frame malformed |
| Extraction.FirstShapeWins | src/main/kotlin/com/github/roscrl/inlineaichat/actions/StreamTextAction.kt:287-310 | once a shape earlier in the order `choices` > `response` > `text` > `content` is present, adding a later key changes nothing |
| Extraction.StringShapeYields | src/main/kotlin/com/github/roscrl/inlineaichat/actions/StreamTextAction.kt:295-308 | with no earlier shape present, a `response`, `text` or `content` string is the content and any other value is malformed |
| Extraction.ChoicesShapeYields | src/main/kotlin/com/github/roscrl/inlineaichat/actions/StreamTextAction.kt:287-293 | a `choices` array whose first element has a `delta` object yields that object's `content` string; any other `choices` value is malformed |
| Chunking.Interpret | src/main/kotlin/com/github/roscrl/inlineaichat/actions/StreamTextAction.kt:271-281 | a line is ignored exactly when it is skipped and ends the stream exactly when it is the terminator |
| Chunking.InterpretLine | src/main/kotlin/com/github/roscrl/inlineaichat/actions/StreamTextAction.kt:271-278 | what a line means: ignored without `data: `; `[DONE]` ends the loop; any other payload is parsed and extracted |
| Chunking.Effects | src/main/kotlin/com/github/roscrl/inlineaichat/actions/StreamTextAction.kt:262-281 | a response's lines give one effect each, in order |
| Chunking.EffectAt | src/main/kotlin/com/github/roscrl/inlineaichat/actions/StreamTextAction.kt:271-281 | line i's effect is what that line means |
| Chunking.Step | src/main/kotlin/com/github/roscrl/inlineaichat/actions/StreamTextAction.kt:262-356 | one iteration reads at most one line; when it goes on, the buffer holds fewer than ten UTF-16 code units or is unchanged; a cancelled poll stops the loop with nothing else changed |
| Chunking.Finish | src/main/kotlin/com/github/roscrl/inlineaichat/actions/StreamTextAction.kt:358-363 | after the loop, the remaining buffer is written only when the loop ended normally |
| Chunking.Run | src/main/kotlin/com/github/roscrl/inlineaichat/actions/StreamTextAction.kt:262-356 | the loop only moves forward through the lines, and ends exhausted only after the last one |
| Chunking.RunUnfold | src/main/kotlin/com/github/roscrl/inlineaichat/actions/StreamTextAction.kt:262-356 | the loop continues from one iteration's progress, or stops with that iteration's reason |
| Chunking.Stream | src/main/kotlin/com/github/roscrl/inlineaichat/actions/StreamTextAction.kt:258-363 | a stream writes a prefix of the concatenated deltas and stops for the reason the loop stopped |
| Chunking.StepAccounts | src/main/kotlin/com/github/roscrl/inlineaichat/actions/StreamTextAction.kt:329-346 | written text plus buffer grows by exactly the line's delta, and written text only grows |
| Chunking.IgnoredLineChangesNothing | src/main/kotlin/com/github/roscrl/inlineaichat/actions/StreamTextAction.kt:271-272 | a skipped line only moves to the next line |
| Chunking.UnknownFormatOnlyFirst | src/main/kotlin/com/github/roscrl/inlineaichat/actions/StreamTextAction.kt:311-326 | a frame with no recognised key stops the loop if and only if nothing was written, and is otherwise skipped |
| Chunking.ParseFailureAlwaysStops | src/main/kotlin/com/github/roscrl/inlineaichat/actions/StreamTextAction.kt:348-355 | an unparsable frame stops the loop whatever was written |
| Chunking.FlushRule | src/main/kotlin/com/github/roscrl/inlineaichat/actions/StreamTextAction.kt:329-346 | a flush writes the buffer with the non-empty delta, empties the buffer, and happens only with ten or more UTF-16 code units or on the last line |
| Chunking.RunAccounts | src/main/kotlin/com/github/roscrl/inlineaichat/actions/StreamTextAction.kt:262-346 | over the loop, written text plus buffer is the concatenation of the deltas of the lines read |
| Chunking.RunKeepsWritten | src/main/kotlin/com/github/roscrl/inlineaichat/actions/StreamTextAction.kt:340-341 | text once written stays a prefix of the written text |
| Chunking.RunWritesEverything | src/main/kotlin/com/github/roscrl/inlineaichat/actions/StreamTextAction.kt:262-363 | without cancellation or stopping lines, the loop exhausts the source and writes every delta in order |
| Chunking.StreamWritesEverything | src/main/kotlin/com/github/roscrl/inlineaichat/actions/StreamTextAction.kt:262-363 | a clean stream writes exactly the concatenation of all deltas and ends exhausted |
| Chunking.RunStopsAtFirstStop | src/main/kotlin/com/github/roscrl/inlineaichat/actions/StreamTextAction.kt:262-356 | the loop stops at the first stopping line, for that line's reason |
| Chunking.TerminatorWritesPrefix | src/main/kotlin/com/github/roscrl/inlineaichat/actions/StreamTextAction.kt:275-277 | `[DONE]` writes the deltas before it and nothing after it |
| Chunking.SurrogatePairsFillTheBuffer | src/main/kotlin/com/github/roscrl/inlineaichat/actions/StreamTextAction.kt:332 | five U+1F600 (ten code units) are flushed at once, before an unparsable frame stops the loop |
| Countdown.Pad2 | src/main/kotlin/com/github/roscrl/inlineaichat/actions/StreamTextAction.kt:508 | `%02d` gives two digits that read back as the number |
| Countdown.TimeDisplay | src/main/kotlin/com/github/roscrl/inlineaichat/actions/StreamTextAction.kt:505-511 | the remaining-time text has at least two characters |
| Countdown.ReadTimeDisplayOfTimeDisplay | src/main/kotlin/com/github/roscrl/inlineaichat/actions/StreamTextAction.kt:505-511 | the time display determines the remaining seconds: reading it back gives them |
| Countdown.TimeDisplayForm | src/main/kotlin/com/github/roscrl/inlineaichat/actions/StreamTextAction.kt:507-511 | `m:ss` exactly from 60 seconds up, `Ns` exactly below |
| Countdown.TimeDisplayExamples | src/main/kotlin/com/github/roscrl/inlineaichat/actions/StreamTextAction.kt:505-511 | 62 shows "1:02" and 45 shows "45s" |
| Countdown.CountdownFraction | src/main/kotlin/com/github/roscrl/inlineaichat/actions/StreamTextAction.kt:512 | inside the loop the fraction is in [0, 1) and divides by a non-zero count |
| Countdown.CountdownFractionGrows | src/main/kotlin/com/github/roscrl/inlineaichat/actions/StreamTextAction.kt:512 | the fraction grows as the remaining seconds fall |
| Countdown.ProgressFraction | src/main/kotlin/com/github/roscrl/inlineaichat/actions/StreamTextAction.kt:392 | the streaming fraction is in [0, 0.95] and reaches 0.95 exactly from 1900 characters |
| Countdown.ProgressFractionMonotone | src/main/kotlin/com/github/roscrl/inlineaichat/actions/StreamTextAction.kt:392 | more characters never lower the fraction |
| Countdown.RunCountdown | src/main/kotlin/com/github/roscrl/inlineaichat/actions/StreamTextAction.kt:504-523 | one display and fraction per second counted down, in order, each fraction in [0, 1); uncancelled it runs exactly max(seconds, 0) times and completes |
| Countdown.SleepSecond | src/main/kotlin/com/github/roscrl/inlineaichat/actions/StreamTextAction.kt:516-519 | one second polls the indicator at most ten times; it stops early only at a cancelled poll, and every poll before the last was not cancelled |
| EditorText.TrailingNewlines | src/main/kotlin/com/github/roscrl/inlineaichat/actions/StreamTextAction.kt:604-610 | the count is the length of the longest all-`\n` suffix |
| EditorText.TrailingNewlinesUnique | src/main/kotlin/com/github/roscrl/inlineaichat/actions/StreamTextAction.kt:604-610 | any count with that property is the count |
| EditorText.Newlines | src/main/kotlin/com/github/roscrl/inlineaichat/actions/StreamTextAction.kt:617 | `"\n".repeat(n)` is n newlines |
| EditorText.PaddedTrailingNewlines | src/main/kotlin/com/github/roscrl/inlineaichat/actions/StreamTextAction.kt:612-618 | after padding the document ends with max(k, 4) newlines |
| EditorText.PaddingEndsWithFour | src/main/kotlin/com/github/roscrl/inlineaichat/actions/StreamTextAction.kt:612-618 | at most four newlines are added, none exactly when four were there; the padded text ends with four newlines and padding it again adds nothing |
| EditorText.Inserted | src/main/kotlin/com/github/roscrl/inlineaichat/actions/StreamTextAction.kt:446 | an insertion adds exactly the inserted length |
| EditorText.InsertedParts | src/main/kotlin/com/github/roscrl/inlineaichat/actions/StreamTextAction.kt:446 | the text before the offset is kept, the inserted text follows, then the rest of the document |
| EditorText.InsertedTwice | src/main/kotlin/com/github/roscrl/inlineaichat/actions/StreamTextAction.kt:340-341 | two insertions at a moving offset equal one insertion of the concatenation |
| EditorText.CleanedUp | src/main/kotlin/com/github/roscrl/inlineaichat/actions/StreamTextAction.kt:459-483 | no change when the start is outside the document or the end is not after it; otherwise exactly `[init, min(cur, length))` is deleted |
| EditorText.CleanedUpToEnd | src/main/kotlin/com/github/roscrl/inlineaichat/actions/StreamTextAction.kt:366-370 | cleaning up to the document length cuts the document at the start offset |
| EditorText.PaddingRemoved | src/main/kotlin/com/github/roscrl/inlineaichat/actions/StreamTextAction.kt:366-370 | a clean-up after writing nothing leaves the padded text minus its last two newlines |
| StreamTextAction.BuildRequest | src/main/kotlin/com/github/roscrl/inlineaichat/actions/StreamTextAction.kt:174-196 | the request goes to the endpoint with the bearer key, the model, system then user messages, and streaming on |
| StreamTextAction.IsSuccessful | src/main/kotlin/com/github/roscrl/inlineaichat/actions/StreamTextAction.kt:215 | a successful status is never 429, and 200 is successful |
| StreamTextAction.ErrorBody | src/main/kotlin/com/github/roscrl/inlineaichat/actions/StreamTextAction.kt:216 | the error text is the body, or "No error details available" without one |
| StreamTextAction.SessionResult | src/main/kotlin/com/github/roscrl/inlineaichat/actions/StreamTextAction.kt:153-244 | a session stops at the key check exactly when the key is empty; an HTTP rate limit carries a 32-bit wait |
| StreamTextAction.ResponseResult | src/main/kotlin/com/github/roscrl/inlineaichat/actions/StreamTextAction.kt:214-247 | a response ends in a rate limit or a failure exactly when its status is not 2xx; a rate limit exactly for 429, waiting what the body's error announces; any other failure carries its status; a 2xx body is streamed, and its absence reported |
| StreamTextAction.DocAfter | src/main/kotlin/com/github/roscrl/inlineaichat/actions/StreamTextAction.kt:153-384 | the document before the start offset is never touched; a cancellation before the request and an HTTP failure leave the document as it was; a stream, whatever its end, cuts it at the start offset when it wrote nothing, and otherwise grows it by exactly the written text |
| StreamTextAction.DocAfterInserts | src/main/kotlin/com/github/roscrl/inlineaichat/actions/StreamTextAction.kt:157-371 | a missing key inserts the configuration message at the start offset, and a stream that wrote text has exactly that text there; the rest of the document follows unchanged |
| StreamTextAction.LimiterAfter | src/main/kotlin/com/github/roscrl/inlineaichat/actions/StreamTextAction.kt:219-240 | the task identities only grow; a 429 either way leaves the limiter set; a cancelled read clears it; every other end leaves it alone |
| StreamTextAction.MarkersAfter | src/main/kotlin/com/github/roscrl/inlineaichat/actions/StreamTextAction.kt:377-383 | the session's marker stays exactly when the session did not fail; other markers are untouched |
| StreamTextAction.StartCountdown | src/main/kotlin/com/github/roscrl/inlineaichat/actions/StreamTextAction.kt:488-493 | a countdown is a no-op while one is pending, and otherwise becomes the current task under a fresh identity |
| StreamTextAction.ClearCountdown | src/main/kotlin/com/github/roscrl/inlineaichat/actions/StreamTextAction.kt:593-596 | `cleanupRateLimit` clears both the task and the flag |
| StreamTextAction.CountTrailingNewlines | src/main/kotlin/com/github/roscrl/inlineaichat/actions/StreamTextAction.kt:604-610 | the backwards loop counts exactly the trailing newlines |
| StreamTextAction.StreamSession.constructor | src/main/kotlin/com/github/roscrl/inlineaichat/actions/StreamTextAction.kt:47-51 | neither flag is set and no countdown is pending |
| StreamTextAction.StreamSession.Update | src/main/kotlin/com/github/roscrl/inlineaichat/actions/StreamTextAction.kt:61-70 | enabled if and only if there is an editor and neither flag is set |
| StreamTextAction.StreamSession.CalculateStartOffset | src/main/kotlin/com/github/roscrl/inlineaichat/actions/StreamTextAction.kt:600-623 | the document gets its padding and the start is its new length minus two |
| StreamTextAction.StreamSession.WriteToEditor | src/main/kotlin/com/github/roscrl/inlineaichat/actions/StreamTextAction.kt:441-454 | the text is inserted at the offset and the offset advances by its length |
| StreamTextAction.StreamSession.CleanupNewlines | src/main/kotlin/com/github/roscrl/inlineaichat/actions/StreamTextAction.kt:459-483 | the document becomes its clean-up as `CleanedUp` states |
| StreamTextAction.StreamSession.StartRateLimitCountdown | src/main/kotlin/com/github/roscrl/inlineaichat/actions/StreamTextAction.kt:488-588 | the limiter moves as `StartCountdown` states; a task is started only when none was pending |
| StreamTextAction.StreamSession.CleanupRateLimit | src/main/kotlin/com/github/roscrl/inlineaichat/actions/StreamTextAction.kt:593-596 | the limiter is cleared |
| StreamTextAction.StreamSession.ReadLine | src/main/kotlin/com/github/roscrl/inlineaichat/actions/StreamTextAction.kt:262-281 | one iteration does what `Step` says, inserts exactly the flushed text at the current offset, and changes the flags only when it stops |
| StreamTextAction.StreamSession.TrackLine | src/main/kotlin/com/github/roscrl/inlineaichat/actions/StreamTextAction.kt:262-356 | one iteration does what `Step` says, the loop's remaining result is unchanged by it, and the document holds the text written so far |
| StreamTextAction.StreamSession.HandleRateLimit | src/main/kotlin/com/github/roscrl/inlineaichat/actions/StreamTextAction.kt:399-435 | an in-band 429 starts a countdown, stops streaming, and leaves the document as it is (its clean-up deletes an empty range) |
| StreamTextAction.StreamSession.HandleFrame | src/main/kotlin/com/github/roscrl/inlineaichat/actions/StreamTextAction.kt:280-356 | a parsed frame is handled as `Step` says: content, rate limit, unknown format or parse failure |
| StreamTextAction.StreamSession.AddContent | src/main/kotlin/com/github/roscrl/inlineaichat/actions/StreamTextAction.kt:329-346 | a non-empty delta is buffered and flushed at ten UTF-16 code units or on the last line, unless cancelled just before the write |
| StreamTextAction.StreamSession.FinishStream | src/main/kotlin/com/github/roscrl/inlineaichat/actions/StreamTextAction.kt:358-371 | the final flush and the `finally` clean-up leave the document as `StreamedDoc` states |
| StreamTextAction.StreamSession.StreamLines | src/main/kotlin/com/github/roscrl/inlineaichat/actions/StreamTextAction.kt:258-371 | the read loop writes and stops exactly as `Stream` says; the document holds the written text at the start offset, or loses its padding when nothing was written |
| StreamTextAction.StreamSession.StreamAIResponse | src/main/kotlin/com/github/roscrl/inlineaichat/actions/StreamTextAction.kt:117-384 | a session ends as `SessionResult` says, with the document, markers, limiter and flag as `DocAfter`, `MarkersAfter`, `LimiterAfter` and `StreamingAfter` say |
| StreamTextAction.StreamSession.RequestAndStream | src/main/kotlin/com/github/roscrl/inlineaichat/actions/StreamTextAction.kt:174-244 | with a key: the poll before the request, then the response handling |
| StreamTextAction.StreamSession.ReportMissingApiKey | src/main/kotlin/com/github/roscrl/inlineaichat/actions/StreamTextAction.kt:157-172 | an empty key inserts the configuration message at the start offset and clears the streaming flag |
| StreamTextAction.StreamSession.HandleResponse | src/main/kotlin/com/github/roscrl/inlineaichat/actions/StreamTextAction.kt:214-247 | a response ends as `ResponseResult` says; an HTTP 429 starts a countdown |
| StreamTextAction.StreamSession.StreamBody | src/main/kotlin/com/github/roscrl/inlineaichat/actions/StreamTextAction.kt:247-375 | the body's lines are streamed as `Stream` says |
| StreamTextAction.StreamSession.ActionPerformed | src/main/kotlin/com/github/roscrl/inlineaichat/actions/StreamTextAction.kt:72-115 | without a project or editor nothing happens; padding happens before the guard; a session runs only if the flag was clear, on the selection or else the padded document, and the flag is clear afterwards |
| StreamTextAction.StreamSession.RunRateLimitTask | src/main/kotlin/com/github/roscrl/inlineaichat/actions/StreamTextAction.kt:498-582 | the action is retried exactly when the countdown completed, the task is still the current one, the project is open and an editor exists; the limiter is cleared in every case |
| StreamTextAction.WrittenTextAtStart | src/main/kotlin/com/github/roscrl/inlineaichat/actions/StreamTextAction.kt:340 | after a session that wrote text, the text sits at the start offset between the untouched halves of the document |
| StreamTextAction.NothingWrittenRemovesPadding | src/main/kotlin/com/github/roscrl/inlineaichat/actions/StreamTextAction.kt:366-370 | a session that wrote nothing leaves the padded text cut two characters before its end: max(k, 4) − 2 trailing newlines |
| StreamTextAction.CleanSessionWritesEverything | src/main/kotlin/com/github/roscrl/inlineaichat/actions/StreamTextAction.kt:262-363 | with a key, no cancellation, a 2xx body and no stopping lines, the session writes every delta and succeeds |
| StreamTextAction.CancelBeforeRequestFails | src/main/kotlin/com/github/roscrl/inlineaichat/actions/StreamTextAction.kt:208-212 | cancelling before the request fails the session, leaves the document, removes the marker and leaves the limiter |
| StreamTextAction.LimiterAfterValid | src/main/kotlin/com/github/roscrl/inlineaichat/actions/StreamTextAction.kt:488-596 | every change a session or a clean-up makes keeps the limiter valid: a pending task means the flag is set, and its identity is below the next one |
| StreamTextAction.StaleTaskIsNotCurrent | src/main/kotlin/com/github/roscrl/inlineaichat/actions/StreamTextAction.kt:541 | after clean-up and a new countdown, an old task is never the current one |
| SettingsState.AddAll | src/main/kotlin/com/github/roscrl/inlineaichat/settings/InlineAIChatSettingsState.kt:49 | `addAll` keeps the set in front, adds exactly the new elements, and keeps it free of duplicates |
| SettingsState.AddAllSnoc | src/main/kotlin/com/github/roscrl/inlineaichat/settings/InlineAIChatSettingsState.kt:49 | the new elements are appended in the order of the added list: one more element at its end is appended unless already present |
| SettingsState.AddAllToEmptyStartsWithFirst | src/main/kotlin/com/github/roscrl/inlineaichat/settings/InlineAIChatSettingsState.kt:49-51 | filling an empty set puts the first default first |
| SettingsState.FirstOther | src/main/kotlin/com/github/roscrl/inlineaichat/actions/QuickSettingsAction.kt:114 | `first { it != x }` is the earliest element other than x, and fails exactly when every element is x |
| SettingsState.OtherExists | src/main/kotlin/com/github/roscrl/inlineaichat/actions/QuickSettingsAction.kt:104-114 | with two or more distinct models another one always exists |
| SettingsState.RemoveFirst | src/main/kotlin/com/github/roscrl/inlineaichat/settings/InlineAIChatSettingsState.kt:67 | `remove` drops one occurrence when there is one and nothing otherwise |
| SettingsState.RemoveFirstAt | src/main/kotlin/com/github/roscrl/inlineaichat/settings/InlineAIChatSettingsState.kt:67 | it drops the first occurrence and keeps the rest in order |
| SettingsState.RemoveFirstFromSet | src/main/kotlin/com/github/roscrl/inlineaichat/actions/QuickSettingsAction.kt:118 | removing from the model set removes exactly that model and keeps it a set |
| SettingsState.RemoveFirstAbsent | src/main/kotlin/com/github/roscrl/inlineaichat/settings/InlineAIChatSettingsState.kt:67 | removing an absent value changes nothing |
| SettingsState.Settings.constructor | src/main/kotlin/com/github/roscrl/inlineaichat/settings/InlineAIChatSettingsState.kt:20-41 | the initial state, filled from the defaults, with the first default selected |
| SettingsState.Settings.AvailableModels | src/main/kotlin/com/github/roscrl/inlineaichat/settings/InlineAIChatSettingsState.kt:70-71 | the model set in ascending order, with the same elements, strictly sorted |
| SettingsState.Settings.SelectedModel | src/main/kotlin/com/github/roscrl/inlineaichat/settings/InlineAIChatSettingsState.kt:21-22 | the stored id, else the first available model, else "" |
| SettingsState.Settings.FallbackIsLeast | src/main/kotlin/com/github/roscrl/inlineaichat/settings/InlineAIChatSettingsState.kt:22 | with no stored id, the model returned is in the set and is its least element |
| SettingsState.Settings.SetSelectedModel | src/main/kotlin/com/github/roscrl/inlineaichat/settings/InlineAIChatSettingsState.kt:23-29 | the id is stored; every listener is called once, in order, exactly when it differs from the stored field |
| SettingsState.Settings.InitializeModels | src/main/kotlin/com/github/roscrl/inlineaichat/settings/InlineAIChatSettingsState.kt:43-60 | only an empty set is filled; a missing or unknown selection becomes the first default without notification |
| SettingsState.Settings.AddListener | src/main/kotlin/com/github/roscrl/inlineaichat/settings/InlineAIChatSettingsState.kt:62-64 | the listener is appended |
| SettingsState.Settings.RemoveListener | src/main/kotlin/com/github/roscrl/inlineaichat/settings/InlineAIChatSettingsState.kt:66-68 | the first registration is removed and the rest keep their order |
| SettingsState.Settings.LoadState | src/main/kotlin/com/github/roscrl/inlineaichat/settings/InlineAIChatSettingsState.kt:75-82 | the stored values are copied, the selection through its setter; an empty stored set is filled from the defaults, and the stored selection survives only if it is a default, else the first default is selected |
| ModelCatalogue.Decide | src/main/kotlin/com/github/roscrl/inlineaichat/actions/QuickSettingsAction.kt:84-97 | a name is added exactly when it is non-empty after trimming and new; a duplicate exactly when present |
| ModelCatalogue.AddModel | src/main/kotlin/com/github/roscrl/inlineaichat/actions/QuickSettingsAction.kt:84-88 | an added name goes to the end of the set; otherwise nothing changes |
| ModelCatalogue.RemoveModel | src/main/kotlin/com/github/roscrl/inlineaichat/actions/QuickSettingsAction.kt:100-121 | refused exactly with at most one model; removing the active model first selects the first other one, which stays in the set |
| ModelCatalogue.RemoveSelected | src/main/kotlin/com/github/roscrl/inlineaichat/actions/QuickSettingsAction.kt:112-118 | the selection moves to the first other model, the listeners are notified, then the model goes |
| ModelCatalogue.RemoveFromModels | src/main/kotlin/com/github/roscrl/inlineaichat/actions/QuickSettingsAction.kt:118 | `models.remove` removes exactly that model from the set |
| ModelCatalogue.SelectOther | src/main/kotlin/com/github/roscrl/inlineaichat/actions/QuickSettingsAction.kt:112-116 | the first other model is selected and the listeners are notified |
| ModelCatalogue.RemoveFromSet | src/main/kotlin/com/github/roscrl/inlineaichat/actions/QuickSettingsAction.kt:118 | removal keeps a set, removes exactly that model, and shrinks it by one when present |
| QuickSettings.QuickSettingsDialog.constructor | src/main/kotlin/com/github/roscrl/inlineaichat/actions/QuickSettingsAction.kt:52-61 | the list shows the sorted models with the current one highlighted if listed |
| QuickSettings.QuickSettingsDialog.RefreshModels | src/main/kotlin/com/github/roscrl/inlineaichat/actions/QuickSettingsAction.kt:63-66 | the list is always the current model set in sorted order |
| QuickSettings.QuickSettingsDialog.Highlight | src/main/kotlin/com/github/roscrl/inlineaichat/actions/QuickSettingsAction.kt:89 | a listed value is highlighted; an unlisted one leaves the highlight as it was |
| QuickSettings.QuickSettingsDialog.Choose | src/main/kotlin/com/github/roscrl/inlineaichat/actions/QuickSettingsAction.kt:141-144 | Enter, double click and OK select the highlighted model, if any, with notification exactly when it changes |
| QuickSettings.QuickSettingsDialog.Add | src/main/kotlin/com/github/roscrl/inlineaichat/actions/QuickSettingsAction.kt:78-99 | a new trimmed name joins the set, is selected (notifying exactly when it differs from the stored one) and highlighted, and closes the dialog; anything else changes nothing |
| QuickSettings.QuickSettingsDialog.Remove | src/main/kotlin/com/github/roscrl/inlineaichat/actions/QuickSettingsAction.kt:100-121 | without a highlighted entry nothing happens; refused exactly with at most one model, leaving the list and its highlight as they were; removing the active model selects the first other one and notifies; otherwise the selection and listeners are untouched; after a removal the list is refilled without the model and nothing is highlighted |
| SettingsConfigurable.ComboSelect | src/main/kotlin/com/github/roscrl/inlineaichat/settings/InlineAIChatSettingsConfigurable.kt:158 | a non-editable combo box selects only an item it lists |
| SettingsConfigurable.SettingsComponent.constructor | src/main/kotlin/com/github/roscrl/inlineaichat/settings/InlineAIChatSettingsConfigurable.kt:142-152 | the combo box lists the models and shows the current one if listed |
| SettingsConfigurable.SettingsComponent.UpdateModelComboBox | src/main/kotlin/com/github/roscrl/inlineaichat/settings/InlineAIChatSettingsConfigurable.kt:154-159 | the models in sorted order; the old selection, else `initialModel`, if listed, else the first entry; a selection exists exactly when there are models |
| SettingsConfigurable.SettingsComponent.SetSelectedModel | src/main/kotlin/com/github/roscrl/inlineaichat/settings/InlineAIChatSettingsConfigurable.kt:177-180 | the model is selected if listed and becomes the fallback |
| SettingsConfigurable.SettingsComponent.AddCustom | src/main/kotlin/com/github/roscrl/inlineaichat/settings/InlineAIChatSettingsConfigurable.kt:120-128 | a new trimmed name joins the set and is selected, and the field is cleared; otherwise nothing changes |
| SettingsConfigurable.SettingsComponent.RestoreDefaultPrompt | src/main/kotlin/com/github/roscrl/inlineaichat/settings/InlineAIChatSettingsConfigurable.kt:147-149 | the prompt field gets the default prompt |
| SettingsConfigurable.Configurable.constructor | src/main/kotlin/com/github/roscrl/inlineaichat/settings/InlineAIChatSettingsConfigurable.kt:28 | no component at first |
| SettingsConfigurable.Configurable.IsModified | src/main/kotlin/com/github/roscrl/inlineaichat/settings/InlineAIChatSettingsConfigurable.kt:38-44 | a closed page is never modified; an unmodified open page shows the stored key, prompt and current model |
| SettingsConfigurable.Configurable.CreateComponent | src/main/kotlin/com/github/roscrl/inlineaichat/settings/InlineAIChatSettingsConfigurable.kt:32-36 | a fresh component holding the stored key and prompt, an empty custom-model field, the sorted models, the current model as fallback and, if listed, as the selection; unmodified exactly when the current model is in the set |
| SettingsConfigurable.Configurable.Reset | src/main/kotlin/com/github/roscrl/inlineaichat/settings/InlineAIChatSettingsConfigurable.kt:54-60 | key, model and prompt are copied in; unmodified afterwards exactly when the combo box could show the model |
| SettingsConfigurable.Configurable.Apply | src/main/kotlin/com/github/roscrl/inlineaichat/settings/InlineAIChatSettingsConfigurable.kt:46-52 | key and prompt are copied out, and the selected model, else the current one, through the setter; unmodified afterwards exactly when the combo box has a selection |
| SettingsConfigurable.Configurable.DisposeUIResources | src/main/kotlin/com/github/roscrl/inlineaichat/settings/InlineAIChatSettingsConfigurable.kt:62-64 | no component, so nothing is modified |
| SettingsConfigurable.Configurable.ResetThenApply | src/main/kotlin/com/github/roscrl/inlineaichat/settings/InlineAIChatSettingsConfigurable.kt:46-60 | `reset` then `apply` changes nothing when the combo box lists the model, and otherwise stores the combo box's selection |
| SettingsConfigurable.ManageModelsDialog.constructor | src/main/kotlin/com/github/roscrl/inlineaichat/settings/InlineAIChatSettingsConfigurable.kt:187-193 | the list shows the sorted models |
| SettingsConfigurable.ManageModelsDialog.RefreshModels | src/main/kotlin/com/github/roscrl/inlineaichat/settings/InlineAIChatSettingsConfigurable.kt:195-198 | the list is the current model set in sorted order |
| SettingsConfigurable.ManageModelsDialog.Highlight | src/main/kotlin/com/github/roscrl/inlineaichat/settings/InlineAIChatSettingsConfigurable.kt:231 | the entry the user clicks becomes the list's selection |
| SettingsConfigurable.ManageModelsDialog.Add | src/main/kotlin/com/github/roscrl/inlineaichat/settings/InlineAIChatSettingsConfigurable.kt:216-229 | a new trimmed name joins the set, the list is refilled and its selection cleared, and the selected model stays the same; anything else changes nothing |
| SettingsConfigurable.ManageModelsDialog.Remove | src/main/kotlin/com/github/roscrl/inlineaichat/settings/InlineAIChatSettingsConfigurable.kt:230-249 | without a highlighted entry nothing happens; refused exactly with at most one model, leaving the list and its highlight as they were; removing the active model selects the first other one and notifies; otherwise the selection and listeners are untouched; after a removal the list is refilled without the model and nothing is highlighted |

## Left out

- **OkHttp transport.** The client, timeouts, `call.execute`, and the completion hook that cancels the call are left out. The server is a function from request to response. The request body's JSON serialisation is left out: the request is a datatype with the body's fields.
- **Reading the body.** `string()` and the lines that `readUtf8Line()` returns are two readings of one body. The model does not relate them.
- **org.json parsing.** It is a function parameter from text to a parsed frame. Its `keys()` listing order is left out: unrecognised keys are a set.
- **Threads and timing.** `runBlocking`, the progress tasks, `invokeAndWait`/`invokeLater`, `Thread.sleep`, the wall-clock top-up after the countdown, and the debounce time `lastActionTime` (written, never read) are left out. The flags and the compare-and-set are sequential updates.
- **Parts of the loop condition.** The loop's `isStreaming.get()` always holds inside a session, because only the session clears it, and the model checks it no further. `source.exhausted()` is "this was the last line".
- **Countdown timing.** Sleeping is left out, and so is the top-up to the full wall-clock duration. A countdown that ends without a cancelled poll counts as the full wait. The countdown's polls of `isCanceled` are modelled in order.
- **The unknown-format message** is modelled without its `Available response fields: [...]` line. The message is always deleted again by the clean-up that follows, so this line never shows in the document.
- **IDE markup.** Markers are a set of offsets. An offset here stands for the renderer whose `equals` treats all instances as equal. The removal of an earlier marker at the same offset is what the set union does. Icons, tooltips and timestamps are left out.
- **Notifications and logging.** `NotificationUtil` and the logger are left out. An error report is the `Failed` verdict on a session.
- **Default models.** `ModelConfig` reads a resource file. The default models are a constructor parameter standing for that file.
- **Aliasing in `loadState`.** `copyBean` shares the incoming `models` set with the stored state. The model copies it by value.
- **Listeners.** A listener is a number, and a call to it is an entry appended to the `notified` log. What a listener does is left out.
- **Swing.** Layout, key bindings, hyperlinks, the API-key echo character, and the checked icon that `ManageModelsDialog` draws beside the active model are left out. So are the input dialogs and warning boxes: an input dialog's answer is a parameter, and a warning is a result value.
- **The "Manage Models..." button.** It opens the dialog and then calls `updateModelComboBox`. Both are modelled, but the button's sequencing of them is not.
- **Text fields.** The model assumes the API key, prompt and custom-model fields hold exactly what was set. The single-line key and custom-model fields of Swing filter newlines, turning each '\n' into a space; that filtering is left out.
- Extraction.RetrySecondsTransport: its own contract states only the 32-bit bound. What it computes is stated by `TransportAndInBandDiffer` and `AnnouncedRetrySeconds`.
- Json.JVal: numbers are whole numbers only. org.json also parses decimals: `getInt` would read 429.0 as 429 (`BigDecimal.intValue()`), so `Json.IntAt` would find a rate limit there, and `optString` would render a decimal content such as 1.5 as "1.5". The model cannot express either frame.
- Countdown.CountdownFraction: fractions are exact rationals (`real`) where the plugin uses `Double`, so rounding is left out; this holds for `Countdown.ProgressFraction` too.
- Json.OptString: for a nested object or array, org.json renders its JSON text; the model gives "". That text depends on org.json's key order, which the model leaves unspecified. The extraction only reads `content` and `raw`, for which this never matters unless the server sends an object there.
- Countdown.TimeDisplay: its own contract states only the length bound. What the text means is stated by `ReadTimeDisplayOfTimeDisplay`, `TimeDisplayForm` and `TimeDisplayExamples`. The `m:ss` form comes from `String.format`, which writes its digits from the default locale's zero digit: with a Persian default locale, 62 seconds shows "۱:۰۲". The model assumes a default locale whose zero digit is '0'. The `Ns` form is always ASCII.
- Countdown.Pad2: it writes ASCII digits, as `%02d` does only under a default locale whose zero digit is '0'. Other locales' digits are left out.
- StreamTextAction.IsSuccessful: OkHttp's `isSuccessful` is `200..299`. The contract states only the two facts the session relies on; `ResponseResult` states the rest in terms of it.
- **Offsets.** Document offsets count characters, while IntelliJ counts UTF-16 code units. Every offset the code uses falls on a character boundary, so each character offset stands for exactly one code-unit offset; the model does not compute the code-unit values.
- Countdown.RunCountdown: under cancellation, the contract does not state how many seconds were counted down. It states only that what was shown is a prefix of the uncancelled run.
