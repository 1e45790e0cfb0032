# PromptOptimizer core in Dafny

PromptOptimizer is a single-page web application (`index.tsx`). The user
types or dictates a prompt. The application asks a Gemini model to rewrite it
as a better prompt, following a chosen strategy. This project models the
parts of `index.tsx` that are logic rather than page wiring, and proves
properties of them:

- **History** (`history.dfy`): the prompt-history list.
  - `saveHistory` removes earlier copies of the prompt, puts it in front,
    and pops the oldest entry once the list grows past 20.
  - The clear handler empties the list.
  - It is a class whose `entries` field is reassigned in place, as the
    source does.
- **Optimize** (`optimize.dfy`): what pressing the optimize button computes.
  - It covers the blank-prompt guard and the strategy `switch` that builds
    the system instruction.
  - It covers the negative-constraint paragraph and the thinking budget.
  - It covers the choice of the text put in the output box: the response,
    "Stopped.", "No response generated." or one of three error messages.
  - These are functions with lemmas. `OptimizePrompt` is the method that
    strings them together and saves the history.
- **Base64** (`base64.dfy`): `encode`.
  - A loop builds a "binary string" with one character per byte, and
    `btoa` encodes it as section 4 of RFC 4648 defines.
  - A decoder is given as the partner of the encoder. The round trip is
    proved for every byte string.
- **Dictation** (`dictation.dfy`): the voice-dictation state machine,
  modelled as the class `Recorder`.
  - **Events:** every event handler of the source that changes state is a
    method, and every `await` splits a handler into two events.
    - `Start` is `startRecording` up to the microphone request.
    - `MicGranted` and `MicDenied` are its continuation.
    - `SessionOpened` is `onopen`, and `AudioTick` is `onaudioprocess`.
    - `Message` is `onmessage`, and `TimerFire` is the 1.5-second timer.
    - `PerformPolish` and `PolishDone` are `performPolish` before and after
      its request.
    - `Stop` is `stopRecording`, and `Toggle` is `toggleRecording`.
  - **Environment:** the environment may call any enabled event at any time,
    which is how the interleavings of the browser's event loop are covered.
  - **Requests:** the answers of the polish requests are inputs, and requests
    may complete in any order.
  - **Invariant:** `Recorder.Valid()` is kept by every event. It states:
    - the transcript is the concatenation of the chunks received since
      recording started;
    - at most the timer named by `polishTimeout` is pending;
    - the script processor is held only while recording;
    - every polish in flight, and the watermark unless it is empty, has a
      `length` of at least 5 UTF-16 code units;
    - in-flight snapshots and a watermark from the current recording are
      prefixes of the transcript.

`wrappers.dfy` holds `Option` and `Result`. `text.dfy` holds the two runtime
string operations the code relies on:
- `String.prototype.trim`, over the ECMAScript white-space and
  line-terminator set;
- `String.prototype.includes`, specified by an explicit occurrence index.

Behaviours of the code that the model keeps as they are:
- The code applies every successful polish result unconditionally. A result
  that arrives after its recording ended, or after a newer result, still
  overwrites the prompt box and the watermark (`LateResultApplied`).
- The code places no limit on the polish requests in flight at once.
- `onerror` and `onclose` only log; they change no state and are not modelled as events, so no server error stops a recording.
  They change no state and are not modelled as events.
- `onmessage` has no `isRecording` check, so a message arriving after
  `stopRecording` still extends the transcript and schedules a timer.
- A stop during the microphone request lets a late grant take the stream,
  the audio context and the session again while `isRecording` is false
  (`MicGranted`). `onopen` then declines to attach the processor.
- A polish response made only of white space passes the source's `if (text)`
  test. It empties the prompt box and still moves the watermark.

## Model

| member | source | states |
|---|---|---|
| Text.Trim | index.tsx:294 | `trim()` returns the slice of its input left once the white space at both ends is removed; what is removed is white space and what is kept neither starts nor ends with white space |
| Text.TrimEmptyIff | index.tsx:301 | a trimmed prompt is empty exactly when the prompt is made of white space only |
| Text.TrimIdempotent | index.tsx:515 | trimming an already trimmed text changes nothing |
| Text.Utf16Length | index.tsx:490 | a string's `length` counts UTF-16 code units: at least its number of characters and at most twice that |
| Text.Utf16LengthOfBmp | index.tsx:490 | `length` equals the number of characters exactly when no character lies outside the Basic Multilingual Plane |
| Text.EmojiLength | index.tsx:490 | a transcript of three emoji has `length` 6, so it passes the 5-unit polish gate |
| Text.Contains | index.tsx:365 | `includes(needle)` holds exactly when the needle occurs at some index of the text |
| Base64.BinaryString | index.tsx:460-464 | the intermediate string has one character per byte, and the i-th character's code is the i-th byte |
| Base64.Btoa | index.tsx:465 | `btoa` succeeds exactly when every character code is below 256 |
| Base64.Encoding | index.tsx:465 | the encoding of n bytes has 4 * ceil(n / 3) characters |
| Base64.EncodingAlphabet | index.tsx:465 | the encoding consists of alphabet characters followed by (3 - n mod 3) mod 3 pad characters `=` |
| Base64.DecodeEncode | index.tsx:465 | decoding the encoding of any byte string gives that byte string back |
| Base64.Encode | index.tsx:459-466 | `encode` returns the RFC 4648 base64 text of the bytes: its length, its alphabet and padding, and that it decodes to the bytes |
| History.Without | index.tsx:659 | the filter removes every copy of the prompt, keeps every other entry as often as before, and keeps their order |
| History.SavedShape | index.tsx:658-661 | after `saveHistory(txt)` the list starts with `txt`, holds it exactly once, and continues with the other entries in their previous order, less the oldest one only when there were 20 others |
| History.SavedKeepsOthers | index.tsx:659-661 | an entry other than `txt` is missing after saving exactly when it is the one popped: the last of the other entries when there are 20 of them, and its only copy among them |
| History.SavedBounded | index.tsx:661 | a list of at most 20 entries stays at most 20 entries long |
| History.SavedIdempotent | index.tsx:658-661 | for a list of at most 20 entries, saving the same prompt twice leaves the list saving it once does |
| History.PromptHistory.constructor | index.tsx:653-656 | the list starts as the one read back from storage |
| History.PromptHistory.Save | index.tsx:658-661 | the filtered copy assigned back, then the in-place `unshift` and `pop`, leave exactly the list `Saved` describes, and keep the 20-entry bound |
| History.PromptHistory.Clear | index.tsx:703-705 | clearing leaves the empty list |
| Optimize.ParseStrategy | index.tsx:318-350 | the `switch` picks the strategy whose name is the current one, and the general case exactly when the name is no other strategy's |
| Optimize.ParseName | index.tsx:318-350 | every strategy card's name selects that card's strategy |
| Optimize.ClauseOfName | index.tsx:318-350 | the clause appended is the named strategy's, or the general clause for an unknown name |
| Optimize.ConstraintPresence | index.tsx:296-299 | the constraint paragraph is present exactly when the negative-prompt box is shown and its text is not blank, and then quotes the trimmed text |
| Optimize.InstructionShape | index.tsx:315-354 | the system instruction is the base instruction, then the chosen strategy's clause, then the constraint paragraph quoting the trimmed negative prompt exactly when the negative-prompt box is shown and its text is not blank, and nothing otherwise |
| Optimize.ThinkingBudget | index.tsx:363-366 | a budget is set exactly for the reasoning strategy, and it is 16384 exactly when the model name contains "pro", 8192 otherwise |
| Optimize.BudgetOfProModel | index.tsx:97 | the Gemini 3 Pro model gets the 16384 budget |
| Optimize.BudgetOfFlashModel | index.tsx:95 | the Gemini 2.5 Flash model gets the 8192 budget |
| Optimize.BudgetOfFlashLiteModel | index.tsx:96 | the Flash Lite model gets the 8192 budget |
| Optimize.PlanRequest | index.tsx:291-366 | without a client nothing happens; a blank prompt gives the "enter a prompt" message exactly when it is made of white space; otherwise the request sends the trimmed prompt, the chosen model, the system instruction and the thinking budget |
| Optimize.ErrorMessageKinds | index.tsx:386-392 | the network-error message appears exactly for a message mentioning "NetworkError" or "fetch"; "Error: " plus the message appears exactly for another non-empty message and echoes it; the generic message covers the rest |
| Optimize.OutputCases | index.tsx:378-392 | the output box is never left empty; a non-empty response is shown unchanged unless stop was pressed, which shows "Stopped."; an exception is reported whether or not stop was pressed |
| Optimize.OptimizePrompt | index.tsx:291-398 | the prompt is saved in the history exactly when a request is sent, which is when there is a client and the prompt is not blank; the output box gets what `OutputText` chooses |
| Dictation.ConcatAppend | index.tsx:567-568 | appending a chunk appends its text to the transcript |
| Dictation.ConcatGrows | index.tsx:567-568 | the transcript only grows at its end: what it was is a prefix of what it becomes |
| Dictation.Recorder.constructor | index.tsx:59-69 | the page starts not recording, with an empty transcript and watermark, no timer, no handles and no request in flight |
| Dictation.Recorder.Start | index.tsx:529-535 | with a client, recording is on and the transcript and watermark are empty, while the prompt box, the timer and the handles are left as they were; without a client nothing changes |
| Dictation.Recorder.MicGranted | index.tsx:539-549 | the stream, the audio context and the session are held whether or not recording is still on |
| Dictation.Recorder.MicDenied | index.tsx:588-592 | a failed microphone or audio setup stops the recording: recording is off, the timer is cleared, all handles are released and the final polish is gated as in `Stop` |
| Dictation.Recorder.SessionOpened | index.tsx:550-564 | the processor is attached exactly when the audio context and the stream are held and recording is on |
| Dictation.Recorder.AudioTick | index.tsx:556-561 | while recording with a session, the base64 encoding of the chunk is sent with the PCM MIME type; otherwise nothing is sent |
| Dictation.Recorder.Message | index.tsx:565-578 | a non-empty chunk is appended to the transcript, the prompt box shows the whole transcript, and the one pending timer is a fresh one; an empty message changes nothing |
| Dictation.Recorder.Transcribe | index.tsx:567-569 | the chunk is appended at the end of the transcript and the prompt box shows the transcript |
| Dictation.Recorder.Reschedule | index.tsx:575-576 | the previous timer is cleared and a new one is added to the pending timers, which leaves exactly the new one pending |
| Dictation.Recorder.PerformPolish | index.tsx:489-493 | with a client and a transcript whose `length` is at least 5 UTF-16 code units, one request carrying the current transcript is sent; otherwise nothing happens |
| Dictation.Recorder.TimerFire | index.tsx:576 | the fired timer is no longer pending, the handle keeps its id, and an intermediate polish starts |
| Dictation.Recorder.Settle | index.tsx:499-511 | the request that came back leaves the in-flight list and nothing else changes |
| Dictation.Recorder.Apply | index.tsx:514-518 | the prompt box gets the polished text and the watermark becomes the snapshot the request was sent |
| Dictation.Recorder.PolishDone | index.tsx:499-522 | a response with non-empty text puts its trimmed text in the prompt box and moves the watermark to the snapshot sent; a failure or an empty response changes neither |
| Dictation.Recorder.Stop | index.tsx:596-628 | recording is off, the timer is cleared, all four handles are released, and a final polish starts exactly when the transcript is non-empty, differs from the watermark and passes the polish guard |
| Dictation.Recorder.Toggle | index.tsx:480-486 | the button stops a recording that is on, with the whole effect of `Stop` including the final-polish gate, and starts one that is off, with the whole effect of `Start` |
| Dictation.AtMostOneTimer | index.tsx:575-576 | at most one polish timer is ever pending, because each new timer is scheduled only after the previous one is cleared |
| Dictation.DictateTwo | index.tsx:533-570 | after starting and receiving two chunks, the transcript and the prompt box hold exactly their concatenation and one timer is pending |
| Dictation.StopAfterPolish | index.tsx:624-626 | once the whole transcript has been polished, stopping sends no final polish |
| Dictation.LateResultApplied | index.tsx:514-518 | a polish request from an earlier recording that completes after a new recording started still overwrites the prompt box, and leaves a watermark that is not a prefix of the new transcript |

## Left out

- Page wiring: the DOM, the theme toggle, the strategy cards, the negative-prompt toggle, history rendering, the copy button and the badge texts. These are user-interface side effects.
- The star and comet background and the microphone visualizer. They rely on `Math.random`, floating point and animation frames.
- `createBlob`'s scaling of float samples to 16-bit integers. This is floating point and typed-array conversion. `AudioTick` takes the chunk's bytes as its input.
- The Gemini client calls (`generateContent`, `live.connect`), `getUserMedia` and `AudioContext`. These are foreign asynchronous calls. Their outcomes are the parameters of the event methods.
- The 1.5-second delay of the polish timer. Timers are ids that are scheduled, cleared or fired. They are not a clock.
- The persistence of the history in `localStorage` as JSON. `History.PromptHistory.constructor` takes the list read back.
- The loader-text interval, `setLoading` and the `isGenerating` flag. These are user-interface timers and flags.
- Strings are sequences of Unicode scalar values, not UTF-16 code units, so a lone surrogate cannot occur in the model. Where the code measures a string's `length` (the polish gate of `performPolish`), the model counts UTF-16 code units with `Text.Utf16Length`. For `btoa`, the representation makes no difference on the binary string `encode` builds.
- Base64.DecodeEncode: the decoder is a partner written for the proof, not code of the application. It is lenient about the unused bits of a final group, which RFC 4648 allows a decoder to be.
- Optimize.ParseStrategy: the clauses of different strategies are not proved pairwise distinct. The model states which clause is chosen, not that the texts differ.
- Optimize.OptimizePrompt: the interleaving of the stop button with the request is a single `cancelled` input read when the request ends. The source reads `isCancelled` at that same point.
