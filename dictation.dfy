/** The voice-dictation controller of index.tsx: `startRecording`, the live
    session's `onopen` and `onmessage` callbacks, the audio-process callback,
    the 1.5-second polish timer, `performPolish`, `stopRecording` and
    `toggleRecording`.

    Each `await` of the source splits a handler in two: the part before it is
    one method, and the continuation is a separate event method that the
    environment may call later, interleaved with any other event. The
    outcomes of the microphone request and of the polish request are
    parameters of those event methods. The timer is a set of scheduled timer
    ids, not a clock. */
module Dictation {
  import opened Wrappers
  import opened Text
  import Base64

  /** `performPolish` does nothing for a shorter transcript. */
  const MinPolishLength: nat := 5

  const PcmMimeType: string := "audio/pcm;rate=16000"

  /** How a polish request ended: a response with its `text` ("" when it has
      none), or a thrown error. */
  datatype PolishOutcome = Ok(text: string) | Fail

  /** A polish request in flight: the transcript it was sent, and whether it
      was started by the timer (intermediate) or by stopping (final). */
  datatype Polish = Polish(snapshot: string, intermediate: bool)

  /** Which of the four resources are held: the script processor, the
      microphone stream, the live session and the audio context. */
  datatype Handles = Handles(processor: bool, stream: bool, session: bool, context: bool)

  const Released: Handles := Handles(false, false, false, false)

  /** An audio message sent to the live session. */
  datatype AudioBlob = AudioBlob(data: string, mimeType: string)

  /** The chunks joined in order. */
  function Concat(chunks: seq<string>): string
  {
    if chunks == [] then "" else chunks[0] + Concat(chunks[1..])
  }

  lemma {:induction false} ConcatAppend(chunks: seq<string>, d: string)
    ensures Concat(chunks + [d]) == Concat(chunks) + d
  {
    if chunks != [] {
      assert (chunks + [d])[1..] == chunks[1..] + [d];
      ConcatAppend(chunks[1..], d);
    }
  }

  /** Each chunk joined so far is still there, in place, after more chunks
      are appended: the transcript only grows at its end. */
  lemma {:induction false} ConcatGrows(chunks: seq<string>, more: seq<string>)
    ensures IsPrefix(Concat(chunks), Concat(chunks + more))
    decreases |chunks|
  {
    if chunks != [] {
      assert (chunks + more)[1..] == chunks[1..] + more;
      ConcatGrows(chunks[1..], more);
    }
  }

  class Recorder {
    /** Whether the generative-AI client exists (`ai` is not null). */
    const clientReady: bool

    var isRecording: bool
    /** Everything transcribed since the recording started. */
    var accumulated: string
    /** The watermark: the transcript last polished successfully. */
    var lastPolished: string
    /** The text of the prompt box. */
    var inputText: string
    /** The handle of the last polish timer (kept after it fires). */
    var polishTimeout: Option<nat>
    /** The timers that are scheduled and have neither fired nor been cleared. */
    var scheduled: set<nat>
    var nextTimerId: nat
    var handles: Handles
    /** `startRecording` calls waiting for the microphone. */
    var micRequests: nat
    /** Live sessions connected whose `onopen` has not run yet. */
    var pendingOpens: nat
    /** Polish requests sent and not yet answered. */
    var inFlight: seq<Polish>
    /** The audio messages sent to the live session. */
    var sent: seq<AudioBlob>

    /** The non-empty chunks transcribed since the recording started. */
    ghost var chunks: seq<string>
    /** Counts the recordings started; tags each polish request. */
    ghost var session: nat
    ghost var inFlightSession: seq<nat>
    /** The recording whose polish request set the watermark. */
    ghost var watermarkSession: nat

    ghost predicate Valid()
      reads this
    {
      && accumulated == Concat(chunks)
      && (polishTimeout.None? ==> scheduled == {})
      && (polishTimeout.Some? ==> scheduled <= {polishTimeout.value})
      && (handles.processor ==> isRecording)
      && |inFlightSession| == |inFlight|
      && (forall k :: 0 <= k < |inFlight| ==>
            Utf16Length(inFlight[k].snapshot) >= MinPolishLength && inFlightSession[k] <= session)
      && (forall k :: 0 <= k < |inFlight| && inFlightSession[k] == session ==>
            IsPrefix(inFlight[k].snapshot, accumulated))
      && (lastPolished == "" || Utf16Length(lastPolished) >= MinPolishLength)
      && watermarkSession <= session
      && (watermarkSession == session ==> IsPrefix(lastPolished, accumulated))
    }

    /** The polish request `performPolish` would send now: none without a
        client or for a transcript shorter than `MinPolishLength` UTF-16 code units. */
    function Started(intermediate: bool): seq<Polish>
      reads this
    {
      if clientReady && Utf16Length(accumulated) >= MinPolishLength then [Polish(accumulated, intermediate)] else []
    }

    constructor (clientReady: bool, inputText: string)
      ensures Valid()
      ensures this.clientReady == clientReady && this.inputText == inputText
      ensures !isRecording && accumulated == "" && lastPolished == ""
      ensures polishTimeout.None? && scheduled == {} && handles == Released
      ensures micRequests == 0 && pendingOpens == 0 && inFlight == [] && sent == []
    {
      this.clientReady := clientReady;
      this.inputText := inputText;
      isRecording := false;
      accumulated := "";
      lastPolished := "";
      polishTimeout := None;
      scheduled := {};
      nextTimerId := 1;
      handles := Released;
      micRequests := 0;
      pendingOpens := 0;
      inFlight := [];
      sent := [];
      chunks := [];
      session := 0;
      inFlightSession := [];
      watermarkSession := 0;
    }

    /** `startRecording` up to its wait for the microphone: recording is on,
        and the transcript and the watermark are reset. */
    method Start()
      requires Valid()
      modifies this
      ensures Valid()
      ensures !clientReady ==> unchanged(this)
      ensures clientReady ==>
        && isRecording && accumulated == "" && lastPolished == "" && chunks == []
        && micRequests == old(micRequests) + 1
        && inputText == old(inputText) && handles == old(handles)
        && polishTimeout == old(polishTimeout) && scheduled == old(scheduled)
        && nextTimerId == old(nextTimerId) && pendingOpens == old(pendingOpens)
        && inFlight == old(inFlight) && sent == old(sent)
    {
      if !clientReady {
        return;
      }
      isRecording := true;
      accumulated := "";
      lastPolished := "";
      micRequests := micRequests + 1;
      chunks := [];
      session := session + 1;
      watermarkSession := session;
      // every request still in flight belongs to an earlier session
      assert forall k :: 0 <= k < |inFlight| ==> inFlightSession[k] < session;
      assert IsPrefix(lastPolished, accumulated);
    }

    /** The rest of `startRecording` once the microphone is granted: the
        stream and the audio context are held and the live session is
        connecting. It runs even if recording was stopped meanwhile. */
    method MicGranted()
      requires Valid() && micRequests > 0
      modifies this
      ensures Valid()
      ensures micRequests == old(micRequests) - 1 && pendingOpens == old(pendingOpens) + 1
      ensures handles == old(handles).(stream := true, context := true, session := true)
      ensures isRecording == old(isRecording) && accumulated == old(accumulated)
      ensures lastPolished == old(lastPolished) && inputText == old(inputText)
      ensures polishTimeout == old(polishTimeout) && scheduled == old(scheduled)
      ensures nextTimerId == old(nextTimerId) && inFlight == old(inFlight) && sent == old(sent)
    {
      micRequests := micRequests - 1;
      handles := handles.(stream := true, context := true, session := true);
      pendingOpens := pendingOpens + 1;
    }

    /** `onopen`: the script processor is attached only if the audio
        context and the stream are still held and recording is on. */
    method SessionOpened()
      requires Valid() && pendingOpens > 0
      modifies this
      ensures Valid()
      ensures pendingOpens == old(pendingOpens) - 1
      ensures handles == if old(handles.context && handles.stream && isRecording)
                         then old(handles).(processor := true) else old(handles)
      ensures isRecording == old(isRecording) && accumulated == old(accumulated)
      ensures lastPolished == old(lastPolished) && inputText == old(inputText)
      ensures polishTimeout == old(polishTimeout) && scheduled == old(scheduled)
      ensures nextTimerId == old(nextTimerId) && micRequests == old(micRequests)
      ensures inFlight == old(inFlight) && sent == old(sent)
    {
      pendingOpens := pendingOpens - 1;
      if handles.context && handles.stream && isRecording {
        handles := handles.(processor := true);
      }
    }

    /** The audio-process callback: while recording, the chunk's bytes are
        base64-encoded and sent if a session is held; otherwise nothing. */
    method AudioTick(pcm: seq<Base64.byte>)
      requires Valid()
      modifies this
      ensures Valid()
      ensures sent == if old(isRecording && handles.session)
                      then old(sent) + [AudioBlob(Base64.Encoding(pcm), PcmMimeType)]
                      else old(sent)
      ensures isRecording == old(isRecording) && accumulated == old(accumulated)
      ensures lastPolished == old(lastPolished) && inputText == old(inputText)
      ensures polishTimeout == old(polishTimeout) && scheduled == old(scheduled)
      ensures nextTimerId == old(nextTimerId) && handles == old(handles)
      ensures micRequests == old(micRequests) && pendingOpens == old(pendingOpens)
      ensures inFlight == old(inFlight)
    {
      if !isRecording {
        return;
      }
      var data := Base64.Encode(pcm);
      if handles.session {
        sent := sent + [AudioBlob(data, PcmMimeType)];
      }
    }

    /** `onmessage`: a message carrying transcribed text appends it to the
        transcript, shows the whole transcript in the prompt box, clears the
        previous polish timer and schedules a new one. A message without
        text changes nothing. */
    method Message(text: string)
      requires Valid()
      modifies this
      ensures Valid()
      ensures text == "" ==> unchanged(this)
      ensures text != "" ==>
        && accumulated == old(accumulated) + text && chunks == old(chunks) + [text]
        && inputText == accumulated
        && polishTimeout == Some(old(nextTimerId)) && scheduled == {old(nextTimerId)}
        && nextTimerId == old(nextTimerId) + 1
        && isRecording == old(isRecording) && lastPolished == old(lastPolished)
        && handles == old(handles) && micRequests == old(micRequests)
        && pendingOpens == old(pendingOpens) && inFlight == old(inFlight) && sent == old(sent)
    {
      if text == "" {
        return;
      }
      Transcribe(text);
      Reschedule();
    }

    /** The first half of `onmessage`: the text is appended to the
        transcript, which is shown in the prompt box. */
    method Transcribe(text: string)
      requires Valid()
      modifies this
      ensures Valid()
      ensures accumulated == old(accumulated) + text && chunks == old(chunks) + [text]
      ensures inputText == accumulated
      ensures polishTimeout == old(polishTimeout) && scheduled == old(scheduled)
      ensures nextTimerId == old(nextTimerId)
      ensures isRecording == old(isRecording) && lastPolished == old(lastPolished)
      ensures handles == old(handles) && micRequests == old(micRequests)
      ensures pendingOpens == old(pendingOpens) && inFlight == old(inFlight) && sent == old(sent)
    {
      ConcatAppend(chunks, text);
      forall k | 0 <= k < |inFlight| && inFlightSession[k] == session
        ensures IsPrefix(inFlight[k].snapshot, accumulated + text)
      {
        PrefixOfAppend(inFlight[k].snapshot, accumulated, text);
      }
      if watermarkSession == session {
        PrefixOfAppend(lastPolished, accumulated, text);
      }
      accumulated := accumulated + text;
      chunks := chunks + [text];
      inputText := accumulated;
    }

    /** The second half of `onmessage`: the previous polish timer is
        cleared and a new one is scheduled. */
    method Reschedule()
      requires Valid()
      modifies this
      ensures Valid()
      ensures polishTimeout == Some(old(nextTimerId)) && scheduled == {old(nextTimerId)}
      ensures nextTimerId == old(nextTimerId) + 1
      ensures accumulated == old(accumulated) && chunks == old(chunks) && inputText == old(inputText)
      ensures isRecording == old(isRecording) && lastPolished == old(lastPolished)
      ensures handles == old(handles) && micRequests == old(micRequests)
      ensures pendingOpens == old(pendingOpens) && inFlight == old(inFlight) && sent == old(sent)
    {
      if polishTimeout.Some? {
        scheduled := scheduled - {polishTimeout.value};
      }
      polishTimeout := Some(nextTimerId);
      scheduled := scheduled + {nextTimerId};
      nextTimerId := nextTimerId + 1;
    }

    /** `performPolish` up to its request: with a client and a transcript of
        at least `MinPolishLength` UTF-16 code units, the current transcript is
        captured and sent; otherwise nothing happens. */
    method PerformPolish(intermediate: bool)
      requires Valid()
      modifies this
      ensures Valid()
      ensures inFlight == old(inFlight + Started(intermediate))
      ensures isRecording == old(isRecording) && accumulated == old(accumulated)
      ensures lastPolished == old(lastPolished) && inputText == old(inputText)
      ensures polishTimeout == old(polishTimeout) && scheduled == old(scheduled)
      ensures nextTimerId == old(nextTimerId) && handles == old(handles)
      ensures micRequests == old(micRequests) && pendingOpens == old(pendingOpens)
      ensures sent == old(sent)
    {
      if !clientReady || Utf16Length(accumulated) < MinPolishLength {
        return;
      }
      assert IsPrefix(accumulated, accumulated);
      inFlight := inFlight + [Polish(accumulated, intermediate)];
      inFlightSession := inFlightSession + [session];
    }

    /** The polish timer `id` fires: an intermediate polish starts. The
        handle keeps the fired timer's id. */
    method TimerFire(id: nat)
      requires Valid() && id in scheduled
      modifies this
      ensures Valid()
      ensures scheduled == {} && polishTimeout == old(polishTimeout)
      ensures inFlight == old(inFlight + Started(true))
      ensures isRecording == old(isRecording) && accumulated == old(accumulated)
      ensures lastPolished == old(lastPolished) && inputText == old(inputText)
      ensures nextTimerId == old(nextTimerId) && handles == old(handles)
      ensures micRequests == old(micRequests) && pendingOpens == old(pendingOpens)
      ensures sent == old(sent)
    {
      scheduled := scheduled - {id};
      PerformPolish(true);
    }

    /** The rest of `performPolish` when request `k` comes back. A response
        with non-empty text puts the trimmed text in the prompt box and
        moves the watermark to the transcript that request was sent; a
        failure or an empty response changes neither. */
    method PolishDone(k: nat, outcome: PolishOutcome)
      requires Valid() && k < |inFlight|
      modifies this
      ensures Valid()
      ensures inFlight == old(inFlight[..k] + inFlight[k + 1..])
      ensures outcome.Ok? && outcome.text != "" ==>
                inputText == Trim(outcome.text) && lastPolished == old(inFlight[k].snapshot)
      ensures !(outcome.Ok? && outcome.text != "") ==>
                inputText == old(inputText) && lastPolished == old(lastPolished)
      ensures isRecording == old(isRecording) && accumulated == old(accumulated)
      ensures polishTimeout == old(polishTimeout) && scheduled == old(scheduled)
      ensures nextTimerId == old(nextTimerId) && handles == old(handles)
      ensures micRequests == old(micRequests) && pendingOpens == old(pendingOpens)
      ensures sent == old(sent)
    {
      ghost var tag := inFlightSession[k];
      var p := Settle(k);
      if outcome.Ok? && outcome.text != "" {
        Apply(p.snapshot, tag, Trim(outcome.text));
      }
    }

    /** A polished `text` for the transcript `snapshot` replaces the prompt
        box and becomes the watermark. */
    method Apply(snapshot: string, ghost tag: nat, text: string)
      requires Valid()
      requires Utf16Length(snapshot) >= MinPolishLength && tag <= session
      requires tag == session ==> IsPrefix(snapshot, accumulated)
      modifies this
      ensures Valid()
      ensures inputText == text && lastPolished == snapshot
      ensures inFlight == old(inFlight) && chunks == old(chunks)
      ensures isRecording == old(isRecording) && accumulated == old(accumulated)
      ensures polishTimeout == old(polishTimeout) && scheduled == old(scheduled)
      ensures nextTimerId == old(nextTimerId) && handles == old(handles)
      ensures micRequests == old(micRequests) && pendingOpens == old(pendingOpens)
      ensures sent == old(sent)
    {
      inputText := text;
      lastPolished := snapshot;
      watermarkSession := tag;
    }

    /** Request `k` is answered: it leaves the in-flight list. */
    method Settle(k: nat) returns (p: Polish)
      requires Valid() && k < |inFlight|
      modifies this
      ensures Valid()
      ensures p == old(inFlight[k])
      ensures inFlight == old(inFlight[..k] + inFlight[k + 1..])
      ensures inFlightSession == old(inFlightSession[..k] + inFlightSession[k + 1..])
      ensures session == old(session) && watermarkSession == old(watermarkSession)
      ensures chunks == old(chunks)
      ensures inputText == old(inputText) && lastPolished == old(lastPolished)
      ensures isRecording == old(isRecording) && accumulated == old(accumulated)
      ensures polishTimeout == old(polishTimeout) && scheduled == old(scheduled)
      ensures nextTimerId == old(nextTimerId) && handles == old(handles)
      ensures micRequests == old(micRequests) && pendingOpens == old(pendingOpens)
      ensures sent == old(sent)
    {
      p := inFlight[k];
      inFlight := inFlight[..k] + inFlight[k + 1..];
      inFlightSession := inFlightSession[..k] + inFlightSession[k + 1..];
    }

    /** `stopRecording`: recording is off, the pending polish timer is
        cleared, all four resources are released, and a final polish starts
        when the transcript is non-empty and differs from the watermark. */
    method Stop()
      requires Valid()
      modifies this
      ensures Valid()
      ensures !isRecording && handles == Released
      ensures polishTimeout.None? && scheduled == {}
      ensures inFlight == old(inFlight) +
                (if old(|accumulated| > 0 && accumulated != lastPolished) then old(Started(false)) else [])
      ensures accumulated == old(accumulated) && lastPolished == old(lastPolished)
      ensures inputText == old(inputText) && nextTimerId == old(nextTimerId)
      ensures micRequests == old(micRequests) && pendingOpens == old(pendingOpens)
      ensures sent == old(sent)
    {
      isRecording := false;
      if polishTimeout.Some? {
        scheduled := scheduled - {polishTimeout.value};
        polishTimeout := None;
      }
      handles := Released;
      if |accumulated| > 0 && accumulated != lastPolished {
        PerformPolish(false);
      }
    }

    /** The rest of `startRecording` when the microphone or the audio
        context cannot be had: the error handler stops the recording. */
    method MicDenied()
      requires Valid() && micRequests > 0
      modifies this
      ensures Valid()
      ensures micRequests == old(micRequests) - 1
      ensures !isRecording && handles == Released
      ensures polishTimeout.None? && scheduled == {}
      ensures inFlight == old(inFlight) +
                (if old(|accumulated| > 0 && accumulated != lastPolished) then old(Started(false)) else [])
      ensures accumulated == old(accumulated) && lastPolished == old(lastPolished)
      ensures inputText == old(inputText) && pendingOpens == old(pendingOpens)
      ensures sent == old(sent)
    {
      micRequests := micRequests - 1;
      Stop();
    }

    /** The microphone button: stop when recording, start otherwise. */
    method Toggle()
      requires Valid()
      modifies this
      ensures Valid()
      ensures old(isRecording) ==>
        && !isRecording && handles == Released
        && polishTimeout.None? && scheduled == {}
        && inFlight == old(inFlight) +
             (if old(|accumulated| > 0 && accumulated != lastPolished) then old(Started(false)) else [])
        && accumulated == old(accumulated) && lastPolished == old(lastPolished)
        && inputText == old(inputText) && nextTimerId == old(nextTimerId)
        && micRequests == old(micRequests) && pendingOpens == old(pendingOpens)
        && sent == old(sent)
      ensures !old(isRecording) && clientReady ==>
        && isRecording && accumulated == "" && lastPolished == "" && chunks == []
        && micRequests == old(micRequests) + 1
        && inputText == old(inputText) && handles == old(handles)
        && polishTimeout == old(polishTimeout) && scheduled == old(scheduled)
        && nextTimerId == old(nextTimerId) && pendingOpens == old(pendingOpens)
        && inFlight == old(inFlight) && sent == old(sent)
      ensures !old(isRecording) && !clientReady ==> unchanged(this)
    {
      if isRecording {
        Stop();
      } else {
        Start();
      }
    }
  }

  /** At most one polish timer is ever pending. */
  lemma AtMostOneTimer(r: Recorder)
    requires r.Valid()
    ensures |r.scheduled| <= 1
  {
    if r.polishTimeout.Some? {
      var id := r.polishTimeout.value;
      assert r.scheduled == {} || r.scheduled == {id};
    }
  }

  /** Two transcribed chunks in one recording: the transcript and the
      prompt box hold exactly their concatenation, and one timer is pending. */
  method DictateTwo(r: Recorder, d1: string, d2: string)
    requires r.Valid() && r.clientReady && d1 != "" && d2 != ""
    modifies r
    ensures r.Valid() && r.isRecording
    ensures r.accumulated == d1 + d2 && r.inputText == d1 + d2
    ensures |r.scheduled| == 1
  {
    r.Start();
    r.Message(d1);
    r.Message(d2);
  }

  /** Once a polish of the whole transcript has succeeded, stopping sends no
      final polish. */
  method StopAfterPolish(r: Recorder)
    requires r.Valid() && r.lastPolished == r.accumulated
    modifies r
    ensures r.Valid() && !r.isRecording
    ensures r.inFlight == old(r.inFlight)
  {
    r.Stop();
  }

  /** A polish request from an earlier recording that completes after a new
      recording started still replaces the prompt box, and leaves a
      watermark that is not a prefix of the new, empty transcript. */
  method LateResultApplied(r: Recorder, text: string)
    requires r.Valid() && r.clientReady && |r.inFlight| > 0 && text != ""
    modifies r
    ensures r.Valid() && r.isRecording
    ensures r.accumulated == "" && r.inputText == Trim(text)
    ensures r.lastPolished == old(r.inFlight[0].snapshot)
    ensures !IsPrefix(r.lastPolished, r.accumulated)
  {
    r.Start();
    r.PolishDone(0, Ok(text));
  }
}
