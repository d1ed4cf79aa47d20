/**
 * The `AudioRecorder` class: six nullable fields and the chunk list that
 * `startRecording`, the `ondataavailable` handler, `stopRecording` and
 * `cleanup` update, plus the static `getDevices` filter.
 *
 * Browser objects (MediaStream, AudioContext, audio nodes, MediaRecorder)
 * are opaque handles that the caller passes in, as the runtime hands them
 * out. `decodeAudioData` is a function parameter from the collected chunks
 * to a decoded buffer, or to None when decoding fails.
 */
module AudioCapture {
  import opened Wrappers
  import opened Wav

  /** An opaque browser object. */
  datatype Handle = Handle(id: nat)

  /** A Blob delivered by `ondataavailable`; the recorder looks only at its size. */
  datatype Chunk = Chunk(id: nat, size: nat)

  /** A finished Blob: its bytes and its declared media type. */
  datatype Blob = Blob(bytes: seq<byte>, mimeType: string)

  /** `new Blob()`. */
  const EmptyBlob := Blob([], "")

  /** The `audio` member of the constraints passed to `getUserMedia`. */
  datatype AudioConstraints = AudioConstraints(
    exactDeviceId: Option<string>,
    sampleRate: nat,
    sampleSize: nat,
    channelCount: nat,
    echoCancellation: bool,
    noiseSuppression: bool,
    autoGainControl: bool)

  /** The options a MediaRecorder was built with: opus in WebM at a fixed bit rate, or none at all. */
  datatype RecorderOptions = Options(mimeType: string, audioBitsPerSecond: nat) | RuntimeDefault

  /** A MediaRecorder: the browser object and the options it was built with. */
  datatype MediaRecorder = MediaRecorder(handle: Handle, options: RecorderOptions)

  /** How the promise returned by `stopRecording` ends: it resolves with a Blob, or it never settles
      because the `onstop` handler threw before calling `resolve`. */
  datatype StopOutcome = Resolved(blob: Blob) | NeverSettles

  /** A MediaDeviceInfo from `enumerateDevices`. */
  datatype MediaDeviceInfo = MediaDeviceInfo(deviceId: string, kind: string, displayLabel: string)

  /** The constraints `startRecording` requests; an empty device id is falsy and selects the default device. */
  function RequestedConstraints(deviceId: string): AudioConstraints
  {
    AudioConstraints(if deviceId == "" then None else Some(deviceId), 48000, 16, 1, false, false, false)
  }

  /** The preferred options, used when the browser supports them. */
  const OpusOptions := Options("audio/webm;codecs=opus", 256000)

  /** The codec decision, taken once per session. */
  function ChooseOptions(opusSupported: bool): (o: RecorderOptions)
    ensures o.Options? <==> opusSupported
    ensures o.Options? ==> o.mimeType == "audio/webm;codecs=opus" && o.audioBitsPerSecond == 256000
  {
    if !opusSupported then RuntimeDefault else OpusOptions
  }

  /** The chunks the `ondataavailable` handler keeps out of a series of events: the non-empty ones, in order. */
  function NonEmptyChunks(events: seq<Chunk>): (kept: seq<Chunk>)
    ensures |kept| <= |events|
    ensures forall k | 0 <= k < |kept| :: kept[k].size > 0 && kept[k] in events
    ensures forall e | e in events && e.size > 0 :: e in kept
  {
    if events == [] then []
    else
      var last := events[|events| - 1];
      NonEmptyChunks(events[..|events| - 1]) + (if last.size > 0 then [last] else [])
  }

  /** Keeping the non-empty chunks of a longer series extends what was kept before: order is preserved. */
  lemma {:induction false} NonEmptyChunksAppend(a: seq<Chunk>, b: seq<Chunk>)
    ensures NonEmptyChunks(a + b) == NonEmptyChunks(a) + NonEmptyChunks(b)
    decreases |b|
  {
    if b == [] {
      assert a + b == a;
    } else {
      var last := b[|b| - 1];
      assert (a + b)[..|a + b| - 1] == a + b[..|b| - 1];
      NonEmptyChunksAppend(a, b[..|b| - 1]);
    }
  }

  /** `getDevices`: the audio inputs among the enumerated devices. */
  function AudioInputs(devices: seq<MediaDeviceInfo>): (inputs: seq<MediaDeviceInfo>)
    ensures |inputs| <= |devices|
    ensures forall k | 0 <= k < |inputs| :: inputs[k].kind == "audioinput" && inputs[k] in devices
    ensures forall d | d in devices && d.kind == "audioinput" :: d in inputs
  {
    if devices == [] then []
    else
      var last := devices[|devices| - 1];
      AudioInputs(devices[..|devices| - 1]) + (if last.kind == "audioinput" then [last] else [])
  }

  /** `getDevices` keeps the runtime's order: filtering commutes with concatenation. */
  lemma {:induction false} AudioInputsAppend(a: seq<MediaDeviceInfo>, b: seq<MediaDeviceInfo>)
    ensures AudioInputs(a + b) == AudioInputs(a) + AudioInputs(b)
    decreases |b|
  {
    if b != [] {
      assert (a + b)[..|a + b| - 1] == a + b[..|b| - 1];
      AudioInputsAppend(a, b[..|b| - 1]);
    } else {
      assert a + b == a;
    }
  }

  class AudioRecorder {
    var mediaRecorder: Option<MediaRecorder>
    var audioChunks: seq<Chunk>
    var stream: Option<Handle>
    var audioContext: Option<Handle>
    var source: Option<Handle>
    var destination: Option<Handle>
    /** What cleanup did to the browser, in order: each stream whose tracks it stopped
        and each AudioContext it closed. */
    var released: seq<Handle>

    /** No session: every browser reference null and no chunks. */
    predicate Idle()
      reads this
    {
      mediaRecorder.None? && stream.None? && audioContext.None? && source.None? && destination.None?
      && audioChunks == []
    }

    constructor ()
      ensures Idle() && released == []
    {
      mediaRecorder := None;
      audioChunks := [];
      stream := None;
      audioContext := None;
      source := None;
      destination := None;
      released := [];
    }

    /** `startRecording`. `granted` is what `getUserMedia` yields for the requested constraints
        (None: it rejected, and the method throws before touching any field); the other handles
        are the objects the browser creates next. There is no check for a session already
        running: its references are overwritten and never released. */
    method StartRecording(deviceId: string, granted: Option<Handle>, context: Handle,
                          sourceNode: Handle, destinationNode: Handle, recorder: Handle,
                          opusSupported: bool)
      returns (requested: AudioConstraints, started: bool)
      modifies this
      ensures requested.exactDeviceId == (if deviceId == "" then None else Some(deviceId))
      ensures requested.sampleRate == 48000 && requested.sampleSize == 16 && requested.channelCount == 1
      ensures !requested.echoCancellation && !requested.noiseSuppression && !requested.autoGainControl
      ensures started == granted.Some?
      ensures !started ==> unchanged(this)
      ensures started ==>
        && stream == granted && audioContext == Some(context)
        && source == Some(sourceNode) && destination == Some(destinationNode)
        && mediaRecorder == Some(MediaRecorder(recorder, ChooseOptions(opusSupported)))
        && audioChunks == [] && released == old(released)
    {
      requested := RequestedConstraints(deviceId);
      if granted.None? {
        started := false;
        return;
      }
      stream := granted;
      audioContext := Some(context);
      source := Some(sourceNode);
      destination := Some(destinationNode);
      var options := OpusOptions;
      if !opusSupported {
        mediaRecorder := Some(MediaRecorder(recorder, RuntimeDefault));
      } else {
        mediaRecorder := Some(MediaRecorder(recorder, options));
      }
      audioChunks := [];
      started := true;
    }

    /** The `ondataavailable` handler: a chunk is kept only when it is not empty. */
    method OnDataAvailable(data: Chunk)
      modifies this`audioChunks
      ensures audioChunks == old(audioChunks) + NonEmptyChunks([data])
    {
      if data.size > 0 {
        audioChunks := audioChunks + [data];
      }
    }

    /** `cleanup`: stops the stream, closes the context, and clears every reference and the chunk list. */
    method Cleanup()
      modifies this
      ensures Idle()
      ensures released == old(released) + old(stream).ToSeq() + old(audioContext).ToSeq()
    {
      if stream.Some? {
        released := released + [stream.value];
        stream := None;
      }
      if audioContext.Some? {
        released := released + [audioContext.value];
        audioContext := None;
      }
      source := None;
      destination := None;
      mediaRecorder := None;
      audioChunks := [];
    }

    /** `convertToWav`: the chunks decoded by `decode`, then encoded as a WAV Blob. */
    static method ConvertToWav(chunks: seq<Chunk>, decode: seq<Chunk> -> Option<AudioBuffer>)
      returns (blob: Option<Blob>)
      requires decode(chunks).Some? ==> decode(chunks).value.Valid()
      ensures decode(chunks).None? ==> blob.None?
      ensures decode(chunks).Some? ==> blob == Some(Blob(WavBytes(decode(chunks).value), "audio/wav"))
    {
      var audioBuffer := decode(chunks);
      if audioBuffer.None? {
        return None;
      }
      var wavBuffer := AudioBufferToWav(audioBuffer.value);
      blob := Some(Blob(wavBuffer[..], "audio/wav"));
    }

    /** `stopRecording` together with the `onstop` handler it installs. Without a recorder it
        resolves with an empty Blob and changes nothing. Otherwise the collected chunks are
        decoded and encoded; only when that succeeds does `cleanup` run. A failed decode throws
        inside `onstop`, so the promise never settles and every field is left as it was. */
    method StopRecording(decode: seq<Chunk> -> Option<AudioBuffer>) returns (outcome: StopOutcome)
      requires decode(audioChunks).Some? ==> decode(audioChunks).value.Valid()
      modifies this
      ensures old(mediaRecorder).None? ==> outcome == Resolved(EmptyBlob) && unchanged(this)
      ensures old(mediaRecorder).Some? && decode(old(audioChunks)).None? ==>
        outcome == NeverSettles && unchanged(this)
      ensures old(mediaRecorder).Some? && decode(old(audioChunks)).Some? ==>
        && outcome == Resolved(Blob(WavBytes(decode(old(audioChunks)).value), "audio/wav"))
        && Idle()
        && released == old(released) + old(stream).ToSeq() + old(audioContext).ToSeq()
    {
      if mediaRecorder.None? {
        return Resolved(EmptyBlob);
      }
      var audioBlob := ConvertToWav(audioChunks, decode);
      if audioBlob.None? {
        return NeverSettles;
      }
      Cleanup();
      outcome := Resolved(audioBlob.value);
    }
  }
}
