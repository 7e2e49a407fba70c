/**
 * The useAudioRecorder hook of frontend/lib/hooks/useAudioRecorder.ts: a
 * recording flag, the current MediaRecorder (or none) and the buffer of audio
 * chunks the recorder has delivered.
 *
 * The browser's media APIs become events: the outcome of acquiring the
 * microphone stream is a parameter of StartRecording, each `dataavailable`
 * event is a call of OnDataAvailable, and StopRecording takes the chunk of the
 * final `dataavailable` event that a recorder fires when it is stopped, before
 * its `stop` event runs the `onstop` handler.
 */
module AudioRecording {
  import opened Wrappers

  type Byte = bv8

  /** A Blob: its bytes and its MIME type ("" when none was given). */
  datatype Blob = Blob(bytes: seq<Byte>, mimeType: string) {
    function Size(): nat {
      |bytes|
    }
  }

  /** The type stopRecording gives the finished recording. */
  const RecordingType := "audio/webm"

  /** `new Blob()`. */
  const EmptyBlob := Blob([], "")

  /** The state of a MediaRecorder; a recorder of this hook is never paused. */
  datatype RecorderState = Inactive | Recording

  /** What the promise that stopRecording returns does: resolve to a blob, or
      stay pending because no `stop` event will ever fire. */
  datatype StopOutcome = Resolved(blob: Blob) | Pending

  /** The bytes of `new Blob(chunks)`: the chunks' bytes in order. */
  function Concat(chunks: seq<Blob>): seq<Byte> {
    if chunks == [] then [] else chunks[0].bytes + Concat(chunks[1..])
  }

  /** The sum of the chunks' sizes. */
  function TotalSize(chunks: seq<Blob>): nat {
    if chunks == [] then 0 else chunks[0].Size() + TotalSize(chunks[1..])
  }

  /** The chunks the `ondataavailable` handler keeps, in arrival order: those of
      size greater than 0. */
  function NonEmpty(chunks: seq<Blob>): (kept: seq<Blob>)
    ensures forall i :: 0 <= i < |kept| ==> kept[i].Size() > 0
    ensures forall c :: c in kept <==> c in chunks && c.Size() > 0
    ensures |kept| <= |chunks|
  {
    if chunks == [] then []
    else if chunks[0].Size() > 0 then [chunks[0]] + NonEmpty(chunks[1..])
    else NonEmpty(chunks[1..])
  }

  /** A concatenated blob is as large as its parts together. */
  lemma {:induction false} ConcatSize(chunks: seq<Blob>)
    ensures |Concat(chunks)| == TotalSize(chunks)
  {
    if chunks != [] {
      ConcatSize(chunks[1..]);
    }
  }

  /** Concatenation distributes over appending chunk lists. */
  lemma {:induction false} ConcatAppend(a: seq<Blob>, b: seq<Blob>)
    ensures Concat(a + b) == Concat(a) + Concat(b)
  {
    if a != [] {
      assert (a + b)[1..] == a[1..] + b;
      ConcatAppend(a[1..], b);
    } else {
      assert a + b == b;
    }
  }

  /** Filtering distributes over appending chunk lists. */
  lemma {:induction false} NonEmptyAppend(a: seq<Blob>, b: seq<Blob>)
    ensures NonEmpty(a + b) == NonEmpty(a) + NonEmpty(b)
  {
    if a != [] {
      assert (a + b)[1..] == a[1..] + b;
      NonEmptyAppend(a[1..], b);
    } else {
      assert a + b == b;
    }
  }

  /** Concat on a list with a first chunk. */
  lemma ConcatCons(x: Blob, rest: seq<Blob>)
    ensures Concat([x] + rest) == x.bytes + Concat(rest)
  {
    var s := [x] + rest;
    assert s[0] == x && s[1..] == rest;
  }

  /** Dropping the empty chunks changes no byte of the recording. */
  lemma {:induction false} NonEmptyConcat(chunks: seq<Blob>)
    ensures Concat(NonEmpty(chunks)) == Concat(chunks)
  {
    if chunks != [] {
      var rest := chunks[1..];
      NonEmptyConcat(rest);
      if chunks[0].Size() > 0 {
        ConcatCons(chunks[0], NonEmpty(rest));
      } else {
        assert chunks[0].bytes == [];
      }
    }
  }

  /** The state the hook keeps across renders. */
  class AudioRecorder {
    /** `isRecording`. */
    var isRecording: bool
    /** `mediaRecorder.current`: None until a start succeeds, then the state of
        the recorder it created. */
    var recorder: Option<RecorderState>
    /** `audioChunks.current`. */
    var chunks: seq<Blob>

    ghost predicate Valid()
      reads this
    {
      && (isRecording <==> recorder == Some(Recording))
      && (recorder.None? ==> chunks == [])
      && forall i :: 0 <= i < |chunks| ==> chunks[i].Size() > 0
    }

    /** The first render: not recording, no recorder, no chunks. */
    constructor ()
      ensures Valid()
      ensures !isRecording && recorder.None? && chunks == []
    {
      isRecording := false;
      recorder := None;
      chunks := [];
    }

    /**
     * startRecording. `streamError` is what acquiring the microphone stream
     * (or creating the recorder on it) fails with, None when both succeed. On
     * failure the error is rethrown and nothing has changed; on success the
     * new recorder replaces any earlier one, the buffer is emptied and the
     * hook records. An earlier recording is not guarded against.
     */
    method StartRecording(streamError: Option<string>) returns (r: Result<(), string>)
      requires Valid()
      modifies this
      ensures Valid()
      ensures streamError.Some? ==> r == Err(streamError.value) && unchanged(this)
      ensures streamError.None? ==> r == Ok(()) && isRecording && recorder == Some(Recording) && chunks == []
    {
      if streamError.Some? {
        return Err(streamError.value);
      }
      recorder := Some(Recording);
      chunks := [];
      isRecording := true;
      r := Ok(());
    }

    /** The `ondataavailable` handler a started recorder calls: a chunk of
        size greater than 0 is appended, an empty one is dropped. */
    method OnDataAvailable(chunk: Blob)
      requires Valid()
      requires recorder.Some?  // the handler exists only once a start has created a recorder
      modifies this
      ensures Valid()
      ensures chunks == if chunk.Size() > 0 then old(chunks) + [chunk] else old(chunks)
      ensures isRecording == old(isRecording) && recorder == old(recorder)
    {
      if chunk.Size() > 0 {
        chunks := chunks + [chunk];
      }
    }

    /**
     * stopRecording, with `lastChunk` the data of the final `dataavailable`
     * event the stopped recorder fires before `stop`.
     * - No recorder yet: resolves to an empty blob and changes nothing.
     * - A recording recorder: stops it; the last chunk goes through the data
     *   handler, then `onstop` resolves to the buffered chunks concatenated in
     *   arrival order, typed audio/webm, and empties the buffer.
     * - A recorder that is already inactive: stopping it fires no event, so the
     *   promise stays pending; the flag is cleared and nothing else changes.
     */
    method StopRecording(lastChunk: Blob) returns (outcome: StopOutcome)
      requires Valid()
      modifies this
      ensures Valid()
      ensures old(recorder).None? ==> outcome == Resolved(EmptyBlob) && unchanged(this)
      ensures old(recorder) == Some(Recording) ==>
                && outcome == Resolved(Blob(Concat(old(chunks) + NonEmpty([lastChunk])), RecordingType))
                && !isRecording && recorder == Some(Inactive) && chunks == []
      ensures old(recorder) == Some(Inactive) ==>
                outcome == Pending && !isRecording && recorder == Some(Inactive) && chunks == old(chunks)
    {
      match recorder
      case None =>
        return Resolved(EmptyBlob);
      case Some(Inactive) =>
        isRecording := false;
        return Pending;
      case Some(Recording) =>
        recorder := Some(Inactive);
        isRecording := false;
        ghost var buffered := chunks;
        OnDataAvailable(lastChunk);
        assert chunks == buffered + NonEmpty([lastChunk]) by {
          assert [lastChunk][1..] == [];
          if lastChunk.Size() == 0 {
            assert buffered + [] == buffered;
          }
        }
        var blob := Blob(Concat(chunks), RecordingType);
        chunks := [];
        return Resolved(blob);
    }
  }

  /** One more `dataavailable` event: the kept chunks gain that chunk exactly
      when it is not empty. */
  lemma NonEmptyStep(events: seq<Blob>, i: nat)
    requires i < |events|
    ensures NonEmpty(events[..i + 1]) == NonEmpty(events[..i]) + if events[i].Size() > 0 then [events[i]] else []
  {
    assert events[..i + 1] == events[..i] + [events[i]];
    NonEmptyAppend(events[..i], [events[i]]);
    assert [events[i]][1..] == [];
  }

  /** The chunks kept during a recording plus the kept last chunk hold the bytes
      of every event in order, and as many bytes as the events' sizes add up to. */
  lemma SessionBytes(events: seq<Blob>, lastChunk: Blob)
    ensures Concat(NonEmpty(events) + NonEmpty([lastChunk])) == Concat(events + [lastChunk])
    ensures |Concat(events + [lastChunk])| == TotalSize(events + [lastChunk])
  {
    NonEmptyAppend(events, [lastChunk]);
    NonEmptyConcat(events + [lastChunk]);
    ConcatSize(events + [lastChunk]);
  }

  /**
   * One recording session: a successful start, the `dataavailable` events of
   * the recording in arrival order, then stop. The recording holds the bytes of
   * every event in order, empty ones included since they add no byte, and its
   * size is the sum of the event sizes.
   */
  method RecordSession(events: seq<Blob>, lastChunk: Blob) returns (recording: Blob)
    ensures recording.mimeType == RecordingType
    ensures recording.bytes == Concat(events + [lastChunk])
    ensures recording.Size() == TotalSize(events + [lastChunk])
  {
    var hook := new AudioRecorder();
    var _ := hook.StartRecording(None);
    for i := 0 to |events|
      invariant hook.Valid()
      invariant hook.recorder == Some(Recording)
      invariant hook.chunks == NonEmpty(events[..i])
    {
      NonEmptyStep(events, i);
      hook.OnDataAvailable(events[i]);
    }
    assert events[..|events|] == events;
    var outcome := hook.StopRecording(lastChunk);
    SessionBytes(events, lastChunk);
    recording := outcome.blob;
  }

  /** stopRecording before any startRecording resolves to a blob of size 0. */
  method StopBeforeStart(lastChunk: Blob) returns (size: nat)
    ensures size == 0
  {
    var hook := new AudioRecorder();
    var outcome := hook.StopRecording(lastChunk);
    size := outcome.blob.Size();
  }
}
