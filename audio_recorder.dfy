/** The plain recorder: a chunk buffer filled by the microphone's data events and turned into a
    blob, named at start, when the recorder stops. */
module Recording {
  import opened Http
  import opened Media
  import opened FileNames

  class AudioRecorder {
    var isRecording: bool
    var audioUrl: Option<string>
    /** The buffer behind the component's chunk ref. */
    var chunks: seq<Chunk>
    /** The recorder behind the component's recorder ref, once microphone access was granted. */
    var recorder: Option<Recorder>

    constructor()
      ensures !isRecording && audioUrl.None? && chunks == [] && recorder.None?
      ensures !StartDisabled() && StopDisabled()
    {
      isRecording, audioUrl, chunks, recorder := false, None, [], None;
    }

    /** The start button is disabled while recording, the stop button while not. */
    predicate StartDisabled()
      reads this
    {
      isRecording
    }

    predicate StopDisabled()
      reads this
    {
      !isRecording
    }

    /** The synchronous part of a start: the buffer is emptied and the flag raised before the
        microphone is even asked for, and the name built from `now` is handed to the parent
        through `setRecordWavName` (the result). */
    method StartRecording(now: Clock) returns (newFileName: string)
      modifies this`chunks, this`isRecording
      ensures chunks == [] && isRecording
      ensures StartDisabled() && !StopDisabled()
      ensures newFileName == RecordedName(now)
    {
      chunks := [];
      isRecording := true;
      newFileName := RecordedName(now);
    }

    /** The microphone request of the start that produced `newFileName` settles. Granted, a new
        recorder is held whose stop handler keeps that name; denied, the error is only logged, so
        `isRecording` stays raised. */
    method OnMicrophoneAccess(newFileName: string, granted: bool)
      modifies this`recorder
      ensures granted ==> recorder == Some(Recorder(newFileName))
      ensures !granted ==> recorder == old(recorder)
    {
      if granted {
        recorder := Some(Recorder(newFileName));
      }
    }

    /** A data event appends its chunk at the end of the buffer. */
    method OnDataAvailable(chunk: Chunk)
      modifies this`chunks
      ensures chunks == old(chunks) + [chunk]
    {
      chunks := chunks + [chunk];
    }

    /** The held recorder's stop handler: the blob is the buffered chunks in order, offered for
        playback at `objectUrl`, and both the parent callback and the download receive it under
        the name captured at start (the results). */
    method OnStop(objectUrl: string) returns (audioBlob: Blob, fileName: string)
      requires recorder.Some?
      modifies this`audioUrl
      ensures audioBlob == Blob(chunks)
      ensures fileName == recorder.value.fileName
      ensures audioUrl == Some(objectUrl)
    {
      audioBlob := Blob(chunks);
      audioUrl := Some(objectUrl);
      fileName := recorder.value.fileName;
    }

    /** The stop button: stops the held recorder and lowers the flag. With no recorder held (the
        microphone was never granted) the call to `stop` throws first and the flag stays as it was;
        `threw` reports that. */
    method StopRecording() returns (threw: bool)
      modifies this`isRecording
      ensures threw <==> recorder.None?
      ensures threw ==> isRecording == old(isRecording)
      ensures !threw ==> !isRecording && !StartDisabled() && StopDisabled()
    {
      if recorder.None? {
        threw := true;
      } else {
        threw := false;
        isRecording := false;
      }
    }
  }
}
