/** The recorder that uploads what it recorded: the same chunk buffer, a guarded stop, and an
    upload of the finished file whose outcome is shown as a status line. */
module RecordingUpload {
  import opened Http
  import opened Media
  import opened FileNames
  import opened UploadStatus

  class AudioRecorderAndUploader {
    var isRecording: bool
    var audioUrl: Option<string>
    var audioFile: Option<NamedFile>
    var uploadStatus: Option<string>
    var chunks: seq<Chunk>
    var recorder: Option<Recorder>
    var recordWavName: string

    constructor()
      ensures !isRecording && audioUrl.None? && audioFile.None? && uploadStatus.None?
      ensures chunks == [] && recorder.None? && recordWavName == ""
    {
      isRecording, audioUrl, audioFile, uploadStatus := false, None, None, None;
      chunks, recorder, recordWavName := [], None, "";
    }

    /** The synchronous part of a start: empty buffer, raised flag, and the new name stored. */
    method StartRecording(now: Clock) returns (newFileName: string)
      modifies this`chunks, this`isRecording, this`recordWavName
      ensures chunks == [] && isRecording
      ensures newFileName == RecordedName(now) && recordWavName == newFileName
    {
      chunks := [];
      isRecording := true;
      newFileName := RecordedName(now);
      recordWavName := newFileName;
    }

    /** The microphone request of the start that produced `newFileName` settles. */
    method OnMicrophoneAccess(newFileName: string, granted: bool)
      modifies this`recorder
      ensures granted ==> recorder == Some(Recorder(newFileName))
      ensures !granted ==> recorder == old(recorder)
    {
      if granted {
        recorder := Some(Recorder(newFileName));
      }
    }

    method OnDataAvailable(chunk: Chunk)
      modifies this`chunks
      ensures chunks == old(chunks) + [chunk]
    {
      chunks := chunks + [chunk];
    }

    /** The held recorder's stop handler: the buffered chunks in order become an `audio/wav` file
        under the name captured at start; it is stored, handed to the parent with that name, and
        its upload begins at once (`request`). */
    method OnStop(objectUrl: string) returns (audioBlob: Blob, fileName: string, request: Option<NamedFile>)
      requires recorder.Some?
      modifies this`audioUrl, this`audioFile, this`uploadStatus
      ensures audioBlob == Blob(chunks) && fileName == recorder.value.fileName
      ensures audioUrl == Some(objectUrl)
      ensures audioFile == Some(NamedFile(audioBlob, fileName, AudioWav))
      ensures request == audioFile && uploadStatus == Some(Uploading)
    {
      audioBlob := Blob(chunks);
      audioUrl := Some(objectUrl);
      fileName := recorder.value.fileName;
      var file := NamedFile(audioBlob, fileName, AudioWav);
      audioFile := Some(file);
      request := UploadAudio(Some(file));
    }

    /** The stop button: stops the recorder only when one is held, and lowers the flag in every
        case; `stopped` says whether `stop` was called. */
    method StopRecording() returns (stopped: bool)
      modifies this`isRecording
      ensures stopped <==> recorder.Some?
      ensures !isRecording
    {
      stopped := recorder.Some?;
      isRecording := false;
    }

    /** The synchronous part of an upload: without a file the status says so and nothing is sent;
        with one the status says "uploading" and the file is sent (`request`). */
    method UploadAudio(file: Option<NamedFile>) returns (request: Option<NamedFile>)
      modifies this`uploadStatus
      ensures file.None? ==> request.None? && uploadStatus == Some(NoAudioFile)
      ensures file.Some? ==> request == file && uploadStatus == Some(Uploading)
    {
      if file.None? {
        uploadStatus := Some(NoAudioFile);
        request := None;
      } else {
        uploadStatus := Some(Uploading);
        request := file;
      }
    }

    /** The upload settles: the status becomes the checked status of the reply. */
    method OnUploadSettled(reply: Reply)
      modifies this`uploadStatus
      ensures uploadStatus == Some(CheckedStatus(reply))
    {
      uploadStatus := Some(CheckedStatus(reply));
    }
  }
}
