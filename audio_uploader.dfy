/** The stand-alone uploader: it wraps the recorded blob in a file named by the parent, and uploads
    it on demand. */
module Uploader {
  import opened Http
  import opened Media
  import opened UploadStatus

  class AudioUploader {
    var audioFile: Option<NamedFile>
    var audioUrl: Option<string>
    var uploadStatus: Option<string>

    constructor()
      ensures audioFile.None? && audioUrl.None? && uploadStatus.None?
    {
      audioFile, audioUrl, uploadStatus := None, None, None;
    }

    /** The upload button is disabled while there is no file. */
    predicate UploadDisabled()
      reads this
    {
      audioFile.None?
    }

    /** The effect that runs when the blob or the name changes: a present blob becomes the file,
        named exactly `recordWavName`, and is offered for playback at `objectUrl`; with no blob
        nothing changes. */
    method OnBlobOrNameChanged(audioBlob: Option<Blob>, recordWavName: string, objectUrl: string)
      modifies this`audioFile, this`audioUrl
      ensures audioBlob.Some? ==>
        && audioFile == Some(NamedFile(audioBlob.value, recordWavName, AudioWav))
        && audioUrl == Some(objectUrl)
        && !UploadDisabled()
      ensures audioBlob.None? ==> audioFile == old(audioFile) && audioUrl == old(audioUrl)
    {
      if audioBlob.Some? {
        audioUrl := Some(objectUrl);
        audioFile := Some(NamedFile(audioBlob.value, recordWavName, AudioWav));
      }
    }

    /** The synchronous part of an upload: with no file it only logs, leaving the status alone and
        sending nothing; otherwise it clears the status and sends the file (`request`). */
    method UploadAudio() returns (request: Option<NamedFile>)
      modifies this`uploadStatus
      ensures request.Some? <==> !UploadDisabled()
      ensures UploadDisabled() ==> uploadStatus == old(uploadStatus)
      ensures !UploadDisabled() ==> request == audioFile && uploadStatus.None?
    {
      if audioFile.None? {
        request := None;
      } else {
        uploadStatus := None;
        request := audioFile;
      }
    }

    /** The upload settles: the status becomes the unchecked status of the reply, judged by
        `success` alone. */
    method OnUploadSettled(reply: Reply)
      modifies this`uploadStatus
      ensures uploadStatus == Some(UncheckedStatus(reply))
    {
      uploadStatus := Some(UncheckedStatus(reply));
    }
  }
}
