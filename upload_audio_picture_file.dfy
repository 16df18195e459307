/** The photo step: the image name derived from the audio URL, the camera, and the upload of a
    chosen or captured picture under that name. */
module PictureUpload {
  import opened Http
  import opened Media
  import opened DerivedNames

  const SelectPrompt := "请确保图片文件已选择！"
  const Uploading := "正在上传..."
  const Uploaded := "文件上传成功！"
  const UploadFailed := "文件上传失败，请稍后重试！"
  const UploadError := "上传过程中发生了错误！"
  const CameraDenied := "无法访问摄像头，请检查设备权限。"

  /** One track of a camera stream. */
  class Track {
    var live: bool

    constructor()
      ensures live
    {
      live := true;
    }

    /** `track.stop()`: the track ends; stopping an ended track changes nothing. */
    method Stop()
      modifies this
      ensures !live
    {
      live := false;
    }
  }

  class UploadAudioPictureFile {
    var image: Option<NamedFile>
    var imageName: string
    var loading: bool
    var message: string
    /** The stream granted by the camera, as its list of tracks. */
    var cameraStream: Option<seq<Track>>
    var isCameraActive: bool

    constructor()
      ensures image.None? && imageName == "" && !loading && message == ""
      ensures cameraStream.None? && !isCameraActive
    {
      image, imageName, loading, message := None, "", false, "";
      cameraStream, isCameraActive := None, false;
    }

    /** The tracks of the held stream, if any. */
    function Tracks(): set<Track>
      reads this
    {
      if cameraStream.Some? then set t | t in cameraStream.value else {}
    }

    /** The effect that runs when the audio URL (or the callback) changes. For a non-empty URL the
        image name is derived from it, and the parent, when it passed a callback, receives that
        same name (`notified`). An empty URL changes nothing. */
    method OnAudioUrlChanged(audioUrl: string, hasCallback: bool) returns (notified: Option<string>)
      modifies this`imageName
      ensures audioUrl != "" ==> imageName == ImageName(audioUrl)
      ensures audioUrl != "" && hasCallback ==> notified == Some(imageName)
      ensures audioUrl == "" || !hasCallback ==> notified.None?
      ensures audioUrl == "" ==> imageName == old(imageName)
    {
      notified := None;
      if audioUrl != "" {
        imageName := ImageName(audioUrl);
        if hasCallback {
          notified := Some(imageName);
        }
      }
    }

    /** The synchronous part of starting the camera: the current image is dropped first. */
    method StartCamera()
      modifies this`image
      ensures image.None?
    {
      image := None;
    }

    /** The camera request settles: a granted stream is held and the camera marked active; a
        refusal only sets the message, leaving `isCameraActive` as it was. */
    method OnCameraAccess(stream: Option<seq<Track>>)
      modifies this`cameraStream, this`isCameraActive, this`message
      ensures stream.Some? ==> cameraStream == stream && isCameraActive && message == old(message)
      ensures stream.None? ==>
        message == CameraDenied && isCameraActive == old(isCameraActive) && cameraStream == old(cameraStream)
    {
      if stream.Some? {
        cameraStream := stream;
        isCameraActive := true;
      } else {
        message := CameraDenied;
      }
    }

    /** Stops every track of the held stream, one after the other, and marks the camera inactive,
        also when no stream is held. The stream itself stays held. */
    method StopCamera()
      modifies this`isCameraActive, Tracks()
      ensures !isCameraActive
      ensures cameraStream == old(cameraStream)
      ensures forall t :: t in Tracks() ==> !t.live
    {
      if cameraStream.Some? {
        var tracks := cameraStream.value;
        var i := 0;
        while i < |tracks|
          invariant 0 <= i <= |tracks|
          invariant forall k :: 0 <= k < i ==> !tracks[k].live
        {
          tracks[i].Stop();
          i := i + 1;
        }
      }
      isCameraActive := false;
    }

    /** The captured frame arrives as `blob`: it becomes a JPEG under the current image name, is
        kept as the image, the camera is stopped and the upload begins (`request`). */
    method OnPhotoBlob(blob: Blob) returns (request: Option<NamedFile>)
      modifies this, Tracks()
      ensures image == Some(NamedFile(blob, old(imageName), ImageJpeg)) && imageName == old(imageName)
      ensures !isCameraActive && cameraStream == old(cameraStream)
      ensures forall t :: t in Tracks() ==> !t.live
      ensures request == image && loading && message == Uploading
    {
      var renamed := NamedFile(blob, imageName, ImageJpeg);
      image := Some(renamed);
      StopCamera();
      request := HandleUpload(Some(renamed));
    }

    /** A local file is picked: it is renamed to the current image name, keeping its type, kept as
        the image, and its upload begins (`request`). With no file nothing happens. */
    method HandleImageChange(file: Option<NamedFile>) returns (request: Option<NamedFile>)
      modifies this`image, this`loading, this`message
      ensures file.None? ==>
        request.None? && image == old(image) && loading == old(loading) && message == old(message)
      ensures file.Some? ==>
        && image == Some(Renamed(file.value, imageName))
        && request == image && loading && message == Uploading
    {
      if file.Some? {
        var renamed := Renamed(file.value, imageName);
        image := Some(renamed);
        request := HandleUpload(Some(renamed));
      } else {
        request := None;
      }
    }

    /** The synchronous part of an upload: with no file only the prompt is set and `loading`
        stays; otherwise `loading` is raised, the message says "uploading", and the file is sent
        (`request`). */
    method HandleUpload(file: Option<NamedFile>) returns (request: Option<NamedFile>)
      modifies this`loading, this`message
      ensures file.None? ==> request.None? && message == SelectPrompt && loading == old(loading)
      ensures file.Some? ==> request == file && loading && message == Uploading
    {
      if file.None? {
        message := SelectPrompt;
        request := None;
      } else {
        loading := true;
        message := Uploading;
        request := file;
      }
    }

    /** The upload settles. Only the HTTP status is read (the body is not): OK gives the success
        text, anything else the failure text, a failed fetch the error text. `loading` is lowered
        in every case. */
    method OnUploadSettled(reply: Reply)
      modifies this`loading, this`message
      ensures !loading
      ensures reply.Threw? ==> message == UploadError
      ensures reply.Responded? && reply.ok ==> message == Uploaded
      ensures reply.Responded? && !reply.ok ==> message == UploadFailed
    {
      if reply.Threw? {
        message := UploadError;
      } else if reply.ok {
        message := Uploaded;
      } else {
        message := UploadFailed;
      }
      loading := false;
    }
  }
}
