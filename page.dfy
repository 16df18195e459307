/** The home page: it keeps the names and the blob the children report, triggers the video
    generation and, once the request is accepted, derives the video URL from the audio name. */
module Page {
  import opened Http
  import opened Media
  import opened FileNames
  import opened DerivedNames
  import opened GradioCall

  class Home {
    var audioUrl: string
    var audioName: string
    var imageName: string
    var loading: bool
    var videoUrl: string
    var audioBlob: Option<Blob>
    var recordWavName: string

    /** The first render: everything empty, and the recording name built from the clock reading
        `now`. */
    constructor(now: Clock)
      ensures audioUrl == "" && audioName == "" && imageName == "" && videoUrl == ""
      ensures !loading && audioBlob.None?
      ensures recordWavName == PageRecordedName(now)
    {
      audioUrl, audioName, imageName, videoUrl := "", "", "", "";
      loading, audioBlob := false, None;
      recordWavName := PageRecordedName(now);
    }

    /** The speech component reports a generated file: URL and name are set together. */
    method HandleAudioGenerated(url: string, fileName: string)
      modifies this`audioUrl, this`audioName
      ensures audioUrl == url && audioName == fileName
    {
      audioUrl := url;
      audioName := fileName;
    }

    method HandleImageNameGenerated(name: string)
      modifies this`imageName
      ensures imageName == name
    {
      imageName := name;
    }

    /** The recorder reports a finished recording: blob and name are set, the audio URL is left
        as it was. */
    method HandleRecordingComplete(blob: Blob, fileName: string)
      modifies this`audioBlob, this`audioName
      ensures audioBlob == Some(blob) && audioName == fileName
    {
      audioBlob := Some(blob);
      audioName := fileName;
    }

    /** The recorder's `setRecordWavName`. */
    method SetRecordWavName(name: string)
      modifies this`recordWavName
      ensures recordWavName == name
    {
      recordWavName := name;
    }

    /** The synchronous part of a click. With either name empty it returns at once: `loading` is
        untouched and nothing is sent. Otherwise `loading` is raised and the request goes out with
        its parameters in the order audio name, image name (`params`). */
    method HandleCallGradioApi() returns (params: Option<seq<(string, string)>>)
      modifies this`loading
      ensures params.Some? <==> audioName != "" && imageName != ""
      ensures params.None? ==> loading == old(loading)
      ensures params.Some? ==>
        loading && params.value == [(AudioNameKey, audioName), (ImageNameKey, imageName)]
    {
      if audioName == "" || imageName == "" {
        params := None;
      } else {
        loading := true;
        params := Some([(AudioNameKey, audioName), (ImageNameKey, imageName)]);
      }
    }

    /** The request issued for `requestedAudioName` (the name at the time of the click) settles.
        An OK response sets the video URL from the first stamp token of that name; when the name
        has no token the lookup throws and is absorbed, so the URL stays. A response that is not
        OK, or a failed fetch, leaves the URL too. `loading` is lowered in every case. */
    method OnCallSettled(requestedAudioName: string, reply: Reply)
      modifies this`videoUrl, this`loading
      ensures !loading
      ensures reply.Responded? && reply.ok && VideoUrlFor(requestedAudioName).Some? ==>
        videoUrl == VideoUrlFor(requestedAudioName).value
      ensures !(reply.Responded? && reply.ok) || VideoUrlFor(requestedAudioName).None? ==>
        videoUrl == old(videoUrl)
    {
      if reply.Responded? && reply.ok {
        match VideoUrlFor(requestedAudioName)
        case Some(url) => videoUrl := url;
        case None =>
      }
      loading := false;
    }
  }
}
