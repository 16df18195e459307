/** The older top-level component: it keeps the names the children report and triggers the video
    call, raising its `startChecking` flag afterwards. The `VideoChecker` it renders is handed that
    flag but does not read it, so the flag drives nothing. */
module Application {
  import opened Http
  import opened GradioCall

  class App {
    var audioUrl: string
    var audioName: string
    var imageName: string
    var startChecking: bool

    constructor()
      ensures audioUrl == "" && audioName == "" && imageName == "" && !startChecking
    {
      audioUrl, audioName, imageName, startChecking := "", "", "", false;
    }

    /** The speech component reports a generated file: URL and name are set together. */
    method HandleAudioGenerated(url: string, fileName: string)
      modifies this`audioUrl, this`audioName
      ensures audioUrl == url && audioName == fileName
    {
      audioUrl := url;
      audioName := fileName;
    }

    /** The photo component reports the image name; nothing else changes. */
    method HandleImageNameGenerated(name: string)
      modifies this`imageName
      ensures imageName == name
    {
      imageName := name;
    }

    /** The synchronous part of a click: with both names present the request goes out with its
        parameters in the order audio name, image name (`params`); otherwise only an error is
        logged. No state changes either way. */
    method HandleCallGradioApi() returns (params: Option<seq<(string, string)>>)
      ensures params.Some? <==> audioName != "" && imageName != ""
      ensures params.Some? ==> params.value == [(AudioNameKey, audioName), (ImageNameKey, imageName)]
    {
      if audioName != "" && imageName != "" {
        params := Some([(AudioNameKey, audioName), (ImageNameKey, imageName)]);
      } else {
        params := None;
      }
    }

    /** The call settles. The flag is raised only by an OK response whose body parses (the body is
        read before the flag is set); nothing ever lowers it. */
    method OnCallSettled(reply: Reply)
      modifies this`startChecking
      ensures startChecking <==> old(startChecking) || (reply.Responded? && reply.ok && reply.body.Parsed?)
      ensures old(startChecking) ==> startChecking
    {
      if reply.Responded? && reply.ok && reply.body.Parsed? {
        startChecking := true;
      }
    }
  }
}
