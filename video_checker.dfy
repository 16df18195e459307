/** The video status line and the condition for showing the video. */
module VideoStatus {

  const NotGenerated := "视频未生成"
  const Generating := "视频生成中，请稍候..."
  const Generated := "视频生成成功！"

  /** The video element is rendered exactly for a non-empty URL while nothing is loading. */
  predicate ShowsVideo(videoUrl: string, isLoading: bool) {
    videoUrl != "" && !isLoading
  }

  class VideoChecker {
    var message: string

    /** The message is always one of the three texts. */
    ghost predicate Valid()
      reads this
    {
      message == NotGenerated || message == Generating || message == Generated
    }

    constructor()
      ensures Valid() && message == NotGenerated
    {
      message := NotGenerated;
    }

    /** The effect that runs when `isLoading` or `videoUrl` changes. Loading wins; otherwise a
        URL means success; otherwise the message stays, so once it has left the initial text it
        never comes back to it. Whenever the video is shown, the message is the success text. */
    method OnPropsChanged(videoUrl: string, isLoading: bool)
      requires Valid()
      modifies this
      ensures Valid()
      ensures isLoading ==> message == Generating
      ensures !isLoading && videoUrl != "" ==> message == Generated
      ensures !isLoading && videoUrl == "" ==> message == old(message)
      ensures message == NotGenerated ==> old(message) == NotGenerated
      ensures ShowsVideo(videoUrl, isLoading) ==> message == Generated
    {
      if isLoading {
        message := Generating;
      } else if videoUrl != "" {
        message := Generated;
      }
    }
  }
}
