/** The button that asks the server to generate the video from an audio name and an image name. */
module GradioCall {
  import opened Text
  import opened Http

  const MissingNames := "音频和图片文件名必须提供！"
  const Calling := "正在调用 Gradio API..."
  const Accepted := "API 调用成功，视频生成中..."
  const FailedPrefix := "API 调用失败: "
  const ErrorPrefix := "发生错误: "

  const AudioNameKey := "audio_name"
  const ImageNameKey := "image_name"

  /** The query string as this component writes it: both names interpolated as they are, with no
      percent-encoding. */
  function RawQuery(audioName: string, imageName: string): string {
    AudioNameKey + "=" + audioName + "&" + ImageNameKey + "=" + imageName
  }

  /** For names without `&` the query splits into exactly the two fields, in order. */
  lemma RawQueryFields(audioName: string, imageName: string)
    requires '&' !in audioName && '&' !in imageName
    ensures Split(RawQuery(audioName, imageName), '&')
         == [AudioNameKey + "=" + audioName, ImageNameKey + "=" + imageName]
  {
    var first, second := AudioNameKey + "=" + audioName, ImageNameKey + "=" + imageName;
    assert RawQuery(audioName, imageName) == first + ['&'] + second;
    assert '&' !in first && '&' !in second;
    SplitAround(first, '&', second);
    SplitNoSeparator(first, '&');
    SplitNoSeparator(second, '&');
  }

  /** For such names the query determines the names. */
  lemma RawQueryInjective(audioName: string, imageName: string, otherAudio: string, otherImage: string)
    requires '&' !in audioName && '&' !in imageName && '&' !in otherAudio && '&' !in otherImage
    requires RawQuery(audioName, imageName) == RawQuery(otherAudio, otherImage)
    ensures audioName == otherAudio && imageName == otherImage
  {
    RawQueryFields(audioName, imageName);
    RawQueryFields(otherAudio, otherImage);
    var a, b := AudioNameKey + "=" + audioName, AudioNameKey + "=" + otherAudio;
    assert a == b;
    assert audioName == a[|AudioNameKey| + 1..] == b[|AudioNameKey| + 1..] == otherAudio;
    var c, d := ImageNameKey + "=" + imageName, ImageNameKey + "=" + otherImage;
    assert c == d;
    assert imageName == c[|ImageNameKey| + 1..] == d[|ImageNameKey| + 1..] == otherImage;
  }

  /** Without encoding, two different pairs of names can send the same request: a `&` inside a
      name is read by the server as a field separator. */
  lemma RawQueryAmbiguous()
    ensures RawQuery("a&image_name=b", "c") == RawQuery("a", "b&image_name=c")
    ensures "a&image_name=b" != "a"
  {
  }

  class CallGradioApi {
    var loading: bool
    var message: string

    constructor()
      ensures !loading && message == ""
    {
      loading, message := false, "";
    }

    /** The synchronous part of a click. With either name empty only the message is set; otherwise
        the button is locked, the message says the call is under way, and the request with the
        raw query is sent (`query`). */
    method HandleCallApi(audioName: string, imageName: string) returns (query: Option<string>)
      modifies this
      ensures audioName == "" || imageName == "" ==>
        query.None? && message == MissingNames && loading == old(loading)
      ensures audioName != "" && imageName != "" ==>
        query == Some(RawQuery(audioName, imageName)) && loading && message == Calling
    {
      if audioName == "" || imageName == "" {
        message := MissingNames;
        query := None;
      } else {
        loading := true;
        message := Calling;
        query := Some(RawQuery(audioName, imageName));
      }
    }

    /** The call settles. Only the body's `success` is read (the HTTP status is not): on success
        the parent is told once (`videoStarted`) and `loading` is left as it was, so the button
        stays locked; a failure or an error sets its message and unlocks the button. */
    method OnCallSettled(reply: Reply) returns (videoStarted: bool)
      modifies this
      ensures videoStarted <==> ReportsSuccess(reply)
      ensures videoStarted ==> message == Accepted && loading == old(loading)
      ensures !videoStarted ==> !loading
      ensures reply.Responded? && reply.body.Parsed? && !reply.body.success ==>
        message == FailedPrefix + reply.body.error
      ensures JsonFailure(reply).Some? ==> message == ErrorPrefix + JsonFailure(reply).value
    {
      match JsonFailure(reply)
      case Some(m) =>
        message := ErrorPrefix + m;
        loading := false;
        videoStarted := false;
      case None =>
        if reply.body.success {
          message := Accepted;
          videoStarted := true;
        } else {
          message := FailedPrefix + reply.body.error;
          loading := false;
          videoStarted := false;
        }
    }
  }
}
