/** Speech synthesis: the text (or the placeholder) is sent, and the generated file's URL and name
    are derived on the client from the clock. */
module Speech {
  import opened Http
  import opened FileNames

  /** The placeholder of the text area, used when nothing was typed. */
  const Placeholder := "祝各位领导，新年快乐，万事大吉！"
  const EmptyPrompt := "请输入文本或设置占位文本"
  const GeneratedMessage := "音频生成成功！"
  /** Shown when the request fails, claiming success anyway. */
  const ServerSideMessage := "生成成功，请在服务器中查看结果"

  class TextToSpeech {
    var text: string
    var loading: bool
    var audioUrl: string
    var statusMessage: string

    constructor()
      ensures text == "" && !loading && audioUrl == "" && statusMessage == ""
    {
      text, loading, audioUrl, statusMessage := "", false, "", "";
    }

    method HandleTextChange(value: string)
      modifies this`text
      ensures text == value
    {
      text := value;
    }

    /** The synchronous part of a submission, given the text area's current `placeholder`. The
        text sent is the typed text, or the placeholder when nothing was typed; when both are
        empty only the prompt is shown. Otherwise `loading` is raised, the status cleared and the
        text sent (`ttsText`). */
    method HandleSubmit(placeholder: string) returns (ttsText: Option<string>)
      modifies this`loading, this`statusMessage
      ensures ttsText.None? <==> text == "" && placeholder == ""
      ensures ttsText.None? ==> statusMessage == EmptyPrompt && loading == old(loading)
      ensures ttsText.Some? ==>
        && ttsText.value == (if text != "" then text else placeholder)
        && loading && statusMessage == ""
      ensures placeholder == Placeholder ==> ttsText.Some?
    {
      var chosen := if text != "" then text else placeholder;
      if chosen == "" {
        statusMessage := EmptyPrompt;
        ttsText := None;
      } else {
        loading := true;
        statusMessage := "";
        ttsText := Some(chosen);
      }
    }

    /** The synthesis request settles, with the clock read as `now` and again as `epochMillis`.
        When both the fetch and the body's parse succeed (the body is never inspected), the URL is
        built from the stamp of `now`, the status reports success and the parent receives the URL
        and the file name (`generated`). Otherwise the status still claims success on the server
        and nothing else happens. `loading` is lowered in every case. */
    method OnGenerateSettled(reply: Reply, now: Clock, epochMillis: int)
      returns (generated: Option<(string, string)>)
      modifies this`loading, this`statusMessage, this`audioUrl
      ensures !loading
      ensures generated.Some? <==> JsonFailure(reply).None?
      ensures generated.Some? ==>
        && audioUrl == SpeechAudioUrl(SpeechStamp(now), epochMillis)
        && statusMessage == GeneratedMessage
        && generated.value == (audioUrl, SpeechFileName(SpeechStamp(now)))
      ensures generated.None? ==> audioUrl == old(audioUrl) && statusMessage == ServerSideMessage
    {
      if JsonFailure(reply).None? {
        var stamp := SpeechStamp(now);
        audioUrl := SpeechAudioUrl(stamp, epochMillis);
        statusMessage := GeneratedMessage;
        generated := Some((audioUrl, SpeechFileName(stamp)));
      } else {
        statusMessage := ServerSideMessage;
        generated := None;
      }
      loading := false;
    }
  }
}
