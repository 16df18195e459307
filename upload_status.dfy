/** The status line the two audio uploaders show once an upload settles. Both use the same three
    texts; they differ in whether an HTTP error status is looked at. */
module UploadStatus {
  import opened Http

  const Uploading := "上传中..."
  const NoAudioFile := "没有选择音频文件！"
  const Succeeded := "文件上传成功!"
  const FailedPrefix := "文件上传失败: "
  const ErrorPrefix := "上传音频时出错: "
  /** The message of the error thrown for a response that is not OK. */
  const NotOkPrefix := "上传失败: "

  predicate StartsWith(s: string, prefix: string) {
    |prefix| <= |s| && s[..|prefix|] == prefix
  }

  /** `文件上传失败: <error>`: never the success text, never an error text. */
  function FailureText(error: string): (status: string)
    ensures status != Succeeded && !StartsWith(status, ErrorPrefix)
    ensures StartsWith(status, FailedPrefix)
  {
    var status := FailedPrefix + error;
    assert status[0] != ErrorPrefix[0] && status[4] != Succeeded[4];
    assert status[..|FailedPrefix|] == FailedPrefix;
    status
  }

  /** The settled status of the recorder-and-uploader: a response that is not OK is thrown as
      `上传失败: <statusText>`, so it lands in the error text like a failed fetch or a body that
      is not JSON; otherwise `success` picks the success or the failure text. */
  function CheckedStatus(reply: Reply): (status: string)
    ensures status == Succeeded <==> ReportsSuccess(reply) && reply.ok
    ensures StartsWith(status, ErrorPrefix) <==> reply.Threw? || !reply.ok || reply.body.Unparseable?
    ensures reply.Responded? && !reply.ok ==> status == ErrorPrefix + NotOkPrefix + reply.statusText
    ensures reply.Responded? && reply.ok && reply.body.Parsed? && !reply.body.success ==>
      status == FailedPrefix + reply.body.error
    ensures (reply.Threw? || reply.ok) && JsonFailure(reply).Some? ==>
      status == ErrorPrefix + JsonFailure(reply).value
  {
    match reply
    case Threw(m) => ErrorPrefix + m
    case Responded(ok, statusText, body) =>
      if !ok then ErrorPrefix + (NotOkPrefix + statusText)
      else match body
        case Unparseable(m) => ErrorPrefix + m
        case Parsed(success, error, _) => if success then Succeeded else FailureText(error)
  }

  /** The settled status of the stand-alone uploader, which never looks at `ok`: any response
      whose body parses is judged by `success` alone. */
  function UncheckedStatus(reply: Reply): (status: string)
    ensures status == Succeeded <==> ReportsSuccess(reply)
    ensures StartsWith(status, ErrorPrefix) <==> reply.Threw? || reply.body.Unparseable?
    ensures reply.Responded? && reply.body.Parsed? && !reply.body.success ==>
      status == FailedPrefix + reply.body.error
    ensures JsonFailure(reply).Some? ==> status == ErrorPrefix + JsonFailure(reply).value
  {
    match reply
    case Threw(m) => ErrorPrefix + m
    case Responded(_, _, Unparseable(m)) => ErrorPrefix + m
    case Responded(_, _, Parsed(success, error, _)) => if success then Succeeded else FailureText(error)
  }

  /** The stand-alone uploader's status is the same whatever the HTTP status of the response. */
  lemma UncheckedIgnoresOk(reply: Reply, ok: bool)
    requires reply.Responded?
    ensures UncheckedStatus(reply.(ok := ok)) == UncheckedStatus(reply)
  {
  }

  /** The two uploaders agree on every OK response and on every failed fetch. */
  lemma StatusesAgreeWhenOk(reply: Reply)
    requires reply.Threw? || reply.ok
    ensures CheckedStatus(reply) == UncheckedStatus(reply)
  {
  }
}
