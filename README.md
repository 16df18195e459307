# Digitman front end — a Dafny model

Digitman is a browser front end for a "digital human" generator. The user does three things:

- records a voice sample, or has text synthesized into speech;
- photographs themselves, or picks a picture;
- asks the server to animate the picture with the audio.

The GPU of the server is watched by two dashboards that poll its statistics.

This project models the state and the handlers of the front end's components. Each component
becomes a Dafny `class`:

- its `useState` fields become class fields;
- its refs become class fields too;
- each handler becomes a method that changes exactly the fields the handler sets.

An asynchronous handler is split in two. The synchronous part runs up to the first `await` and
returns the request it sends as a value. A second method takes the outcome of that request, the
`Reply`, and performs the settled part. The network, the microphone, the camera and the clock are
all outside the model and reach it as parameters.

What is proved:

- **Timestamped names** (`FileNames`): each file name the components build from the clock
  decodes back to the clock reading it came from. The two recorders keep everything but the
  milliseconds, the page's recorder keeps everything but the seconds, and the speech stamp keeps
  date, hour and minute.
- **Derived names** (`DerivedNames`):
  - The image name derived from an audio URL is `<base>.jpg`: no `/`, exactly one `.`, and
    idempotent.
  - The video URL the page builds is found by a leftmost match of `\d{8}_\d{4}`. It is proved to
    carry the stamp of every name the app itself produces.
- **Upload status** (`UploadStatus`): each settled upload maps to exactly one of the success text,
  the failure text or the error text, with the iff conditions for each. The two audio uploaders
  agree except on responses that are not OK, which only one of them checks.
- **Rolling windows** (`Telemetry`, `Chart`, `GpuDashboard`): after any run of polls, each window
  holds exactly the newest 10 (chart) or 30 (dashboard) samples, in arrival order. This is the
  invariant `Valid()` of both classes, and `FeedKeepsNewest` proves it for any sequence of pushes.
  The chart's three windows stay aligned.
- **Component state**: each handler's contract states the complete new state in every branch,
  including the error branches. Examples:
  - the stop handler builds the blob from the buffered chunks in order, under the name captured
    at start;
  - the stop buttons behave differently with no recorder held;
  - the image and upload handlers rename files;
  - the video status never returns to its initial text.

The model follows the code, also where the code departs from its own comments or from what the
interface suggests:

- The speech component calls its parent only when both the fetch and the JSON parse succeed. The
  failure branch still shows a success message.
- The older top-level `App` raises its `startChecking` flag only after an OK response whose body
  parses. The `VideoChecker` it renders is given that flag but reads only `videoUrl` and
  `isLoading`, so the flag drives nothing and `App` never checks for a video.
- `AudioRecorder.stopRecording` throws when no recorder was ever created (microphone refused), and
  its flag then stays raised. `AudioRecorderAndUploader` guards the same call.
- The dashboard keeps 30 entries although the comment beside the slice says 50.
- The page's recording name appends the unpadded milliseconds after the minutes and has no
  seconds.

## Model

| member | source | states |
|---|---|---|
| Text.NatToString | app/AudioRecorder.jsx:15-21 | `String(n)` is a non-empty run of decimal digits with no leading zero except for 0 |
| Text.IntToString | app/TextToSpeech.jsx:33-39 | `String(i)` and `toString()` of any integer: digits, with a leading `-` exactly for negatives |
| Text.ParseNatToString | app/AudioRecorder.jsx:15-21 | reading the printed digits of n gives n back (partner of `NatToString`) |
| Text.NatToStringParse | app/page.tsx:21 | the converse: digits with no leading zero (except `0` itself) are exactly the print of the value they read as |
| Text.NatToStringFourDigits | app/AudioRecorder.jsx:15 | a year from 1000 to 9999 prints as exactly four digits |
| Text.PadStart2 | app/AudioRecorder.jsx:16-20 | `padStart(2, '0')`: length max(2, \|s\|), ends with s, zeros in front |
| Text.Pad2 | app/AudioRecorder.jsx:16-20 | a padded field is all digits, and for values below 100 it is two digits that read back as the value |
| Text.Split | app/UploadAudioPictureFile.jsx:19-20 | JavaScript `split` on one character: at least one part, and no part holds the separator |
| Text.JoinSplit | app/UploadAudioPictureFile.jsx:19-20 | joining the parts of a split with the separator gives the string back |
| Text.SplitJoin | app/UploadAudioPictureFile.jsx:19-20 | splitting a join of separator-free parts gives the parts back |
| Text.SplitFirst | app/UploadAudioPictureFile.jsx:20 | `split(".")[0]` is the longest prefix without the separator |
| Text.SplitLast | app/UploadAudioPictureFile.jsx:19 | `split("/").pop()` is the longest suffix without the separator |
| Http.JsonFailure | app/AudioUploader.jsx:33-50 | an awaited fetch then `response.json()` reaches `catch` exactly when the fetch threw or the body is not JSON |
| Media.Renamed | app/UploadAudioPictureFile.jsx:77 | re-wrapping a file under a new name keeps its bytes and its type |
| FileNames.RecordedName | app/AudioRecorder.jsx:13-22 | the recorders' name starts `recorded_audio_` and ends `.wav` |
| FileNames.PageRecordedName | app/page.tsx:14-22 | the page's name starts `recorded_audio_` and ends `.wav`; `PageRecordedNameUnpadded` places the unpadded milliseconds just before `.wav` |
| FileNames.PageRecordedNameUnpadded | app/page.tsx:21 | the milliseconds sit right before `.wav` exactly as `String` prints them, with no padding |
| FileNames.SpeechFileName | app/TextToSpeech.jsx:46 | `generated_audio_<stamp>.wav`, with the stamp at a known position |
| FileNames.SpeechStamp | app/TextToSpeech.jsx:33-38 | the `YYYYMMDD_HHMM` stamp; its contract is carried by `SpeechStampRoundTrip`: for a valid reading with a four-digit year it is a `\d{8}_\d{4}` token that decodes back to the reading's date, hour and minute |
| FileNames.SpeechAudioUrl | app/TextToSpeech.jsx:39 | the audio URL is the media host, `/`, the file name, then the cache-busting query |
| FileNames.DecodeStamp | app/TextToSpeech.jsx:33-38 | a decoded stamp is a fixed-width token and a valid reading with zero seconds and milliseconds |
| FileNames.DecodeStampFields | app/TextToSpeech.jsx:33-38 | a token whose fields read as a valid date and time decodes to exactly that reading |
| FileNames.SpeechStampRoundTrip | app/TextToSpeech.jsx:33-38 | the speech stamp of a valid reading with a four-digit year is a `\d{8}_\d{4}` token that decodes back to its date, hour and minute |
| FileNames.DecodeRecordedName | app/AudioRecorder.jsx:13-22 | a decoded recorder name is a valid reading with zero milliseconds |
| FileNames.RecordedNameRoundTrip | app/AudioRecorder.jsx:13-22 | the recorder name decodes back to its clock reading, losing only the milliseconds |
| FileNames.DecodeRecordedLayout | app/AudioRecorderAndUploader.jsx:15-24 | a recorder name made of a decodable stamp and two digits of seconds decodes to that stamp with those seconds |
| FileNames.DecodePageRecordedName | app/page.tsx:14-22 | a decoded page name is a valid reading with zero seconds, and its millisecond digits are exactly the unpadded print of the decoded milliseconds (a padded `005` is refused) |
| FileNames.PageRecordedNameRoundTrip | app/page.tsx:14-22 | the page's name decodes back to its clock reading, losing only the seconds; the milliseconds are recovered from the last one to three digits, which the decoder accepts only unpadded, so a name that padded them would not round-trip |
| FileNames.PageRecordedNameIgnoresSeconds | app/page.tsx:21 | the page's name does not change with the seconds |
| DerivedNames.ImageName | app/UploadAudioPictureFile.jsx:19-21 | the image name has no `/`, exactly one `.`, and ends with `.jpg` |
| DerivedNames.LastSegmentIsFinalPart | app/UploadAudioPictureFile.jsx:19 | the last segment is a suffix of the URL with no `/`, preceded by a `/` when it is not the whole URL |
| DerivedNames.BaseNameIsFirstPart | app/UploadAudioPictureFile.jsx:20 | the base name is a prefix without `.`, followed by a `.` when it is not the whole name |
| DerivedNames.LastSegment | app/UploadAudioPictureFile.jsx:19 | `split("/").pop()`; its contract is carried by `LastSegmentIsFinalPart`: a suffix of the URL with no `/`, preceded by a `/` unless it is the whole URL |
| DerivedNames.BaseName | app/UploadAudioPictureFile.jsx:20 | `split(".")[0]`; its contract is carried by `BaseNameIsFirstPart`: a prefix of the name with no `.`, followed by a `.` unless it is the whole name |
| DerivedNames.BaseNamePlain | app/UploadAudioPictureFile.jsx:19-20 | the base name of the last segment holds neither `/` nor `.` |
| DerivedNames.PhotoNameShape | app/UploadAudioPictureFile.jsx:21 | `base.jpg` for a plain base has no `/`, one `.`, and ends with `.jpg` |
| DerivedNames.ImageNameOfFileName | app/UploadAudioPictureFile.jsx:19-21 | the image name of `base.ext` is `base.jpg` |
| DerivedNames.ImageNameOfPhotoName | app/UploadAudioPictureFile.jsx:19-21 | `base.jpg` is its own image name |
| DerivedNames.ImageNameIdempotent | app/UploadAudioPictureFile.jsx:19-21 | deriving the image name twice gives the same name as once |
| DerivedNames.LastSegmentAfterSlash | app/UploadAudioPictureFile.jsx:19 | the last segment of `host/segment` is the segment when it has no `/` |
| DerivedNames.ImageNameOfUrl | app/UploadAudioPictureFile.jsx:19-21 | the image name of `host/base.ext` is `base.jpg`, whatever the host |
| DerivedNames.SpeechUrlLayout | app/TextToSpeech.jsx:39 | the synthesized URL is host, `/`, and a final segment `generated_audio_<stamp>.<rest>` |
| DerivedNames.IntToStringPlain | app/TextToSpeech.jsx:39 | the printed epoch time holds neither `/` nor `.` |
| DerivedNames.GeneratedStampPlain | app/TextToSpeech.jsx:39 | `generated_audio_<stamp>` holds neither `/` nor `.` |
| DerivedNames.SpeechUrlGivesImageName | app/UploadAudioPictureFile.jsx:19-21 | the image named after a synthesized audio URL is `generated_audio_<stamp>.jpg`; host and query drop out |
| DerivedNames.FindToken | app/page.tsx:68 | the regular expression's match is the leftmost position at or after the start where `\d{8}_\d{4}` occurs, or none when there is none |
| DerivedNames.VideoUrlFor | app/page.tsx:68 | the video URL exists exactly when the name holds a token, and is then built from the leftmost token of the name |
| DerivedNames.VideoUrl | app/page.tsx:68 | the video URL is the media prefix, the token, then `_sig.mp4`, each at its position |
| DerivedNames.FirstTokenAfterPrefix | app/page.tsx:68 | after a digit-free prefix, the first token found is the stamp that follows it |
| DerivedNames.RecordedPrefixHasNoDigit | app/AudioRecorder.jsx:21 | `recorded_audio_` holds no digit |
| DerivedNames.GeneratedPrefixHasNoDigit | app/TextToSpeech.jsx:46 | `generated_audio_` holds no digit |
| DerivedNames.SpeechNameGivesVideo | app/page.tsx:68 | the synthesized file name yields the video URL of its own stamp |
| DerivedNames.RecordedNameGivesVideo | app/page.tsx:68 | a recorder name yields the video URL of its date, hour and minute; the seconds are not part of the token |
| DerivedNames.PageRecordedNameGivesVideo | app/page.tsx:68 | the page's own recording name yields the video URL of its date, hour and minute |
| UploadStatus.FailureText | app/AudioRecorderAndUploader.jsx:96-101 | the failure text is never the success text and never an error text |
| UploadStatus.CheckedStatus | app/AudioRecorderAndUploader.jsx:74-107 | success text iff an OK response whose body reports success; error text iff the fetch threw, the status is not OK or the body is not JSON; not OK gives `上传失败: <statusText>` inside the error text; an OK body reporting failure gives `文件上传失败: <error>`; a thrown fetch or unparseable OK body gives `上传音频时出错: <message>` |
| UploadStatus.UncheckedStatus | app/AudioUploader.jsx:33-50 | success text iff the body reports success, whatever the HTTP status; error text iff the fetch threw or the body is not JSON; a body reporting failure gives `文件上传失败: <error>`; a thrown fetch or unparseable body gives `上传音频时出错: <message>` |
| UploadStatus.UncheckedIgnoresOk | app/AudioUploader.jsx:33-50 | the stand-alone uploader's status does not depend on `ok` |
| UploadStatus.StatusesAgreeWhenOk | app/AudioRecorderAndUploader.jsx:91-93 | the two uploaders show the same status for every OK response and every failed fetch |
| Telemetry.Newest | app/Dashboard.jsx:73 | the window keeps min(\|s\|, k) elements |
| Telemetry.NewestIsSuffix | app/DynamicChart.jsx:119-134 | the window is a contiguous suffix of the history |
| Telemetry.SliceLast | app/DynamicChart.jsx:121 | `slice(-n)` keeps the newest n for n > 0 and everything for n = 0 |
| Telemetry.PushShape | app/DynamicChart.jsx:119-134 | a push keeps at most cap values: the newest cap - 1 old ones, then the new one |
| Telemetry.FeedKeepsNewest | app/DynamicChart.jsx:119-134 | after any run of pushes, a window that starts within its cap is the newest cap values of everything seen, in order |
| Telemetry.Push | app/DynamicChart.jsx:119-134 | append one sample and keep the last cap, as the chart windows do here and the dashboard history does with cap 30 at Dashboard.jsx:71-74; its contract is carried by `PushShape` (at most cap values, the newest cap - 1 old ones then the new one) and `PushKeepsNewest` (it keeps the newest cap of everything seen) |
| Telemetry.Feed | app/DynamicChart.jsx:142 | the window after the run of polls the interval makes; its contract is carried by `FeedKeepsNewest`: a window that starts within its cap ends as the newest cap values of everything seen, in order |
| Telemetry.FeedNewestSuffix | app/Dashboard.jsx:71-74 | trimming a history to its newest cap before appending does not change the newest cap afterwards |
| Telemetry.PushKeepsNewest | app/Dashboard.jsx:71-74 | pushing onto the newest cap of a history gives the newest cap of the extended history |
| Telemetry.StripLeadingNonDigits | app/DynamicChart.jsx:118 | removing `^\D*` leaves a suffix that is empty or starts with a digit, and everything removed is a non-digit |
| Telemetry.StripIdempotent | app/DynamicChart.jsx:118 | stripping a stripped label changes nothing |
| Chart.DynamicChart.constructor | app/DynamicChart.jsx:5-9 | empty windows, visible, not minimized, invariant established |
| Chart.DynamicChart.WindowsAligned | app/DynamicChart.jsx:119-134 | the three windows always have equal length, at most ten |
| Chart.DynamicChart.ToggleVisibility | app/DynamicChart.jsx:15 | visibility flips |
| Chart.DynamicChart.ToggleMinimize | app/DynamicChart.jsx:16 | minimization flips |
| Chart.DynamicChart.OnPoll | app/DynamicChart.jsx:107-139 | a good sample pushes temperature, utilization and the stripped time label into their windows, keeping each the newest ten of its history; an `error` payload or a throw changes nothing |
| GpuDashboard.LatestSample | app/Dashboard.jsx:68 | there is a current sample exactly when something was received |
| GpuDashboard.LatestOfAppended | app/Dashboard.jsx:68 | after a sample arrives, it is the current one |
| GpuDashboard.Dashboard.constructor | app/Dashboard.jsx:54-55 | no sample and an empty history |
| GpuDashboard.Dashboard.ShowsLoading | app/Dashboard.jsx:89 | the loading view shows exactly while nothing was received, that is while the history is empty |
| GpuDashboard.Dashboard.OnPoll | app/Dashboard.jsx:59-79 | a good sample becomes the current one and, stamped with the time, the newest history entry, with the history kept at the newest thirty; an `error` payload or a throw changes nothing |
| GpuDashboard.Dashboard.HistoryShape | app/Dashboard.jsx:68-74 | the history holds at most thirty entries and, when non-empty, ends with the current sample |
| Recording.AudioRecorder.constructor | app/AudioRecorder.jsx:7-10 | not recording, nothing buffered, no recorder; start enabled, stop disabled |
| Recording.AudioRecorder.StartRecording | app/AudioRecorder.jsx:25-31 | the buffer is emptied, the flag raised, and the name from the clock handed to the parent |
| Recording.AudioRecorder.OnMicrophoneAccess | app/AudioRecorder.jsx:33-63 | granted access holds a recorder bound to the start's name; a refusal changes nothing |
| Recording.AudioRecorder.OnDataAvailable | app/AudioRecorder.jsx:39-41 | each chunk is appended at the end of the buffer |
| Recording.AudioRecorder.OnStop | app/AudioRecorder.jsx:44-57 | the blob is the buffered chunks in order, playable at the new URL, handed on under the name captured at start |
| Recording.AudioRecorder.StopRecording | app/AudioRecorder.jsx:66-70 | with a recorder held the flag is lowered; with none the call throws and the flag stays |
| Recording.AudioRecorder.StartDisabled | app/AudioRecorder.jsx:75 | the start button is disabled exactly while recording; the constructor, `StartRecording` and `StopRecording` ensure it is enabled, disabled and enabled again |
| Recording.AudioRecorder.StopDisabled | app/AudioRecorder.jsx:78 | the stop button is disabled exactly while not recording, so it is always the opposite of the start button in the states those three members ensure |
| RecordingUpload.AudioRecorderAndUploader.constructor | app/AudioRecorderAndUploader.jsx:6-12 | everything empty and not recording |
| RecordingUpload.AudioRecorderAndUploader.StartRecording | app/AudioRecorderAndUploader.jsx:27-33 | empty buffer, raised flag, and the new name from the clock stored |
| RecordingUpload.AudioRecorderAndUploader.OnMicrophoneAccess | app/AudioRecorderAndUploader.jsx:35-62 | granted access holds a recorder bound to the start's name; a refusal changes nothing |
| RecordingUpload.AudioRecorderAndUploader.OnDataAvailable | app/AudioRecorderAndUploader.jsx:40-42 | each chunk is appended at the end of the buffer |
| RecordingUpload.AudioRecorderAndUploader.OnStop | app/AudioRecorderAndUploader.jsx:44-56 | the buffered chunks become an `audio/wav` file under the start's name; it is stored and its upload starts at once |
| RecordingUpload.AudioRecorderAndUploader.StopRecording | app/AudioRecorderAndUploader.jsx:66-71 | the recorder is stopped only if one is held; the flag is lowered in every case |
| RecordingUpload.AudioRecorderAndUploader.UploadAudio | app/AudioRecorderAndUploader.jsx:74-81 | without a file the status says so and nothing is sent; with one the status says "uploading" and the file is sent |
| RecordingUpload.AudioRecorderAndUploader.OnUploadSettled | app/AudioRecorderAndUploader.jsx:85-106 | the status becomes the checked status of the reply |
| Uploader.AudioUploader.constructor | app/AudioUploader.jsx:6-8 | no file, no URL, no status |
| Uploader.AudioUploader.UploadDisabled | app/AudioUploader.jsx:68 | the upload button is disabled iff no file is held; `UploadAudio` ensures a request is sent exactly when it is enabled, and the status is untouched otherwise |
| Uploader.AudioUploader.OnBlobOrNameChanged | app/AudioUploader.jsx:11-18 | a present blob becomes an `audio/wav` file named exactly `recordWavName`, enabling upload; no blob changes nothing |
| Uploader.AudioUploader.UploadAudio | app/AudioUploader.jsx:21-31 | a request goes out iff the button is enabled; without a file the status stays, otherwise it is cleared |
| Uploader.AudioUploader.OnUploadSettled | app/AudioUploader.jsx:33-50 | the status becomes the unchecked status of the reply |
| GradioCall.RawQueryFields | app/CallGradioAPI.jsx:20 | for names without `&` the query splits into exactly the two fields, in order |
| GradioCall.RawQuery | app/CallGradioAPI.jsx:20 | the hand-built `audio_name=…&image_name=…` query; its contract is carried by `RawQueryFields` (names without `&` come back as exactly the two fields) and `RawQueryAmbiguous` (an `&` in a name lets two different pairs give the same query) |
| GradioCall.RawQueryInjective | app/CallGradioAPI.jsx:20 | for names without `&` the query determines both names |
| GradioCall.RawQueryAmbiguous | app/CallGradioAPI.jsx:20 | without encoding, two different pairs of names give the same query |
| GradioCall.CallGradioApi.constructor | app/CallGradioAPI.jsx:6-7 | not loading, no message |
| GradioCall.CallGradioApi.HandleCallApi | app/CallGradioAPI.jsx:9-29 | a missing name only sets its message; otherwise loading, the calling message and the raw query |
| GradioCall.CallGradioApi.OnCallSettled | app/CallGradioAPI.jsx:29-40 | the parent is told iff the body reports success, and the button stays locked then; failure and error set their messages and unlock |
| Application.App.constructor | app/App.jsx:10-13 | empty names and URL, the `startChecking` flag down |
| Application.App.HandleAudioGenerated | app/App.jsx:16-19 | URL and name set together |
| Application.App.HandleImageNameGenerated | app/App.jsx:22-25 | only the image name changes |
| Application.App.HandleCallGradioApi | app/App.jsx:28-41 | parameters audio name then image name are sent iff both are present; no state changes |
| Application.App.OnCallSettled | app/App.jsx:35-54 | the `startChecking` flag rises iff the response is OK and its body parses; it is never lowered |
| VideoStatus.VideoChecker.constructor | app/VideoChecker.jsx:5 | the message starts as "not generated" |
| VideoStatus.VideoChecker.OnPropsChanged | app/VideoChecker.jsx:7-13 | loading wins; otherwise a URL means success; otherwise the message stays; it never returns to "not generated", and whenever the video shows the message is the success text |
| VideoStatus.ShowsVideo | app/VideoChecker.jsx:21 | the video is shown iff a URL is set and nothing is loading; `VideoChecker.OnPropsChanged` ensures the message is the success text whenever it holds |
| Page.Home.constructor | app/page.tsx:24-30 | everything empty, and the recording name built from the clock |
| Page.Home.HandleAudioGenerated | app/page.tsx:32-35 | URL and name set together |
| Page.Home.HandleImageNameGenerated | app/page.tsx:37-39 | only the image name changes |
| Page.Home.HandleRecordingComplete | app/page.tsx:41-44 | blob and name set together |
| Page.Home.SetRecordWavName | app/page.tsx:30 | the recording name is replaced |
| Page.Home.HandleCallGradioApi | app/page.tsx:46-56 | with a name missing nothing changes and nothing is sent; otherwise loading and the two parameters in order |
| Page.Home.OnCallSettled | app/page.tsx:58-78 | an OK response sets the video URL from the first stamp token of the requested name, and a name without a token leaves it; loading is lowered in every case |
| Speech.TextToSpeech.constructor | app/TextToSpeech.jsx:6-9 | empty text, URL and status, not loading |
| Speech.TextToSpeech.HandleTextChange | app/TextToSpeech.jsx:12-14 | the text is replaced |
| Speech.TextToSpeech.HandleSubmit | app/TextToSpeech.jsx:16-26 | the typed text, or the placeholder when nothing was typed, is sent; only when both are empty the prompt shows and nothing is sent |
| Speech.TextToSpeech.OnGenerateSettled | app/TextToSpeech.jsx:28-54 | the parent receives URL and name exactly when fetch and parse succeed; the failure branch still claims success; loading is lowered in every case |
| PictureUpload.Track.constructor | app/UploadAudioPictureFile.jsx:33 | a new track is live |
| PictureUpload.Track.Stop | app/UploadAudioPictureFile.jsx:50 | a stopped track is not live |
| PictureUpload.UploadAudioPictureFile.constructor | app/UploadAudioPictureFile.jsx:8-15 | no image, no name, no stream, not loading |
| PictureUpload.UploadAudioPictureFile.OnAudioUrlChanged | app/UploadAudioPictureFile.jsx:17-28 | a non-empty URL sets the image name derived from it and passes that name to the parent when a callback exists; an empty URL changes nothing |
| PictureUpload.UploadAudioPictureFile.StartCamera | app/UploadAudioPictureFile.jsx:30-32 | the current image is dropped |
| PictureUpload.UploadAudioPictureFile.OnCameraAccess | app/UploadAudioPictureFile.jsx:33-44 | a granted stream is held and the camera marked active; a refusal only sets its message |
| PictureUpload.UploadAudioPictureFile.StopCamera | app/UploadAudioPictureFile.jsx:47-53 | every track of the held stream ends and the camera is inactive, also with no stream |
| PictureUpload.UploadAudioPictureFile.OnPhotoBlob | app/UploadAudioPictureFile.jsx:64-69 | the frame becomes a JPEG under the image name, the camera stops, and the upload starts |
| PictureUpload.UploadAudioPictureFile.HandleImageChange | app/UploadAudioPictureFile.jsx:74-81 | a picked file is renamed to the image name with its type kept, and uploaded; no file changes nothing |
| PictureUpload.UploadAudioPictureFile.HandleUpload | app/UploadAudioPictureFile.jsx:83-99 | without a file only the prompt is set; otherwise loading, the uploading message and the file is sent |
| PictureUpload.UploadAudioPictureFile.OnUploadSettled | app/UploadAudioPictureFile.jsx:101-111 | OK gives success, not OK failure, a throw the error text; the body is never read; loading is lowered in every case |

## Left out

- Network I/O: every `fetch` is replaced by the request it would send and the `Reply` it
  receives. Endpoints, form data and headers are not modelled.
- Media and browser APIs are not modelled: `getUserMedia`, `MediaRecorder`, `URL.createObjectURL`,
  `saveAs`, the canvas drawing and `document.querySelector`. Object URLs, placeholders and streams
  arrive as parameters.
- `toBlob` handing over `null` is not modelled: the captured frame is always a blob.
- Rendering is not modelled: echarts options, the gauge charts, the layout and Tailwind classes.
  Only the state that decides what is shown is kept (button disabling, the loading view, the
  video condition).
- The dashboards' floating-point values are opaque `real`s. No arithmetic on them is modelled.
- `toLocaleTimeString` depends on the locale, so the local time text is a parameter.
- The clock is a parameter (`Clock`, epoch milliseconds).
- React's scheduling is not modelled: effect timing, interval creation and cleanup, re-entrant
  clicks and stale closures. Each settled handler is given the state at the time it runs, and the
  names captured at request time are passed explicitly.
- `RecordedNameRoundTrip`, `SpeechStampRoundTrip` and the other round trips hold only for years
  from 1000 to 9999. Outside that range `String(year)` changes width and the names are not
  fixed-width.
- `Http.Json`: a missing `error` field prints as `undefined` in the source; the model treats it
  as the text carried in the `error` field.
- `encodeURIComponent` of the speech text and the `URLSearchParams` encoding of the page are not
  modelled. The parameters are kept as the ordered list of key/value pairs.
- Logging through `console.log` and `console.error` is left out.
- Stopping an inactive `MediaRecorder` (a second stop) is not modelled: depending on the browser,
  `stop` on an inactive recorder may throw or do nothing, and the model treats every stop of a held
  recorder alike. The stop button is disabled while not recording, which rules out the usual way
  to reach it.
- `Media.Blob` carries no MIME type, so the `audio/wav` type the recorders give their blob is not
  modelled. Every consumer wraps the blob in a `NamedFile` that states its type itself.
- `App` renders the recorder and the uploader without props, so `setRecordWavName` is undefined
  there. Reading the code, starting a recording in that composition would request the flag and
  then throw at the name update. `Recording.AudioRecorder.StartRecording` models the page's
  composition, where the parent passes that callback.
- `App` hands `startChecking` and `audioName` to `VideoChecker`, which ignores both. The model keeps
  the flag as `App` state, and `VideoStatus.VideoChecker` models only the props it reads.
