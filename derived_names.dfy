/** Names derived from other names: the photo named after the audio URL, and the video URL built
    from the timestamp token of the audio name. Both are computed on the client; neither asks the
    server. */
module DerivedNames {
  import opened Text
  import opened Http
  import opened FileNames

  /** `url.split("/").pop()`. */
  function LastSegment(url: string): string {
    var parts := Split(url, '/');
    parts[|parts| - 1]
  }

  /** `name.split(".")[0]`. */
  function BaseName(name: string): string {
    Split(name, '.')[0]
  }

  const ImageSuffix := ".jpg"

  /** The photo's name: the audio file's base name with `.jpg`. */
  function ImageName(audioUrl: string): (name: string)
    ensures '/' !in name
    ensures multiset(name)['.'] == 1
    ensures |name| >= |ImageSuffix| && name[|name| - |ImageSuffix|..] == ImageSuffix
  {
    var base := BaseName(LastSegment(audioUrl));
    BaseNamePlain(audioUrl);
    PhotoNameShape(base);
    base + ImageSuffix
  }

  /** `base.jpg`, for a base without `/` or `.`, has one dot and ends with `.jpg`. */
  lemma PhotoNameShape(base: string)
    requires '/' !in base && '.' !in base
    ensures var name := base + ImageSuffix;
      && '/' !in name && multiset(name)['.'] == 1
      && |name| >= |ImageSuffix| && name[|name| - |ImageSuffix|..] == ImageSuffix
  {
    var name := base + ImageSuffix;
    assert multiset(name) == multiset(base) + multiset(ImageSuffix);
    assert multiset(base)['.'] == 0;
    assert multiset(ImageSuffix)['.'] == 1 by {
      assert ImageSuffix == ['.'] + "jpg";
    }
    assert name[|name| - |ImageSuffix|..] == ImageSuffix;
  }

  /** The segment is the longest suffix of the URL without `/`: it holds no `/`, and the
      character just before it, if any, is `/`. */
  lemma LastSegmentIsFinalPart(url: string)
    ensures var seg := LastSegment(url);
      && '/' !in seg
      && |seg| <= |url| && url[|url| - |seg|..] == seg
      && (|seg| < |url| ==> url[|url| - |seg| - 1] == '/')
  {
    SplitLast(url, '/');
  }

  /** The base name is the longest prefix without `.`: the extension and anything after the
      first dot (a query string, say) are dropped. */
  lemma BaseNameIsFirstPart(name: string)
    ensures var base := BaseName(name);
      && '.' !in base
      && base <= name
      && (|base| < |name| ==> name[|base|] == '.')
  {
    SplitFirst(name, '.');
  }

  /** The photo name of `base.ext`, for a base without `/` or `.`, is `base.jpg`. */
  lemma ImageNameOfFileName(base: string, ext: string)
    requires '/' !in base && '.' !in base && '/' !in ext
    ensures ImageName(base + "." + ext) == base + ImageSuffix
  {
    var file := base + "." + ext;
    assert '/' !in file;
    SplitNoSeparator(file, '/');
    assert LastSegment(file) == file;
    assert file == base + ['.'] + ext;
    SplitAround(base, '.', ext);
    SplitNoSeparator(base, '.');
    assert BaseName(file) == base;
  }

  /** The base name of the last segment holds neither `/` nor `.`. */
  lemma BaseNamePlain(audioUrl: string)
    ensures var base := BaseName(LastSegment(audioUrl));
      '/' !in base && '.' !in base
  {
    var segment := LastSegment(audioUrl);
    var base := BaseName(segment);
    BaseNameIsFirstPart(segment);
    LastSegmentIsFinalPart(audioUrl);
    assert forall k :: 0 <= k < |base| ==> base[k] == segment[k];
  }

  /** Deriving the photo name from a photo name gives it back. */
  lemma ImageNameIdempotent(audioUrl: string)
    ensures ImageName(ImageName(audioUrl)) == ImageName(audioUrl)
  {
    var base := BaseName(LastSegment(audioUrl));
    BaseNamePlain(audioUrl);
    assert ImageName(audioUrl) == base + ImageSuffix;
    ImageNameOfPhotoName(base);
  }

  /** A photo name `base.jpg` is its own photo name. */
  lemma ImageNameOfPhotoName(base: string)
    requires '/' !in base && '.' !in base
    ensures ImageName(base + ImageSuffix) == base + ImageSuffix
  {
    assert base + ImageSuffix == base + "." + "jpg";
    ImageNameOfFileName(base, "jpg");
  }

  /** The regular expression `/(\d{8}_\d{4})/` matches at position `i`. */
  predicate TokenAt(s: string, i: nat) {
    i + 13 <= |s| && IsStampToken(s[i..i + 13])
  }

  /** `s.match(/(\d{8}_\d{4})/)`, searching from `from`: the leftmost position where the pattern
      matches, or `None` (JavaScript's `null`). */
  function FindToken(s: string, from: nat): (r: Option<nat>)
    ensures r.Some? ==> from <= r.value && TokenAt(s, r.value)
    ensures forall j :: from <= j && (r.None? || j < r.value) ==> !TokenAt(s, j)
    decreases |s| - from
  {
    if from + 13 > |s| then None
    else if TokenAt(s, from) then Some(from)
    else FindToken(s, from + 1)
  }

  const VideoPrefix := MediaHost + "/" + GeneratedPrefix
  const VideoSuffix := "_sig.mp4"

  /** The video URL the page builds once the job is accepted: the first token of the audio name
      in a fixed template; `None` where the page's indexing of a `null` match throws. */
  function VideoUrlFor(audioName: string): (r: Option<string>)
    ensures r.None? <==> forall i :: !TokenAt(audioName, i)
    ensures r.Some? ==> exists i: nat ::
      && TokenAt(audioName, i)
      && (forall j: nat :: j < i ==> !TokenAt(audioName, j))
      && r.value == VideoUrl(audioName[i..i + 13])
  {
    match FindToken(audioName, 0)
    case None => None
    case Some(i) => Some(VideoUrl(audioName[i..i + 13]))
  }

  function VideoUrl(token: string): (url: string)
    ensures |url| == |VideoPrefix| + |token| + |VideoSuffix|
    ensures url[..|VideoPrefix|] == VideoPrefix
    ensures url[|VideoPrefix|..|VideoPrefix| + |token|] == token
    ensures url[|VideoPrefix| + |token|..] == VideoSuffix
  {
    var url := VideoPrefix + token + VideoSuffix;
    assert url == VideoPrefix + (token + VideoSuffix);
    url
  }

  /** A name that starts with a digit-free prefix followed by a stamp has that stamp as its first
      token, whatever follows. */
  lemma {:induction false} FirstTokenAfterPrefix(prefix: string, stamp: string, rest: string)
    requires forall k :: 0 <= k < |prefix| ==> !IsDigit(prefix[k])
    requires IsStampToken(stamp)
    ensures VideoUrlFor(prefix + stamp + rest) == Some(VideoUrl(stamp))
  {
    var s := prefix + stamp + rest;
    assert s[|prefix|..|prefix| + 13] == stamp;
    assert TokenAt(s, |prefix|);
    forall j | 0 <= j < |prefix| ensures !TokenAt(s, j) {
      assert s[j] == prefix[j];
      if j + 13 <= |s| { assert s[j..j + 13][0] == s[j]; }
    }
  }

  lemma RecordedPrefixHasNoDigit()
    ensures forall k :: 0 <= k < |RecordedPrefix| ==> !IsDigit(RecordedPrefix[k])
  {
  }

  lemma GeneratedPrefixHasNoDigit()
    ensures forall k :: 0 <= k < |GeneratedPrefix| ==> !IsDigit(GeneratedPrefix[k])
  {
  }

  /** The synthesized file name yields a video URL carrying exactly its stamp. */
  lemma SpeechNameGivesVideo(c: Clock)
    requires c.Valid() && c.FourDigitYear()
    ensures VideoUrlFor(SpeechFileName(SpeechStamp(c))) == Some(VideoUrl(SpeechStamp(c)))
  {
    SpeechStampRoundTrip(c);
    GeneratedPrefixHasNoDigit();
    FirstTokenAfterPrefix(GeneratedPrefix, SpeechStamp(c), WavSuffix);
  }

  /** A recorder name yields the video of the same date, hour and minute; the URL still says
      `generated_audio_` although the name says `recorded_audio_`. */
  lemma RecordedNameGivesVideo(c: Clock)
    requires c.Valid() && c.FourDigitYear()
    ensures VideoUrlFor(RecordedName(c)) == Some(VideoUrl(SpeechStamp(c)))
  {
    SpeechStampRoundTrip(c);
    RecordedPrefixHasNoDigit();
    assert RecordedName(c) == RecordedPrefix + (SpeechStamp(c) + Pad2(c.seconds)) + WavSuffix;
    MiddleSplit(RecordedPrefix, SpeechStamp(c), Pad2(c.seconds), WavSuffix);
    FirstTokenAfterPrefix(RecordedPrefix, SpeechStamp(c), Pad2(c.seconds) + WavSuffix);
  }

  /** Moving the boundary between the middle and the last part of a concatenation. */
  lemma MiddleSplit(p: string, t: string, x: string, w: string)
    ensures p + (t + x) + w == p + t + (x + w)
  {
    assert (t + x) + w == t + (x + w);
  }

  /**
   * The same holds for the page's own initial recording name. No path of the
   * program sends that name to the video request: the page hands it only to
   * the recorder and the uploader, the recorder replaces it when a recording
   * starts, and the video request receives the text-to-speech file name.
   * The lemma records what the pattern would extract if it were sent.
   */
  lemma PageRecordedNameGivesVideo(c: Clock)
    requires c.Valid() && c.FourDigitYear()
    ensures VideoUrlFor(PageRecordedName(c)) == Some(VideoUrl(SpeechStamp(c)))
  {
    SpeechStampRoundTrip(c);
    RecordedPrefixHasNoDigit();
    assert PageRecordedName(c) == RecordedPrefix + (SpeechStamp(c) + NatToString(c.millis)) + WavSuffix;
    MiddleSplit(RecordedPrefix, SpeechStamp(c), NatToString(c.millis), WavSuffix);
    FirstTokenAfterPrefix(RecordedPrefix, SpeechStamp(c), NatToString(c.millis) + WavSuffix);
  }

  /** The last segment of `host/segment` is the segment, when it has no `/`. */
  lemma LastSegmentAfterSlash(host: string, segment: string)
    requires '/' !in segment
    ensures LastSegment(host + "/" + segment) == segment
  {
    assert host + "/" + segment == host + ['/'] + segment;
    SplitAround(host, '/', segment);
    SplitNoSeparator(segment, '/');
  }

  /** The synthesized URL read as host, `/`, and a final segment `generated_audio_<stamp>.<rest>`. */
  lemma SpeechUrlLayout(stamp: string, epochMillis: int)
    ensures SpeechAudioUrl(stamp, epochMillis)
         == MediaHost + "/" + (GeneratedPrefix + stamp + "." + ("wav?" + IntToString(epochMillis)))
  {
    var query := IntToString(epochMillis);
    assert WavSuffix + ("?" + query) == "." + ("wav?" + query);
    Regroup(MediaHost + "/", GeneratedPrefix + stamp, WavSuffix, "?" + query, "." , "wav?" + query);
  }

  /** Moving the boundary between the last two parts of a concatenation. */
  lemma Regroup(a: string, b: string, x: string, y: string, dot: string, z: string)
    requires x + y == dot + z
    ensures a + (b + x) + y == a + (b + dot + z)
  {
    assert (b + x) + y == b + (x + y);
    assert b + dot + z == b + (dot + z);
  }

  /** Printed integers hold neither `/` nor `.`. */
  lemma IntToStringPlain(i: int)
    ensures '/' !in IntToString(i) && '.' !in IntToString(i)
  {
    var s := IntToString(i);
    if i < 0 {
      assert forall k :: 1 <= k < |s| ==> s[k] == s[1..][k - 1];
    }
  }

  /** `generated_audio_` followed by a stamp holds neither `/` nor `.`. */
  lemma GeneratedStampPlain(stamp: string)
    requires IsStampToken(stamp)
    ensures '/' !in GeneratedPrefix + stamp && '.' !in GeneratedPrefix + stamp
  {
    assert forall k :: 0 <= k < |stamp| ==> k == 8 || IsDigit(stamp[k]);
    assert '/' !in GeneratedPrefix && '.' !in GeneratedPrefix;
  }

  /** The photo name of `host/base.ext` is `base.jpg`, whatever the host. */
  lemma ImageNameOfUrl(host: string, base: string, ext: string)
    requires '/' !in base && '.' !in base && '/' !in ext
    ensures ImageName(host + "/" + (base + "." + ext)) == base + ImageSuffix
  {
    var segment := base + "." + ext;
    LastSegmentAfterSlash(host, segment);
    ImageNameOfFileName(base, ext);
    SplitNoSeparator(segment, '/');
    assert LastSegment(segment) == segment;
  }

  /** The photo named after a synthesized audio URL is `generated_audio_<stamp>.jpg`: the host,
      the `.wav` and the query are all dropped. */
  lemma SpeechUrlGivesImageName(c: Clock, epochMillis: int)
    requires c.Valid() && c.FourDigitYear()
    ensures ImageName(SpeechAudioUrl(SpeechStamp(c), epochMillis)) == GeneratedPrefix + SpeechStamp(c) + ImageSuffix
  {
    var stamp := SpeechStamp(c);
    SpeechStampRoundTrip(c);
    GeneratedStampPlain(stamp);
    IntToStringPlain(epochMillis);
    var ext := "wav?" + IntToString(epochMillis);
    assert '/' !in ext;
    SpeechUrlLayout(stamp, epochMillis);
    ImageNameOfUrl(MediaHost, GeneratedPrefix + stamp, ext);
  }
}
