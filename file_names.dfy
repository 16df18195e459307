/** Timestamped artifact names. Each component reads the clock itself; here the reading is a
    parameter, and each name is a pure function of it. */
module FileNames {
  import opened Text
  import opened Http

  /** A reading of `new Date()`, field by field as its getters return them: `getFullYear()`,
      the 0-based `getMonth()`, `getDate()`, `getHours()`, `getMinutes()`, `getSeconds()` and
      `getMilliseconds()`. */
  datatype Clock = Clock(year: int, month: nat, date: nat, hours: nat, minutes: nat, seconds: nat, millis: nat)
  {
    /** The ranges a real `Date` produces. */
    predicate Valid() {
      month < 12 && 1 <= date <= 31 && hours < 24 && minutes < 60 && seconds < 60 && millis < 1000
    }

    predicate FourDigitYear() {
      1000 <= year <= 9999
    }
  }

  const RecordedPrefix := "recorded_audio_"
  const GeneratedPrefix := "generated_audio_"
  const WavSuffix := ".wav"
  /** The media server that serves generated speech and video. */
  const MediaHost := "http://119.255.238.247:1107"

  /** `${year}${month}${day}`: the year as printed, then the 1-based month and the day of the
      month, each padded to two digits. */
  function DateDigits(c: Clock): string {
    IntToString(c.year) + Pad2(c.month + 1) + Pad2(c.date)
  }

  /** `${hours}${minutes}`, each padded to two digits. */
  function HourMinuteDigits(c: Clock): string {
    Pad2(c.hours) + Pad2(c.minutes)
  }

  /** `generateFileName` of the two recorders: `recorded_audio_YYYYMMDD_HHmmss.wav`. */
  function RecordedName(c: Clock): (name: string)
    ensures |name| >= |RecordedPrefix| + |WavSuffix|
    ensures name[..|RecordedPrefix|] == RecordedPrefix
    ensures name[|name| - |WavSuffix|..] == WavSuffix
  {
    var stem := DateDigits(c) + "_" + HourMinuteDigits(c) + Pad2(c.seconds);
    Framed(RecordedPrefix, stem, WavSuffix)
  }

  /** `generateFileName` of the page: minutes followed by the milliseconds, which are NOT
      padded, and no seconds at all. */
  function PageRecordedName(c: Clock): (name: string)
    ensures |name| >= |RecordedPrefix| + |WavSuffix|
    ensures name[..|RecordedPrefix|] == RecordedPrefix
    ensures name[|name| - |WavSuffix|..] == WavSuffix
  {
    var stem := DateDigits(c) + "_" + HourMinuteDigits(c) + NatToString(c.millis);
    Framed(RecordedPrefix, stem, WavSuffix)
  }

  /** The text-to-speech timestamp `YYYYMMDD_HHMM`. */
  function SpeechStamp(c: Clock): string {
    DateDigits(c) + "_" + HourMinuteDigits(c)
  }

  /** The file name handed to the page after synthesis: `generated_audio_<stamp>.wav`. */
  function SpeechFileName(stamp: string): (name: string)
    ensures |name| == |GeneratedPrefix| + |stamp| + |WavSuffix|
    ensures name[..|GeneratedPrefix|] == GeneratedPrefix
    ensures name[|GeneratedPrefix|..|name| - |WavSuffix|] == stamp
    ensures name[|name| - |WavSuffix|..] == WavSuffix
  {
    Framed(GeneratedPrefix, stamp, WavSuffix)
  }

  /** The playable URL: the media host, `/`, the same file name, `?` and `new Date().getTime()`
      as a cache-busting query; so the file name sits inside the URL right after the host. */
  function SpeechAudioUrl(stamp: string, epochMillis: int): (url: string)
    ensures |url| > |MediaHost| + 1 + |SpeechFileName(stamp)|
    ensures url[..|MediaHost| + 1] == MediaHost + "/"
    ensures url[|MediaHost| + 1..|MediaHost| + 1 + |SpeechFileName(stamp)|] == SpeechFileName(stamp)
    ensures url[|MediaHost| + 1 + |SpeechFileName(stamp)|..] == "?" + IntToString(epochMillis)
  {
    var name := SpeechFileName(stamp);
    var url := Framed(MediaHost + "/", name, "?" + IntToString(epochMillis));
    assert url[..|MediaHost| + 1] == MediaHost + "/";
    url
  }

  /** `prefix + middle + suffix`, with the positions of the three parts spelled out. */
  function Framed(prefix: string, middle: string, suffix: string): (s: string)
    ensures s == prefix + middle + suffix
    ensures |s| == |prefix| + |middle| + |suffix|
    ensures s[..|prefix|] == prefix
    ensures s[|prefix|..|s| - |suffix|] == middle
    ensures s[|s| - |suffix|..] == suffix
  {
    var s := prefix + middle + suffix;
    assert s == prefix + (middle + suffix);
    s
  }

  /** The fixed-width token `\d{8}_\d{4}` the page looks for. */
  predicate IsStampToken(t: string) {
    |t| == 13 && t[8] == '_' && forall k :: 0 <= k < 13 && k != 8 ==> IsDigit(t[k])
  }

  /** Reads a `YYYYMMDD_HHMM` stamp back into a clock reading (seconds and milliseconds 0);
      `None` when the text is not a stamp of a real date and time. */
  function DecodeStamp(t: string): (r: Option<Clock>)
    ensures r.Some? ==> IsStampToken(t) && r.value.Valid() && r.value.FourDigitYear()
    ensures r.Some? ==> r.value.seconds == 0 && r.value.millis == 0
  {
    if IsStampToken(t) then
      assert AllDigits(t[..4]) && AllDigits(t[4..6]) && AllDigits(t[6..8]);
      assert AllDigits(t[9..11]) && AllDigits(t[11..13]);
      var year := ParseDecimal(t[..4]);
      var month := ParseDecimal(t[4..6]);
      var date := ParseDecimal(t[6..8]);
      var hours := ParseDecimal(t[9..11]);
      var minutes := ParseDecimal(t[11..13]);
      if 1000 <= year <= 9999 && 1 <= month <= 12 && 1 <= date <= 31 && hours < 24 && minutes < 60
      then Some(Clock(year, month - 1, date, hours, minutes, 0, 0))
      else None
    else None
  }

  /** Where the five fields of a stamp sit once each has its fixed width. */
  lemma StampLayout(y: string, mo: string, d: string, h: string, mi: string)
    requires |y| == 4 && |mo| == 2 && |d| == 2 && |h| == 2 && |mi| == 2
    requires AllDigits(y) && AllDigits(mo) && AllDigits(d) && AllDigits(h) && AllDigits(mi)
    ensures var t := y + mo + d + "_" + h + mi;
      && IsStampToken(t)
      && t[..4] == y && t[4..6] == mo && t[6..8] == d && t[9..11] == h && t[11..13] == mi
  {
    var t := y + mo + d + "_" + h + mi;
    assert t[..4] == y;
    assert t[4..6] == mo;
    assert t[6..8] == d;
    assert t[9..11] == h;
    assert t[11..13] == mi;
    forall k | 0 <= k < 13 && k != 8 ensures IsDigit(t[k]) {
      if k < 4 { assert t[k] == y[k]; }
      else if k < 6 { assert t[k] == mo[k - 4]; }
      else if k < 8 { assert t[k] == d[k - 6]; }
      else if k < 11 { assert t[k] == h[k - 9]; }
      else { assert t[k] == mi[k - 11]; }
    }
  }

  /** A stamp token whose fields read as a real date and time decodes to that reading. */
  lemma DecodeStampFields(t: string, year: nat, month: nat, date: nat, hours: nat, minutes: nat)
    requires IsStampToken(t)
    requires AllDigits(t[..4]) && ParseDecimal(t[..4]) == year
    requires AllDigits(t[4..6]) && ParseDecimal(t[4..6]) == month + 1
    requires AllDigits(t[6..8]) && ParseDecimal(t[6..8]) == date
    requires AllDigits(t[9..11]) && ParseDecimal(t[9..11]) == hours
    requires AllDigits(t[11..13]) && ParseDecimal(t[11..13]) == minutes
    requires 1000 <= year <= 9999 && month < 12 && 1 <= date <= 31 && hours < 24 && minutes < 60
    ensures DecodeStamp(t) == Some(Clock(year, month, date, hours, minutes, 0, 0))
  {
  }

  /** Five fixed-width digit fields that read as a real date and time form a stamp token that
      decodes to that reading. */
  lemma StampOfFields(y: string, mo: string, d: string, h: string, mi: string,
                      year: nat, month: nat, date: nat, hours: nat, minutes: nat)
    requires |y| == 4 && |mo| == 2 && |d| == 2 && |h| == 2 && |mi| == 2
    requires AllDigits(y) && AllDigits(mo) && AllDigits(d) && AllDigits(h) && AllDigits(mi)
    requires ParseDecimal(y) == year && ParseDecimal(mo) == month + 1 && ParseDecimal(d) == date
    requires ParseDecimal(h) == hours && ParseDecimal(mi) == minutes
    requires 1000 <= year <= 9999 && month < 12 && 1 <= date <= 31 && hours < 24 && minutes < 60
    ensures var t := y + mo + d + "_" + (h + mi);
      IsStampToken(t) && DecodeStamp(t) == Some(Clock(year, month, date, hours, minutes, 0, 0))
  {
    var t := y + mo + d + "_" + h + mi;
    assert y + mo + d + "_" + (h + mi) == t;
    StampLayout(y, mo, d, h, mi);
    DecodeStampFields(t, year, month, date, hours, minutes);
  }

  /** For a valid clock in a four-digit year the stamp is exactly eight digits, `_`, four digits,
      and it records the date, hour and minute without loss. */
  lemma SpeechStampRoundTrip(c: Clock)
    requires c.Valid() && c.FourDigitYear()
    ensures IsStampToken(SpeechStamp(c))
    ensures DecodeStamp(SpeechStamp(c)) == Some(c.(seconds := 0, millis := 0))
  {
    var y, mo, d := IntToString(c.year), Pad2(c.month + 1), Pad2(c.date);
    var h, mi := Pad2(c.hours), Pad2(c.minutes);
    assert |y| == 4 && AllDigits(y) && ParseDecimal(y) == c.year by {
      NatToStringFourDigits(c.year);
      ParseNatToString(c.year);
    }
    StampOfFields(y, mo, d, h, mi, c.year, c.month, c.date, c.hours, c.minutes);
    assert SpeechStamp(c) == y + mo + d + "_" + (h + mi);
    assert Clock(c.year, c.month, c.date, c.hours, c.minutes, 0, 0) == c.(seconds := 0, millis := 0);
  }

  /** Reads a recorder name back into a clock reading (milliseconds 0). */
  function DecodeRecordedName(s: string): (r: Option<Clock>)
    ensures r.Some? ==> r.value.Valid() && r.value.FourDigitYear() && r.value.millis == 0
  {
    if |s| == 34 && s[..15] == RecordedPrefix && s[30..] == WavSuffix && AllDigits(s[28..30]) then
      match DecodeStamp(s[15..28])
      case None => None
      case Some(c) =>
        var seconds := ParseDecimal(s[28..30]);
        if seconds < 60 then Some(c.(seconds := seconds)) else None
    else None
  }

  /** The recorder name is fixed-width for four-digit years and loses nothing but the
      milliseconds: decoding it gives the clock back. */
  lemma RecordedNameRoundTrip(c: Clock)
    requires c.Valid() && c.FourDigitYear()
    ensures DecodeRecordedName(RecordedName(c)) == Some(c.(millis := 0))
  {
    SpeechStampRoundTrip(c);
    var t, sec := SpeechStamp(c), Pad2(c.seconds);
    var stem := DateDigits(c) + "_" + HourMinuteDigits(c) + sec;
    assert stem == t + sec;
    assert RecordedName(c) == RecordedPrefix + stem + WavSuffix;
    MiddleJoin(RecordedPrefix, t, sec, WavSuffix);
    DecodeRecordedLayout(t, sec, c.(seconds := 0, millis := 0));
  }

  /** Splitting the middle of a three-part concatenation in two. */
  lemma MiddleJoin(p: string, t: string, x: string, w: string)
    ensures p + (t + x) + w == p + t + x + w
  {
  }

  /** A recorder name made of a decodable stamp and two digits of seconds decodes to the stamp's
      reading with those seconds. */
  lemma DecodeRecordedLayout(t: string, sec: string, stamped: Clock)
    requires |t| == 13 && |sec| == 2 && AllDigits(sec) && ParseDecimal(sec) < 60
    requires DecodeStamp(t) == Some(stamped)
    ensures DecodeRecordedName(RecordedPrefix + t + sec + WavSuffix) == Some(stamped.(seconds := ParseDecimal(sec)))
  {
    RecordedLayout(t, sec);
  }

  /** Where stamp and seconds sit in a recorder name. */
  lemma RecordedLayout(t: string, sec: string)
    requires |t| == 13 && |sec| == 2
    ensures var s := RecordedPrefix + t + sec + WavSuffix;
      && |s| == 34 && s[..15] == RecordedPrefix && s[15..28] == t
      && s[28..30] == sec && s[30..] == WavSuffix
  {
    var s := RecordedPrefix + t + sec + WavSuffix;
    assert s[..15] == RecordedPrefix;
    assert s[15..28] == t;
    assert s[28..30] == sec;
    assert s[30..] == WavSuffix;
  }

  /** Reads a page recording name back (seconds 0): the milliseconds are the one to three digits
      between the minutes and `.wav`, written without padding, so a leading zero is accepted only
      for zero itself. */
  function DecodePageRecordedName(s: string): (r: Option<Clock>)
    ensures r.Some? ==> r.value.Valid() && r.value.FourDigitYear() && r.value.seconds == 0
    ensures r.Some? ==> 33 <= |s| && s[28..|s| - 4] == NatToString(r.value.millis)
  {
    if 33 <= |s| <= 35 && s[..15] == RecordedPrefix && s[|s| - 4..] == WavSuffix && AllDigits(s[28..|s| - 4])
      && (s[28] == '0' ==> |s| == 33)
    then
      match DecodeStamp(s[15..28])
      case None => None
      case Some(c) =>
        var millis := ParseDecimal(s[28..|s| - 4]);
        NatToStringParse(s[28..|s| - 4]);
        if millis < 1000 then Some(c.(millis := millis)) else None
    else None
  }

  lemma NatToStringBelow1000(n: nat)
    requires n < 1000
    ensures 1 <= |NatToString(n)| <= 3
  {
    if n >= 10 {
      assert |NatToString(n / 10)| <= 2 by {
        if n / 10 >= 10 { assert |NatToString(n / 100)| == 1; }
      }
    }
  }

  /** Decoding the page's name gives back date, hour, minute and milliseconds. */
  lemma PageRecordedNameRoundTrip(c: Clock)
    requires c.Valid() && c.FourDigitYear()
    ensures DecodePageRecordedName(PageRecordedName(c)) == Some(c.(seconds := 0))
  {
    SpeechStampRoundTrip(c);
    NatToStringBelow1000(c.millis);
    ParseNatToString(c.millis);
    var t, ms := SpeechStamp(c), NatToString(c.millis);
    var s := PageRecordedName(c);
    assert s[15..|s| - 4] == t + ms;
    assert s[15..28] == t by { assert s[15..28] == (t + ms)[..13]; }
    assert s[28..|s| - 4] == ms by { assert s[28..|s| - 4] == (t + ms)[13..]; }
  }

  /** The page's name ends with the milliseconds exactly as `String` prints them, unpadded,
      just before `.wav`. */
  lemma PageRecordedNameUnpadded(c: Clock)
    ensures var name, ms := PageRecordedName(c), NatToString(c.millis);
      && |name| >= |RecordedPrefix| + |ms| + |WavSuffix|
      && name[|name| - |WavSuffix| - |ms|..|name| - |WavSuffix|] == ms
  {
    var stamp, ms := SpeechStamp(c), NatToString(c.millis);
    assert DateDigits(c) + "_" + HourMinuteDigits(c) + ms == stamp + ms;
    FramedTail(RecordedPrefix, stamp, ms, WavSuffix);
  }

  /** The end of the middle of a framed string sits just before the suffix. */
  lemma FramedTail(p: string, a: string, b: string, w: string)
    ensures var s := p + (a + b) + w;
      s[|s| - |w| - |b|..|s| - |w|] == b
  {
    var s := p + (a + b) + w;
    assert s == (p + a) + b + w;
  }

  /** The page's name does not depend on the seconds: two readings in the same minute with the same
      millisecond count give the same name, despite the milliseconds being added for uniqueness. */
  lemma PageRecordedNameIgnoresSeconds(c: Clock, s: nat)
    ensures PageRecordedName(c.(seconds := s)) == PageRecordedName(c)
  {
  }
}
