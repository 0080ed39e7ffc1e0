/**
 * The media record of wandarr/media.py: the track dictionaries and their
 * defaulting getters, the record built from the structured (JSON) prober
 * output, and the defaulting applied to the text-scrape match groups.
 *
 * A prober stream is a record whose absent keys are `None`; reading an
 * absent key the source indexes directly raises KeyError.  Stream tags keep
 * the prober's order, since the source takes the first matching tag.
 */
module Media {
  import opened Wrappers
  import Numbers
  import Strings

  /** A track's dictionary: every value the parsers store in it is a string. */
  type TrackInfo = map<string, string>

  /** What a getter returns: the stored text, or a numeric default. */
  datatype Scalar = Text(text: string) | Number(number: int)

  /** `StreamInfoWrapper.stream`. */
  function StreamOf(t: TrackInfo): Scalar {
    if "stream" in t then Text(t["stream"]) else Number(-1)
  }

  /** `StreamInfoWrapper.format`. */
  function FormatOf(t: TrackInfo): string {
    if "format" in t then t["format"] else "???"
  }

  /** `StreamInfoWrapper.default`. */
  function DefaultOf(t: TrackInfo): string {
    if "default" in t then t["default"] else "0"
  }

  /** `StreamInfoWrapper.lang`. */
  function LangOf(t: TrackInfo): string {
    if "lang" in t then t["lang"] else "???"
  }

  /** `StreamInfoWrapper.size_mb`. */
  function SizeMbOf(t: TrackInfo): Scalar {
    if "mb" in t then Text(t["mb"]) else Number(0)
  }

  /** The getters fall back to fixed defaults exactly for absent keys. */
  lemma GetterDefaults(t: TrackInfo)
    ensures StreamOf(t) == Number(-1) <==> "stream" !in t
    ensures "format" !in t ==> FormatOf(t) == "???"
    ensures "default" !in t ==> DefaultOf(t) == "0"
    ensures "lang" !in t ==> LangOf(t) == "???"
    ensures SizeMbOf(t) == Number(0) <==> "mb" !in t
    ensures "format" in t ==> FormatOf(t) == t["format"]
    ensures "default" in t ==> DefaultOf(t) == t["default"]
    ensures "lang" in t ==> LangOf(t) == t["lang"]
    ensures "stream" in t ==> StreamOf(t) == Text(t["stream"])
    ensures "mb" in t ==> SizeMbOf(t) == Text(t["mb"])
  {}

  /** One entry of the prober's `streams` list. */
  datatype Stream = Stream(
    codecType: Option<string>,
    index: Option<int>,
    codecName: Option<string>,
    width: Option<int>,
    height: Option<int>,
    rFrameRate: Option<string>,
    pixFmt: Option<string>,
    duration: Option<string>,
    disposition: Option<map<string, int>>,
    tags: Option<seq<(string, string)>>)

  /** The prober's output: `streams` may be missing. */
  datatype Probe = Probe(streams: Option<seq<Stream>>)

  /** The video part of the record being built (`minfo` after `_parse_json_video`). */
  datatype Video = Video(
    path: string,
    vcodec: string,
    stream: string,
    resWidth: int,
    resHeight: int,
    filesizeMb: int,
    fps: string,
    colorspace: string,
    runtime: Option<int>)

  /** The dictionary `minfo` being built: video keys once a video stream is parsed, and track lists. */
  datatype Minfo = Minfo(video: Option<Video>, audio: seq<TrackInfo>, subtitle: seq<TrackInfo>)

  /** `MediaInfo`: either invalid or the full record. */
  datatype MediaInfo =
    | Invalid
    | Probed(
        path: string,
        vcodec: string,
        stream: string,
        resHeight: int,
        resWidth: int,
        runtime: int,
        filesizeMb: int,
        fps: string,
        colorspace: string,
        audio: seq<TrackInfo>,
        subtitle: seq<TrackInfo>)
  {
    /** `MediaInfo.valid`. */
    predicate Valid() {
      Probed?
    }
  }

  /**
   * `MediaInfo.__init__`: no dictionary gives an invalid record; a dictionary
   * without the video keys raises KeyError on `path`; a missing runtime is 0.
   */
  function NewMediaInfo(info: Option<Minfo>): (r: Result<MediaInfo>)
    ensures r == Ok(Invalid) <==> info.None?
    ensures info.Some? && info.value.video.None? ==> r == Raise(KeyError("path"))
    ensures info.Some? && info.value.video.Some? ==>
              && r.Ok? && r.value.Valid()
              && r.value.runtime == (if info.value.video.value.runtime.Some? then info.value.video.value.runtime.value else 0)
              && r.value.audio == info.value.audio && r.value.subtitle == info.value.subtitle
  {
    match info
    case None => Ok(Invalid)
    case Some(m) =>
      match m.video
      case None => Raise(KeyError("path"))
      case Some(v) =>
        Ok(Probed(v.path, v.vcodec, v.stream, v.resHeight, v.resWidth, v.runtime.GetOr(0),
                  v.filesizeMb, v.fps, v.colorspace, m.audio, m.subtitle))
  }

  /** `is_multistream`: more than one audio or more than one subtitle track. */
  function IsMultistream(m: MediaInfo): bool
    requires m.Valid()
  {
    |m.audio| > 1 || |m.subtitle| > 1
  }

  /** The value of the first tag named `key` (`tags[key]`, `key in tags`). */
  function TagValue(tags: seq<(string, string)>, key: string): (v: Option<string>)
    ensures v.None? <==> forall k :: 0 <= k < |tags| ==> tags[k].0 != key
    ensures v.Some? ==> exists k :: 0 <= k < |tags| && tags[k] == (key, v.value)
    decreases |tags|
  {
    if tags == [] then None
    else if tags[0].0 == key then Some(tags[0].1)
    else TagValue(tags[1..], key)
  }

  /**
   * The language derived from the first tag name beginning `DURATION-`:
   * what follows that prefix.
   */
  function DurationLang(tags: seq<(string, string)>): Option<string>
    decreases |tags|
  {
    if tags == [] then None
    else if Strings.StartsWith(tags[0].0, "DURATION-") then Some(tags[0].0[9..])
    else DurationLang(tags[1..])
  }

  /**
   * A language is derived exactly when some tag name begins `DURATION-`,
   * and it is the rest of the first such name.
   */
  lemma {:induction false} DurationLangFirst(tags: seq<(string, string)>)
    ensures DurationLang(tags).None? <==> forall k :: 0 <= k < |tags| ==> !Strings.StartsWith(tags[k].0, "DURATION-")
    ensures DurationLang(tags).Some? ==>
              exists k :: 0 <= k < |tags| && tags[k].0 == "DURATION-" + DurationLang(tags).value
                          && forall j :: 0 <= j < k ==> !Strings.StartsWith(tags[j].0, "DURATION-")
    decreases |tags|
  {
    if tags == [] {
    } else if Strings.StartsWith(tags[0].0, "DURATION-") {
      assert tags[0].0 == "DURATION-" + tags[0].0[9..];
    } else {
      var rest := tags[1..];
      DurationLangFirst(rest);
      assert forall k :: 0 < k < |tags| ==> tags[k] == rest[k - 1];
      if DurationLang(rest).Some? {
        var k :| 0 <= k < |rest| && rest[k].0 == "DURATION-" + DurationLang(rest).value
                 && forall j :: 0 <= j < k ==> !Strings.StartsWith(rest[j].0, "DURATION-");
        assert tags[k + 1] == rest[k];
        assert forall j :: 0 <= j < k + 1 ==> !Strings.StartsWith(tags[j].0, "DURATION-");
      }
    }
  }

  /** `disposition.get('default', 0)`, or 0 without a disposition. */
  function DispositionDefault(s: Stream): int {
    if s.disposition.Some? && "default" in s.disposition.value then s.disposition.value["default"] else 0
  }

  /** A track's default flag: `"0"` unless a disposition is present, then `str` of its default. */
  function DefaultFlag(s: Stream): (flag: string)
    ensures s.disposition.None? ==> flag == "0"
    ensures Numbers.ParseInt(flag) == Some(DispositionDefault(s))
  {
    Numbers.ParseIntToString(DispositionDefault(s));
    if s.disposition.Some? then Numbers.IntToString(DispositionDefault(s)) else "0"
  }

  /** The fields every audio and subtitle track starts with. */
  function BaseTrack(s: Stream): (r: Result<TrackInfo>)
    ensures s.index.None? ==> r == Raise(KeyError("index"))
    ensures s.index.Some? && s.codecName.None? ==> r == Raise(KeyError("codec_name"))
    ensures s.index.Some? && s.codecName.Some? ==>
              && r.Ok? && r.value.Keys == {"stream", "format", "default"}
              && Numbers.ParseInt(r.value["stream"]) == Some(s.index.value)
              && FormatOf(r.value) == s.codecName.value
              && Numbers.ParseInt(DefaultOf(r.value)) == Some(DispositionDefault(s))
  {
    if s.index.None? then Raise(KeyError("index"))
    else if s.codecName.None? then Raise(KeyError("codec_name"))
    else
      Numbers.ParseIntToString(s.index.value);
      Ok(map["stream" := Numbers.IntToString(s.index.value), "format" := s.codecName.value,
             "default" := DefaultFlag(s)])
  }

  /**
   * The language of an audio track with tags: the `language` tag, else the
   * rest of the first tag name beginning `DURATION-`, else none.
   */
  function WithAudioLang(track: TrackInfo, tags: seq<(string, string)>): (t: TrackInfo)
    requires "lang" !in track
    ensures forall key :: key in track ==> key in t && t[key] == track[key]
    ensures t.Keys <= track.Keys + {"lang"}
    ensures TagValue(tags, "language").Some? ==> LangOf(t) == TagValue(tags, "language").value
    ensures TagValue(tags, "language").None? ==>
              ("lang" in t <==> exists k :: 0 <= k < |tags| && Strings.StartsWith(tags[k].0, "DURATION-"))
    ensures TagValue(tags, "language").None? && "lang" in t ==>
              exists k :: 0 <= k < |tags| && tags[k].0 == "DURATION-" + t["lang"]
                          && forall j :: 0 <= j < k ==> !Strings.StartsWith(tags[j].0, "DURATION-")
  {
    DurationLangFirst(tags);
    match TagValue(tags, "language")
    case Some(lang) => track["lang" := lang]
    case None =>
      match DurationLang(tags)
      case Some(lang) => track["lang" := lang]
      case None => track
  }

  /** The size of an audio track with tags: `NUMBER_OF_BYTES` in whole 1,024,000-byte megabytes. */
  function WithAudioSize(track: TrackInfo, tags: seq<(string, string)>): (r: Result<TrackInfo>)
    ensures TagValue(tags, "NUMBER_OF_BYTES").None? ==> r == Ok(track)
    ensures TagValue(tags, "NUMBER_OF_BYTES").Some? ==>
              match Numbers.ParseInt(TagValue(tags, "NUMBER_OF_BYTES").value)
              case None => r == Raise(ValueError)
              case Some(n) => r.Ok? && r.value.Keys == track.Keys + {"mb"}
                              && (forall key :: key in track && key != "mb" ==> r.value[key] == track[key])
                              && Numbers.ParseInt(r.value["mb"]) == Some(Numbers.TruncDiv(n, 1024000))
  {
    match TagValue(tags, "NUMBER_OF_BYTES")
    case None => Ok(track)
    case Some(text) =>
      match Numbers.ParseInt(text)
      case None => Raise(ValueError)
      case Some(bytes) =>
        var mb := Numbers.TruncDiv(bytes, 1024000);
        Numbers.ParseIntToString(mb);
        Ok(track["mb" := Numbers.IntToString(mb)])
  }

  /** `_parse_json_audio`: the track dictionary for one audio stream. */
  function ParseJsonAudio(s: Stream): Result<TrackInfo> {
    match BaseTrack(s)
    case Raise(e) => Raise(e)
    case Ok(track) =>
      if s.tags.None? then Ok(track)
      else WithAudioSize(WithAudioLang(track, s.tags.value), s.tags.value)
  }

  /**
   * What an audio track holds: the stream index, codec and default flag
   * read back as given; the language from the `language` tag, else from a
   * `DURATION-` tag name, else unknown; the size from `NUMBER_OF_BYTES`
   * (an unparsable count raises ValueError), else 0.
   */
  lemma AudioTrackFields(s: Stream)
    ensures BaseTrack(s).Raise? ==> ParseJsonAudio(s) == BaseTrack(s)
    ensures ParseJsonAudio(s).Ok? ==>
              var t := ParseJsonAudio(s).value;
              && Numbers.ParseInt(t["stream"]) == Some(s.index.value)
              && FormatOf(t) == s.codecName.value
              && Numbers.ParseInt(DefaultOf(t)) == Some(DispositionDefault(s))
    ensures ParseJsonAudio(s).Ok? && s.tags.None? ==>
              LangOf(ParseJsonAudio(s).value) == "???" && SizeMbOf(ParseJsonAudio(s).value) == Number(0)
    ensures ParseJsonAudio(s).Ok? && s.tags.Some? && TagValue(s.tags.value, "language").Some? ==>
              LangOf(ParseJsonAudio(s).value) == TagValue(s.tags.value, "language").value
    ensures ParseJsonAudio(s).Ok? && s.tags.Some? && TagValue(s.tags.value, "language").None? ==>
              ("lang" in ParseJsonAudio(s).value <==>
                 exists k :: 0 <= k < |s.tags.value| && Strings.StartsWith(s.tags.value[k].0, "DURATION-"))
    ensures ParseJsonAudio(s).Ok? && s.tags.Some? && TagValue(s.tags.value, "language").None?
            && "lang" in ParseJsonAudio(s).value ==>
              var tags, lang := s.tags.value, ParseJsonAudio(s).value["lang"];
              exists k :: 0 <= k < |tags| && tags[k].0 == "DURATION-" + lang
                          && forall j :: 0 <= j < k ==> !Strings.StartsWith(tags[j].0, "DURATION-")
    ensures BaseTrack(s).Ok? && s.tags.Some? && TagValue(s.tags.value, "NUMBER_OF_BYTES").Some? ==>
              match Numbers.ParseInt(TagValue(s.tags.value, "NUMBER_OF_BYTES").value)
              case None => ParseJsonAudio(s) == Raise(ValueError)
              case Some(n) => ParseJsonAudio(s).Ok?
                              && Numbers.ParseInt(ParseJsonAudio(s).value["mb"]) == Some(Numbers.TruncDiv(n, 1024000))
    ensures ParseJsonAudio(s).Ok? && s.tags.Some? && TagValue(s.tags.value, "NUMBER_OF_BYTES").None? ==>
              SizeMbOf(ParseJsonAudio(s).value) == Number(0)
  {}

  /**
   * `_parse_json_subtitle`: the track dictionary for one subtitle stream.
   * Without a `language` tag the derivation calls the misspelled
   * `tags.itekeysms()`, which raises AttributeError.
   */
  function ParseJsonSubtitle(s: Stream): Result<TrackInfo> {
    match BaseTrack(s)
    case Raise(e) => Raise(e)
    case Ok(track) =>
      if s.tags.None? then Ok(track)
      else
        match TagValue(s.tags.value, "language")
        case Some(lang) => Ok(track["lang" := lang])
        case None => Raise(AttributeError("itekeysms"))
  }

  /**
   * A subtitle track holds the stream index, codec and default flag as
   * given, plus the `language` tag; tags without `language` raise
   * AttributeError, and no tags leave the language unknown.
   */
  lemma SubtitleTrackFields(s: Stream)
    ensures BaseTrack(s).Raise? ==> ParseJsonSubtitle(s) == BaseTrack(s)
    ensures ParseJsonSubtitle(s).Ok? ==>
              var t := ParseJsonSubtitle(s).value;
              && Numbers.ParseInt(t["stream"]) == Some(s.index.value)
              && FormatOf(t) == s.codecName.value
              && Numbers.ParseInt(DefaultOf(t)) == Some(DispositionDefault(s))
              && SizeMbOf(t) == Number(0)
    ensures BaseTrack(s).Ok? && s.tags.None? ==> ParseJsonSubtitle(s).Ok? && LangOf(ParseJsonSubtitle(s).value) == "???"
    ensures BaseTrack(s).Ok? && s.tags.Some? ==>
              match TagValue(s.tags.value, "language")
              case Some(lang) => ParseJsonSubtitle(s).Ok? && LangOf(ParseJsonSubtitle(s).value) == lang
              case None => ParseJsonSubtitle(s) == Raise(AttributeError("itekeysms"))
  {}

  /** `hh * 3600 + mm * 60 + ss`: the runtime formula shared by both parsers. */
  function Hms(hours: int, minutes: int, seconds: int): int {
    hours * 3600 + minutes * 60 + seconds
  }

  /** With minutes and seconds below 60, the formula can be read back digit group by digit group. */
  lemma HmsDecomposes(hours: nat, minutes: nat, seconds: nat)
    requires minutes < 60 && seconds < 60
    ensures Hms(hours, minutes, seconds) / 3600 == hours
    ensures (Hms(hours, minutes, seconds) % 3600) / 60 == minutes
    ensures Hms(hours, minutes, seconds) % 60 == seconds
  {
    var t := Hms(hours, minutes, seconds);
    var rest := minutes * 60 + seconds;
    assert 0 <= rest < 3600;
    assert t == hours * 3600 + rest;
    assert t / 3600 == hours && t % 3600 == rest;
    assert rest / 60 == minutes && rest % 60 == seconds;
    assert t == (hours * 60 + minutes) * 60 + seconds;
  }

  /** `int(float(x))` of the three parts of a `hh:mm:ss` tag value. */
  function HmsRuntime(value: string): Result<Option<int>> {
    var parts := Strings.Split(value, ':');
    if |parts| != 3 then Raise(ValueError)
    else
      match (Numbers.ParseTruncatedDecimal(parts[0]), Numbers.ParseTruncatedDecimal(parts[1]),
             Numbers.ParseTruncatedDecimal(parts[2]))
      case (Some(h), Some(m), Some(sec)) => Ok(Some(Hms(h, m, sec)))
      case _ => Raise(ValueError)
  }

  /** The runtime from the first tag whose name starts with `DURATION`, if any. */
  function DurationTagRuntime(tags: seq<(string, string)>): Result<Option<int>>
    decreases |tags|
  {
    if tags == [] then Ok(None)
    else if Strings.StartsWith(tags[0].0, "DURATION") then HmsRuntime(tags[0].1)
    else DurationTagRuntime(tags[1..])
  }

  /** The runtime `_parse_regex_video` computes from the three digit groups of `Duration: h:m:s`. */
  function RegexRuntime(hours: string, minutes: string, seconds: string): nat
    requires Numbers.AllDigits(hours) && Numbers.AllDigits(minutes) && Numbers.AllDigits(seconds)
  {
    Hms(Numbers.DigitsValue(hours), Numbers.DigitsValue(minutes), Numbers.DigitsValue(seconds))
  }

  /**
   * A `DURATION` tag reading `hh:mm:ss.fraction` gives the runtime the
   * text-scrape formula gives for the same digit groups, leading zeros and all.
   */
  lemma DurationTagMatchesRegexRuntime(name: string, hours: string, minutes: string, seconds: string,
                                        fraction: string)
    requires Strings.StartsWith(name, "DURATION")
    requires |hours| > 0 && |minutes| > 0 && |seconds| > 0
    requires Numbers.AllDigits(hours) && Numbers.AllDigits(minutes) && Numbers.AllDigits(seconds)
    requires Numbers.AllDigits(fraction)
    ensures DurationTagRuntime([(name, hours + ":" + minutes + ":" + seconds + "." + fraction)])
            == Ok(Some(RegexRuntime(hours, minutes, seconds)))
  {
    var last := seconds + "." + fraction;
    NoColonInDigits(hours);
    NoColonInDigits(minutes);
    NoColonInDigits(seconds);
    NoColonInDigits(fraction);
    assert ':' !in last;
    Strings.SplitWithoutSep(last, ':');
    Strings.SplitAfterPart(minutes, ':', last);
    Strings.SplitAfterPart(hours, ':', minutes + [':'] + last);
    assert hours + ":" + minutes + ":" + seconds + "." + fraction == hours + [':'] + (minutes + [':'] + last);
    Numbers.ParseTruncatedDecimalOfDigits(hours, fraction);
    Numbers.ParseTruncatedDecimalOfDigits(minutes, fraction);
    Numbers.ParseTruncatedDecimalOfDigits(seconds, fraction);
  }

  lemma NoColonInDigits(s: string)
    requires Numbers.AllDigits(s)
    ensures ':' !in s
  {
    forall i | 0 <= i < |s| ensures s[i] != ':' {
      assert Numbers.IsDigit(s[i]);
    }
  }

  /**
   * The tag runtime is read from the first tag whose name starts with
   * `DURATION`, and is absent when there is none.
   */
  lemma {:induction false} DurationTagRuntimeFirst(tags: seq<(string, string)>)
    ensures (forall k :: 0 <= k < |tags| ==> !Strings.StartsWith(tags[k].0, "DURATION"))
            ==> DurationTagRuntime(tags) == Ok(None)
    ensures forall k :: 0 <= k < |tags| && Strings.StartsWith(tags[k].0, "DURATION")
                        && (forall j :: 0 <= j < k ==> !Strings.StartsWith(tags[j].0, "DURATION"))
                        ==> DurationTagRuntime(tags) == HmsRuntime(tags[k].1)
    decreases |tags|
  {
    if tags != [] && !Strings.StartsWith(tags[0].0, "DURATION") {
      var rest := tags[1..];
      DurationTagRuntimeFirst(rest);
      forall k | 0 <= k < |tags| && Strings.StartsWith(tags[k].0, "DURATION")
                 && (forall j :: 0 <= j < k ==> !Strings.StartsWith(tags[j].0, "DURATION"))
        ensures DurationTagRuntime(tags) == HmsRuntime(tags[k].1)
      {
        assert k > 0;
        assert rest[k - 1] == tags[k];
        assert forall j :: 0 <= j < k - 1 ==> rest[j] == tags[j + 1];
      }
      if forall k :: 0 <= k < |tags| ==> !Strings.StartsWith(tags[k].0, "DURATION") {
        assert forall k :: 0 <= k < |rest| ==> rest[k] == tags[k + 1];
      }
    }
  }

  /** `int(int(num) / int(den))` of an `r_frame_rate` reading `num/den`. */
  function FrameRate(rate: string): Result<int> {
    var parts := Strings.Split(rate, '/');
    match Numbers.ParseInt(parts[0])
    case None => Raise(ValueError)
    case Some(num) =>
      if |parts| < 2 then Raise(IndexError)
      else
        match Numbers.ParseInt(parts[1])
        case None => Raise(ValueError)
        case Some(den) => if den == 0 then Raise(ZeroDivisionError) else Ok(Numbers.TruncDiv(num, den))
  }

  /** A rate written `str(a) + "/" + str(b)` gives the truncated quotient, or ZeroDivisionError. */
  lemma FrameRateOfQuotient(a: int, b: int)
    ensures FrameRate(Numbers.IntToString(a) + "/" + Numbers.IntToString(b))
            == if b == 0 then Raise(ZeroDivisionError) else Ok(Numbers.TruncDiv(a, b))
  {
    var x, y := Numbers.IntToString(a), Numbers.IntToString(b);
    NoSlashInIntText(a);
    NoSlashInIntText(b);
    Strings.SplitWithoutSep(y, '/');
    Strings.SplitAfterPart(x, '/', y);
    assert x + "/" + y == x + ['/'] + y;
    Numbers.ParseIntToString(a);
    Numbers.ParseIntToString(b);
  }

  lemma NoSlashInIntText(i: int)
    ensures '/' !in Numbers.IntToString(i)
  {
    var t := Numbers.NatToString(if i < 0 then -i else i);
    forall k | 0 <= k < |t| ensures t[k] != '/' {
      assert Numbers.IsDigit(t[k]);
    }
  }

  /** The runtime of a video stream: `duration` if present, else a `DURATION` tag, else none. */
  function VideoRuntime(s: Stream): Result<Option<int>> {
    if s.duration.Some? then
      match Numbers.ParseTruncatedDecimal(s.duration.value)
      case None => Raise(ValueError)
      case Some(seconds) => Ok(Some(seconds))
    else if s.tags.Some? then DurationTagRuntime(s.tags.value)
    else Ok(None)
  }

  /**
   * `_parse_json_video`, with the file size in whole megabytes given: the
   * keys are read in the source's order, so the first missing one is the
   * KeyError raised.
   */
  function ParseJsonVideo(path: string, sizeMb: int, s: Stream): Result<Video> {
    if s.codecName.None? then Raise(KeyError("codec_name"))
    else if s.index.None? then Raise(KeyError("index"))
    else if s.width.None? then Raise(KeyError("width"))
    else if s.height.None? then Raise(KeyError("height"))
    else if s.rFrameRate.None? then Raise(KeyError("r_frame_rate"))
    else
      match FrameRate(s.rFrameRate.value)
      case Raise(e) => Raise(e)
      case Ok(fps) =>
        if s.pixFmt.None? then Raise(KeyError("pix_fmt"))
        else
          match VideoRuntime(s)
          case Raise(e) => Raise(e)
          case Ok(runtime) =>
            Ok(Video(path, s.codecName.value, Numbers.IntToString(s.index.value), s.width.value,
                     s.height.value, sizeMb, Numbers.IntToString(fps), s.pixFmt.value, runtime))
  }

  /**
   * A parsed video stream carries the codec and pixel format as given,
   * reads back its index and the truncated frame rate, carries the given
   * path and size, and takes its runtime from `duration` (truncated), else
   * from the first `DURATION` tag, else none.  The keys are read in source
   * order: the first missing one raises KeyError, and a bad frame rate
   * raises before `pix_fmt` is read.
   */
  lemma VideoFields(path: string, sizeMb: int, s: Stream)
    ensures s.codecName.None? ==> ParseJsonVideo(path, sizeMb, s) == Raise(KeyError("codec_name"))
    ensures s.codecName.Some? && s.index.None? ==> ParseJsonVideo(path, sizeMb, s) == Raise(KeyError("index"))
    ensures s.codecName.Some? && s.index.Some? && s.width.None? ==>
              ParseJsonVideo(path, sizeMb, s) == Raise(KeyError("width"))
    ensures s.codecName.Some? && s.index.Some? && s.width.Some? && s.height.None? ==>
              ParseJsonVideo(path, sizeMb, s) == Raise(KeyError("height"))
    ensures s.codecName.Some? && s.index.Some? && s.width.Some? && s.height.Some? && s.rFrameRate.None? ==>
              ParseJsonVideo(path, sizeMb, s) == Raise(KeyError("r_frame_rate"))
    ensures s.codecName.Some? && s.index.Some? && s.width.Some? && s.height.Some? && s.rFrameRate.Some?
            && FrameRate(s.rFrameRate.value).Raise? ==>
              ParseJsonVideo(path, sizeMb, s) == Raise(FrameRate(s.rFrameRate.value).exception)
    ensures s.codecName.Some? && s.index.Some? && s.width.Some? && s.height.Some? && s.rFrameRate.Some?
            && FrameRate(s.rFrameRate.value).Ok? && s.pixFmt.None? ==>
              ParseJsonVideo(path, sizeMb, s) == Raise(KeyError("pix_fmt"))
    ensures s.codecName.Some? && s.index.Some? && s.width.Some? && s.height.Some? && s.rFrameRate.Some?
            && FrameRate(s.rFrameRate.value).Ok? && s.pixFmt.Some? && s.duration.Some?
            && Numbers.ParseTruncatedDecimal(s.duration.value).None? ==>
              ParseJsonVideo(path, sizeMb, s) == Raise(ValueError)
    ensures ParseJsonVideo(path, sizeMb, s).Ok? ==>
              var v := ParseJsonVideo(path, sizeMb, s).value;
              && s.index.Some? && s.width.Some? && s.height.Some? && s.rFrameRate.Some? && s.pixFmt.Some?
              && v.vcodec == s.codecName.value && v.colorspace == s.pixFmt.value
              && FrameRate(s.rFrameRate.value).Ok?
              && Numbers.ParseInt(v.fps) == Some(FrameRate(s.rFrameRate.value).value)
              && Numbers.ParseInt(v.stream) == Some(s.index.value)
              && v.path == path && v.filesizeMb == sizeMb
              && v.resWidth == s.width.value && v.resHeight == s.height.value
              && (s.duration.Some? ==> v.runtime == Numbers.ParseTruncatedDecimal(s.duration.value))
              && (s.duration.None? && s.tags.None? ==> v.runtime == None)
              && (s.duration.None? && s.tags.Some? ==> Ok(v.runtime) == DurationTagRuntime(s.tags.value))
  {
    if ParseJsonVideo(path, sizeMb, s).Ok? {
      Numbers.ParseIntToString(FrameRate(s.rFrameRate.value).value);
      Numbers.ParseIntToString(s.index.value);
    }
  }

  predicate IsAudio(s: Stream) {
    s.codecType == Some("audio")
  }

  predicate IsSubtitle(s: Stream) {
    s.codecType == Some("subtitle") || s.codecType == Some("subrip")
  }

  /**
   * One iteration of the loop over streams: dispatch on `codec_type`.  Only
   * the first video stream is parsed; any other type is ignored.
   */
  function Step(path: string, sizeMb: int, s: Stream, foundVideo: bool, minfo: Minfo): Result<(bool, Minfo)> {
    if s.codecType.None? then Raise(KeyError("codec_type"))
    else if s.codecType.value == "video" && !foundVideo then
      match ParseJsonVideo(path, sizeMb, s)
      case Raise(e) => Raise(e)
      case Ok(v) => Ok((true, minfo.(video := Some(v))))
    else if IsAudio(s) then
      match ParseJsonAudio(s)
      case Raise(e) => Raise(e)
      case Ok(t) => Ok((foundVideo, minfo.(audio := minfo.audio + [t])))
    else if IsSubtitle(s) then
      match ParseJsonSubtitle(s)
      case Raise(e) => Raise(e)
      case Ok(t) => Ok((foundVideo, minfo.(subtitle := minfo.subtitle + [t])))
    else Ok((foundVideo, minfo))
  }

  /** The loop over `streams` from a given state; the first exception ends it. */
  function Fold(path: string, sizeMb: int, streams: seq<Stream>, foundVideo: bool, minfo: Minfo): Result<Minfo>
    decreases |streams|
  {
    if streams == [] then Ok(minfo)
    else
      match Step(path, sizeMb, streams[0], foundVideo, minfo)
      case Raise(e) => Raise(e)
      case Ok((found, next)) => Fold(path, sizeMb, streams[1..], found, next)
  }

  /** `parse_ffmpeg_details_json` as a function of the prober output. */
  function ParseDetailsJson(path: string, sizeMb: int, probe: Probe): (r: Result<MediaInfo>)
    ensures r == Ok(Invalid) <==> probe.streams.None?
  {
    match probe.streams
    case None => Ok(Invalid)
    case Some(streams) =>
      match Fold(path, sizeMb, streams, false, Minfo(None, [], []))
      case Raise(e) => Raise(e)
      case Ok(minfo) => NewMediaInfo(Some(minfo))
  }

  /**
   * `parse_ffmpeg_details_json`: loops over the streams with a
   * `found_video` flag, parsing the first video stream and appending audio
   * and subtitle tracks, then builds the record.
   */
  method ParseFfmpegDetailsJson(path: string, sizeMb: int, probe: Probe) returns (r: Result<MediaInfo>)
    ensures r == ParseDetailsJson(path, sizeMb, probe)
  {
    if probe.streams.None? {
      return Ok(Invalid);
    }
    var streams := probe.streams.value;
    var foundVideo := false;
    var minfo := Minfo(None, [], []);
    var i := 0;
    while i < |streams|
      invariant 0 <= i <= |streams|
      invariant Fold(path, sizeMb, streams, false, Minfo(None, [], []))
                == Fold(path, sizeMb, streams[i..], foundVideo, minfo)
    {
      var s := streams[i];
      assert streams[i..][1..] == streams[i + 1..];
      if s.codecType.None? {
        return Raise(KeyError("codec_type"));
      }
      if s.codecType.value == "video" && !foundVideo {
        foundVideo := true;
        var video := ParseJsonVideo(path, sizeMb, s);
        if video.Raise? {
          return Raise(video.exception);
        }
        minfo := minfo.(video := Some(video.value));
      } else if s.codecType.value == "audio" {
        var track := ParseJsonAudio(s);
        if track.Raise? {
          return Raise(track.exception);
        }
        minfo := minfo.(audio := minfo.audio + [track.value]);
      } else if s.codecType.value == "subtitle" || s.codecType.value == "subrip" {
        var track := ParseJsonSubtitle(s);
        if track.Raise? {
          return Raise(track.exception);
        }
        minfo := minfo.(subtitle := minfo.subtitle + [track.value]);
      }
      i := i + 1;
    }
    r := NewMediaInfo(Some(minfo));
  }

  /** Once a video stream is parsed, later video streams are skipped, even malformed ones. */
  lemma LaterVideoIgnored(path: string, sizeMb: int, v: Stream, rest: seq<Stream>, minfo: Minfo)
    requires v.codecType == Some("video")
    ensures Fold(path, sizeMb, [v] + rest, true, minfo) == Fold(path, sizeMb, rest, true, minfo)
  {
    assert ([v] + rest)[1..] == rest;
  }

  /** The audio streams, in stream order. */
  function AudioStreams(streams: seq<Stream>): (audio: seq<Stream>)
    ensures forall k :: 0 <= k < |audio| ==> IsAudio(audio[k])
    decreases |streams|
  {
    if streams == [] then []
    else if IsAudio(streams[0]) then [streams[0]] + AudioStreams(streams[1..])
    else AudioStreams(streams[1..])
  }

  /** The subtitle streams (`subtitle` or `subrip`), in stream order. */
  function SubtitleStreams(streams: seq<Stream>): (subs: seq<Stream>)
    ensures forall k :: 0 <= k < |subs| ==> IsSubtitle(subs[k])
    decreases |streams|
  {
    if streams == [] then []
    else if IsSubtitle(streams[0]) then [streams[0]] + SubtitleStreams(streams[1..])
    else SubtitleStreams(streams[1..])
  }

  /**
   * What the first step of a successful loop does to the track lists: the
   * loop goes on from the returned state to the same result.
   */
  lemma FoldFirst(path: string, sizeMb: int, streams: seq<Stream>, foundVideo: bool, minfo: Minfo, result: Minfo)
    returns (found: bool, next: Minfo)
    requires streams != [] && Fold(path, sizeMb, streams, foundVideo, minfo) == Ok(result)
    ensures Fold(path, sizeMb, streams[1..], found, next) == Ok(result)
    ensures IsAudio(streams[0]) ==>
              ParseJsonAudio(streams[0]).Ok? && next.audio == minfo.audio + [ParseJsonAudio(streams[0]).value]
    ensures !IsAudio(streams[0]) ==> next.audio == minfo.audio
    ensures IsSubtitle(streams[0]) ==>
              ParseJsonSubtitle(streams[0]).Ok? && next.subtitle == minfo.subtitle + [ParseJsonSubtitle(streams[0]).value]
    ensures !IsSubtitle(streams[0]) ==> next.subtitle == minfo.subtitle
  {
    var step := Step(path, sizeMb, streams[0], foundVideo, minfo);
    assert step.Ok?;
    found, next := step.value.0, step.value.1;
  }

  /** The tracks parsed from the audio streams, in stream order. */
  function AudioTracks(streams: seq<Stream>): seq<TrackInfo>
    decreases |streams|
  {
    if streams == [] then []
    else if IsAudio(streams[0]) && ParseJsonAudio(streams[0]).Ok? then
      [ParseJsonAudio(streams[0]).value] + AudioTracks(streams[1..])
    else AudioTracks(streams[1..])
  }

  /**
   * A successful loop appends exactly the audio tracks parsed from the
   * audio streams, one per stream, in stream order.
   */
  lemma {:induction false} AudioInStreamOrder(path: string, sizeMb: int, streams: seq<Stream>,
      foundVideo: bool, minfo: Minfo, result: Minfo)
    requires Fold(path, sizeMb, streams, foundVideo, minfo) == Ok(result)
    ensures result.audio == minfo.audio + AudioTracks(streams)
    ensures |AudioTracks(streams)| == |AudioStreams(streams)|
    decreases |streams|
  {
    if streams != [] {
      var s := streams[0];
      var found, next := FoldFirst(path, sizeMb, streams, foundVideo, minfo, result);
      AudioInStreamOrder(path, sizeMb, streams[1..], found, next, result);
      var tail := AudioTracks(streams[1..]);
      assert result.audio == next.audio + tail;
      if IsAudio(s) {
        var t := ParseJsonAudio(s).value;
        assert AudioTracks(streams) == [t] + tail;
        assert AudioStreams(streams) == [s] + AudioStreams(streams[1..]);
        assert next.audio == minfo.audio + [t];
        assert minfo.audio + [t] + tail == minfo.audio + ([t] + tail);
      } else {
        assert AudioTracks(streams) == tail;
      }
    } else {
      assert result == minfo;
    }
  }

  /** The tracks parsed from the subtitle streams, in stream order. */
  function SubtitleTracks(streams: seq<Stream>): seq<TrackInfo>
    decreases |streams|
  {
    if streams == [] then []
    else if IsSubtitle(streams[0]) && ParseJsonSubtitle(streams[0]).Ok? then
      [ParseJsonSubtitle(streams[0]).value] + SubtitleTracks(streams[1..])
    else SubtitleTracks(streams[1..])
  }

  /**
   * A successful loop appends exactly the subtitle tracks parsed from the
   * subtitle streams, one per stream, in stream order.
   */
  lemma {:induction false} SubtitleInStreamOrder(path: string, sizeMb: int, streams: seq<Stream>,
      foundVideo: bool, minfo: Minfo, result: Minfo)
    requires Fold(path, sizeMb, streams, foundVideo, minfo) == Ok(result)
    ensures result.subtitle == minfo.subtitle + SubtitleTracks(streams)
    ensures |SubtitleTracks(streams)| == |SubtitleStreams(streams)|
    decreases |streams|
  {
    if streams != [] {
      var s := streams[0];
      var found, next := FoldFirst(path, sizeMb, streams, foundVideo, minfo, result);
      SubtitleInStreamOrder(path, sizeMb, streams[1..], found, next, result);
      var tail := SubtitleTracks(streams[1..]);
      assert result.subtitle == next.subtitle + tail;
      if IsSubtitle(s) {
        var t := ParseJsonSubtitle(s).value;
        assert SubtitleTracks(streams) == [t] + tail;
        assert SubtitleStreams(streams) == [s] + SubtitleStreams(streams[1..]);
        assert next.subtitle == minfo.subtitle + [t];
        assert minfo.subtitle + [t] + tail == minfo.subtitle + ([t] + tail);
      } else {
        assert SubtitleTracks(streams) == tail;
      }
    } else {
      assert result == minfo;
    }
  }

  /**
   * A parsed record's tracks are the audio and subtitle streams' tracks in
   * stream order, so it is multi-stream exactly when the prober listed
   * several audio or several subtitle streams.
   */
  lemma MultistreamFromStreams(path: string, sizeMb: int, streams: seq<Stream>, m: MediaInfo)
    requires ParseDetailsJson(path, sizeMb, Probe(Some(streams))) == Ok(m)
    ensures m.Valid()
    ensures m.audio == AudioTracks(streams) && m.subtitle == SubtitleTracks(streams)
    ensures IsMultistream(m) <==> |AudioStreams(streams)| > 1 || |SubtitleStreams(streams)| > 1
  {
    var minfo := Fold(path, sizeMb, streams, false, Minfo(None, [], [])).value;
    AudioInStreamOrder(path, sizeMb, streams, false, Minfo(None, [], []), minfo);
    SubtitleInStreamOrder(path, sizeMb, streams, false, Minfo(None, [], []), minfo);
  }

  /** One match of the text-scrape audio pattern: its named groups. */
  datatype AudioMatch = AudioMatch(stream: string, lang: Option<string>, format: string, default: Option<string>)

  /** One match of the text-scrape subtitle pattern: its named groups. */
  datatype SubtitleMatch = SubtitleMatch(stream: string, lang: Option<string>)

  /**
   * `_parse_regex_audio` after matching: one track per match, in order, with
   * an absent language set to `und` and an absent default to `"0"`.
   */
  method ParseRegexAudio(matches: seq<AudioMatch>) returns (tracks: seq<TrackInfo>)
    ensures |tracks| == |matches|
    ensures forall i :: 0 <= i < |matches| ==>
              && tracks[i].Keys == {"stream", "lang", "format", "default"}
              && StreamOf(tracks[i]) == Text(matches[i].stream)
              && FormatOf(tracks[i]) == matches[i].format
              && LangOf(tracks[i]) == (if matches[i].lang.Some? then matches[i].lang.value else "und")
              && DefaultOf(tracks[i]) == (if matches[i].default.Some? then matches[i].default.value else "0")
  {
    tracks := [];
    for i := 0 to |matches|
      invariant |tracks| == i
      invariant forall k :: 0 <= k < i ==>
                  && tracks[k].Keys == {"stream", "lang", "format", "default"}
                  && StreamOf(tracks[k]) == Text(matches[k].stream)
                  && FormatOf(tracks[k]) == matches[k].format
                  && LangOf(tracks[k]) == (if matches[k].lang.Some? then matches[k].lang.value else "und")
                  && DefaultOf(tracks[k]) == (if matches[k].default.Some? then matches[k].default.value else "0")
    {
      var m := matches[i];
      var info := map["stream" := m.stream, "lang" := m.lang.GetOr("und"), "format" := m.format,
                      "default" := m.default.GetOr("0")];
      tracks := tracks + [info];
    }
  }

  /**
   * `_parse_regex_subtitle` after matching: one track per match, in order,
   * with an absent language set to `und` and the default always `"0"`.
   */
  method ParseRegexSubtitle(matches: seq<SubtitleMatch>) returns (tracks: seq<TrackInfo>)
    ensures |tracks| == |matches|
    ensures forall i :: 0 <= i < |matches| ==>
              && tracks[i].Keys == {"stream", "lang", "default"}
              && StreamOf(tracks[i]) == Text(matches[i].stream)
              && LangOf(tracks[i]) == (if matches[i].lang.Some? then matches[i].lang.value else "und")
              && DefaultOf(tracks[i]) == "0"
  {
    tracks := [];
    for i := 0 to |matches|
      invariant |tracks| == i
      invariant forall k :: 0 <= k < i ==>
                  && tracks[k].Keys == {"stream", "lang", "default"}
                  && StreamOf(tracks[k]) == Text(matches[k].stream)
                  && LangOf(tracks[k]) == (if matches[k].lang.Some? then matches[k].lang.value else "und")
                  && DefaultOf(tracks[k]) == "0"
    {
      var m := matches[i];
      tracks := tracks + [map["stream" := m.stream, "lang" := m.lang.GetOr("und"), "default" := "0"]];
    }
  }
}
