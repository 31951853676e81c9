/** Audio format presets and the conversion request handed to ffmpeg. The
    transcoding itself is not modelled: `ConvertOptions` is the sequence of
    fluent-ffmpeg settings in the order they are applied, and `Apply` is what
    such a sequence leaves configured (a later setting overrides an earlier one). */
module AudioConverter {
  import opened Wrappers
  import opened Strings
  import Session

  /** `AudioFormat`; `bitDepth` and `codec` are optional. */
  datatype AudioFormat = AudioFormat(
    format: string,
    channels: int,
    sampleRate: int,
    bitDepth: Option<int>,
    codec: Option<string>)

  /** `PHONE_FORMATS`. */
  const THREE_CX := AudioFormat("wav", 1, 8000, Some(16), None)
  const VOIP_STANDARD := AudioFormat("wav", 1, 16000, Some(16), None)
  const HIGH_QUALITY := AudioFormat("mp3", 2, 48000, None, Some("libmp3lame"))
  const WEB_STREAMING := AudioFormat("mp3", 1, 24000, None, Some("libmp3lame"))

  const PRESET_KEYS: seq<string> := ["3cx", "voip_standard", "high_quality", "web_streaming"]

  /** `PHONE_FORMATS[key]`: one of the four presets, or nothing. */
  function PhoneFormat(key: string): (r: Option<AudioFormat>)
    ensures r.Some? <==> key in PRESET_KEYS
    ensures r.Some? ==> r.value.channels in {1, 2} && r.value.format in {"wav", "mp3"}
  {
    if key == "3cx" then Some(THREE_CX)
    else if key == "voip_standard" then Some(VOIP_STANDARD)
    else if key == "high_quality" then Some(HIGH_QUALITY)
    else if key == "web_streaming" then Some(WEB_STREAMING)
    else None
  }

  /** One fluent-ffmpeg setting. */
  datatype FfmpegOption =
    | AudioChannels(channels: int)
    | AudioFrequency(hz: int)
    | AudioCodec(name: string)
    | OutputFormat(name: string)

  /** The settings `convertAudio` applies, in order: channels, sample rate, the
      format's codec if it has one, PCM 16-bit for a WAV format with a bit depth,
      and the container. A bit depth or codec of `0` or `""` counts as absent. */
  function ConvertOptions(f: AudioFormat): (opts: seq<FfmpegOption>)
    ensures 3 <= |opts| <= 5
    ensures opts[0] == AudioChannels(f.channels) && opts[1] == AudioFrequency(f.sampleRate)
    ensures opts[|opts| - 1] == OutputFormat(f.format)
    ensures forall i :: 2 <= i < |opts| - 1 ==> opts[i].AudioCodec?
  {
    var codec := if f.codec.Some? && f.codec.value != "" then [AudioCodec(f.codec.value)] else [];
    var pcm := if f.format == "wav" && f.bitDepth.Some? && f.bitDepth.value != 0 then [AudioCodec("pcm_s16le")] else [];
    [AudioChannels(f.channels), AudioFrequency(f.sampleRate)] + codec + pcm + [OutputFormat(f.format)]
  }

  /** What a sequence of settings leaves configured; `None` is ffmpeg's default. */
  datatype Encoding = Encoding(
    container: Option<string>,
    channels: Option<int>,
    sampleRate: Option<int>,
    codec: Option<string>)

  function Apply(opts: seq<FfmpegOption>): Encoding
  {
    if |opts| == 0 then Encoding(None, None, None, None)
    else
      var e := Apply(opts[..|opts| - 1]);
      match opts[|opts| - 1]
      case AudioChannels(n) => e.(channels := Some(n))
      case AudioFrequency(hz) => e.(sampleRate := Some(hz))
      case AudioCodec(name) => e.(codec := Some(name))
      case OutputFormat(name) => e.(container := Some(name))
  }

  /** The codec a format ends up with: PCM 16-bit overrides the format's own codec
      for a WAV format with a bit depth. */
  function EffectiveCodec(f: AudioFormat): Option<string> {
    if f.format == "wav" && f.bitDepth.Some? && f.bitDepth.value != 0 then Some("pcm_s16le")
    else if f.codec.Some? && f.codec.value != "" then f.codec
    else None
  }

  lemma ApplyAppend(opts: seq<FfmpegOption>, o: FfmpegOption)
    ensures Apply(opts + [o]) == match o
      case AudioChannels(n) => Apply(opts).(channels := Some(n))
      case AudioFrequency(hz) => Apply(opts).(sampleRate := Some(hz))
      case AudioCodec(name) => Apply(opts).(codec := Some(name))
      case OutputFormat(name) => Apply(opts).(container := Some(name))
  {
    assert (opts + [o])[..|opts|] == opts;
  }

  /** `convertAudio` configures exactly the format's container, channel count and
      sample rate, and its effective codec. */
  lemma {:induction false} ConvertOptionsConfigure(f: AudioFormat)
    ensures Apply(ConvertOptions(f)) == Encoding(Some(f.format), Some(f.channels), Some(f.sampleRate), EffectiveCodec(f))
  {
    var codec := if f.codec.Some? && f.codec.value != "" then [AudioCodec(f.codec.value)] else [];
    var pcm := if f.format == "wav" && f.bitDepth.Some? && f.bitDepth.value != 0 then [AudioCodec("pcm_s16le")] else [];
    var p2 := [AudioChannels(f.channels), AudioFrequency(f.sampleRate)];
    ApplyAppend([], AudioChannels(f.channels));
    ApplyAppend([AudioChannels(f.channels)], AudioFrequency(f.sampleRate));
    assert Apply(p2) == Encoding(None, Some(f.channels), Some(f.sampleRate), None);
    var p4 := p2 + codec + pcm;
    OptionalCodec(p2, codec);
    OptionalCodec(p2 + codec, pcm);
    assert Apply(p4).codec == EffectiveCodec(f);
    ApplyAppend(p4, OutputFormat(f.format));
  }

  /** Appending an optional codec setting changes only the codec. */
  lemma OptionalCodec(p: seq<FfmpegOption>, c: seq<FfmpegOption>)
    requires |c| <= 1 && forall i :: 0 <= i < |c| ==> c[i].AudioCodec?
    ensures Apply(p + c) == if c == [] then Apply(p) else Apply(p).(codec := Some(c[0].name))
  {
    if c == [] {
      assert p + c == p;
    } else {
      assert c == [c[0]];
      ApplyAppend(p, c[0]);
    }
  }

  /** The 3CX preset yields 8 kHz mono 16-bit PCM WAV; the MP3 presets use LAME. */
  lemma PresetEncodings()
    ensures Apply(ConvertOptions(THREE_CX)) == Encoding(Some("wav"), Some(1), Some(8000), Some("pcm_s16le"))
    ensures Apply(ConvertOptions(VOIP_STANDARD)) == Encoding(Some("wav"), Some(1), Some(16000), Some("pcm_s16le"))
    ensures Apply(ConvertOptions(HIGH_QUALITY)).codec == Some("libmp3lame")
    ensures Apply(ConvertOptions(WEB_STREAMING)).codec == Some("libmp3lame")
  {
    ConvertOptionsConfigure(THREE_CX);
    ConvertOptionsConfigure(VOIP_STANDARD);
    ConvertOptionsConfigure(HIGH_QUALITY);
    ConvertOptionsConfigure(WEB_STREAMING);
  }

  /** A WAV format with a bit depth is written as PCM 16-bit even when it names
      another codec. */
  lemma PcmOverridesCodec(f: AudioFormat)
    requires f.format == "wav" && f.bitDepth.Some? && f.bitDepth.value != 0
    ensures Apply(ConvertOptions(f)).codec == Some("pcm_s16le")
  {
    ConvertOptionsConfigure(f);
  }

  /** Where `convertTo3CXFormat` writes and the URL it returns. */
  datatype ConversionPlan = ConversionPlan(outputDir: string, outputPath: string, publicUrl: string, format: AudioFormat)

  /** The file a public URL denotes: static files are served from `<cwd>/public`. */
  function PublicFile(cwd: string, url: string): string {
    cwd + "/public" + url
  }

  /** A file written into the shared `public/audio` folder is the one its
      `/audio/` URL serves. */
  lemma SharedFileServed(cwd: string, name: string)
    ensures Session.JoinPath(cwd + "/public/audio", name) == PublicFile(cwd, "/audio/" + name)
  {
    assert cwd + "/public/audio" + "/" == cwd + "/public" + "/audio/";
  }

  /** A file written into a session folder is the one its session URL serves. */
  lemma SessionFileServed(cwd: string, id: string, name: string)
    ensures Session.JoinPath(Session.JoinPath(Session.SessionsBase(cwd), id), name)
            == PublicFile(cwd, "/audio/sessions/" + id + "/" + name)
  {
    assert Session.SessionsBase(cwd) + "/" == cwd + "/public" + "/audio/sessions/";
  }

  /** `convertTo3CXFormat`: into the session folder when a session id is given, else
      into the shared `public/audio` folder; always with the 3CX preset. */
  function ConvertTo3CXFormat(cwd: string, outputFileName: string, sessionId: Option<string>): (r: ConversionPlan)
    ensures r.format == THREE_CX
    ensures r.outputPath == r.outputDir + "/" + outputFileName
    ensures Truthy(sessionId) ==> r.outputDir == Session.GetSessionPaths(cwd, sessionId.value).folderPath
    ensures !Truthy(sessionId) ==> r.outputDir == cwd + "/public/audio"
    ensures PublicFile(cwd, r.publicUrl) == r.outputPath
  {
    if Truthy(sessionId) then
      var dir := Session.JoinPath(Session.SessionsBase(cwd), sessionId.value);
      SessionFileServed(cwd, sessionId.value, outputFileName);
      ConversionPlan(dir, Session.JoinPath(dir, outputFileName), "/audio/sessions/" + sessionId.value + "/" + outputFileName, THREE_CX)
    else
      var dir := cwd + "/public/audio";
      SharedFileServed(cwd, outputFileName);
      ConversionPlan(dir, Session.JoinPath(dir, outputFileName), "/audio/" + outputFileName, THREE_CX)
  }

  /** With a session id, the returned URL and path are the session file's. */
  lemma SessionConversionTargets(cwd: string, name: string, id: string)
    requires id != ""
    ensures ConvertTo3CXFormat(cwd, name, Some(id)).publicUrl == Session.GetSessionFileUrl(id, name)
    ensures ConvertTo3CXFormat(cwd, name, Some(id)).outputPath == Session.GetSessionFilePath(cwd, id, name)
  {
  }
}
