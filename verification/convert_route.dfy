/** `POST /api/convert`: re-encode an existing audio file with a preset or a custom
    format into the shared `public/audio` folder. */
module ConvertRoute {
  import opened Wrappers
  import opened Strings
  import opened Effects
  import opened AudioConverter
  import Numbers
  import Session

  /** The JSON body; `customFormat` is `None` when absent. */
  datatype ConvertRequest = ConvertRequest(
    audioUrl: Option<string>,
    formatPreset: Option<string>,
    customFormat: Option<AudioFormat>)

  datatype ConvertReply = ConvertReply(
    status: int,
    convertedUrl: Option<string>,
    format: Option<AudioFormat>,
    trace: seq<Effect>)

  /** A known preset wins, then a custom format, then the 3CX preset. */
  function ChooseFormat(preset: Option<string>, custom: Option<AudioFormat>): (f: AudioFormat)
    ensures Truthy(preset) && preset.value in PRESET_KEYS ==> Some(f) == PhoneFormat(preset.value)
    ensures !(Truthy(preset) && preset.value in PRESET_KEYS) && custom.Some? ==> f == custom.value
    ensures !(Truthy(preset) && preset.value in PRESET_KEYS) && custom.None? ==> f == THREE_CX
  {
    if Truthy(preset) && PhoneFormat(preset.value).Some? then PhoneFormat(preset.value).value
    else if custom.Some? then custom.value
    else THREE_CX
  }

  /** `path.join(cwd, 'public', 'audio', audioUrl.replace('/audio/', ''))`. */
  function InputPath(cwd: string, audioUrl: string): string {
    Session.JoinPath(cwd + "/public/audio", ReplaceFirst(audioUrl, "/audio/", ""))
  }

  /** For a URL under `/audio/` (shared or session file) the input is the file the
      URL serves. */
  lemma InputIsServedFile(cwd: string, rest: string)
    ensures InputPath(cwd, "/audio/" + rest) == PublicFile(cwd, "/audio/" + rest)
  {
    ReplaceFirstPrefix("/audio/", rest, "");
  }

  /** `converted_<ts>.<format>`. */
  function OutputName(now: nat, f: AudioFormat): string {
    "converted_" + Numbers.NatToString(now) + "." + f.format
  }

  /** Output names made at different milliseconds differ, so one conversion never
      overwrites the result of an earlier one in the shared folder. */
  lemma OutputNameDeterminesTime(t1: nat, f1: AudioFormat, t2: nat, f2: AudioFormat)
    requires '.' !in f1.format && '.' !in f2.format
    requires OutputName(t1, f1) == OutputName(t2, f2)
    ensures t1 == t2 && f1.format == f2.format
  {
    var d1 := Numbers.NatToString(t1);
    var d2 := Numbers.NatToString(t2);
    var n := OutputName(t1, f1);
    assert n == "converted_" + (d1 + "." + f1.format);
    assert n == "converted_" + (d2 + "." + f2.format);
    assert d1 + "." + f1.format == n[10..] == d2 + "." + f2.format;
    DigitsThenDot(d1, f1.format, d2, f2.format);
    Numbers.NatToStringInjective(t1, t2);
  }

  /** In digits, `.`, then a dot-free suffix, the only `.` follows the digits. */
  lemma DotOnlyAfterDigits(d: string, e: string)
    requires Numbers.AllDigits(d) && '.' !in e
    ensures (d + "." + e)[|d|] == '.'
    ensures forall i :: 0 <= i < |d + "." + e| && i != |d| ==> (d + "." + e)[i] != '.'
  {
    var s := d + "." + e;
    assert forall i :: 0 <= i < |d| ==> s[i] == d[i];
    assert forall i :: |d| < i < |s| ==> s[i] == e[i - |d| - 1];
  }

  /** Two digit strings each followed by `.` and a dot-free suffix split the same
      way when the whole strings agree. */
  lemma DigitsThenDot(d1: string, e1: string, d2: string, e2: string)
    requires Numbers.AllDigits(d1) && Numbers.AllDigits(d2)
    requires '.' !in e1 && '.' !in e2
    requires d1 + "." + e1 == d2 + "." + e2
    ensures d1 == d2 && e1 == e2
  {
    var s := d1 + "." + e1;
    DotOnlyAfterDigits(d1, e1);
    DotOnlyAfterDigits(d2, e2);
    assert |d1| == |d2|;
    assert d1 == s[..|d1|] == d2;
    assert e1 == s[|d1| + 1..] == e2;
  }

  /** The route: 400 without a URL; 404 when the input is not accessible; 500 when
      the conversion fails; otherwise the new file's URL and the format used. */
  function Convert(req: ConvertRequest, cwd: string, now: nat, ok: Effect -> bool): (r: ConvertReply)
    ensures r.status in {200, 400, 404, 500}
    ensures r.status == 400 <==> !Truthy(req.audioUrl)
    ensures r.status == 400 ==> r.trace == []
    ensures r.status != 400 ==> r.trace != [] && r.trace[0] == CheckAccess(InputPath(cwd, req.audioUrl.value))
    ensures r.status == 404 <==> r.status != 400 && !ok(r.trace[0])
    ensures r.status == 404 ==> |r.trace| == 1
    ensures r.status == 200 ==> r.convertedUrl.Some? && r.format.Some?
    ensures r.status == 200 ==> r.format == Some(ChooseFormat(req.formatPreset, req.customFormat))
    ensures r.status == 200 ==> r.convertedUrl == Some("/audio/" + OutputName(now, r.format.value))
    ensures r.status != 400 && r.status != 404 ==>
              |r.trace| == 2 && r.trace[1].Transcode?
              && r.trace[1].output == Session.JoinPath(cwd + "/public/audio", OutputName(now, ChooseFormat(req.formatPreset, req.customFormat)))
    ensures r.status == 200 ==> r.trace == [CheckAccess(InputPath(cwd, req.audioUrl.value)),
                                            Transcode(InputPath(cwd, req.audioUrl.value),
                                                      PublicFile(cwd, r.convertedUrl.value), r.format.value)]
    ensures r.status == 200 <==> r.status != 400 && Succeeds(r.trace, ok) && |r.trace| == 2
  {
    if !Truthy(req.audioUrl) then ConvertReply(400, None, None, [])
    else
      var input := InputPath(cwd, req.audioUrl.value);
      if !ok(CheckAccess(input)) then ConvertReply(404, None, None, [CheckAccess(input)])
      else
        var format := ChooseFormat(req.formatPreset, req.customFormat);
        var name := OutputName(now, format);
        SharedFileServed(cwd, name);
        var convert := Transcode(input, Session.JoinPath(cwd + "/public/audio", name), format);
        var trace := [CheckAccess(input), convert];
        if !ok(convert) then
          assert !ok(trace[1]);
          ConvertReply(500, None, None, trace)
        else ConvertReply(200, Some("/audio/" + name), Some(format), trace)
  }

  /** The output file's extension is the chosen container, so converting with a
      preset names the file after the preset's format. */
  lemma PresetNamesOutput(req: ConvertRequest, cwd: string, now: nat, ok: Effect -> bool, key: string)
    requires Truthy(req.audioUrl) && req.formatPreset == Some(key) && key in PRESET_KEYS
    requires forall e :: ok(e)
    ensures var r := Convert(req, cwd, now, ok);
            && r.status == 200
            && r.format == PhoneFormat(key)
            && r.convertedUrl == Some("/audio/" + OutputName(now, PhoneFormat(key).value))
  {
  }

  /** Converting a session file reads the file the session URL serves. */
  lemma SessionFileIsInput(cwd: string, id: string, fileName: string)
    ensures InputPath(cwd, Session.GetSessionFileUrl(id, fileName)) == Session.GetSessionFilePath(cwd, id, fileName)
  {
    var rest := "sessions/" + id + "/" + fileName;
    assert "/audio/sessions/" == "/audio/" + "sessions/";
    assert Session.GetSessionFileUrl(id, fileName) == "/audio/" + rest;
    InputIsServedFile(cwd, rest);
  }
}
