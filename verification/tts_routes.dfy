/** `POST /api/tts/basic` and `POST /api/tts/advanced`: synthesise speech, store
    the MP3 in a temporary file, convert it to 3CX WAV, delete the temporary file
    and record the generation. Neither handler calls the library validators: the
    only input check is that the required fields are present and non-empty. */
module TtsRoutes {
  import opened Wrappers
  import opened Strings
  import opened Effects
  import Numbers
  import Session
  import AudioConverter

  const TTS_MODEL := "tts-1-hd"

  /** The JSON body of the basic route. */
  datatype BasicRequest = BasicRequest(
    text: Option<string>,
    voice: Option<string>,
    speed: Option<real>,
    fileName: Option<string>)

  /** The JSON body of the advanced route. */
  datatype AdvancedRequest = AdvancedRequest(
    text: Option<string>,
    voice: Option<string>,
    instructions: Option<string>,
    fileName: Option<string>)

  /** The answer: status, the recorded generation and audio URL on success, the
      calls made, and the `audio_session_id` cookie set, if any. */
  datatype TtsReply = TtsReply(
    status: int,
    generation: Option<GenerationData>,
    audioUrl: Option<string>,
    trace: seq<Effect>,
    setCookie: Option<string>)

  /** `speed || 1.0`: an absent or zero speed becomes 1.0. */
  function SpeedOrDefault(speed: Option<real>): real {
    if speed.Some? && speed.value != 0.0 then speed.value else 1.0
  }

  /** `fileName ? fileName.replace('.mp3', '.wav') : <prefix><ts>.wav`. */
  function WavFileName(fileName: Option<string>, timestamp: nat, prefix: string): string {
    if Truthy(fileName) then ReplaceFirst(fileName.value, ".mp3", ".wav")
    else prefix + Numbers.NatToString(timestamp) + ".wav"
  }

  /** In `base + ".mp3"`, where `base` has no `.mp3`, the first `.mp3` is the
      appended one: it has no proper prefix that is also a suffix, so it cannot
      straddle the end of `base`. */
  lemma Mp3FirstAtEnd(base: string)
    requires !Contains(base, ".mp3")
    ensures IndexOf(base + ".mp3", ".mp3") == Some(|base|)
  {
    Mp3AppendedIsFirst(base, ".mp3");
  }

  lemma Mp3AppendedIsFirst(base: string, ext: string)
    requires ext == ".mp3" && !Contains(base, ext)
    ensures IndexOf(base + ext, ext) == Some(|base|)
  {
    assert forall i :: 1 <= i < |ext| ==> ext[i] != ext[0];
    AppendedIsFirst(base, ext);
  }

  /** A name whose only `.mp3` is its extension gets the extension `.wav`; a
      name without `.mp3` is used unchanged, extension or not. */
  lemma WavFileNameOfMp3(base: string, timestamp: nat, prefix: string)
    requires !Contains(base, ".mp3")
    ensures WavFileName(Some(base + ".mp3"), timestamp, prefix) == base + ".wav"
    ensures base != "" ==> WavFileName(Some(base), timestamp, prefix) == base
  {
    Mp3FirstAtEnd(base);
    ReplaceFirstSuffix(base, ".mp3", ".wav");
    ReplaceFirstAbsent(base, ".mp3", ".wav");
  }

  /** The calls of the basic route once the required fields are present. */
  function BasicPlan(text: string, voice: string, speed: real, cwd: string, sessionId: string,
                     fileName: Option<string>, now: nat): seq<Effect>
  {
    var info := Session.GetSessionPaths(cwd, sessionId);
    var tempPath := Session.GetSessionFilePath(cwd, sessionId, "temp_" + Numbers.NatToString(now) + ".mp3");
    var wavName := WavFileName(fileName, now, "prompt_");
    var conv := AudioConverter.ConvertTo3CXFormat(cwd, wavName, Some(sessionId));
    [ Speech(TTS_MODEL, voice, text, speed),
      MakeDirectory(info.folderPath),
      WriteFile(tempPath),
      MakeDirectory(conv.outputDir),
      Transcode(tempPath, conv.outputPath, conv.format),
      RemoveFile(tempPath),
      CreateGeneration(GenerationData(text, Some("basic"), voice, None, speed, "wav", wavName, conv.publicUrl)) ]
  }

  /** The basic route. `cookie` is the incoming `audio_session_id`; `mintTime` and
      `uuid` mint a session id when there is none; `now` names the files. */
  function Basic(req: BasicRequest, cwd: string, cookie: Option<string>, mintTime: nat, uuid: string,
                 now: nat, ok: Effect -> bool): (r: TtsReply)
    ensures r.status in {200, 400, 500}
    ensures r.status == 400 <==> !Truthy(req.text) || !Truthy(req.voice)
    ensures r.status == 400 ==> r.trace == [] && r.setCookie == None
    ensures r.status != 400 ==> r.trace != [] && r.trace[0] == Speech(TTS_MODEL, req.voice.value, req.text.value, SpeedOrDefault(req.speed))
    ensures r.status == 200 <==> r.status != 400 && Succeeds(r.trace, ok) && r.trace[|r.trace| - 1].CreateGeneration?
    ensures r.status == 200 ==> r.generation == Some(r.trace[|r.trace| - 1].data) && r.audioUrl == Some(r.generation.value.fileUrl)
    ensures r.setCookie.Some? ==> !Truthy(cookie)
  {
    if !Truthy(req.text) || !Truthy(req.voice) then TtsReply(400, None, None, [], None)
    else
      var speed := SpeedOrDefault(req.speed);
      var sid := Session.GetOrCreateSessionId(cookie, mintTime, uuid);
      var plan := BasicPlan(req.text.value, req.voice.value, speed, cwd, sid.id, req.fileName, now);
      var trace := Run(plan, ok);
      var setCookie := if sid.minted && ok(plan[0]) then Some(sid.id) else None;
      if Succeeds(plan, ok) then TtsReply(200, Some(plan[6].data), Some(plan[6].data.fileUrl), trace, setCookie)
      else TtsReply(500, None, None, trace, setCookie)
  }

  /** When every call succeeds, the basic route records a `basic` WAV generation
      whose URL is the session file it converted into, and removes the temporary
      MP3. */
  lemma BasicSuccess(req: BasicRequest, cwd: string, cookie: Option<string>, mintTime: nat, uuid: string,
                     now: nat, ok: Effect -> bool)
    requires Truthy(req.text) && Truthy(req.voice)
    requires forall e :: ok(e)
    ensures var r := Basic(req, cwd, cookie, mintTime, uuid, now, ok);
            var id := Session.GetOrCreateSessionId(cookie, mintTime, uuid).id;
            var name := WavFileName(req.fileName, now, "prompt_");
            var url := Session.GetSessionFileUrl(id, name);
            var temp := Session.GetSessionFilePath(cwd, id, "temp_" + Numbers.NatToString(now) + ".mp3");
            && r.status == 200
            && r.audioUrl == Some(url)
            && r.generation == Some(GenerationData(req.text.value, Some("basic"), req.voice.value, None,
                                                   SpeedOrDefault(req.speed), "wav", name, url))
            && Transcode(temp, AudioConverter.PublicFile(cwd, url), AudioConverter.THREE_CX) in r.trace
            && RemoveFile(temp) in r.trace
            && (r.setCookie.Some? <==> !Truthy(cookie))
  {
    var id := Session.GetOrCreateSessionId(cookie, mintTime, uuid).id;
    var plan := BasicPlan(req.text.value, req.voice.value, SpeedOrDefault(req.speed), cwd, id, req.fileName, now);
    assert Succeeds(plan, ok);
  }

  /** A browser that already has a session keeps it: no cookie is set and the
      audio lands in that session's folder. */
  lemma BasicReusesSession(req: BasicRequest, cwd: string, cookie: string, mintTime: nat, uuid: string,
                           now: nat, ok: Effect -> bool)
    requires Truthy(req.text) && Truthy(req.voice)
    requires cookie != "" && forall e :: ok(e)
    ensures var r := Basic(req, cwd, Some(cookie), mintTime, uuid, now, ok);
            && r.setCookie == None
            && StartsWith(r.audioUrl.value, Session.SESSIONS_URL_PREFIX + cookie + "/")
  {
    BasicSuccess(req, cwd, Some(cookie), mintTime, uuid, now, ok);
    var url := Session.GetSessionFileUrl(cookie, WavFileName(req.fileName, now, "prompt_"));
    assert url[..|Session.SESSIONS_URL_PREFIX + cookie + "/"|] == Session.SESSIONS_URL_PREFIX + cookie + "/";
  }

  /** A plan shaped like the basic route's whose fifth call, the conversion, is
      the first to fail stops there, with the temporary file written and neither
      removed nor recorded. */
  lemma FailedConversionTrace(plan: seq<Effect>, temp: string, ok: Effect -> bool)
    requires |plan| == 7 && plan[2] == WriteFile(temp) && plan[5] == RemoveFile(temp) && plan[6].CreateGeneration?
    requires forall i :: 0 <= i < 4 ==> !plan[i].Transcode? && !plan[i].RemoveFile? && !plan[i].CreateGeneration?
    requires plan[4].Transcode?
    requires forall e: Effect :: !e.Transcode? ==> ok(e)
    requires forall e: Effect :: e.Transcode? ==> !ok(e)
    ensures !Succeeds(plan, ok)
    ensures WriteFile(temp) in Run(plan, ok)
    ensures RemoveFile(temp) !in Run(plan, ok)
    ensures forall e :: e in Run(plan, ok) ==> !e.CreateGeneration?
  {
    assert !ok(plan[4]);
    RunStopsAt(plan, 4, ok);
    assert Run(plan, ok)[2] == plan[2];
  }

  /** A failed conversion leaves the temporary MP3 behind: the file was written,
      the removal is never reached, and nothing is recorded. */
  lemma BasicTempKeptWhenConversionFails(req: BasicRequest, cwd: string, cookie: Option<string>, mintTime: nat,
                                         uuid: string, now: nat, ok: Effect -> bool)
    requires Truthy(req.text) && Truthy(req.voice)
    requires forall e: Effect :: !e.Transcode? ==> ok(e)
    requires forall e: Effect :: e.Transcode? ==> !ok(e)
    ensures var r := Basic(req, cwd, cookie, mintTime, uuid, now, ok);
            var id := Session.GetOrCreateSessionId(cookie, mintTime, uuid).id;
            var temp := Session.GetSessionFilePath(cwd, id, "temp_" + Numbers.NatToString(now) + ".mp3");
            && r.status == 500
            && WriteFile(temp) in r.trace
            && RemoveFile(temp) !in r.trace
            && (forall e :: e in r.trace ==> !e.CreateGeneration?)
  {
    var id := Session.GetOrCreateSessionId(cookie, mintTime, uuid).id;
    var plan := BasicPlan(req.text.value, req.voice.value, SpeedOrDefault(req.speed), cwd, id, req.fileName, now);
    var temp := Session.GetSessionFilePath(cwd, id, "temp_" + Numbers.NatToString(now) + ".mp3");
    FailedConversionTrace(plan, temp, ok);
    assert Basic(req, cwd, cookie, mintTime, uuid, now, ok).trace == Run(plan, ok);
  }

  /** `speed` of the advanced route, from keywords of the lower-cased instructions:
      `fast`/`quick` give 1.5, else `slow`/`clear` give 0.8, else 1.0. The
      `very slow` (0.6) and `very fast` (2.0) branches are unreachable, because
      each phrase contains a keyword checked before it. */
  function SpeedHint(instructions: string): (speed: real)
    ensures speed in {1.5, 0.8, 1.0}
    ensures speed == 1.5 <==> Contains(ToLower(instructions), "fast") || Contains(ToLower(instructions), "quick")
    ensures speed == 0.8 <==> !(Contains(ToLower(instructions), "fast") || Contains(ToLower(instructions), "quick"))
                              && (Contains(ToLower(instructions), "slow") || Contains(ToLower(instructions), "clear"))
  {
    var lower := ToLower(instructions);
    if Contains(lower, "fast") || Contains(lower, "quick") then 1.5
    else if Contains(lower, "slow") || Contains(lower, "clear") then 0.8
    else if Contains(lower, "very slow") then
      assert OccursAt("very slow", "slow", 5);
      ContainsInfix(lower, "very slow", "slow", 5);
      0.6
    else if Contains(lower, "very fast") then
      assert OccursAt("very fast", "fast", 5);
      ContainsInfix(lower, "very fast", "fast", 5);
      2.0
    else 1.0
  }

  /** The hint ignores letter case. */
  lemma SpeedHintIgnoresCase(a: string, b: string)
    requires ToLower(a) == ToLower(b)
    ensures SpeedHint(a) == SpeedHint(b)
  {
  }

  /** Asking for "very slow" speech without a fast keyword yields 0.8, not 0.6. */
  lemma VerySlowIsOnlySlow(instructions: string)
    requires Contains(ToLower(instructions), "very slow")
    requires !Contains(ToLower(instructions), "fast") && !Contains(ToLower(instructions), "quick")
    ensures SpeedHint(instructions) == 0.8
  {
    assert OccursAt("very slow", "slow", 5);
    ContainsInfix(ToLower(instructions), "very slow", "slow", 5);
  }

  /** The calls of the advanced route once the required fields are present; it
      writes into the shared `public/audio` folder, not a session folder. */
  function AdvancedPlan(text: string, voice: string, instructions: string, cwd: string,
                        fileName: Option<string>, now: nat): seq<Effect>
  {
    var speed := SpeedHint(instructions);
    var audioDir := cwd + "/public/audio";
    var tempPath := Session.JoinPath(audioDir, "temp_advanced_" + Numbers.NatToString(now) + ".mp3");
    var wavName := WavFileName(fileName, now, "prompt_advanced_");
    var conv := AudioConverter.ConvertTo3CXFormat(cwd, wavName, None);
    [ Speech(TTS_MODEL, voice, text, speed),
      MakeDirectory(audioDir),
      WriteFile(tempPath),
      MakeDirectory(conv.outputDir),
      Transcode(tempPath, conv.outputPath, conv.format),
      RemoveFile(tempPath),
      CreateGeneration(GenerationData(text, Some("advanced"), voice, Some(instructions), speed, "wav", wavName, conv.publicUrl)) ]
  }

  /** The advanced route. */
  function Advanced(req: AdvancedRequest, cwd: string, now: nat, ok: Effect -> bool): (r: TtsReply)
    ensures r.status in {200, 400, 500}
    ensures r.setCookie == None
    ensures r.status == 400 <==> !Truthy(req.text) || !Truthy(req.voice) || !Truthy(req.instructions)
    ensures r.status == 400 ==> r.trace == []
    ensures r.status != 400 ==> r.trace != [] && r.trace[0] == Speech(TTS_MODEL, req.voice.value, req.text.value, SpeedHint(req.instructions.value))
    ensures r.status == 200 <==> r.status != 400 && Succeeds(r.trace, ok) && r.trace[|r.trace| - 1].CreateGeneration?
    ensures r.status == 200 ==> r.generation == Some(r.trace[|r.trace| - 1].data) && r.audioUrl == Some(r.generation.value.fileUrl)
  {
    if !Truthy(req.text) || !Truthy(req.voice) || !Truthy(req.instructions) then TtsReply(400, None, None, [], None)
    else
      var plan := AdvancedPlan(req.text.value, req.voice.value, req.instructions.value, cwd, req.fileName, now);
      var trace := Run(plan, ok);
      if Succeeds(plan, ok) then TtsReply(200, Some(plan[6].data), Some(plan[6].data.fileUrl), trace, None)
      else TtsReply(500, None, None, trace, None)
  }

  /** When every call succeeds, the advanced route records an `advanced` generation
      with the instructions and the hinted speed, served from `/audio/<name>`. */
  lemma AdvancedSuccess(req: AdvancedRequest, cwd: string, now: nat, ok: Effect -> bool)
    requires Truthy(req.text) && Truthy(req.voice) && Truthy(req.instructions)
    requires forall e :: ok(e)
    ensures var r := Advanced(req, cwd, now, ok);
            var name := WavFileName(req.fileName, now, "prompt_advanced_");
            var temp := Session.JoinPath(cwd + "/public/audio", "temp_advanced_" + Numbers.NatToString(now) + ".mp3");
            && r.status == 200
            && r.audioUrl == Some("/audio/" + name)
            && r.generation == Some(GenerationData(req.text.value, Some("advanced"), req.voice.value, req.instructions,
                                                   SpeedHint(req.instructions.value), "wav", name, "/audio/" + name))
            && Transcode(temp, AudioConverter.PublicFile(cwd, "/audio/" + name), AudioConverter.THREE_CX) in r.trace
            && RemoveFile(temp) in r.trace
  {
    var plan := AdvancedPlan(req.text.value, req.voice.value, req.instructions.value, cwd, req.fileName, now);
    assert Succeeds(plan, ok);
  }

  /** A synthesis failure ends the route before any file is touched. */
  lemma SynthesisFailureTouchesNothing(req: AdvancedRequest, cwd: string, now: nat, ok: Effect -> bool)
    requires Truthy(req.text) && Truthy(req.voice) && Truthy(req.instructions)
    requires forall e: Effect :: e.Speech? ==> !ok(e)
    ensures var r := Advanced(req, cwd, now, ok);
            r.status == 500 && |r.trace| == 1 && r.trace[0].Speech?
  {
  }
}
