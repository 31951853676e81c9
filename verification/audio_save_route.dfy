/** `POST /api/audio/save`: record an audio version the client already has as a
    new generation row. */
module AudioSaveRoute {
  import opened Wrappers
  import opened Effects
  import TtsRoutes

  /** The JSON body; `None` is a field that is absent. */
  datatype SaveRequest = SaveRequest(
    text: Option<string>,
    voice: Option<string>,
    speed: Option<real>,
    instructions: Option<string>,
    fileName: Option<string>,
    audioUrl: Option<string>,
    mode: Option<string>)

  datatype SaveReply = SaveReply(status: int, generation: Option<GenerationData>, trace: seq<Effect>)

  predicate Complete(req: SaveRequest) {
    Truthy(req.text) && Truthy(req.voice) && Truthy(req.fileName) && Truthy(req.audioUrl)
  }

  /** The row written: speed `|| 1.0`, instructions `|| undefined`, always WAV. */
  function Record(req: SaveRequest): GenerationData
    requires Complete(req)
  {
    GenerationData(req.text.value, req.mode, req.voice.value,
                   if Truthy(req.instructions) then req.instructions else None,
                   TtsRoutes.SpeedOrDefault(req.speed), "wav", req.fileName.value, req.audioUrl.value)
  }

  /** The route: 400 unless text, voice, file name and URL are all given; then one
      insert of the row `Record` builds from the body, answered 200 with that row
      or 500 when it fails. */
  function Save(req: SaveRequest, ok: Effect -> bool): (r: SaveReply)
    ensures r.status in {200, 400, 500}
    ensures r.status == 400 <==> !Complete(req)
    ensures r.status == 400 ==> r.trace == [] && r.generation.None?
    ensures r.status != 400 ==> |r.trace| == 1 && r.trace[0].CreateGeneration?
    ensures r.status == 200 <==> r.status != 400 && ok(r.trace[0])
    ensures r.status == 200 ==>
              && r.generation == Some(r.trace[0].data)
              && r.generation.value.format == "wav"
              && r.generation.value.fileUrl == req.audioUrl.value
              && r.generation.value.text == req.text.value
              && r.generation.value.speed != 0.0
    ensures r.status != 200 ==> r.generation.None?
    ensures r.status != 400 ==> r.trace[0] == CreateGeneration(Record(req))
    ensures r.status == 200 ==> r.generation == Some(Record(req))
  {
    if !Complete(req) then SaveReply(400, None, [])
    else
      var insert := CreateGeneration(Record(req));
      if ok(insert) then SaveReply(200, Some(insert.data), [insert]) else SaveReply(500, None, [insert])
  }

  /** The body that saves a given row again. */
  function RequestFor(g: GenerationData): SaveRequest {
    SaveRequest(Some(g.text), Some(g.voice), Some(g.speed), g.instructions, Some(g.fileName), Some(g.fileUrl), g.mode)
  }

  /** Saving a row's own fields writes that row back unchanged, exactly when the
      row is one the route could have written: all four required fields
      non-empty, a non-zero speed, no empty instructions, WAV format. */
  lemma SaveRoundTrip(g: GenerationData)
    requires g.text != "" && g.voice != "" && g.fileName != "" && g.fileUrl != ""
    ensures Record(RequestFor(g)) == g <==>
              g.speed != 0.0 && g.instructions != Some("") && g.format == "wav"
  {
  }

  /** A zero speed is stored as the default speed. */
  lemma ZeroSpeedIsDefault(req: SaveRequest)
    requires Complete(req) && req.speed == Some(0.0)
    ensures Record(req).speed == 1.0
  {
  }
}
