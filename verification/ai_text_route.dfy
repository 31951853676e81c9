/** `POST /api/ai-text`: ask the chat model to write, polish or name a prompt, and
    return the reply trimmed and cut to the speech length limit. The wording of
    the three system prompts is not reproduced; each is represented by a label. */
module AiTextRoute {
  import opened Wrappers
  import opened Strings
  import opened Effects

  const CHAT_MODEL := "gpt-4"
  const MAX_TOKENS: nat := 1000
  const TEMPERATURE: real := 0.7
  const MAX_TEXT_LENGTH: nat := 4096

  datatype Operation = Generate | Polish | GenerateFilename

  function ParseOperation(op: string): (r: Option<Operation>)
    ensures r == Some(Generate) <==> op == "generate"
    ensures r == Some(Polish) <==> op == "polish"
    ensures r == Some(GenerateFilename) <==> op == "generateFilename"
    ensures r.None? <==> op !in {"generate", "polish", "generateFilename"}
  {
    if op == "generate" then Some(Generate)
    else if op == "polish" then Some(Polish)
    else if op == "generateFilename" then Some(GenerateFilename)
    else None
  }

  function SystemPromptLabel(op: Operation): string {
    match op
    case Generate => "system prompt: write a phone prompt"
    case Polish => "system prompt: polish a phone prompt"
    case GenerateFilename => "system prompt: name a phone prompt file"
  }

  /** The user message; the file-name request carries `version || '1'`. */
  function UserPrompt(op: Operation, input: string, version: Option<string>): string {
    match op
    case Generate => "Create a professional phone prompt for: " + input
    case Polish => "Polish this phone prompt text:\n\n" + input
    case GenerateFilename =>
      "Generate a filename for this phone prompt (version " + (if Truthy(version) then version.value else "1") + "):\n\n" + input
  }

  /** The JSON body. */
  datatype AiRequest = AiRequest(operation: Option<string>, input: Option<string>, version: Option<string>)

  datatype AiReply = AiReply(
    status: int,
    text: Option<string>,
    filename: Option<string>,
    originalLength: nat,
    truncated: bool,
    trace: seq<Effect>)

  /** At most the first 4096 characters. */
  function Truncate(s: string): (t: string)
    ensures |t| <= MAX_TEXT_LENGTH && |t| <= |s|
    ensures t == s[..|t|]
    ensures |s| <= MAX_TEXT_LENGTH ==> t == s
    ensures |s| > MAX_TEXT_LENGTH ==> |t| == MAX_TEXT_LENGTH
  {
    if |s| > MAX_TEXT_LENGTH then s[..MAX_TEXT_LENGTH] else s
  }

  /** The route. `content` is the first choice's message content (`None` when
      there is no choice or no content). */
  function AiText(req: AiRequest, content: Option<string>, ok: Effect -> bool): (r: AiReply)
    ensures r.status in {200, 400, 500}
    ensures r.status == 400 <==>
              !Truthy(req.operation) || !Truthy(req.input) || ParseOperation(req.operation.value).None?
    ensures r.status == 400 ==> r.trace == []
    ensures r.status != 400 ==> |r.trace| == 1 && r.trace[0].ChatCompletion?
    ensures r.status == 200 <==> r.status != 400 && ok(r.trace[0]) && content.Some? && Trim(content.value) != ""
    ensures r.status == 200 ==>
              && r.text == Some(Truncate(Trim(content.value)))
              && r.originalLength == |Trim(content.value)|
              && (r.truncated <==> |Trim(content.value)| > MAX_TEXT_LENGTH)
    ensures r.filename.Some? <==> r.status == 200 && req.operation == Some("generateFilename")
    ensures r.filename.Some? ==> r.filename == r.text
  {
    if !Truthy(req.operation) || !Truthy(req.input) then AiReply(400, None, None, 0, false, [])
    else match ParseOperation(req.operation.value)
      case None => AiReply(400, None, None, 0, false, [])
      case Some(op) =>
        var call := ChatCompletion(CHAT_MODEL, SystemPromptLabel(op), UserPrompt(op, req.input.value, req.version),
                                   MAX_TOKENS, TEMPERATURE);
        if !ok(call) then AiReply(500, None, None, 0, false, [call])
        else
          var generated := if content.Some? then Trim(content.value) else "";
          if generated == "" then AiReply(500, None, None, 0, false, [call])
          else
            var text := Truncate(generated);
            AiReply(200, Some(text), if op == GenerateFilename then Some(text) else None,
                    |generated|, |generated| > MAX_TEXT_LENGTH, [call])
  }

  /** An unknown operation is refused before the model is called. */
  lemma UnknownOperationNotSent(op: string, input: string, version: Option<string>, content: Option<string>, ok: Effect -> bool)
    requires op != "" && input != "" && op !in {"generate", "polish", "generateFilename"}
    ensures AiText(AiRequest(Some(op), Some(input), version), content, ok) == AiReply(400, None, None, 0, false, [])
  {
  }

  /** A reply of only whitespace counts as no reply. */
  lemma BlankReplyFails(req: AiRequest, reply: string, ok: Effect -> bool)
    requires AllWhitespace(reply)
    ensures AiText(req, Some(reply), ok).status != 200
  {
    TrimEmptyIff(reply);
  }

  /** The returned text always fits the speech length limit, and is the start of
      the trimmed reply. */
  lemma ReturnedTextFitsSpeech(req: AiRequest, content: Option<string>, ok: Effect -> bool)
    requires AiText(req, content, ok).status == 200
    ensures var t := AiText(req, content, ok).text.value;
            |t| <= MAX_TEXT_LENGTH && t == Trim(content.value)[..|t|] && t != ""
  {
  }

  /** The version defaults to `1` in the file-name request. */
  lemma DefaultVersion(input: string)
    ensures UserPrompt(GenerateFilename, input, None) == UserPrompt(GenerateFilename, input, Some("1"))
  {
  }
}
