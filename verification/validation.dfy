/** The request validators of the library layer: text, voice, speed, file name and
    instructions. Every rejection is a `ValidationError` (400, `VALIDATION_ERROR`).
    A field is `None` when the request leaves it out. */
module Validation {
  import opened Wrappers
  import opened Strings
  import opened Errors

  /** `VALID_VOICES`: the six voices the validator accepts. */
  const VALID_VOICES: seq<string> := ["alloy", "echo", "fable", "onyx", "nova", "shimmer"]

  /** `TTS_LIMITS`. */
  const MAX_TEXT_LENGTH: nat := 4096
  const MIN_SPEED: real := 0.25
  const MAX_SPEED: real := 4.0
  const DEFAULT_SPEED: real := 1.0

  const MAX_FILE_NAME_LENGTH: nat := 255
  const MAX_INSTRUCTIONS_LENGTH: nat := 1000

  /** A rejection by one of the validators. */
  predicate IsValidationFailure<T>(r: Result<T, AppError>) {
    r.Err? ==> r.error.statusCode == 400 && r.error.code == Some("VALIDATION_ERROR")
  }

  /** `validateTTSText`: the trimmed text, which must be non-empty and at most
      4096 characters long; the length is measured after trimming. */
  function ValidateTTSText(text: Option<string>): (r: Result<string, AppError>)
    ensures IsValidationFailure(r)
    ensures r.Ok? <==> Truthy(text) && Trim(text.value) != "" && |Trim(text.value)| <= MAX_TEXT_LENGTH
    ensures r.Ok? ==> r.value == Trim(text.value)
  {
    if !Truthy(text) then Err(NewValidationError("Text is required and must be a string", None))
    else
      var t := Trim(text.value);
      if |t| == 0 then Err(NewValidationError("Text cannot be empty", None))
      else if |t| > MAX_TEXT_LENGTH then
        Err(NewValidationError("Text exceeds maximum length of 4096 characters",
          Some([Field("length", JNumber(|t| as real)), Field("maxLength", JNumber(MAX_TEXT_LENGTH as real))])))
      else Ok(t)
  }

  /** A text made only of whitespace is rejected. */
  lemma WhitespaceTextRejected(text: string)
    requires AllWhitespace(text)
    ensures ValidateTTSText(Some(text)).Err?
  {
    TrimEmptyIff(text);
  }

  /** Surrounding whitespace does not count against the limit: a 4096-character
      text is accepted however much whitespace surrounds it, and returned bare. */
  lemma TextLimitAfterTrim(a: string, t: string, b: string)
    requires AllWhitespace(a) && AllWhitespace(b)
    requires |t| == MAX_TEXT_LENGTH && !IsWhitespace(t[0]) && !IsWhitespace(t[|t| - 1])
    ensures ValidateTTSText(Some(a + t + b)) == Ok(t)
  {
    TrimUnique(a, t, b);
  }

  /** `validateVoice`: the voice itself, if it is one of the six. */
  function ValidateVoice(voice: Option<string>): (r: Result<string, AppError>)
    ensures IsValidationFailure(r)
    ensures r.Ok? <==> voice.Some? && voice.value in VALID_VOICES
    ensures r.Ok? ==> r.value == voice.value
  {
    if !Truthy(voice) then Err(NewValidationError("Voice is required and must be a string", None))
    else if voice.value !in VALID_VOICES then
      Err(NewValidationError("Invalid voice. Must be one of: alloy, echo, fable, onyx, nova, shimmer",
        Some([Field("providedVoice", JString(voice.value)),
              Field("validVoices", JList(seq(|VALID_VOICES|, i requires 0 <= i < |VALID_VOICES| => JString(VALID_VOICES[i]))))])))
    else Ok(voice.value)
  }

  /** `validateSpeed`: an absent speed is 1.0; a given one is kept when it lies in
      [0.25, 4.0], both ends included, and rejected otherwise. */
  function ValidateSpeed(speed: Option<real>): (r: Result<real, AppError>)
    ensures IsValidationFailure(r)
    ensures speed.None? ==> r == Ok(DEFAULT_SPEED)
    ensures speed.Some? ==> (r.Ok? <==> MIN_SPEED <= speed.value <= MAX_SPEED)
    ensures speed.Some? && r.Ok? ==> r.value == speed.value
  {
    match speed
    case None => Ok(DEFAULT_SPEED)
    case Some(s) =>
      if s < MIN_SPEED || s > MAX_SPEED then
        Err(NewValidationError("Speed must be between 0.25 and 4",
          Some([Field("providedSpeed", JNumber(s)), Field("minSpeed", JNumber(MIN_SPEED)), Field("maxSpeed", JNumber(MAX_SPEED))])))
      else Ok(s)
  }

  /** The characters `validateFileName` refuses: `< > : " / \ | ? *` and the
      control characters U+0000 to U+001F. */
  predicate IsForbiddenFileNameChar(c: char) {
    c in "<>:\"/\\|?*" || c < ' '
  }

  predicate HasForbiddenChar(s: string) {
    exists i :: 0 <= i < |s| && IsForbiddenFileNameChar(s[i])
  }

  /** `validateFileName`: no name (absent or empty) is `None`; otherwise the trimmed
      name, which must avoid the forbidden characters and be at most 255 long. */
  function ValidateFileName(fileName: Option<string>): (r: Result<Option<string>, AppError>)
    ensures IsValidationFailure(r)
    ensures !Truthy(fileName) ==> r == Ok(None)
    ensures Truthy(fileName) ==>
              (r.Ok? <==> !HasForbiddenChar(Trim(fileName.value)) && |Trim(fileName.value)| <= MAX_FILE_NAME_LENGTH)
    ensures Truthy(fileName) && r.Ok? ==> r.value == Some(Trim(fileName.value))
  {
    if !Truthy(fileName) then Ok(None)
    else
      var t := Trim(fileName.value);
      if HasForbiddenChar(t) then
        Err(NewValidationError("Filename contains invalid characters", Some([Field("fileName", JString(t))])))
      else if |t| > MAX_FILE_NAME_LENGTH then
        Err(NewValidationError("Filename is too long (max 255 characters)", None))
      else Ok(Some(t))
  }

  /** A name of spaces is not "no name": it is accepted and becomes the empty name. */
  lemma BlankFileNameBecomesEmpty(name: string)
    requires name != "" && AllWhitespace(name)
    ensures ValidateFileName(Some(name)) == Ok(Some(""))
  {
    TrimEmptyIff(name);
  }

  /** A path-traversal name is refused because it contains `/`. */
  lemma TraversalNameRejected()
    ensures ValidateFileName(Some("../../etc/passwd")).Err?
  {
    ForbiddenCharRejected("../../etc/passwd", 2);
  }

  /** A name with a forbidden character and no surrounding whitespace is refused. */
  lemma ForbiddenCharRejected(n: string, k: nat)
    requires k < |n| && IsForbiddenFileNameChar(n[k])
    requires !IsWhitespace(n[0]) && !IsWhitespace(n[|n| - 1])
    ensures ValidateFileName(Some(n)).Err?
  {
    TrimOfCore(n);
  }

  /** `validateInstructions`: the trimmed instructions, 1 to 1000 characters. */
  function ValidateInstructions(instructions: Option<string>): (r: Result<string, AppError>)
    ensures IsValidationFailure(r)
    ensures r.Ok? <==> Truthy(instructions) && 0 < |Trim(instructions.value)| <= MAX_INSTRUCTIONS_LENGTH
    ensures r.Ok? ==> r.value == Trim(instructions.value)
  {
    if !Truthy(instructions) then Err(NewValidationError("Instructions are required and must be a string", None))
    else
      var t := Trim(instructions.value);
      if |t| == 0 then Err(NewValidationError("Instructions cannot be empty", None))
      else if |t| > MAX_INSTRUCTIONS_LENGTH then
        Err(NewValidationError("Instructions are too long (max 1000 characters)", Some([Field("length", JNumber(|t| as real))])))
      else Ok(t)
  }
}
