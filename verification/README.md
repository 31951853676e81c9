# Phone prompt generator — a Dafny model

This project models the server and client logic of a small web application that
turns text into telephone-system prompts. The application synthesises speech with a
text-to-speech service and converts it to the 8 kHz mono 16-bit WAV format that
3CX phone systems expect. It keeps a history of generations and a library of prompt
templates with `{placeholder}` variables. It protects everything behind a
single-user login with a rate limiter and signed session cookies.

The model is written in functional style. Each process-wide map is a value that an
operation takes and returns: the login-attempt table and the session store. Each
database table is a sequence of rows with distinct ids. Everything the application
cannot decide for itself is a parameter:

- the clock;
- random tokens and UUIDs;
- the HMAC signing function;
- the credential check;
- the environment;
- whether each external call succeeds.

The external calls are speech synthesis, chat completion, the filesystem, ffmpeg and
database inserts. A route handler returns the trace of the calls it made
(`Effects.Run`). The trace ends at the first failing call, because every handler
awaits its calls one after another inside a single `try`.

Modules follow the source files:

| module | source |
|---|---|
| `Validation` | `lib/validation.ts` |
| `Errors` | `lib/errors.ts` |
| `Auth` | `lib/auth.ts` |
| `LoginRoute` | `app/api/auth/login/route.ts` |
| `Session` | `lib/session.ts` |
| `EnvValidation` | `lib/env-validation.js` |
| `AudioConverter` | `lib/audio-converter.ts` |
| `Voices` | `lib/voices.ts` |
| `Middleware` | `middleware.ts` |
| `TtsRoutes` | the two `app/api/tts/*/route.ts` |
| `ConvertRoute` | `app/api/convert/route.ts` |
| `AiTextRoute` | `app/api/ai-text/route.ts` |
| `HistoryRoute` | `app/api/history/route.ts` |
| `TemplatesRoute` | `app/api/templates/route.ts` |
| `AudioSaveRoute` | `app/api/audio/save/route.ts` |
| `CleanupRoute` | `app/api/sessions/cleanup/route.ts` |
| `TemplateManager` | `components/TemplateManager.tsx` |
| `TtsAdvancedPanel` | `components/TTSAdvanced.tsx` |

Shared helpers:

- `Strings`: JavaScript `trim`, `indexOf`, `replace`, `split`/`join` and ASCII
  `toLowerCase`.
- `Numbers`: decimal rendering and `parseInt`.
- `Sorting`: insertion sort under a total preorder, which stands for a database
  `orderBy`.
- `TemplateText`: template text as literal pieces and placeholders.
- `Effects` and `Wrappers`.

JavaScript truthiness of a request field is `Wrappers.Truthy`: a field counts only
when it is present and non-empty.

Where the code differs from what its comments or the application's documentation
suggest, the model follows the code:

- Neither text-to-speech route, nor any other route, calls the validators in
  `lib/validation.ts`. The routes check only that their required fields are present
  and non-empty.
- The advanced route writes into the shared `public/audio` folder, not into a
  session folder.
- The cleanup endpoint's comment speaks of production. The check it makes allows any
  caller in development, and any caller whose `x-cleanup-auth` header equals
  `CLEANUP_SECRET_KEY`. An absent header never matches an unset key, because `null`
  is not `undefined`.
- The three voice lists disagree:
  - the advanced panel offers `ballad`, which the catalogue lacks;
  - the validator refuses `ash`, `coral` and `sage`, which the catalogue lists.
- The advanced route's `very slow` (0.6) and `very fast` (2.0) speed branches are
  unreachable. Each phrase contains a keyword (`slow`, `fast`) that is checked
  earlier.
- Deleting a history entry removes only the database row. The audio file stays.
- The middleware tests only that the `auth_session` cookie is present. It does not
  check that the cookie is valid.

## Model

| member | source | states |
|---|---|---|
| Validation.ValidateTTSText | lib/validation.ts:28-47 | Accepts exactly a present text whose trimmed form is non-empty and at most 4096 characters, and returns the trimmed form; every rejection is a 400 `VALIDATION_ERROR` |
| Validation.WhitespaceTextRejected | lib/validation.ts:33-37 | A text made only of whitespace is rejected |
| Validation.TextLimitAfterTrim | lib/validation.ts:33-46 | The length limit is measured after trimming: a 4096-character core with any surrounding whitespace is accepted and returned bare |
| Validation.ValidateVoice | lib/validation.ts:52-65 | Accepts exactly the six listed voices and returns the voice unchanged; everything else is a validation error |
| Validation.ValidateSpeed | lib/validation.ts:70-91 | An absent speed becomes 1.0; a given speed is accepted exactly when it lies in [0.25, 4.0] and is then returned unchanged |
| Validation.ValidateFileName | lib/validation.ts:96-122 | An absent or empty name is "no name"; otherwise the trimmed name is accepted exactly when it has none of `< > : " / \ \| ? *` or control characters and is at most 255 long |
| Validation.BlankFileNameBecomesEmpty | lib/validation.ts:97-105 | A name of spaces is not "no name": it is accepted as the empty name |
| Validation.ForbiddenCharRejected | lib/validation.ts:105-114 | Any name holding a forbidden character (and not padded with whitespace) is refused |
| Validation.TraversalNameRejected | lib/validation.ts:107-114 | `../../etc/passwd` is refused |
| Validation.ValidateInstructions | lib/validation.ts:127-146 | Accepts exactly present instructions whose trimmed form has 1 to 1000 characters, and returns the trimmed form |
| Errors.NewAppError | lib/errors.ts:5-17 | The base error keeps its message and defaults its status to 500 |
| Errors.NewValidationError | lib/errors.ts:19-24 | A validation error carries 400 and `VALIDATION_ERROR` and keeps its message and details |
| Errors.NewAuthenticationError | lib/errors.ts:26-30 | 401 and `AUTHENTICATION_ERROR`, message defaulting to "Authentication required" |
| Errors.NewAuthorizationError | lib/errors.ts:32-36 | 403 and `AUTHORIZATION_ERROR`, message defaulting to "Insufficient permissions" |
| Errors.NewNotFoundError | lib/errors.ts:38-42 | 404 and `NOT_FOUND`; the message is the resource followed by " not found" |
| Errors.NewRateLimitError | lib/errors.ts:44-48 | 429 and `RATE_LIMIT_ERROR`, message defaulting to "Too many requests" |
| Errors.ExternalMessage | lib/errors.ts:58 | The message names the service after a fixed prefix, then the given message |
| Errors.NewExternalApiError | lib/errors.ts:50-64 | 502 and `EXTERNAL_API_ERROR`, with details holding the service and the original error's message (undefined when there is none) |
| Errors.HandleOpenAIError | lib/errors.ts:70-106 | The checks apply in order: a bad key (401 or "API key") wins, then rate limiting becomes a 429 error, then quota, then overload; anything else is a 502 carrying the upstream message or a generic one |
| Errors.UpstreamStatus | lib/errors.ts:70-106 | An upstream failure is always reported as 429 or 502 |
| Errors.BadKeyBeatsRateLimit | lib/errors.ts:72-82 | A 429 whose message mentions the API key is classified as a bad key, not a rate limit |
| Errors.LogSeverity | lib/errors.ts:111-137 | An error is logged as a warning exactly when it is an `AppError` with a 4xx status |
| Errors.SeverityOfClasses | lib/errors.ts:19-64 | Among the subclasses only the external-API error is logged as an error |
| Errors.FormatErrorResponse | lib/errors.ts:142-166 | An `AppError` keeps its message, code and status; any other error becomes `INTERNAL_ERROR`/500; debug information appears exactly outside production |
| Errors.ProductionHidesUnexpected | lib/errors.ts:155-165 | In production, two unexpected errors give identical bodies, so nothing of the message leaks |
| Auth.IsRateLimited | lib/auth.ts:30-41 | No entry is not limited; an entry past its reset time is deleted and not limited; otherwise limited exactly at five or more failures |
| Auth.RecordFailedAttempt | lib/auth.ts:46-60 | A first failure opens a 15-minute window; later ones count up and push the window back only once the count reaches five; no other entry changes |
| Auth.ClearLoginAttempts | lib/auth.ts:65-67 | The identifier's entry goes and every other stays as it was |
| Auth.ClearedNotLimited | lib/auth.ts:30-67 | Right after clearing, the identifier is not limited at any time |
| Auth.CreateSession | lib/auth.ts:110-137 | Fails exactly without a signing secret; otherwise stores the fresh token for 24 hours and issues `token.signature` |
| Auth.IsAuthenticated | lib/auth.ts:157-189 | Authenticated exactly when the cookie is present, its first two `.`-fields are a non-empty token and its correct signature, and the session is known and not expired; an expired session is removed and nothing else changes |
| Auth.IssuedCookieAuthenticates | lib/auth.ts:110-189 | The cookie issued by `createSession` authenticates up to and including 24 hours later and not afterwards |
| Auth.TrailingFieldsIgnored | lib/auth.ts:166 | Fields after the signature are ignored: a valid cookie with `.anything` appended still authenticates |
| Auth.DestroySession | lib/auth.ts:142-152 | The cookie's token, signed or not, leaves the store; without a cookie nothing changes |
| Auth.DestroyedCookieRejected | lib/auth.ts:142-189 | After logging out, the same cookie no longer authenticates |
| Auth.DestroyKeepsOtherSessions | lib/auth.ts:142-189 | Logging out never changes whether a cookie with another token authenticates |
| Auth.ValidateCredentials | lib/auth.ts:72-104 | Refuses without both variables; throws exactly when the usernames padded to 100 characters differ in UTF-8 byte length; accepts exactly when the padded usernames are equal and the password matches as plain text or by bcrypt |
| Auth.PadEnd | lib/auth.ts:82-83 | `padEnd`: a longer string is kept, a shorter one gets spaces up to the width |
| Auth.Utf8LengthBounds | lib/auth.ts:82-83 | A string takes at least one byte per character, and exactly one for ASCII |
| Auth.LongUsernameThrows | lib/auth.ts:81-84 | Against an ASCII username of at most 100 characters, any username over 100 characters makes the comparison throw |
| Auth.TrailingSpaceAccepted | lib/auth.ts:81-94 | Padding hides a trailing space, so `u + " "` logs in as `u` |
| Auth.CleanupExpiredSessions | lib/auth.ts:221-228 | Exactly the sessions past their expiry are removed; the rest are kept unchanged |
| Auth.CleanupKeepsAuthentication | lib/auth.ts:221-228 | Sweeping expired sessions never changes whether a cookie authenticates |
| Auth.CleanupIdempotent | lib/auth.ts:221-228 | A second sweep at the same time removes nothing more |
| LoginRoute.ClientIdentifier | app/api/auth/login/route.ts:23-26 | The first comma-separated hop of `x-forwarded-for`, else of `x-real-ip`, trimmed; `unknown` when both are missing or empty |
| LoginRoute.BareIdentifier | app/api/auth/login/route.ts:26 | A comma-free word without surrounding whitespace (such as `unknown`) identifies itself |
| LoginRoute.FirstForwardedHop | app/api/auth/login/route.ts:23-26 | Behind a proxy chain the identifier is the trimmed first hop, whatever follows |
| LoginRoute.Login | app/api/auth/login/route.ts:10-65 | The answer is one of 200/400/401/429/500, and a session cookie is set exactly on 200 |
| LoginRoute.MissingFieldsRejectedFirst | app/api/auth/login/route.ts:15-20 | A missing username or password gives 400 before the limiter is consulted, with no state change |
| LoginRoute.LimitedIgnoresCredentials | app/api/auth/login/route.ts:29-35 | A limited client gets 429, and neither the answer nor the state depends on the credentials |
| LoginRoute.WrongCredentialsRecordOneFailure | app/api/auth/login/route.ts:38-46 | A refused credential check gives 401, records exactly one failure and leaves the sessions alone |
| LoginRoute.CredentialThrowCountsNothing | app/api/auth/login/route.ts:37-63 | A throw in the credential check gives 500 with no cookie, no recorded failure and no session change |
| LoginRoute.LongUsernameNotCounted | app/api/auth/login/route.ts:37-63 | Against an ASCII username of at most 100 characters, a username over 100 characters gets 500 and never counts towards the lockout |
| LoginRoute.RightCredentialsClearAndCreate | app/api/auth/login/route.ts:48-64 | Right credentials leave the failure table exactly as it was minus the client's entry; with a signing secret the answer is 200 with cookie `token.signature` and the sessions gain the fresh 24-hour session with every other session unchanged; without one the answer is 500 and the sessions are untouched |
| LoginRoute.CheckThenClear | app/api/auth/login/route.ts:29-49 | Whether or not the limiter dropped the client's expired entry, clearing afterwards removes exactly that entry |
| LoginRoute.FailedLoginStep | lib/auth.ts:46-60 | One rejected login opens the window or counts one more failure in it |
| LoginRoute.FailuresAccumulate | lib/auth.ts:46-60 | Up to five failures inside the first window are counted one by one; the window moves only at the fifth |
| LoginRoute.FiveFailuresLockOut | app/api/auth/login/route.ts:29-46 | Five failures within 15 minutes lock the client out for 15 minutes after the fifth, even with the right credentials |
| Session.GetOrCreateSessionId | lib/session.ts:19-38 | An existing cookie is kept; a session id is minted only when the cookie is missing or empty |
| Session.MintedIdShape | lib/session.ts:25 | A minted id is `session_`, the decimal timestamp, `_`, then the first 8 UUID characters, and the timestamp can be read back |
| Session.MintedIdsDistinct | lib/session.ts:25 | Ids minted at different milliseconds differ, whatever the UUIDs |
| Session.MintedIdIsSafeSegment | lib/session.ts:25 | A minted id holds no character the file-name validator refuses, so it is a single path segment |
| Session.GetSessionPaths | lib/session.ts:43-55 | The folder lies under the sessions base and the public prefix under `/audio/sessions/` |
| Session.FileInsideSessionFolder | lib/session.ts:119-128 | A session file sits directly in its session folder, and its URL is the folder's public prefix plus the name |
| Session.SessionFilesDisjoint | lib/session.ts:119-121 | For session ids without `/`, two sessions never share a file path, and neither do two names within one session |
| Session.CleanupOldSessions | lib/session.ts:68-100 | Reports the number of folders removed and their names, which are the stale, deletable folders in listing order; an unreadable sessions folder gives 0 |
| Session.RemovedNamesExact | lib/session.ts:84-89 | Exactly the folders older than 24 hours (strictly) whose deletion succeeds are reported |
| Session.FailingFolderSkipped | lib/session.ts:90-92 | A folder whose stat or deletion fails is skipped without affecting the rest of the sweep |
| Session.SurvivorsExact | lib/session.ts:84-89 | What remains is exactly the folders that were not both stale and deletable |
| Session.SweepIdempotent | lib/session.ts:68-100 | A second sweep at the same time removes nothing |
| EnvValidation.MissingErrors | lib/env-validation.js:24-28 | One `X is not set` error for each missing or blank required variable, and no other |
| EnvValidation.ProductionErrors | lib/env-validation.js:33-47 | Each error is present exactly when its condition holds: the secret is short, the secret looks like the example value, or the password is weak; there are no others |
| EnvValidation.ProductionWarnings | lib/env-validation.js:50-63 | Each warning is present exactly when its condition holds: the password is not bcrypt-shaped, the key does not start with `sk-`, or the URL is not https; there are no others |
| EnvValidation.ValidateEnvironment | lib/env-validation.js:10-71 | Valid exactly when there are no errors; a required variable is reported exactly when missing; production adds its errors after the missing ones, and warnings occur only in production |
| EnvValidation.NotSetMessagesDistinct | lib/env-validation.js:26-46 | The missing-variable messages name their variable and never coincide with a production error |
| EnvValidation.ValidateAndLog | lib/env-validation.js:77-98 | Startup fails exactly in production with an invalid environment |
| EnvValidation.DevelopmentAlwaysStarts | lib/env-validation.js:85-94 | Outside production startup always proceeds, with no warnings |
| EnvValidation.ValidityIgnoresOtherVariables | lib/env-validation.js:15-47 | The errors depend only on the required variables and `NODE_ENV` |
| EnvValidation.ProductionErrorsAgree | lib/env-validation.js:33-47 | The production errors read only the secret and the password |
| EnvValidation.ProductionIsStricter | lib/env-validation.js:31-64 | Switching to production only appends errors: the development errors come first, unchanged |
| EnvValidation.ExampleSecretRefused | lib/env-validation.js:38-39 | A production secret containing `change-this` stops startup |
| AudioConverter.PhoneFormat | lib/audio-converter.ts:42-67 | Exactly the four preset keys name a format, each mono or stereo WAV or MP3 |
| AudioConverter.ConvertOptions | lib/audio-converter.ts:79-96 | The settings are channels, then sample rate, then at most two codec settings, then the container |
| AudioConverter.ConvertOptionsConfigure | lib/audio-converter.ts:79-96 | The conversion configures exactly the format's container, channels and sample rate, plus its effective codec |
| AudioConverter.PresetEncodings | lib/audio-converter.ts:42-96 | The 3CX preset yields 8 kHz mono PCM 16-bit WAV, VoIP 16 kHz, and the MP3 presets use LAME |
| AudioConverter.PcmOverridesCodec | lib/audio-converter.ts:86-93 | A WAV format with a bit depth is written as PCM 16-bit even when it names another codec |
| AudioConverter.SharedFileServed | lib/audio-converter.ts:124-130 | A file written into `public/audio` is the one its `/audio/` URL serves |
| AudioConverter.SessionFileServed | lib/audio-converter.ts:120-130 | A file written into a session folder is the one its session URL serves |
| AudioConverter.ConvertTo3CXFormat | lib/audio-converter.ts:110-135 | Always the 3CX preset; the session folder when a session id is given, else the shared folder; the returned URL serves the written file |
| AudioConverter.SessionConversionTargets | lib/audio-converter.ts:118-121 | With a session id, the URL and the path are the session helpers' file URL and path |
| Voices.VoiceIds | lib/voices.ts:78 | The ids, one per entry, in catalogue order |
| Voices.GetVoiceInfo | lib/voices.ts:81-83 | Finds an entry exactly for a catalogued id, and the entry found has that id |
| Voices.GetVoicesByGender | lib/voices.ts:86-88 | Never more entries than the catalogue |
| Voices.ByGenderMembers | lib/voices.ts:86-88 | Keeps exactly the entries of the given gender |
| Voices.ByGenderSingle | lib/voices.ts:86-88 | One entry is kept exactly when it has the gender |
| Voices.ByGenderAppend | lib/voices.ts:86-88 | The filter distributes over concatenation, so it keeps catalogue order and repeats |
| Voices.ByGenderNine | lib/voices.ts:86-88 | Over nine entries the result is each entry kept or dropped, in catalogue order |
| Voices.CatalogueHasPattern | lib/voices.ts:11-75 | The catalogue's genders are neutral, male, female, male, female, female, male, female, female |
| Voices.GendersPartition | lib/voices.ts:86-88 | The three gender groups share out the catalogue |
| Voices.CatalogueMales | lib/voices.ts:11-75 | The male voices are exactly ash, echo and onyx, in that order |
| Voices.CatalogueFemales | lib/voices.ts:11-75 | The female voices are exactly coral, fable, nova, sage and shimmer, in that order |
| Voices.CatalogueNeutrals | lib/voices.ts:11-75 | The only neutral voice is alloy |
| Voices.GetVoiceOptions | lib/voices.ts:91-98 | One option per entry, valued by its id and labelled `Name (Gender)` |
| Voices.OptionsLookUp | lib/voices.ts:81-98 | An option's value looks up the entry it was made from |
| Voices.BalladNotCatalogued | components/TTSAdvanced.tsx:8-11 | The panel offers `ballad`, which the catalogue lacks |
| Voices.CataloguedVoicesRefused | lib/validation.ts:7-14 | `ash`, `coral` and `sage` are catalogued yet refused by the validator |
| Middleware.Gate | middleware.ts:9-31 | Without a cookie every non-public path is sent to `/login`; with one, `/login` is sent to `/`; nothing else is redirected |
| Middleware.NoRedirectLoop | middleware.ts:13-28 | Following a redirect never leads to a second one |
| Middleware.CookieValueIrrelevant | middleware.ts:16-25 | Any two non-empty cookie values are treated alike |
| Middleware.LoginPrefixIsPublic | middleware.ts:7-13 | Every path that merely begins with `/login` is public |
| Middleware.Handle | middleware.ts:33-44 | Paths outside the matcher bypass the gate; matched ones go through it |
| Middleware.AudioBypassesGate | middleware.ts:42 | Generated audio under `/audio/` is served without any cookie |
| Middleware.ApiNeedsCookie | middleware.ts:19-22 | A history API call without a cookie is redirected to `/login` |
| TtsRoutes.WavFileNameOfMp3 | app/api/tts/basic/route.ts:43 | A name whose only `.mp3` is its extension gets `.wav`; a name without `.mp3` is kept as given |
| TtsRoutes.Mp3FirstAtEnd | app/api/tts/basic/route.ts:43 | In `base.mp3` with no other `.mp3`, the first `.mp3` is the extension |
| TtsRoutes.Basic | app/api/tts/basic/route.ts:9-74 | 400 exactly without text or voice, before any call; otherwise synthesis comes first, and 200 exactly when every call succeeds and the generation is recorded |
| TtsRoutes.BasicSuccess | app/api/tts/basic/route.ts:33-66 | On success a `basic` WAV generation is recorded whose URL serves the converted session file, and the temporary MP3 is removed |
| TtsRoutes.BasicReusesSession | app/api/tts/basic/route.ts:33 | A browser with a session keeps it: no cookie is set and the audio lands in its folder |
| TtsRoutes.BasicTempKeptWhenConversionFails | app/api/tts/basic/route.ts:40-47 | A failed conversion leaves the temporary MP3 behind and records nothing |
| TtsRoutes.SpeedHint | app/api/tts/advanced/route.ts:22-33 | 1.5 exactly when the lower-cased instructions mention fast or quick, 0.8 exactly when they mention slow or clear but neither of those, 1.0 otherwise |
| TtsRoutes.SpeedHintIgnoresCase | app/api/tts/advanced/route.ts:22-23 | The hint ignores letter case |
| TtsRoutes.VerySlowIsOnlySlow | app/api/tts/advanced/route.ts:27-30 | "very slow" yields 0.8, never the 0.6 its branch names |
| TtsRoutes.Advanced | app/api/tts/advanced/route.ts:8-91 | 400 exactly without text, voice or instructions, before any call; otherwise synthesis at the hinted speed comes first, and 200 exactly when every call succeeds |
| TtsRoutes.AdvancedSuccess | app/api/tts/advanced/route.ts:47-82 | On success an `advanced` generation with the instructions and hinted speed is recorded, served from `/audio/<name>` in the shared folder |
| TtsRoutes.SynthesisFailureTouchesNothing | app/api/tts/advanced/route.ts:36-41 | A synthesis failure ends the route before any file is touched |
| ConvertRoute.ChooseFormat | app/api/convert/route.ts:33-40 | A known preset wins, then a custom format, then the 3CX preset |
| ConvertRoute.InputIsServedFile | app/api/convert/route.ts:19-20 | For an `/audio/` URL the input path is the file that URL serves |
| ConvertRoute.SessionFileIsInput | app/api/convert/route.ts:19-20 | Converting a session file's URL reads that session file |
| ConvertRoute.Convert | app/api/convert/route.ts:6-63 | 400 exactly without a URL, with no call; 404 exactly when the input is not accessible; otherwise the input is transcoded to `public/audio/converted_<now>.<container>`, and 200 exactly when that succeeds, answering with the chosen format and the URL `/audio/converted_<now>.<container>` |
| ConvertRoute.OutputNameDeterminesTime | app/api/convert/route.ts:43-45 | Two output names agree only for the same millisecond and container, so a later conversion never overwrites an earlier one |
| ConvertRoute.DigitsThenDot | app/api/convert/route.ts:45 | A decimal timestamp, `.`, and a dot-free container split back into the same two parts |
| ConvertRoute.PresetNamesOutput | app/api/convert/route.ts:43-55 | With a preset, the output is named `converted_<ts>.<preset container>` |
| AiTextRoute.ParseOperation | app/api/ai-text/route.ts:19-68 | Exactly the three operation names are recognised |
| AiTextRoute.Truncate | app/api/ai-text/route.ts:96-98 | The result is a prefix of the input, at most 4096 long, and equals the input when that already fits |
| AiTextRoute.AiText | app/api/ai-text/route.ts:4-115 | 400 exactly for a missing field or unknown operation, with no call; otherwise one chat call; 200 exactly when it succeeds with a non-blank reply, returning the trimmed reply cut to 4096, with its original length and a truncation flag; a file name only for `generateFilename` |
| AiTextRoute.UnknownOperationNotSent | app/api/ai-text/route.ts:63-68 | An unknown operation is refused before the model is called |
| AiTextRoute.BlankReplyFails | app/api/ai-text/route.ts:86-93 | A whitespace-only reply counts as no reply |
| AiTextRoute.ReturnedTextFitsSpeech | app/api/ai-text/route.ts:86-107 | The returned text is non-empty, fits the speech limit and starts the trimmed reply |
| AiTextRoute.DefaultVersion | app/api/ai-text/route.ts:62 | The file-name request defaults the version to `1` |
| HistoryRoute.NewestFirst | app/api/history/route.ts:10-11 | The rows, newest first, as a permutation of the table |
| HistoryRoute.WindowSize | app/api/history/route.ts:12-13 | A page never holds more rows than asked for, and exactly that many while rows remain |
| HistoryRoute.PagesTile | app/api/history/route.ts:12-13 | Two consecutive pages make one page of twice the size |
| HistoryRoute.List | app/api/history/route.ts:4-31 | 500 exactly when a parameter does not parse or the offset is negative; otherwise the selected page of the newest-first rows, the total row count and the parameters as read |
| HistoryRoute.DefaultPage | app/api/history/route.ts:7-8 | Without parameters the page is the 50 newest rows |
| HistoryRoute.FirstPageIsNewest | app/api/history/route.ts:10-14 | No row left off a first page is newer than a row shown |
| HistoryRoute.PageIsNewestFirst | app/api/history/route.ts:10-14 | Every window the listing can return, for any `take` and non-negative `skip`, is newest first and consists of rows of the history |
| HistoryRoute.FindId | app/api/history/route.ts:44-46 | Finds a position exactly when some row has the id |
| HistoryRoute.Delete | app/api/history/route.ts:33-56 | 400 exactly without an id; 500 exactly when no row has it; otherwise one row with that id is removed |
| HistoryRoute.DeleteRemovesOnlyThatRow | app/api/history/route.ts:44-46 | With distinct ids, a delete removes that row and nothing else |
| Numbers.DigitsValueOfNatToString | app/api/tts/basic/route.ts:36-37 | A rendered timestamp reads back as itself |
| Numbers.NatToStringInjective | app/api/tts/basic/route.ts:36-37 | Different timestamps render differently |
| Numbers.ParseIntOfNatToString | app/api/history/route.ts:7-8 | `parseInt` reads back the decimal rendering of any non-negative integer |
| CleanupRoute.Post | app/api/sessions/cleanup/route.ts:4-32 | 200 exactly for a caller in development mode or whose header equals the configured key, reporting the sweep's removals and their count in the message; 401 otherwise, with nothing removed |
| CleanupRoute.Get | app/api/sessions/cleanup/route.ts:35-44 | 405 outside development; in development the same sweep as `POST` |
| CleanupRoute.NoSecretNoCleanup | app/api/sessions/cleanup/route.ts:7-9 | Outside development, without a configured secret, every caller is refused |
| CleanupRoute.MessageDeterminesCount | app/api/sessions/cleanup/route.ts:22 | Different counts give different messages |
| AudioSaveRoute.Save | app/api/audio/save/route.ts:4-49 | 400 exactly when text, voice, file name or URL is missing, with no insert; otherwise one insert, 200 exactly when it succeeds, inserting and returning the row `Record` builds from the body: a WAV row with the given text and URL and a non-zero speed |
| AudioSaveRoute.SaveRoundTrip | app/api/audio/save/route.ts:25-36 | Saving a row's own fields writes it back unchanged exactly when the row is one the route can write |
| AudioSaveRoute.ZeroSpeedIsDefault | app/api/audio/save/route.ts:30 | A zero speed is stored as 1.0 |
| TemplatesRoute.FindId | app/api/templates/route.ts:156-158 | Finds the first row with the id, exactly when there is one |
| TemplatesRoute.TemplateOrder | app/api/templates/route.ts:46-50 | Built-in first, then category, then name is a total preorder |
| TemplatesRoute.Ordered | app/api/templates/route.ts:45-51 | The listing is sorted in that order and is a permutation of the table |
| TemplatesRoute.Defaults | app/api/templates/route.ts:5-41 | Five built-in templates with the fixed names, categories, texts and variable lists |
| TemplatesRoute.VoicemailPlaceholders | app/api/templates/route.ts:9-10 | The voicemail text's placeholders are exactly its declared variables |
| TemplatesRoute.IvrPlaceholders | app/api/templates/route.ts:16-17 | The IVR text's placeholders are exactly its declared variables |
| TemplatesRoute.HoldPlaceholders | app/api/templates/route.ts:23-24 | The hold text's placeholders are exactly its declared variables |
| TemplatesRoute.AfterHoursPlaceholders | app/api/templates/route.ts:30-31 | The after-hours text's placeholders are exactly its declared variables |
| TemplatesRoute.HolidayPlaceholders | app/api/templates/route.ts:37-38 | The holiday text's placeholders are exactly its declared variables, `holiday` occurring twice |
| TemplatesRoute.DefaultsDeclareTheirPlaceholders | app/api/templates/route.ts:5-41 | Every built-in template declares exactly the placeholders its text uses |
| TemplatesRoute.DefaultFullyFilled | app/api/templates/route.ts:5-41 | Filling every declared variable of a built-in template leaves no placeholder |
| TemplatesRoute.List | app/api/templates/route.ts:43-78 | A non-empty table is listed sorted and left unchanged; an empty one is first seeded with the five built-ins, or answers 500 when the minted ids clash; the listing is always a sorted permutation of the table, and the ids stay distinct |
| TemplatesRoute.SeedShowsDefaults | app/api/templates/route.ts:54-67 | Listing an empty table shows exactly the five built-in templates |
| TemplatesRoute.OrderedKeepsRows | app/api/templates/route.ts:59-65 | Listing keeps the rows it is given |
| TemplatesRoute.Create | app/api/templates/route.ts:80-110 | 400 exactly when name, category or content is missing; 500 exactly when the new id is taken; otherwise one non-built-in row holding the given fields and `variables \|\| []` is appended; the ids stay distinct |
| TemplatesRoute.Update | app/api/templates/route.ts:112-142 | 400 exactly without an id; 500 exactly when no row has it; otherwise, with distinct ids, only that row changes: each given field replaces the old one, the variables become `variables \|\| []`, and the id and built-in flag are kept |
| TemplatesRoute.Delete | app/api/templates/route.ts:144-179 | 400 exactly without an id or when the first row with that id is built-in; 500 exactly when no row has the id; otherwise that non-built-in row is removed and nothing else changes; the ids stay distinct |
| TemplatesRoute.DeleteRemovesOnlyThatRow | app/api/templates/route.ts:155-169 | A built-in template is never removed; a successful delete removes the row with that id and nothing else |
| TemplateManager.InitialVariables | components/TemplateManager.tsx:44-52 | One empty entry per declared name, each name once |
| TemplateManager.SetVariable | components/TemplateManager.tsx:142-147 | An existing key keeps its place and takes the new value; a new key is appended; other entries are unchanged |
| TemplateManager.EmptyVariablesKeepText | components/TemplateManager.tsx:57-61 | With every variable empty, applying gives the text back unchanged |
| TemplateManager.ReplaceRendered | components/TemplateManager.tsx:59-60 | One replacement pass over well-formed text replaces exactly that variable's placeholders |
| TemplateManager.ApplyRendered | components/TemplateManager.tsx:54-65 | Applying the variables in order fills exactly the placeholders of the non-empty variables with their values |
| TemplateManager.FillAllRemovesFilled | components/TemplateManager.tsx:57-61 | After filling, the placeholders left are exactly those of the variables still empty |
| TemplateManager.FillRemovesName | components/TemplateManager.tsx:59-60 | Filling a variable with a non-empty value removes its name from the placeholders left; an empty value leaves them all |
| TemplateManager.FillKeepsWellFormed | components/TemplateManager.tsx:59-60 | Filling with a brace-free value keeps the text well formed, so later replacements still see exactly the placeholders |
| TemplateManager.GroupByCategory | components/TemplateManager.tsx:67-73 | One group per category present, holding its templates in list order |
| TtsAdvancedPanel.PresetText | components/TTSAdvanced.tsx:13-26 | A key has an instruction text exactly when it is one of the twelve presets |
| TtsAdvancedPanel.TogglePreset | components/TTSAdvanced.tsx:47-53 | Toggling flips membership of that preset only, appending it when it is new and otherwise filtering it out with the rest in order |
| TtsAdvancedPanel.ToggleTwiceRestores | components/TTSAdvanced.tsx:47-53 | Toggling an unselected preset twice restores the selection |
| TtsAdvancedPanel.ToggleKeepsDistinct | components/TTSAdvanced.tsx:47-53 | The selection never holds a preset twice |
| TtsAdvancedPanel.NonEmpty | components/TTSAdvanced.tsx:64 | Keeps exactly the non-empty strings, and is empty exactly when all are |
| TtsAdvancedPanel.NonEmptyAppend | components/TTSAdvanced.tsx:64 | The filter distributes over concatenation, so it keeps order and repeats |
| TtsAdvancedPanel.NonEmptySingle | components/TTSAdvanced.tsx:64 | One string is kept exactly when it is not empty |
| TtsAdvancedPanel.NonEmptyKeepsAll | components/TTSAdvanced.tsx:64 | Strings none of which is empty all pass, in order |
| TtsAdvancedPanel.InstructionsKeepSelectionOrder | components/TTSAdvanced.tsx:61-64 | With known presets selected, the instructions join their texts in selection order, then the custom text when it is not empty |
| TtsAdvancedPanel.PresetTexts | components/TTSAdvanced.tsx:62 | The selected presets' texts, in selection order |
| TtsAdvancedPanel.InstructionsEmptyIff | components/TTSAdvanced.tsx:61-69 | The instructions are empty exactly when no known preset is selected and the custom text is empty |
| TtsAdvancedPanel.GenerateRequest | components/TTSAdvanced.tsx:55-81 | A blank text or empty instructions stop before any request; otherwise the body holds the untrimmed text, the voice, the joined instructions and the file name only when non-empty |
| TtsAdvancedPanel.SentRequestIsAccepted | components/TTSAdvanced.tsx:55-81 | Every request the panel sends passes the advanced route's field check |
| TtsAdvancedPanel.FastPacedText | components/TTSAdvanced.tsx:24 | The "Fast Paced" preset is "Speak quickly but clearly" |
| TtsAdvancedPanel.FastPacedSpeaksFast | components/TTSAdvanced.tsx:24 | Selecting "Fast Paced" makes the route speak at 1.5, whatever else is chosen |
| Effects.Run | app/api/tts/basic/route.ts:10-73 | The calls made are a prefix of the plan; every one before the last succeeded; the whole plan runs exactly when every call succeeds, and otherwise the last call made failed |
| Effects.NothingAfterFailure | app/api/tts/basic/route.ts:10-73 | A call placed after a failing one is never made |
| Effects.RunStopsAt | app/api/tts/basic/route.ts:10-73 | A plan whose first failing call is at position k runs exactly its first k+1 calls |
| Sorting.Sort | app/api/templates/route.ts:45-51 | The result is sorted and a permutation of the input |
| Sorting.StrLeqTotal | app/api/templates/route.ts:48-49 | Any two strings are ordered one way or the other |
| Sorting.StrLeqTransitive | app/api/templates/route.ts:48-49 | The string order is transitive |
| Sorting.StrLeqAntisymmetric | app/api/templates/route.ts:48-49 | Strings ordered both ways are equal |

## Left out

- Speech synthesis, chat completion, ffmpeg transcoding, the filesystem and the
  database are not executed. Each call is an `Effects.Effect` value, and its
  success is the parameter `ok`. The audio content and the chat model's reply
  (beyond the text returned) are not modelled.
- The three system prompts of the AI text route are represented by labels. Their
  wording is prose for the chat model and carries no logic.
- Database semantics are assumed, not derived:
  - a negative `take` pages backwards from the end of the ordering;
  - a negative or unparsable `skip`, or an unparsable `take`, fails the query;
  - an update or delete of a missing id throws;
  - a clash among minted ids fails an insert.

  No other database error is modelled.
- The route takes the credential check as the parameter `credentials`, a
  three-way verdict. `Auth.ValidateCredentials` models `validateCredentials`
  itself, including the throw of the timing-safe comparison. `bcrypt.compare` is
  the parameter `bcryptMatches`. `generateSessionToken`, `signToken` and
  `hashPassword` are parameters or are not modelled, because the model cannot
  express cryptographic strength.
- Cookie attributes (`httpOnly`, `secure`, `sameSite`, `maxAge`) and removing the
  cookie in `destroySession` are Next.js plumbing and are left out. So are request
  JSON parsing and its failure, and `parseRequestBody`, which no route calls.
- `removeSession` in `lib/session.ts` has no caller and is not modelled.
- `getOrCreateSessionFolder` is modelled through its two parts inside
  `TtsRoutes.Basic`.
- Lengths are counted in characters, not UTF-16 code units. A text with characters
  outside the Basic Multilingual Plane can therefore pass a length limit that the
  application would refuse.
- `toLowerCase` is modelled for ASCII letters only. `trim` uses the JavaScript
  whitespace set.
- Keys that JavaScript objects inherit (`constructor`, `toString`) are left out of
  the lookups of `PHONE_FORMATS`, `VOICE_CONFIG` and `PRESET_INSTRUCTIONS`.
- `TemplateManager.GroupByCategory`: a category named after an inherited object
  key (`constructor`, `toString`, `__proto__`) makes the grouping `reduce` throw,
  because `acc[category]` is then truthy but not an array. The model opens a
  group for it instead.
- `TemplateManager.InitialVariables`: the variables object is kept in insertion
  order. JavaScript enumerates array-index keys (`"0"`, `"1"`, …) first, in
  ascending order, so for variables named by such keys `Object.entries` visits them in
  a different order. That order can change the text `TemplateManager.ApplyTemplate`
  produces when one variable's value holds another variable's placeholder. A
  variable named `__proto__` is not stored as a key by the source; the model
  stores it.
- `path.join` normalisation (`..`, doubled slashes) is left out. Paths are strings
  joined with `/`.
- Speeds are real numbers. Floating point, `NaN` and the `NaN` branch of
  `validateSpeed` are left out.
- Concurrency between requests sharing the in-memory maps and the filesystem is
  left out. Each operation is atomic.
- Logging output is left out. `Errors.LogSeverity` models only the choice between a
  warning and an error.
- The stack traces in error responses are left out. The debug part holds only the
  details.
- `Auth.CreateSession`: the creation time and the expiry come from one clock
  reading. The source reads the clock twice, a moment apart.
- `Auth.IsAuthenticated`: the HMAC signature comparison is an ordinary string
  equality on the value of the parameter `sign`.
- `LoginRoute.Login`: its own contract states only the set of statuses and that a
  cookie is set exactly on 200. The behaviour of each branch is stated by the
  lemmas that follow it.
- `Voices.GetVoicesByGender`: its own contract states only that it never returns
  more entries than the catalogue. Which entries it keeps, and in which order, is
  stated by `Voices.ByGenderMembers`, `Voices.ByGenderSingle` and
  `Voices.ByGenderAppend`.
- `TemplateManager.ApplyRendered`: a key is used inside a regular expression and a
  value inside a replacement string. The model assumes keys without regular
  expression metacharacters and values without `$` patterns, and treats both
  literally.
- `TemplatesRoute.DefaultFullyFilled`: it is stated on the placeholder pieces of
  the built-in texts. That the literal parts of those texts hold no `{` is not
  proved, so `TemplateManager.ApplyRendered` is not connected to the rendered
  built-in contents.
- `TemplatesRoute.Create` and `TemplatesRoute.Update`: the `variables` column holds
  the JSON encoding of the list. The model stores the list itself.
- The rendering of the client components (markup, toasts, loading state, download
  buttons) is left out, as is the voice preview.
