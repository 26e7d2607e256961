# Robot reply pipeline

A Dafny model of the response-interpretation pipeline behind the robot
server's `POST /api/generate` endpoint (`generateResponse` in
`src/controllers/ai.controller.js`). The endpoint takes a prompt, a robot
identifier and an optional servo position, asks a text-generation service
for a reply, and turns the raw reply into the robot's structured answer:

- the request is rejected with `INVALID_INPUT` when the prompt or the robot
  identifier is missing or empty;
- an empty or missing generated text becomes the fixed fallback sentence;
- a bare "right"/"right!" or "left"/"left!" reply (any case, any
  surrounding whitespace) becomes a fixed, fuller sentence;
- `determineResponseType` classifies the prompt by the first keyword group
  found in its lower-cased form;
- `determineEmotion` tags the reply by the first case-sensitive feature
  found: an apology word, then "!", then "?";
- `parseServoCommand` resolves a servo direction, angle and reason from the
  lower-cased reply and prompt, but only for movement prompts or when
  "look" is mentioned; "right" wins over "left", which wins over
  "straight"/"forward";
- `shouldMove` and the envelope tie the conversation flags and the current
  servo position (`servoPosition || 90`) to the rest.

Files:

- `wrappers.dfy` — `Option`, for request-body fields that may be absent.
- `text.dfy` — module `Text`: JavaScript's `includes` (substring
  occurrence), `toLowerCase` over ASCII letters and `trim` over the
  ECMA-262 whitespace and line-terminator set, with the facts the proofs
  need (occurrence across a concatenation, through lower-casing, and its
  absence when a character is missing).
- `ai_controller.dfy` — module `AiController`: the data model (response
  type, emotion, direction, movement, reply envelope), the fallback, the
  rewrite, the classifier, the tagger, the movement resolver
  (`ResolveMovement` as the specification, `ParseServoCommand` as the
  method that overwrites a default movement object branch by branch) and
  the endpoint `GenerateResponse`, which reassigns its reply text before
  tagging it, as the source does.
- `controller_properties.dfy` — module `ControllerProperties`: precedence
  between keyword groups, the effect of the rewrite on the tagger and the
  resolver, the tagging of the fallback, idempotence of the rewrite and
  case-insensitivity of the classifier, plus facts about the fixed
  sentences and worked examples.

The fixed sentences are written in the Dafny source as concatenations of
short pieces; their values are exactly the source's strings.

## Model

| member | source | states |
|---|---|---|
| AiController.GenerateResponse | src/controllers/ai.controller.js:1-92 | A missing or empty prompt or robot id gives the 400 `INVALID_INPUT` reply with no data, before anything else; a failed generation gives the 500 `PROCESSING_ERROR` reply; data is present exactly when the input is valid and the generation answered; a success reply carries status, code and message `success`/`RESPONSE_GENERATED`/`Response generated successfully`, the robot id, the timestamp, the rewritten fallback-protected text, the prompt's type, the text's emotion, the resolved movement, and a consistent envelope |
| AiController.TextOrFallback | src/controllers/ai.controller.js:46 | The text is never empty; it is the generated text when that is present and non-empty, and the fallback sentence otherwise |
| AiController.ServoOrDefault | src/controllers/ai.controller.js:78 | The reported position is never 0; it is the given position when that is present and non-zero, and 90 otherwise (absent and 0 both become 90) |
| AiController.Enhance | src/controllers/ai.controller.js:49-54 | The rewritten text is the original, the right sentence or the left sentence, and it differs from the original only when the trimmed, lower-cased reply is "right", "right!", "left" or "left!" |
| AiController.DetermineResponseType | src/controllers/ai.controller.js:123-138 | Each type is returned exactly when its own keyword group occurs in the lower-cased prompt and no group tried before it does, in the order identity ("who are you", "your name"), information ("who is", "what is"), capability ("can you", "could you"), movement ("look", "turn"); GENERAL exactly when none of the eight keywords occurs |
| AiController.DetermineEmotion | src/controllers/ai.controller.js:140-151 | Apologetic exactly when "sorry", "cannot" or "can't" occurs (case-sensitively), even alongside "!" or "?"; neutral exactly when none of the five features occurs; excited only with "!"; curious only with "?" and no "!" |
| AiController.ResolveMovement | src/controllers/ai.controller.js:95-121 | The movement is always the fixed directive of its direction (right 180, left 0, center 90, none 90), so the angle is in {0, 90, 180}; without the guard it is the no-movement directive; with the guard, "right" in the check text gives right, else "left" gives left, else "straight" or "forward" gives center, else no movement |
| AiController.ParseServoCommand | src/controllers/ai.controller.js:95-121 | Starting from the default movement object and overwriting its fields in the matching branch yields exactly the movement `ResolveMovement` specifies |
| AiController.Truthy | src/controllers/ai.controller.js:5 | A request field passes the input check exactly when it is neither absent nor the empty string |
| AiController.CheckText | src/controllers/ai.controller.js:102 | The check text is the lower-cased reply, one space, and the lower-cased prompt |
| AiController.ShouldMove | src/controllers/ai.controller.js:153-155 | The robot is expected to move for every question type except information, capability and general questions, that is for movement and identity questions |
| Text.Contains | src/controllers/ai.controller.js:102-147 | Substring occurrence as `includes` finds it: an occurring pattern is no longer than the text, and the empty pattern and the text itself always occur |
| Text.Lower | src/controllers/ai.controller.js:50 | Lower-casing keeps the length and maps every character through the ASCII lower-case mapping |
| Text.Trim | src/controllers/ai.controller.js:50 | The trimmed text is a contiguous slice of the input that begins and ends with a non-whitespace character when non-empty; a text already bounded by non-whitespace characters is unchanged |
| Text.TrimPadded | src/controllers/ai.controller.js:50 | Trimming removes exactly the whitespace around a text: any whitespace prefix and suffix around a text with no whitespace at either end (or around nothing) trim away to that text |
| Text.TrimStartPadded | src/controllers/ai.controller.js:50 | The leading half of trimming drops exactly a whitespace prefix in front of a text that does not start with whitespace |
| Text.TrimEndPadded | src/controllers/ai.controller.js:50 | The trailing half of trimming drops exactly a whitespace suffix after a text that does not end in whitespace |
| ControllerProperties.CheckTextContains | src/controllers/ai.controller.js:102 | A keyword without a space occurs in the joined lower-cased reply and prompt exactly when it occurs in the lower-cased reply or the lower-cased prompt |
| ControllerProperties.NoGuardNoMovement | src/controllers/ai.controller.js:102-104 | For a non-movement prompt where neither reply nor prompt mentions "look", the movement is exactly {none, 90, "no movement needed"}, even when "right" or "left" occurs |
| ControllerProperties.RightWins | src/controllers/ai.controller.js:104-108 | Once the guard passes, "right" anywhere in reply or prompt gives right/180, even when "left", "straight" or "forward" also occurs |
| ControllerProperties.LeftBeatsStraight | src/controllers/ai.controller.js:109-112 | Once the guard passes and "right" occurs nowhere, "left" gives left/0, even when "straight" or "forward" also occurs |
| ControllerProperties.StraightCentres | src/controllers/ai.controller.js:113-116 | Once the guard passes and neither "right" nor "left" occurs, "straight" or "forward" in reply or prompt gives center/90 "looking straight ahead" |
| ControllerProperties.NoDirectionNoMovement | src/controllers/ai.controller.js:96-120 | Once the guard passes but no direction word occurs in reply or prompt, the movement stays the default {none, 90, "no movement needed"} |
| ControllerProperties.LeftSentenceTurns | src/controllers/ai.controller.js:104-112 | The fixed left sentence resolves to left, unless the prompt says "right", whatever the prompt's type |
| ControllerProperties.RightReplyRewritten | src/controllers/ai.controller.js:49-58 | A bare "right"/"right!" reply becomes the right sentence, is tagged excited, and turns the servo to right/180 whatever the prompt and its type |
| ControllerProperties.LeftReplyRewritten | src/controllers/ai.controller.js:52-58 | A bare "left"/"left!" reply becomes the left sentence, is tagged excited, and turns the servo left unless the prompt says "right" |
| ControllerProperties.PaddedRightRewritten | src/controllers/ai.controller.js:49-51 | "right" in any mix of cases, with any whitespace on either side, is replaced by the right sentence |
| ControllerProperties.LongReplyKept | src/controllers/ai.controller.js:49-54 | A reply with no surrounding whitespace and more than six characters is never rewritten |
| ControllerProperties.EnhanceIdempotent | src/controllers/ai.controller.js:49-54 | Rewriting an already rewritten reply changes nothing |
| ControllerProperties.FallbackTaggedNeutral | src/controllers/ai.controller.js:46-58 | A missing or empty generation yields the fallback sentence unchanged by the rewrite, and it is tagged neutral because its capital "Sorry" does not match the case-sensitive "sorry" |
| ControllerProperties.ClassifierIgnoresCase | src/controllers/ai.controller.js:124 | Classifying the lower-cased prompt gives the same type as classifying the prompt |
| ControllerProperties.LookRightPromptIsMovement | src/controllers/ai.controller.js:123-138 | "Please look right" is classified MOVEMENT: it contains "look" and none of the identity, information or capability phrases |
| ControllerProperties.LookRightExample | src/controllers/ai.controller.js:95-138 | "Please look right" answered by "Sure, turning right now!" resolves to right/180 |
| ControllerProperties.ApologyExample | src/controllers/ai.controller.js:141 | "I'm sorry, I cannot help with that." is tagged apologetic |

## Left out

- The call to the generation service, its HTTP status check and the JSON decoding of its answer (`src/controllers/ai.controller.js:22-43`): network I/O. `GenerateResponse` takes the outcome as the `Gateway` parameter — `Failed`, or `Answered` with the optional extracted text of the first candidate's first part.
- The personality context prepended to the prompt (`src/controllers/ai.controller.js:14-20`): it is only sent to the generation service and affects no field of the reply.
- `Date.now()` (`src/controllers/ai.controller.js:66`): wall-clock time; it is the `timestamp` parameter.
- `console.error` and the blanket `catch` (`src/controllers/ai.controller.js:83-91`): the 500 `PROCESSING_ERROR` reply is modelled only as the outcome of a failed generation; exceptions that non-string request fields would raise inside the pipeline (for example a number as `prompt`) are not modelled, because request fields are typed here as optional strings and an optional integer.
- Request-body values of other JSON types (numbers as ids, floats or strings as `servoPosition`, `NaN`): the model takes `prompt` and `robotId` as optional strings and `servoPosition` as an optional integer; JavaScript truthiness is modelled for those types only.
- The Express response object: `res.status(...).json(...)` is modelled as the returned `Reply` value carrying the HTTP status.
- `src/server.js` and `src/routes/ai.routes.js`: server bootstrapping, configuration and route registration, with no decision logic.
- Text.Lower: models `toLowerCase` over ASCII letters only; non-ASCII characters (for example accented capitals, or the Kelvin sign, which JavaScript lower-cases to "k") are left unchanged, so a prompt relying on them to match a keyword is classified differently by the model.
