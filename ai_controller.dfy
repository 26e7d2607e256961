/**
 * The response-interpretation pipeline of the robot's `/api/generate`
 * endpoint: request validation, the fallback for an empty generation, the
 * rewrite of one-word "right"/"left" replies, the prompt classifier, the
 * emotion tagger, the servo movement resolver and the assembly of the
 * reply envelope.
 *
 * The call to the generation service is not modelled: its outcome is the
 * `Gateway` parameter of `GenerateResponse`, and the clock reading is the
 * `timestamp` parameter.
 */
module AiController {
  import opened Text
  import Wrappers

  // ---------------------------------------------------------------------
  // Data model

  /** The prompt's intent, as the classifier reports it. */
  datatype ResponseType = Identity | Information | Capability | Movement | General

  /** The tone the tagger reads off the reply text. */
  datatype Emotion = Apologetic | Excited | Curious | Neutral

  /** Where the servo should turn; `None` is the JSON value "none". */
  datatype Direction = None | Right | Left | Center

  /** The `movement` object of the reply: direction, angle in degrees, reason. */
  datatype ServoMovement = ServoMovement(direction: Direction, angle: int, reason: string)

  /** The `response` object: the reply text, its type and its emotion. */
  datatype ResponseBody = ResponseBody(text: string, responseType: ResponseType, emotion: Emotion)

  /** The `conversation` object. */
  datatype Conversation = Conversation(questionType: ResponseType, isPersonal: bool, requiresMovement: bool)

  /** The `data` object of a successful reply. */
  datatype RobotData = RobotData(
    robotId: string,
    timestamp: int,
    response: ResponseBody,
    movement: ServoMovement,
    conversation: Conversation,
    currentServoPosition: int)

  /** The HTTP status and JSON body sent back to the caller. */
  datatype Reply = Reply(
    httpStatus: int,
    status: string,
    code: string,
    message: string,
    data: Wrappers.Option<RobotData>)

  /**
   * What the call to the generation service produced: it failed (network
   * error, a non-success status or an unreadable body), or it answered,
   * with the text at `candidates[0].content.parts[0].text` when there is one.
   */
  datatype Gateway = Failed | Answered(text: Wrappers.Option<string>)

  // The three fixed texts are written in pieces so that proofs about them
  // can reason about each piece on its own; the values are the source's.

  /** The reply used when the generation service returns no text. */
  const FallbackText := "Sorry, I couldn't " + "generate a response."
  /** The sentence that replaces a bare "right" reply. */
  const RightSentence := "I'll look to the right! " + "Let me see what's " + "there for you."
  /** The sentence that replaces a bare "left" reply. */
  const LeftSentence := "I'll look to the left! " + "Let me check what's " + "there for you."

  const InvalidInputReply := Reply(400, "error", "INVALID_INPUT", "Prompt and robotId are required", Wrappers.None)
  const ProcessingErrorReply := Reply(500, "error", "PROCESSING_ERROR", "Failed to generate response", Wrappers.None)

  /** The eight phrases the classifier looks for, in the order it tries them. */
  const ClassifierKeywords := ["who are you", "your name", "who is", "what is", "can you", "could you", "look", "turn"]

  // ---------------------------------------------------------------------
  // Input check, fallback text and servo position

  /** JavaScript truthiness of an optional string field: present and non-empty. */
  predicate Truthy(v: Wrappers.Option<string>): (b: bool)
    ensures b <==> v != Wrappers.None && v != Wrappers.Some("")
  {
    v.Some? && v.value != ""
  }

  /** `servoPosition || 90`: an absent or zero position reads as 90. */
  function ServoOrDefault(servoPosition: Wrappers.Option<int>): (p: int)
    ensures p != 0
    ensures p == 90 || servoPosition == Wrappers.Some(p)
    ensures servoPosition.Some? && servoPosition.value != 0 ==> p == servoPosition.value
  {
    if servoPosition.Some? && servoPosition.value != 0 then servoPosition.value else 90
  }

  /** The generated text, or the fixed fallback when it is missing or empty. */
  function TextOrFallback(generated: Wrappers.Option<string>): (t: string)
    ensures t != ""
    ensures t == FallbackText || generated == Wrappers.Some(t)
    ensures Truthy(generated) ==> t == generated.value
  {
    if Truthy(generated) then generated.value else FallbackText
  }

  // ---------------------------------------------------------------------
  // Rewrite of one-word replies

  /**
   * A reply that is only "right"/"right!" or "left"/"left!" (ignoring case
   * and surrounding whitespace) becomes a fixed, fuller sentence; every
   * other reply is kept as it is.
   */
  function Enhance(text: string): (r: string)
    ensures r == text || r == RightSentence || r == LeftSentence
    ensures r != text ==> Lower(Trim(text)) in ["right", "right!", "left", "left!"]
  {
    var key := Lower(Trim(text));
    if key == "right!" || key == "right" then RightSentence
    else if key == "left!" || key == "left" then LeftSentence
    else text
  }

  // ---------------------------------------------------------------------
  // Classifier

  /** The first keyword group found in the lower-cased prompt decides the type. */
  function DetermineResponseType(prompt: string): (r: ResponseType)
    ensures r == Identity <==> Contains(Lower(prompt), "who are you") || Contains(Lower(prompt), "your name")
    ensures r == General <==> forall k :: k in ClassifierKeywords ==> !Contains(Lower(prompt), k)
    ensures r == Information <==>
      && !(Contains(Lower(prompt), "who are you") || Contains(Lower(prompt), "your name"))
      && (Contains(Lower(prompt), "who is") || Contains(Lower(prompt), "what is"))
    ensures r == Capability <==>
      && !(Contains(Lower(prompt), "who are you") || Contains(Lower(prompt), "your name"))
      && !(Contains(Lower(prompt), "who is") || Contains(Lower(prompt), "what is"))
      && (Contains(Lower(prompt), "can you") || Contains(Lower(prompt), "could you"))
    ensures r == Movement <==>
      && !(Contains(Lower(prompt), "who are you") || Contains(Lower(prompt), "your name"))
      && !(Contains(Lower(prompt), "who is") || Contains(Lower(prompt), "what is"))
      && !(Contains(Lower(prompt), "can you") || Contains(Lower(prompt), "could you"))
      && (Contains(Lower(prompt), "look") || Contains(Lower(prompt), "turn"))
  {
    var promptLower := Lower(prompt);
    if Contains(promptLower, "who are you") || Contains(promptLower, "your name") then Identity
    else if Contains(promptLower, "who is") || Contains(promptLower, "what is") then Information
    else if Contains(promptLower, "can you") || Contains(promptLower, "could you") then Capability
    else if Contains(promptLower, "look") || Contains(promptLower, "turn") then Movement
    else General
  }

  // ---------------------------------------------------------------------
  // Emotion tagger

  /** The first surface feature found in the text, case-sensitively, decides the emotion. */
  function DetermineEmotion(text: string): (r: Emotion)
    ensures r == Apologetic <==> Contains(text, "sorry") || Contains(text, "cannot") || Contains(text, "can't")
    ensures r == Neutral <==> forall k :: k in ["sorry", "cannot", "can't", "!", "?"] ==> !Contains(text, k)
    ensures r == Excited ==> Contains(text, "!")
    ensures r == Curious ==> Contains(text, "?") && !Contains(text, "!")
  {
    if Contains(text, "sorry") || Contains(text, "cannot") || Contains(text, "can't") then Apologetic
    else if Contains(text, "!") then Excited
    else if Contains(text, "?") then Curious
    else Neutral
  }

  // ---------------------------------------------------------------------
  // Movement resolver

  /** The fixed directive for each direction: right 180, left 0, center and none 90. */
  function Directive(d: Direction): ServoMovement
  {
    match d
    case None => ServoMovement(None, 90, "no movement needed")
    case Right => ServoMovement(Right, 180, "looking right as requested")
    case Left => ServoMovement(Left, 0, "looking left as requested")
    case Center => ServoMovement(Center, 90, "looking straight ahead")
  }

  /** The lower-cased reply and prompt, joined by one space. */
  function CheckText(text: string, prompt: string): (r: string)
    ensures r == Lower(text) + " " + Lower(prompt)
  {
    LowerAppend(text + " ", prompt);
    LowerAppend(text, " ");
    assert Lower(" ") == " ";
    Lower(text + " " + prompt)
  }

  /** Directions are resolved only for a movement prompt or when "look" is mentioned. */
  predicate MovementGuard(responseType: ResponseType, checkText: string)
  {
    responseType == Movement || Contains(checkText, "look")
  }

  /** The direction the resolver picks: "right" before "left" before "straight"/"forward". */
  function ChooseDirection(responseType: ResponseType, checkText: string): Direction
  {
    if !MovementGuard(responseType, checkText) then None
    else if Contains(checkText, "right") then Right
    else if Contains(checkText, "left") then Left
    else if Contains(checkText, "straight") || Contains(checkText, "forward") then Center
    else None
  }

  /** The movement the resolver reports for a reply, its prompt's type and the prompt. */
  function ResolveMovement(text: string, responseType: ResponseType, prompt: string): (m: ServoMovement)
    ensures m == Directive(m.direction)
    ensures m.angle in {0, 90, 180}
    ensures !MovementGuard(responseType, CheckText(text, prompt)) ==> m == Directive(None)
    ensures MovementGuard(responseType, CheckText(text, prompt)) && Contains(CheckText(text, prompt), "right")
      ==> m == Directive(Right)
    ensures MovementGuard(responseType, CheckText(text, prompt)) && !Contains(CheckText(text, prompt), "right")
      && Contains(CheckText(text, prompt), "left")
      ==> m == Directive(Left)
    ensures MovementGuard(responseType, CheckText(text, prompt)) && !Contains(CheckText(text, prompt), "right")
      && !Contains(CheckText(text, prompt), "left")
      && (Contains(CheckText(text, prompt), "straight") || Contains(CheckText(text, prompt), "forward"))
      ==> m == Directive(Center)
    ensures MovementGuard(responseType, CheckText(text, prompt)) && !Contains(CheckText(text, prompt), "right")
      && !Contains(CheckText(text, prompt), "left")
      && !Contains(CheckText(text, prompt), "straight") && !Contains(CheckText(text, prompt), "forward")
      ==> m == Directive(None)
  {
    Directive(ChooseDirection(responseType, CheckText(text, prompt)))
  }

  /**
   * Starts from the "no movement" object and overwrites its three fields
   * in the branch that matches.
   */
  method ParseServoCommand(text: string, responseType: ResponseType, prompt: string) returns (movement: ServoMovement)
    ensures movement == ResolveMovement(text, responseType, prompt)
  {
    movement := ServoMovement(None, 90, "no movement needed");
    var checkText := Lower(text + " " + prompt);
    if responseType == Movement || Contains(checkText, "look") {
      if Contains(checkText, "right") {
        movement := movement.(direction := Right, angle := 180, reason := "looking right as requested");
      } else if Contains(checkText, "left") {
        movement := movement.(direction := Left, angle := 0, reason := "looking left as requested");
      } else if Contains(checkText, "straight") || Contains(checkText, "forward") {
        movement := movement.(direction := Center, angle := 90, reason := "looking straight ahead");
      }
    }
  }

  // ---------------------------------------------------------------------
  // shouldMove and the envelope

  /** `shouldMove`: movement and identity questions expect the robot to move. */
  predicate ShouldMove(responseType: ResponseType): (b: bool)
    ensures b <==> responseType != Information && responseType != Capability && responseType != General
  {
    assert responseType.Identity? || responseType.Information? || responseType.Capability?
      || responseType.Movement? || responseType.General?;
    responseType in [Movement, Identity]
  }

  /** The fields of a reply's data that must agree with each other. */
  predicate EnvelopeConsistent(d: RobotData)
  {
    && d.conversation.questionType == d.response.responseType
    && (d.conversation.isPersonal <==> d.response.responseType == Identity)
    && (d.conversation.requiresMovement <==> d.response.responseType in {Movement, Identity})
    && d.movement == Directive(d.movement.direction)
    && d.currentServoPosition != 0
  }

  /**
   * The endpoint, from the request body to the reply. The input check comes
   * before anything else; the reply text is rewritten in place before it is
   * tagged and resolved.
   */
  method GenerateResponse(
    prompt: Wrappers.Option<string>,
    robotId: Wrappers.Option<string>,
    servoPosition: Wrappers.Option<int>,
    gateway: Gateway,
    timestamp: int)
    returns (reply: Reply)
    ensures !Truthy(prompt) || !Truthy(robotId) ==> reply == InvalidInputReply
    ensures Truthy(prompt) && Truthy(robotId) && gateway.Failed? ==> reply == ProcessingErrorReply
    ensures reply.data.Some? <==> Truthy(prompt) && Truthy(robotId) && gateway.Answered?
    ensures reply.data.Some? ==>
      && reply == Reply(200, "success", "RESPONSE_GENERATED", "Response generated successfully", reply.data)
      && EnvelopeConsistent(reply.data.value)
    ensures reply.data.Some? ==>
      var d := reply.data.value;
      && d.robotId == robotId.value
      && d.timestamp == timestamp
      && d.currentServoPosition == ServoOrDefault(servoPosition)
      && d.response.text == Enhance(TextOrFallback(gateway.text))
      && d.response.responseType == DetermineResponseType(prompt.value)
      && d.response.emotion == DetermineEmotion(d.response.text)
      && d.movement == ResolveMovement(d.response.text, d.response.responseType, prompt.value)
  {
    if !Truthy(prompt) || !Truthy(robotId) {
      return InvalidInputReply;
    }
    if gateway.Failed? {
      return ProcessingErrorReply;
    }
    var text := TextOrFallback(gateway.text);

    var enhancedText := text;
    var key := Lower(Trim(text));
    if key == "right!" || key == "right" {
      enhancedText := RightSentence;
    } else if key == "left!" || key == "left" {
      enhancedText := LeftSentence;
    }

    var responseType := DetermineResponseType(prompt.value);
    var emotion := DetermineEmotion(enhancedText);
    var movement := ParseServoCommand(enhancedText, responseType, prompt.value);
    var data := RobotData(
      robotId.value,
      timestamp,
      ResponseBody(enhancedText, responseType, emotion),
      movement,
      Conversation(responseType, responseType == Identity, ShouldMove(responseType)),
      ServoOrDefault(servoPosition));
    reply := Reply(200, "success", "RESPONSE_GENERATED", "Response generated successfully", Wrappers.Some(data));
  }
}
