/**
 * Properties of the response-interpretation pipeline that relate several
 * of its parts: precedence between keyword groups, the effect of the
 * one-word rewrite on the tagger and the resolver, and the tagging of the
 * fallback text.
 */
module ControllerProperties {
  import opened Text
  import opened AiController
  import Wrappers

  // ---------------------------------------------------------------------
  // The joined check text

  /**
   * A keyword without a space occurs in the joined, lower-cased reply and
   * prompt exactly when it occurs in the lower-cased reply or in the
   * lower-cased prompt: it cannot straddle the joining space.
   */
  lemma CheckTextContains(text: string, prompt: string, w: string)
    requires ' ' !in w
    ensures Contains(CheckText(text, prompt), w) <==> Contains(Lower(text), w) || Contains(Lower(prompt), w)
  {
    LowerAppend(text + " ", prompt);
    LowerAppend(text, " ");
    assert Lower(" ") == " ";
    assert CheckText(text, prompt) == Lower(text) + [' '] + Lower(prompt);
    ContainsAcrossSeparator(Lower(text), ' ', Lower(prompt), w);
  }

  // ---------------------------------------------------------------------
  // Movement resolver

  /**
   * Without a movement prompt and without "look" in either the reply or
   * the prompt, the servo stays put, whatever direction words appear.
   */
  lemma NoGuardNoMovement(text: string, responseType: ResponseType, prompt: string)
    requires responseType != Movement
    requires !Contains(Lower(text), "look") && !Contains(Lower(prompt), "look")
    ensures ResolveMovement(text, responseType, prompt) == ServoMovement(None, 90, "no movement needed")
  {
    CheckTextContains(text, prompt, "look");
  }

  /**
   * Once the guard holds, "right" in either the reply or the prompt turns
   * the servo right to 180 degrees, even when "left" appears as well.
   */
  lemma RightWins(text: string, responseType: ResponseType, prompt: string)
    requires responseType == Movement || Contains(Lower(text), "look") || Contains(Lower(prompt), "look")
    requires Contains(Lower(text), "right") || Contains(Lower(prompt), "right")
    ensures ResolveMovement(text, responseType, prompt) == ServoMovement(Right, 180, "looking right as requested")
  {
    CheckTextContains(text, prompt, "look");
    CheckTextContains(text, prompt, "right");
  }

  /**
   * Once the guard holds and "right" appears nowhere, "left" in either the
   * reply or the prompt turns the servo left to 0 degrees, even when
   * "straight" or "forward" appears as well.
   */
  lemma LeftBeatsStraight(text: string, responseType: ResponseType, prompt: string)
    requires responseType == Movement || Contains(Lower(text), "look") || Contains(Lower(prompt), "look")
    requires !Contains(Lower(text), "right") && !Contains(Lower(prompt), "right")
    requires Contains(Lower(text), "left") || Contains(Lower(prompt), "left")
    ensures ResolveMovement(text, responseType, prompt) == ServoMovement(Left, 0, "looking left as requested")
  {
    CheckTextContains(text, prompt, "look");
    CheckTextContains(text, prompt, "right");
    CheckTextContains(text, prompt, "left");
  }

  /**
   * Once the guard holds and neither "right" nor "left" appears,
   * "straight" or "forward" in either the reply or the prompt centres the
   * servo at 90 degrees.
   */
  lemma StraightCentres(text: string, responseType: ResponseType, prompt: string)
    requires responseType == Movement || Contains(Lower(text), "look") || Contains(Lower(prompt), "look")
    requires !Contains(Lower(text), "right") && !Contains(Lower(prompt), "right")
    requires !Contains(Lower(text), "left") && !Contains(Lower(prompt), "left")
    requires Contains(Lower(text), "straight") || Contains(Lower(prompt), "straight")
      || Contains(Lower(text), "forward") || Contains(Lower(prompt), "forward")
    ensures ResolveMovement(text, responseType, prompt) == ServoMovement(Center, 90, "looking straight ahead")
  {
    CheckTextContains(text, prompt, "look");
    CheckTextContains(text, prompt, "right");
    CheckTextContains(text, prompt, "left");
    CheckTextContains(text, prompt, "straight");
    CheckTextContains(text, prompt, "forward");
  }

  /**
   * Once the guard holds but no direction word appears anywhere, the servo
   * stays put.
   */
  lemma NoDirectionNoMovement(text: string, responseType: ResponseType, prompt: string)
    requires responseType == Movement || Contains(Lower(text), "look") || Contains(Lower(prompt), "look")
    requires !Contains(Lower(text), "right") && !Contains(Lower(prompt), "right")
    requires !Contains(Lower(text), "left") && !Contains(Lower(prompt), "left")
    requires !Contains(Lower(text), "straight") && !Contains(Lower(prompt), "straight")
    requires !Contains(Lower(text), "forward") && !Contains(Lower(prompt), "forward")
    ensures ResolveMovement(text, responseType, prompt) == ServoMovement(None, 90, "no movement needed")
  {
    CheckTextContains(text, prompt, "look");
    CheckTextContains(text, prompt, "right");
    CheckTextContains(text, prompt, "left");
    CheckTextContains(text, prompt, "straight");
    CheckTextContains(text, prompt, "forward");
  }

  // ---------------------------------------------------------------------
  // Facts about the fixed sentences. Each sentence is taken apart into
  // pieces short enough for the verifier to read character by character.

  lemma RightSentenceNoSorry()
    ensures !Contains(RightSentence, "sorry")
  {
    var a, b, c := "I'll look to the right! ", "Let me see what's ", "there for you.";
    NotContainsPieces(a, b, "sorry", 0, 2);
    NotContainsMissingChar(c, "sorry", 0);
    ContainsAfterBreak(a + b, c, "sorry");
  }

  lemma RightSentenceNoCannot()
    ensures !Contains(RightSentence, "cannot") && !Contains(RightSentence, "can't")
  {
    NotContainsMissingChar(RightSentence, "cannot", 0);
    NotContainsMissingChar(RightSentence, "can't", 0);
  }

  lemma RightSentenceExclaims()
    ensures Contains(RightSentence, "!")
  {
    var a, b, c := "I'll look to the right! ", "Let me see what's ", "there for you.";
    assert a == "I'll look to the right" + "!" + " ";
    ContainsMiddle("I'll look to the right", "!", " ");
    ContainsPrefix(a, b, "!");
    ContainsPrefix(a + b, c, "!");
  }

  lemma RightSentenceHeadWords()
    ensures Contains("I'll look to the right! ", "look")
    ensures Contains("I'll look to the right! ", "right")
  {
    assert "I'll look to the right! " == "I'll " + "look" + " to the right! ";
    ContainsMiddle("I'll ", "look", " to the right! ");
    assert "I'll look to the right! " == "I'll look to the " + "right" + "! ";
    ContainsMiddle("I'll look to the ", "right", "! ");
  }

  lemma RightSentenceLooks()
    ensures Contains(Lower(RightSentence), "look")
  {
    RightSentenceHeadWords();
    ContainsPrefix("I'll look to the right! ", "Let me see what's ", "look");
    ContainsPrefix("I'll look to the right! " + "Let me see what's ", "there for you.", "look");
    ContainsLower(RightSentence, "look");
  }

  lemma RightSentenceNamesRight()
    ensures Contains(Lower(RightSentence), "right")
  {
    RightSentenceHeadWords();
    ContainsPrefix("I'll look to the right! ", "Let me see what's ", "right");
    ContainsPrefix("I'll look to the right! " + "Let me see what's ", "there for you.", "right");
    ContainsLower(RightSentence, "right");
  }

  lemma RightSentenceTrimmed()
    ensures Trim(RightSentence) == RightSentence
  {
    var a, b, c := "I'll look to the right! ", "Let me see what's ", "there for you.";
    assert (a + b + c)[0] == a[0] == 'I';
    assert (a + b + c)[|a + b + c| - 1] == c[|c| - 1] == '.';
  }

  lemma LeftSentenceNoSorry()
    ensures !Contains(LeftSentence, "sorry")
  {
    var a, b, c := "I'll look to the left! ", "Let me check what's ", "there for you.";
    NotContainsPieces(a, b, "sorry", 0, 2);
    NotContainsMissingChar(c, "sorry", 0);
    ContainsAfterBreak(a + b, c, "sorry");
  }

  lemma LeftSentenceNoCannot()
    ensures !Contains(LeftSentence, "cannot") && !Contains(LeftSentence, "can't")
  {
    NotContainsMissingChar(LeftSentence, "cannot", 2);
    NotContainsMissingChar(LeftSentence, "can't", 2);
  }

  lemma LeftSentenceExclaims()
    ensures Contains(LeftSentence, "!")
  {
    var a, b, c := "I'll look to the left! ", "Let me check what's ", "there for you.";
    assert a == "I'll look to the left" + "!" + " ";
    ContainsMiddle("I'll look to the left", "!", " ");
    ContainsPrefix(a, b, "!");
    ContainsPrefix(a + b, c, "!");
  }

  lemma LeftSentenceHeadWords()
    ensures Contains("I'll look to the left! ", "look")
    ensures Contains("I'll look to the left! ", "left")
  {
    assert "I'll look to the left! " == "I'll " + "look" + " to the left! ";
    ContainsMiddle("I'll ", "look", " to the left! ");
    assert "I'll look to the left! " == "I'll look to the " + "left" + "! ";
    ContainsMiddle("I'll look to the ", "left", "! ");
  }

  lemma LeftSentenceLooks()
    ensures Contains(Lower(LeftSentence), "look")
  {
    LeftSentenceHeadWords();
    ContainsPrefix("I'll look to the left! ", "Let me check what's ", "look");
    ContainsPrefix("I'll look to the left! " + "Let me check what's ", "there for you.", "look");
    ContainsLower(LeftSentence, "look");
  }

  lemma LeftSentenceNamesLeft()
    ensures Contains(Lower(LeftSentence), "left")
  {
    LeftSentenceHeadWords();
    ContainsPrefix("I'll look to the left! ", "Let me check what's ", "left");
    ContainsPrefix("I'll look to the left! " + "Let me check what's ", "there for you.", "left");
    ContainsLower(LeftSentence, "left");
  }

  lemma LeftSentenceTrimmed()
    ensures Trim(LeftSentence) == LeftSentence
  {
    var a, b, c := "I'll look to the left! ", "Let me check what's ", "there for you.";
    assert (a + b + c)[0] == a[0] == 'I';
    assert (a + b + c)[|a + b + c| - 1] == c[|c| - 1] == '.';
  }

  lemma LeftSentenceLacksRight()
    ensures !Contains(Lower(LeftSentence), "right")
  {
    assert 'g' !in LeftSentence && 'G' !in LeftSentence;
    NotContainsLowerMissingChar(LeftSentence, "right", 2);
  }

  lemma FallbackNoSorry()
    ensures !Contains(FallbackText, "sorry")
  {
    NotContainsPieces("Sorry, I couldn't ", "generate a response.", "sorry", 0, 4);
  }

  lemma FallbackNoCannot()
    ensures !Contains(FallbackText, "cannot") && !Contains(FallbackText, "can't")
  {
    NotContainsPieces("Sorry, I couldn't ", "generate a response.", "cannot", 1, 0);
    NotContainsPieces("Sorry, I couldn't ", "generate a response.", "can't", 1, 0);
  }

  lemma FallbackNoPunctuation()
    ensures !Contains(FallbackText, "!") && !Contains(FallbackText, "?")
  {
    NotContainsMissingChar(FallbackText, "!", 0);
    NotContainsMissingChar(FallbackText, "?", 0);
  }

  lemma FallbackTrimmed()
    ensures Trim(FallbackText) == FallbackText
  {
    var a, b := "Sorry, I couldn't ", "generate a response.";
    assert (a + b)[0] == a[0] == 'S';
    assert (a + b)[|a + b| - 1] == b[|b| - 1] == '.';
  }

  /** A reply with no surrounding whitespace and longer than six characters is never rewritten. */
  lemma LongReplyKept(text: string)
    requires Trim(text) == text && |text| > 6
    ensures Enhance(text) == text
  {
    var key := Lower(Trim(text));
    assert |key| == |text| > 6;
    assert |"right!"| == 6 && |"right"| == 5 && |"left!"| == 5 && |"left"| == 4;
  }

  // ---------------------------------------------------------------------
  // The one-word rewrite

  /**
   * A bare "right"/"right!" reply becomes the right sentence, which is
   * tagged excited and always turns the servo right to 180 degrees,
   * whatever the prompt and its type.
   */
  lemma RightReplyRewritten(text: string, responseType: ResponseType, prompt: string)
    requires Lower(Trim(text)) == "right" || Lower(Trim(text)) == "right!"
    ensures Enhance(text) == RightSentence
    ensures DetermineEmotion(Enhance(text)) == Excited
    ensures ResolveMovement(Enhance(text), responseType, prompt) == ServoMovement(Right, 180, "looking right as requested")
  {
    RightSentenceExcited();
    RightSentenceTurns(responseType, prompt);
  }

  /** The right sentence is tagged excited. */
  lemma RightSentenceExcited()
    ensures DetermineEmotion(RightSentence) == Excited
  {
    RightSentenceNoSorry();
    RightSentenceNoCannot();
    RightSentenceExclaims();
  }

  /** The right sentence turns the servo right, whatever the prompt and its type. */
  lemma RightSentenceTurns(responseType: ResponseType, prompt: string)
    ensures ResolveMovement(RightSentence, responseType, prompt) == ServoMovement(Right, 180, "looking right as requested")
  {
    RightSentenceLooks();
    RightSentenceNamesRight();
    RightWins(RightSentence, responseType, prompt);
  }

  /**
   * A bare "left"/"left!" reply becomes the left sentence, which is tagged
   * excited; the servo turns left to 0 degrees unless the prompt says
   * "right", which still wins.
   */
  lemma LeftReplyRewritten(text: string, responseType: ResponseType, prompt: string)
    requires Lower(Trim(text)) == "left" || Lower(Trim(text)) == "left!"
    ensures Enhance(text) == LeftSentence
    ensures DetermineEmotion(Enhance(text)) == Excited
    ensures ResolveMovement(Enhance(text), responseType, prompt).direction
      == if Contains(Lower(prompt), "right") then Right else Left
  {
    LeftKeyRewritten(text);
    LeftSentenceExcited();
    LeftSentenceTurns(responseType, prompt);
  }

  /** A bare "left"/"left!" key is none of the right keys, so the left branch fires. */
  lemma LeftKeyRewritten(text: string)
    requires Lower(Trim(text)) == "left" || Lower(Trim(text)) == "left!"
    ensures Enhance(text) == LeftSentence
  {
    var key := Lower(Trim(text));
    assert key != "right!" && key != "right" by {
      assert |key| == 4 || key[4] == '!';
      assert |"right!"| == 6 && "right"[4] == 't';
    }
  }

  /** The left sentence is tagged excited. */
  lemma LeftSentenceExcited()
    ensures DetermineEmotion(LeftSentence) == Excited
  {
    LeftSentenceNoSorry();
    LeftSentenceNoCannot();
    LeftSentenceExclaims();
  }

  /** The left sentence turns the servo left, unless the prompt says "right". */
  lemma LeftSentenceTurns(responseType: ResponseType, prompt: string)
    ensures ResolveMovement(LeftSentence, responseType, prompt).direction
      == if Contains(Lower(prompt), "right") then Right else Left
  {
    LeftSentenceLooks();
    LeftSentenceNamesLeft();
    LeftSentenceLacksRight();
    if Contains(Lower(prompt), "right") {
      RightWins(LeftSentence, responseType, prompt);
    } else {
      LeftBeatsStraight(LeftSentence, responseType, prompt);
    }
  }

  /** "right", in any case, padded with any whitespace on either side, is rewritten. */
  lemma PaddedRightRewritten(pre: string, word: string, post: string)
    requires forall c | c in pre :: IsWhitespace(c)
    requires forall c | c in post :: IsWhitespace(c)
    requires Lower(word) == "right"
    ensures Enhance(pre + word + post) == RightSentence
  {
    assert word[0] == 'r' || word[0] == 'R';
    assert word[4] == 't' || word[4] == 'T';
    TrimPadded(pre, word, post);
  }

  /** Rewriting an already rewritten reply changes nothing. */
  lemma EnhanceIdempotent(text: string)
    ensures Enhance(Enhance(text)) == Enhance(text)
  {
    var r := Enhance(text);
    if r == RightSentence {
      RightSentenceTrimmed();
      LongReplyKept(RightSentence);
    } else if r == LeftSentence {
      LeftSentenceTrimmed();
      LongReplyKept(LeftSentence);
    }
  }

  // ---------------------------------------------------------------------
  // The fallback text

  /**
   * A missing or empty generation is replaced by the fallback apology,
   * which is not rewritten and, because the tagger is case-sensitive and
   * the text says "Sorry" and "couldn't", is tagged neutral.
   */
  lemma FallbackTaggedNeutral(generated: Wrappers.Option<string>)
    requires !Truthy(generated)
    ensures Enhance(TextOrFallback(generated)) == FallbackText
    ensures DetermineEmotion(Enhance(TextOrFallback(generated))) == Neutral
  {
    FallbackTrimmed();
    LongReplyKept(FallbackText);
    FallbackNoSorry();
    FallbackNoCannot();
    FallbackNoPunctuation();
  }

  // ---------------------------------------------------------------------
  // Classifier

  /** Classification ignores the case of the prompt. */
  lemma ClassifierIgnoresCase(prompt: string)
    ensures DetermineResponseType(Lower(prompt)) == DetermineResponseType(prompt)
  {
    LowerIdempotent(prompt);
  }

  // ---------------------------------------------------------------------
  // Worked examples

  /** "Please look right" asks the robot to look. */
  lemma LookRightPromptLooks(prompt: string)
    requires prompt == "Please " + "look" + " right"
    ensures Contains(Lower(prompt), "look")
  {
    ContainsMiddle("Please ", "look", " right");
    ContainsLower(prompt, "look");
  }

  /** "Please look right" has none of the identity, information or capability phrases. */
  lemma LookRightPromptNoQuestion(prompt: string, k: string)
    requires prompt == "Please " + "look" + " right"
    requires k in ["who are you", "your name", "who is", "what is", "can you", "could you"]
    ensures !Contains(Lower(prompt), k)
  {
    if k == "who are you" {
      NotContainsLowerMissingChar(prompt, k, 8);
    } else {
      NotContainsLowerMissingChar(prompt, k, 0);
    }
  }

  /** "Please look right" is classified as a movement prompt. */
  lemma LookRightPromptIsMovement(prompt: string)
    requires prompt == "Please " + "look" + " right"
    ensures DetermineResponseType(prompt) == Movement
  {
    LookRightPromptLooks(prompt);
    LookRightPromptNoQuestion(prompt, "who are you");
    LookRightPromptNoQuestion(prompt, "your name");
    LookRightPromptNoQuestion(prompt, "who is");
    LookRightPromptNoQuestion(prompt, "what is");
    LookRightPromptNoQuestion(prompt, "can you");
    LookRightPromptNoQuestion(prompt, "could you");
  }

  /** "Please look right" answered by "Sure, turning right now!" turns the servo right. */
  lemma LookRightExample(prompt: string, text: string)
    requires prompt == "Please " + "look" + " right"
    requires text == "Sure, turning " + "right" + " now!"
    ensures ResolveMovement(text, DetermineResponseType(prompt), prompt) == ServoMovement(Right, 180, "looking right as requested")
  {
    LookRightPromptIsMovement(prompt);
    ContainsMiddle("Sure, turning ", "right", " now!");
    ContainsLower(text, "right");
    RightWins(text, Movement, prompt);
  }

  /** A lower-case apology is tagged apologetic. */
  lemma ApologyExample(text: string)
    requires text == "I'm " + "sorry" + ", I cannot help with that."
    ensures DetermineEmotion(text) == Apologetic
  {
    ContainsMiddle("I'm ", "sorry", ", I cannot help with that.");
  }
}
