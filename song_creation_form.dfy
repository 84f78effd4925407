/**
 * The pure logic of the song-creation form: the classification of AI
 * errors into user-facing texts, the prompt length rule, the lyrics
 * download filename, and the guard and record built by the compose handler.
 */
module SongCreationForm {
  import opened Wrappers
  import opened Text
  import opened SongTypes
  import opened ComposeMusicFlow

  /** A value caught by a `catch`: an `Error` with its message, or anything else. */
  datatype Thrown = ErrorValue(message: string) | OtherValue

  const DailyLimitText: string := "You have exceeded the daily free API limit. Please try again tomorrow."
  const MissingKeyText: string := "The Suno API key is missing. Please ask the developer to configure it."
  const GenericErrorText: string := "An unexpected error occurred. Please try again later."

  /** The message names HTTP status 429 or, in any ASCII case, a quota; so it has at least three characters. */
  predicate MentionsQuota(message: string)
    ensures MentionsQuota(message) ==> |message| >= 3
  {
    Contains(message, "429") || Contains(ToLower(message), "quota")
  }

  /** The quota test gives the same answer on the lower-cased message. */
  lemma QuotaTestIgnoresCase(message: string)
    ensures MentionsQuota(ToLower(message)) <==> MentionsQuota(message)
  {
    ContainsLowerNonLetters(message, "429");
    ToLowerIdempotent(message);
  }

  /** `getAiErrorDescription`: quota first, then the (case-sensitive) key name, then the generic text. */
  function AiErrorDescription(error: Thrown): (d: string)
    ensures d == DailyLimitText <==> error.ErrorValue? && MentionsQuota(error.message)
    ensures d == MissingKeyText <==>
      error.ErrorValue? && !MentionsQuota(error.message) && Contains(error.message, "SUNO_API_KEY")
    ensures d == GenericErrorText <==>
      error.OtherValue? || (!MentionsQuota(error.message) && !Contains(error.message, "SUNO_API_KEY"))
  {
    if error.ErrorValue? && MentionsQuota(error.message) then DailyLimitText
    else if error.ErrorValue? && Contains(error.message, "SUNO_API_KEY") then MissingKeyText
    else GenericErrorText
  }

  /** No character of the message is '4', 'q' or 'Q'. */
  predicate NoQuotaChars(message: string) {
    forall k :: 0 <= k < |message| ==> message[k] != '4' && message[k] != 'q' && message[k] != 'Q'
  }

  lemma NoQuotaCharsConcat(a: string, b: string)
    requires NoQuotaChars(a) && NoQuotaChars(b)
    ensures NoQuotaChars(a + b)
  {
    forall k | 0 <= k < |a + b| ensures (a + b)[k] != '4' && (a + b)[k] != 'q' && (a + b)[k] != 'Q' {
      if k < |a| {
        assert (a + b)[k] == a[k];
      } else {
        assert (a + b)[k] == b[k - |a|];
      }
    }
  }

  /** A message without '4', 'q' and 'Q' mentions no quota. */
  lemma NoQuotaWithout(message: string)
    requires NoQuotaChars(message)
    ensures !MentionsQuota(message)
  {
    if Contains(message, "429") {
      ContainsChars(message, "429", '4');
    }
    if Contains(ToLower(message), "quota") {
      ContainsChars(ToLower(message), "quota", 'q');
      LowerLetterOrigin(message, 'q');
    }
  }

  /** A message without one of the characters of a substring does not contain it. */
  lemma MissingCharNotContained(message: string, sub: string, c: char)
    requires c in sub && c !in message
    ensures !Contains(message, sub)
  {
    if Contains(message, sub) {
      ContainsChars(message, sub, c);
    }
  }

  /** A message with no '4', 'q', 'Q' or `c`, where `c` is a character of the key name, is shown as the generic text. */
  lemma GenericWithout(message: string, c: char)
    requires NoQuotaChars(message)
    requires c in ApiKeyVariable && c !in message
    ensures AiErrorDescription(ErrorValue(message)) == GenericErrorText
  {
    NoQuotaWithout(message);
    MissingCharNotContained(message, ApiKeyVariable, c);
  }

  /** A message that starts with the key name and has no '4', 'q' or 'Q' after it is shown as the missing-key text. */
  lemma KeyNameFirst(tail: string)
    requires NoQuotaChars(tail)
    ensures AiErrorDescription(ErrorValue(ApiKeyVariable + tail)) == MissingKeyText
  {
    var message := ApiKeyVariable + tail;
    assert NoQuotaChars(ApiKeyVariable);
    NoQuotaCharsConcat(ApiKeyVariable, tail);
    NoQuotaWithout(message);
    ContainsPrefix(message, ApiKeyVariable);
  }

  /** The text after the key name in the missing-key error has no quota characters. */
  lemma MissingKeyTail()
    ensures MissingApiKey.Message() == ApiKeyVariable + MissingKeySuffix
    ensures NoQuotaChars(MissingKeySuffix)
  {
    MissingKeySuffixChars();
  }

  lemma MissingKeySuffixChars()
    ensures NoQuotaChars(MissingKeySuffix)
  {
  }

  /** The flow's missing-key error reaches the user as the missing-key text. */
  lemma MissingKeyErrorDescribed(e: FlowError)
    requires e.MissingApiKey?
    ensures AiErrorDescription(ErrorValue(e.Message())) == MissingKeyText
  {
    MissingKeyTail();
    KeyNameFirst(MissingKeySuffix);
  }

  /** A quota mention wins over the key name. */
  lemma QuotaBeforeKey(detail: string)
    ensures AiErrorDescription(ErrorValue(ApiKeyVariable + " quota" + detail)) == DailyLimitText
  {
    var message := ApiKeyVariable + " quota" + detail;
    assert ToLower(message)[13..18] == "quota";
    assert OccursAt(ToLower(message), "quota", 13);
  }

  /** The key name is matched case-sensitively. */
  lemma KeyNameIsCaseSensitive(detail: string)
    requires NoQuotaChars(detail) && 'S' !in detail
    ensures AiErrorDescription(ErrorValue("suno_api_key" + detail)) == GenericErrorText
  {
    var lowerName := "suno_api_key";
    assert NoQuotaChars(lowerName) && 'S' !in lowerName;
    NoQuotaCharsConcat(lowerName, detail);
    GenericWithout(lowerName + detail, 'S');
  }

  /** A timed-out composition reaches the user as the generic text. */
  lemma TimeoutIsGeneric(e: FlowError)
    requires e.GenerationTimedOut?
    ensures AiErrorDescription(ErrorValue(e.Message())) == GenericErrorText
  {
    TimeoutMessageChars();
    GenericWithout(GenerationTimedOut.Message(), '_');
  }

  /** The timeout message has no quota characters and no underscore. */
  lemma TimeoutMessageChars()
    ensures NoQuotaChars(GenerationTimedOut.Message())
    ensures '_' !in GenerationTimedOut.Message()
  {
    assert GenerationTimedOut.Message() == SongGenerationPhrase + TimeoutSuffix;
    PhraseChars();
    TimeoutSuffixChars();
    NoQuotaCharsConcat(SongGenerationPhrase, TimeoutSuffix);
    AvoidsConcat(SongGenerationPhrase, TimeoutSuffix, '_');
  }

  lemma PhraseChars()
    ensures NoQuotaChars(SongGenerationPhrase)
    ensures forall k :: 0 <= k < |SongGenerationPhrase| ==> SongGenerationPhrase[k] != '_'
  {
  }

  lemma TimeoutSuffixChars()
    ensures NoQuotaChars(TimeoutSuffix)
    ensures forall k :: 0 <= k < |TimeoutSuffix| ==> TimeoutSuffix[k] != '_'
  {
  }

  lemma AvoidsConcat(a: string, b: string, c: char)
    requires forall k :: 0 <= k < |a| ==> a[k] != c
    requires forall k :: 0 <= k < |b| ==> b[k] != c
    ensures c !in a + b
  {
  }

  /** Lower-casing works character by character, so it distributes over concatenation. */
  lemma ToLowerConcat(a: string, b: string)
    ensures ToLower(a + b) == ToLower(a) + ToLower(b)
  {
  }

  /** A quota message from the provider, wrapped in the flow's generation error, is shown as the daily-limit text. */
  lemma ProviderQuotaIsDailyLimit(reason: string)
    requires MentionsQuota(reason)
    ensures AiErrorDescription(ErrorValue(GenerationFailed(reason).Message())) == DailyLimitText
  {
    var prefix := GenerationFailedPrefix;
    assert GenerationFailed(reason).Message() == prefix + reason;
    if Contains(reason, "429") {
      ContainsInConcat(prefix, reason, "429");
    } else {
      ToLowerConcat(prefix, reason);
      ContainsInConcat(ToLower(prefix), ToLower(reason), "quota");
    }
  }

  const MinPromptLength: nat := 5
  const MaxPromptLength: nat := 200
  const TooShortMessage: string := "Prompt must be at least 5 characters."
  /** The default message of the schema library's maximum-length rule. */
  const TooLongMessage: string := "String must contain at most 200 character(s)"

  /** The `prompt` rule of `formSchema`. */
  function ValidatePrompt(prompt: string): (r: Result<string, string>)
    ensures r.Success? <==> MinPromptLength <= |prompt| <= MaxPromptLength
    ensures r.Success? ==> r.value == prompt
    ensures |prompt| < MinPromptLength ==> r == Failure(TooShortMessage)
    ensures |prompt| > MaxPromptLength ==> r == Failure(TooLongMessage)
  {
    if |prompt| < MinPromptLength then Failure(TooShortMessage)
    else if |prompt| > MaxPromptLength then Failure(TooLongMessage)
    else Success(prompt)
  }

  const LyricsFileSuffix: string := "-lyrics.txt"

  /**
   * The filename of `handleDownloadLyrics`, or None when there are no
   * lyrics ("" for null) or the trimmed prompt is empty.
   */
  function DownloadFilename(lyrics: string, currentPrompt: string): (r: Option<string>)
    ensures r.Some? <==> lyrics != "" && Trim(currentPrompt) != ""
    ensures r.Some? ==>
      var stem := Trim(currentPrompt);
      && |r.value| == |stem| + |LyricsFileSuffix|
      && r.value[|stem|..] == LyricsFileSuffix
      && ' ' !in r.value
      && forall k :: 0 <= k < |stem| ==> r.value[k] == (if stem[k] == ' ' then '_' else stem[k])
  {
    if lyrics == "" || Trim(currentPrompt) == "" then None
    else
      var name := ReplaceSpaces(Trim(currentPrompt)) + LyricsFileSuffix;
      assert name[|Trim(currentPrompt)|..] == LyricsFileSuffix;
      Some(name)
  }

  /** The filename has a non-empty stem, which starts with the first non-whitespace character of the prompt. */
  lemma FilenameStem(lyrics: string, currentPrompt: string)
    requires DownloadFilename(lyrics, currentPrompt).Some?
    ensures var name := DownloadFilename(lyrics, currentPrompt).value;
      && |name| > |LyricsFileSuffix|
      && !IsWhitespace(name[0])
      && name[0] == Trim(currentPrompt)[0]
  {
    var stem := Trim(currentPrompt);
    assert stem != [] && !IsWhitespace(stem[0]);
  }

  datatype ComposeAttempt = Refused | Failed(description: string) | Saved(song: Song)

  /**
   * `handleComposeMusic`: refuses without lyrics; otherwise asks for a
   * style, composes with the lyrics, that style and the current prompt as
   * title, and builds the saved song. A failure of either step is shown
   * through `AiErrorDescription`.
   */
  function HandleComposeMusic(lyrics: string, currentPrompt: string,
                              suggestStyle: string -> Result<string, Thrown>,
                              compose: ComposeInput -> Result<ComposeOutput, Thrown>,
                              id: string, createdAt: string): (r: ComposeAttempt)
    ensures lyrics == "" ==> r == Refused
    ensures lyrics != "" && suggestStyle(lyrics).Failure? ==>
      r == Failed(AiErrorDescription(suggestStyle(lyrics).error))
    ensures lyrics != "" && suggestStyle(lyrics).Success? ==>
      var style := suggestStyle(lyrics).value;
      var composed := compose(ComposeInput(lyrics, style, currentPrompt));
      && (composed.Failure? ==> r == Failed(AiErrorDescription(composed.error)))
      && (composed.Success? ==>
            && r.Saved?
            && r.song.id == id && r.song.createdAt == createdAt
            && r.song.title == currentPrompt && r.song.prompt == currentPrompt
            && r.song.lyrics == lyrics && r.song.style == style
            && r.song.musicDataUri == Some(composed.value.musicDataUri)
            && r.song.musicDescription == composed.value.description)
  {
    if lyrics == "" then Refused
    else
      match suggestStyle(lyrics)
      case Failure(error) => Failed(AiErrorDescription(error))
      case Success(style) =>
        match compose(ComposeInput(lyrics, style, currentPrompt))
        case Failure(error) => Failed(AiErrorDescription(error))
        case Success(output) =>
          Saved(Song(id, currentPrompt, currentPrompt, lyrics, style, Some(output.musicDataUri),
                     output.description, createdAt))
  }

  /** Without lyrics the services are not consulted: any two pairs of services give the same refusal. */
  lemma RefusalIgnoresServices(currentPrompt: string,
                               style1: string -> Result<string, Thrown>, style2: string -> Result<string, Thrown>,
                               compose1: ComposeInput -> Result<ComposeOutput, Thrown>,
                               compose2: ComposeInput -> Result<ComposeOutput, Thrown>,
                               id: string, createdAt: string)
    ensures HandleComposeMusic("", currentPrompt, style1, compose1, id, createdAt)
         == HandleComposeMusic("", currentPrompt, style2, compose2, id, createdAt)
  {
  }

  /** A composition that fails for a missing key is shown as the missing-key text. */
  lemma MissingKeyShownOnCompose(lyrics: string, currentPrompt: string,
                                 suggestStyle: string -> Result<string, Thrown>,
                                 compose: ComposeInput -> Result<ComposeOutput, Thrown>,
                                 id: string, createdAt: string)
    requires lyrics != "" && suggestStyle(lyrics).Success?
    requires compose(ComposeInput(lyrics, suggestStyle(lyrics).value, currentPrompt))
          == Failure(ErrorValue(MissingApiKey.Message()))
    ensures HandleComposeMusic(lyrics, currentPrompt, suggestStyle, compose, id, createdAt) == Failed(MissingKeyText)
  {
    MissingKeyErrorDescribed(MissingApiKey);
  }
}
