/**
 * The music-composition flow `composeMusicFlow`: precondition checks,
 * submission of the cleaned lyrics, normalisation of the returned clip ids,
 * bounded polling of the clips, and assembly of the data URI and the
 * description. The provider is an oracle: the submission response, one
 * poll result per clip per tick, and the audio download response.
 */
module ComposeMusicFlow {
  import opened Wrappers
  import opened Text
  import opened Filters
  import opened CleanLyrics
  import opened Base64

  /** 30 ticks of 5 seconds each; only the tick count is modelled. */
  const MaxAttempts: nat := 30

  datatype ComposeInput = ComposeInput(lyrics: string, style: string, title: string)

  datatype ComposeOutput = ComposeOutput(musicDataUri: string, description: string)

  /** The environment variable that holds the provider's API key. */
  const ApiKeyVariable: string := "SUNO_API_KEY"

  const SongGenerationPhrase: string := "Suno song generation"

  // The fixed parts of the error messages.
  const MissingKeySuffix: string := " is not set in the environment variables."
  const EmptyLyricsText: string :=
    "The provided lyrics were empty after removing structural markers. Please provide valid lyrics."
  const GenerationFailedPrefix: string := "Suno API generation failed: "
  const UnexpectedDataPrefix: string :=
    "Suno API returned a success code but the data was not in the expected format. Data: "
  const NoClipsText: string := "Suno API did not return any processable clips. The service might be busy."
  const TimeoutSuffix: string := " timed out after 2.5 minutes."
  const DownloadFailedPrefix: string := "Failed to download audio from Suno: "

  /** The errors the flow throws. */
  datatype FlowError =
    | MissingApiKey
    | EmptyLyrics
    | GenerationFailed(reason: string)
    | UnexpectedData(dataJson: string)
    | NoProcessableClips
    | ClipFailed(clipId: string, detail: string)
    | GenerationTimedOut
    | DownloadFailed(statusText: string)
  {
    /**
     * The message of the thrown `Error`: the missing-key message starts with the variable's name; the clip and timeout messages start with
     * the generation phrase; and the provider's reason, the data, and the
     * download status text each end the message they are carried in.
     */
    function Message(): (m: string)
      ensures MissingApiKey? ==> |m| >= |ApiKeyVariable| && m[..|ApiKeyVariable|] == ApiKeyVariable
      ensures ClipFailed? || GenerationTimedOut? ==>
        |m| >= |SongGenerationPhrase| && m[..|SongGenerationPhrase|] == SongGenerationPhrase
      ensures GenerationFailed? ==> |m| >= |reason| && m[|m| - |reason|..] == reason
      ensures UnexpectedData? ==> |m| >= |dataJson| && m[|m| - |dataJson|..] == dataJson
      ensures DownloadFailed? ==> |m| >= |statusText| && m[|m| - |statusText|..] == statusText
    {
      match this
      case MissingApiKey => ApiKeyVariable + MissingKeySuffix
      case EmptyLyrics => EmptyLyricsText
      case GenerationFailed(reason) => GenerationFailedPrefix + reason
      case UnexpectedData(dataJson) => UnexpectedDataPrefix + dataJson
      case NoProcessableClips => NoClipsText
      case ClipFailed(clipId, detail) => SongGenerationPhrase + (" failed for clip " + clipId + ": " + detail)
      case GenerationTimedOut => SongGenerationPhrase + TimeoutSuffix
      case DownloadFailed(statusText) => DownloadFailedPrefix + statusText
    }
  }

  /** The requests the flow sends, in order. */
  datatype Request =
    | SubmitRequest(prompt: string, title: string, tags: string)
    | FeedRequest(clipId: string)
    | AudioRequest(url: string)

  // ---------------------------------------------------------------------
  // Submission: the response envelope and the clip ids it yields.
  // ---------------------------------------------------------------------

  /** One element of `data`; "" stands for a missing or falsy `id` (also for a `null` element). */
  datatype ClipRef = ClipRef(id: string)

  /** `data` is falsy, a single object, or an array. */
  datatype SubmitData = NoData | SingleClip(clip: ClipRef) | ClipList(clips: seq<ClipRef>)

  /** The parsed body of the generation response, plus the transport status text and `JSON.stringify(data)`. */
  datatype SubmitResponse = SubmitResponse(statusText: string, code: int, msg: string, data: SubmitData, dataJson: string)

  /**
   * `[].concat(data || []).map(clip => clip?.id)`: no candidate without data,
   * one for a single object, and one per element of an array, in its order.
   */
  function CandidateIds(data: SubmitData): (r: seq<string>)
    ensures data.NoData? ==> r == []
    ensures data.SingleClip? ==> r == [data.clip.id]
    ensures data.ClipList? ==> |r| == |data.clips| && forall k :: 0 <= k < |r| ==> r[k] == data.clips[k].id
  {
    match data
    case NoData => []
    case SingleClip(clip) => [clip.id]
    case ClipList(clips) => seq(|clips|, k requires 0 <= k < |clips| => clips[k].id)
  }

  predicate IsTruthy(id: string) { id != "" }

  /** `.filter(Boolean)` on the candidate ids: the non-empty ids, in order. */
  function ClipIds(data: SubmitData): (ids: seq<string>)
    ensures forall id :: id in ids <==> id in CandidateIds(data) && id != ""
  {
    Filter(IsTruthy, CandidateIds(data))
  }

  /** A single object and a one-element array give the same ids. */
  lemma SingleClipIsOneElementList(clip: ClipRef)
    ensures ClipIds(SingleClip(clip)) == ClipIds(ClipList([clip]))
  {
    assert CandidateIds(ClipList([clip])) == [clip.id];
  }

  /** Normalising an array keeps the order of its elements. */
  lemma ClipIdsConcat(a: seq<ClipRef>, b: seq<ClipRef>)
    ensures ClipIds(ClipList(a + b)) == ClipIds(ClipList(a)) + ClipIds(ClipList(b))
  {
    assert CandidateIds(ClipList(a + b)) == CandidateIds(ClipList(a)) + CandidateIds(ClipList(b));
    FilterConcat(IsTruthy, CandidateIds(ClipList(a)), CandidateIds(ClipList(b)));
  }

  /** Lines 98-112: the envelope code, then the id list, then the kind of emptiness. */
  function CheckSubmission(response: SubmitResponse): (r: Result<seq<string>, FlowError>)
    ensures response.code != 200 ==>
      r == Failure(GenerationFailed(if response.msg != "" then response.msg else response.statusText))
    ensures response.code == 200 ==> (r.Success? <==> ClipIds(response.data) != [])
    ensures r.Success? ==> r.value == ClipIds(response.data) && r.value != []
    ensures response.code == 200 && ClipIds(response.data) == [] ==>
      r == Failure(if response.data.NoData? then NoProcessableClips else UnexpectedData(response.dataJson))
  {
    if response.code != 200 then
      Failure(GenerationFailed(if response.msg != "" then response.msg else response.statusText))
    else
      var ids := ClipIds(response.data);
      if |ids| == 0 then
        if response.data.NoData? then Failure(NoProcessableClips) else Failure(UnexpectedData(response.dataJson))
      else Success(ids)
  }

  /** An array with no usable id is a malformed response, not an empty one (an empty array is truthy). */
  lemma EmptyArrayIsUnexpected(response: SubmitResponse)
    requires response.code == 200 && response.data == ClipList([])
    ensures CheckSubmission(response) == Failure(UnexpectedData(response.dataJson))
  {
    assert CandidateIds(response.data) == [];
  }

  // ---------------------------------------------------------------------
  // Polling: one tick scans the clips in id order.
  // ---------------------------------------------------------------------

  /**
   * What one status request for one clip yields: a non-2xx response, an
   * envelope whose `code` is not 200, a clip that is neither complete nor
   * failed (also a missing `data`), a complete clip ("" for a missing
   * `audio_url` or `metadata.prompt`), or a failed clip with the `id` and
   * `error_message` of the response ("" when missing).
   */
  datatype PollResult =
    | TransportFail
    | EnvelopeFail
    | Pending
    | Complete(audioUrl: string, metadataPrompt: string)
    | Error(clipId: string, errorMessage: string)

  datatype PollOutcome =
    | Resolved(audioUrl: string, metadataPrompt: string)
    | Errored(clipId: string, detail: string)
    | TimedOut

  /** The whole polling session: its outcome, how many ticks ran, and which clip ids were requested, in order. */
  datatype Session = Session(outcome: PollOutcome, attempts: nat, fetched: seq<string>)

  /** The oracle answers every clip on every one of the MaxAttempts ticks: `feed[t][k]` is clip k on tick t. */
  predicate FeedCovers(feed: seq<seq<PollResult>>, clipCount: nat) {
    |feed| == MaxAttempts && forall t :: 0 <= t < |feed| ==> |feed[t]| == clipCount
  }

  /** A result that stops the scan of a tick: `complete` breaks, `error` throws. */
  predicate Decisive(r: PollResult) {
    r.Complete? || r.Error?
  }

  /** The index of the first decisive result at or after `i`, or |row| when there is none. */
  function FirstDecisive(row: seq<PollResult>, i: nat): (j: nat)
    requires i <= |row|
    ensures i <= j <= |row|
    ensures j < |row| ==> Decisive(row[j])
    ensures forall k :: i <= k < j ==> !Decisive(row[k])
    decreases |row| - i
  {
    if i == |row| then i
    else if Decisive(row[i]) then i
    else FirstDecisive(row, i + 1)
  }

  /** `clipData.error_message || 'Unknown error'`. */
  function ErrorDetail(errorMessage: string): (detail: string)
    ensures detail != ""
    ensures errorMessage != "" ==> detail == errorMessage
  {
    if errorMessage != "" then errorMessage else "Unknown error"
  }

  datatype Verdict = KeepPolling | Finish(outcome: PollOutcome)

  /**
   * The verdict of one tick: the first decisive clip in clip order decides;
   * a complete clip resolves only with a non-empty URL.
   */
  function TickVerdict(row: seq<PollResult>): (v: Verdict)
    ensures v.Finish? ==> !v.outcome.TimedOut?
    ensures v.Finish? && v.outcome.Resolved? ==> v.outcome.audioUrl != ""
    ensures v.Finish? <==>
      (FirstDecisive(row, 0) < |row| &&
       (row[FirstDecisive(row, 0)].Error? || row[FirstDecisive(row, 0)].audioUrl != ""))
  {
    var j := FirstDecisive(row, 0);
    if j == |row| then KeepPolling
    else if row[j].Complete? then
      if row[j].audioUrl != "" then Finish(Resolved(row[j].audioUrl, row[j].metadataPrompt)) else KeepPolling
    else Finish(Errored(row[j].clipId, ErrorDetail(row[j].errorMessage)))
  }

  /** The clip ids requested in one tick: a prefix of the ids, up to and including the first decisive clip. */
  function TickFetches(clipIds: seq<string>, row: seq<PollResult>): (r: seq<string>)
    requires |row| == |clipIds|
    ensures r == clipIds[..if FirstDecisive(row, 0) < |row| then FirstDecisive(row, 0) + 1 else |row|]
  {
    var j := FirstDecisive(row, 0);
    if j < |row| then clipIds[..j + 1] else clipIds
  }

  /**
   * The session from tick `t` on (t ticks already ran): it ends after at most
   * MaxAttempts ticks, runs at least one more tick when one is left, resolves
   * only with a URL.
   */
  function Run(clipIds: seq<string>, feed: seq<seq<PollResult>>, t: nat): (s: Session)
    requires FeedCovers(feed, |clipIds|) && t <= MaxAttempts
    ensures t <= s.attempts <= MaxAttempts
    ensures t < MaxAttempts ==> t < s.attempts
    ensures s.outcome.Resolved? ==> s.outcome.audioUrl != ""
    decreases MaxAttempts - t
  {
    if t == MaxAttempts then Session(TimedOut, MaxAttempts, [])
    else
      var here := TickFetches(clipIds, feed[t]);
      match TickVerdict(feed[t])
      case Finish(outcome) => Session(outcome, t + 1, here)
      case KeepPolling =>
        var rest := Run(clipIds, feed, t + 1);
        Session(rest.outcome, rest.attempts, here + rest.fetched)
  }

  /** A session requests no id that the submission did not return. */
  lemma {:induction false} RunFetchesClipIds(clipIds: seq<string>, feed: seq<seq<PollResult>>, t: nat)
    requires FeedCovers(feed, |clipIds|) && t <= MaxAttempts
    ensures forall id :: id in Run(clipIds, feed, t).fetched ==> id in clipIds
    decreases MaxAttempts - t
  {
    if t < MaxAttempts {
      var here := TickFetches(clipIds, feed[t]);
      assert forall id :: id in here ==> id in clipIds;
      if TickVerdict(feed[t]).KeepPolling? {
        RunFetchesClipIds(clipIds, feed, t + 1);
      }
    }
  }

  /** The session from tick `t` times out exactly when no tick from `t` on decides, and then after MaxAttempts ticks. */
  lemma {:induction false} RunTimesOut(clipIds: seq<string>, feed: seq<seq<PollResult>>, t: nat)
    requires FeedCovers(feed, |clipIds|) && t <= MaxAttempts
    ensures Run(clipIds, feed, t).outcome.TimedOut? <==>
      forall u :: t <= u < MaxAttempts ==> TickVerdict(feed[u]).KeepPolling?
    ensures Run(clipIds, feed, t).outcome.TimedOut? ==> Run(clipIds, feed, t).attempts == MaxAttempts
    decreases MaxAttempts - t
  {
    if t < MaxAttempts && TickVerdict(feed[t]).KeepPolling? {
      RunTimesOut(clipIds, feed, t + 1);
    }
  }

  /** A session from tick `t` that does not time out ends on the first deciding tick, with that tick's outcome. */
  lemma {:induction false} RunDecides(clipIds: seq<string>, feed: seq<seq<PollResult>>, t: nat)
    requires FeedCovers(feed, |clipIds|) && t <= MaxAttempts
    ensures var s := Run(clipIds, feed, t);
      !s.outcome.TimedOut? ==>
        && t < s.attempts <= MaxAttempts
        && TickVerdict(feed[s.attempts - 1]) == Finish(s.outcome)
        && (s.outcome.Resolved? ==> s.outcome.audioUrl != "")
        && forall u :: t <= u < s.attempts - 1 ==> TickVerdict(feed[u]).KeepPolling?
    decreases MaxAttempts - t
  {
    if t < MaxAttempts && TickVerdict(feed[t]).KeepPolling? {
      RunDecides(clipIds, feed, t + 1);
    }
  }

  /** A failed clip aborts the session on its tick, even when a later clip of that tick is complete. */
  lemma FirstErrorAborts(row: seq<PollResult>, j: nat)
    requires j < |row| && row[j].Error?
    requires forall k :: 0 <= k < j ==> !Decisive(row[k])
    ensures TickVerdict(row) == Finish(Errored(row[j].clipId, ErrorDetail(row[j].errorMessage)))
  {
    assert FirstDecisive(row, 0) == j;
  }

  /** A complete clip with a URL resolves its tick, even when a later clip of that tick has failed. */
  lemma FirstCompleteResolves(row: seq<PollResult>, j: nat)
    requires j < |row| && row[j].Complete? && row[j].audioUrl != ""
    requires forall k :: 0 <= k < j ==> !Decisive(row[k])
    ensures TickVerdict(row) == Finish(Resolved(row[j].audioUrl, row[j].metadataPrompt))
  {
    assert FirstDecisive(row, 0) == j;
  }

  /** A complete clip with an empty URL ends the tick's scan (later clips are not requested) and polling goes on. */
  lemma EmptyUrlEndsScan(clipIds: seq<string>, row: seq<PollResult>, j: nat)
    requires |row| == |clipIds| && j < |row| && row[j].Complete? && row[j].audioUrl == ""
    requires forall k :: 0 <= k < j ==> !Decisive(row[k])
    ensures TickVerdict(row) == KeepPolling
    ensures TickFetches(clipIds, row) == clipIds[..j + 1]
  {
    assert FirstDecisive(row, 0) == j;
  }

  /** Three clips: all pending on tick 1, the second complete with URL `url` on tick 2. */
  lemma SecondClipResolvesOnSecondTick(a: string, b: string, c: string, url: string, prompt: string,
                                       feed: seq<seq<PollResult>>)
    requires FeedCovers(feed, 3)
    requires feed[0] == [Pending, Pending, Pending]
    requires feed[1] == [Pending, Complete(url, prompt), Pending]
    requires url != ""
    ensures Run([a, b, c], feed, 0) == Session(Resolved(url, prompt), 2, [a, b, c, a, b])
  {
    assert FirstDecisive(feed[0], 0) == 3;
    assert FirstDecisive(feed[1], 0) == 1;
    assert TickFetches([a, b, c], feed[0]) == [a, b, c];
    assert TickFetches([a, b, c], feed[1]) == [a, b];
  }

  /** Ticks with no decisive clip: every tick requests every clip, and the session times out. */
  lemma {:induction false} UndecidedTimesOut(clipIds: seq<string>, feed: seq<seq<PollResult>>, t: nat)
    requires FeedCovers(feed, |clipIds|) && t <= MaxAttempts
    requires forall u, k :: t <= u < MaxAttempts && 0 <= k < |clipIds| ==> !Decisive(feed[u][k])
    ensures Run(clipIds, feed, t).outcome == TimedOut
    ensures Run(clipIds, feed, t).attempts == MaxAttempts
    ensures |Run(clipIds, feed, t).fetched| == (MaxAttempts - t) * |clipIds|
    decreases MaxAttempts - t
  {
    if t < MaxAttempts {
      assert FirstDecisive(feed[t], 0) == |clipIds|;
      UndecidedTimesOut(clipIds, feed, t + 1);
      assert (MaxAttempts - t) * |clipIds| == |clipIds| + (MaxAttempts - (t + 1)) * |clipIds|;
    }
  }

  /** The first decisive result of a row is the one the scan stops at. */
  lemma DecidedAt(row: seq<PollResult>, i: nat)
    requires i <= |row|
    requires i < |row| ==> Decisive(row[i])
    requires forall k :: 0 <= k < i ==> !Decisive(row[k])
    ensures FirstDecisive(row, 0) == i
  {
  }

  /** One tick of the session. */
  lemma RunStep(clipIds: seq<string>, feed: seq<seq<PollResult>>, t: nat)
    requires FeedCovers(feed, |clipIds|) && t < MaxAttempts
    ensures TickVerdict(feed[t]).Finish? ==>
      Run(clipIds, feed, t) == Session(TickVerdict(feed[t]).outcome, t + 1, TickFetches(clipIds, feed[t]))
    ensures TickVerdict(feed[t]).KeepPolling? ==>
      var rest := Run(clipIds, feed, t + 1);
      Run(clipIds, feed, t) == Session(rest.outcome, rest.attempts, TickFetches(clipIds, feed[t]) + rest.fetched)
  {
  }

  /** The session still to come, after `fetched` was requested in the ticks before `t`. */
  ghost predicate Remaining(clipIds: seq<string>, feed: seq<seq<PollResult>>, t: nat, fetched: seq<string>)
    requires FeedCovers(feed, |clipIds|) && t <= MaxAttempts
  {
    var rest := Run(clipIds, feed, t);
    Run(clipIds, feed, 0) == Session(rest.outcome, rest.attempts, fetched + rest.fetched)
  }

  /**
   * One tick of the polling loop: requests the clips in order, skipping
   * failed requests and pending clips, and stops at the first complete or
   * failed clip.
   */
  method PollTick(clipIds: seq<string>, row: seq<PollResult>) returns (verdict: Verdict, requested: seq<string>)
    requires |row| == |clipIds|
    ensures verdict == TickVerdict(row)
    ensures requested == TickFetches(clipIds, row)
  {
    requested := [];
    for i := 0 to |clipIds|
      invariant requested == clipIds[..i]
      invariant forall k :: 0 <= k < i ==> !Decisive(row[k])
    {
      requested := requested + [clipIds[i]];
      var answer := row[i];
      if answer.TransportFail? {
        continue;
      }
      if answer.EnvelopeFail? {
        continue;
      }
      if answer.Complete? {
        DecidedAt(row, i);
        if answer.audioUrl != "" {
          return Finish(Resolved(answer.audioUrl, answer.metadataPrompt)), requested;
        }
        return KeepPolling, requested;
      }
      if answer.Error? {
        DecidedAt(row, i);
        return Finish(Errored(answer.clipId, ErrorDetail(answer.errorMessage))), requested;
      }
    }
    DecidedAt(row, |row|);
    verdict := KeepPolling;
  }

  /**
   * The polling loop. `attempts` goes up by one per tick and never passes
   * MaxAttempts; the loop stops at the first tick that resolves or fails.
   */
  method Poll(clipIds: seq<string>, feed: seq<seq<PollResult>>)
    returns (outcome: PollOutcome, attempts: nat, fetched: seq<string>)
    requires FeedCovers(feed, |clipIds|)
    ensures Session(outcome, attempts, fetched) == Run(clipIds, feed, 0)
    ensures 1 <= attempts <= MaxAttempts
  {
    attempts := 0;
    fetched := [];
    while attempts < MaxAttempts
      invariant attempts <= MaxAttempts
      invariant Remaining(clipIds, feed, attempts, fetched)
      decreases MaxAttempts - attempts
    {
      var verdict, requested := PollTick(clipIds, feed[attempts]);
      RunStep(clipIds, feed, attempts);
      attempts := attempts + 1;
      fetched := fetched + requested;
      if verdict.Finish? {
        return verdict.outcome, attempts, fetched;
      }
    }
    outcome := TimedOut;
    assert fetched + [] == fetched;
  }

  // ---------------------------------------------------------------------
  // Result assembly.
  // ---------------------------------------------------------------------

  const DataUriPrefix: string := "data:audio/mpeg;base64,"

  const FallbackDescription: string := "Music composed with the Suno API."

  /** A `data:` URL (RFC 2397) of MIME type audio/mpeg whose base 64 payload decodes to the audio bytes. */
  function MusicDataUri(audio: seq<Byte>): (uri: string)
    ensures |DataUriPrefix| <= |uri| && uri[..|DataUriPrefix|] == DataUriPrefix
    ensures Decode(uri[|DataUriPrefix|..]) == Some(audio)
    ensures |uri| == |DataUriPrefix| + 4 * ((|audio| + 2) / 3)
  {
    var uri := DataUriPrefix + Encode(audio);
    assert uri[|DataUriPrefix|..] == Encode(audio);
    DecodeEncode(audio);
    uri
  }

  /** `completedClipData?.metadata?.prompt || 'Music composed with the Suno API.'`. */
  function Description(metadataPrompt: string): (d: string)
    ensures d != ""
    ensures metadataPrompt != "" ==> d == metadataPrompt
    ensures metadataPrompt == "" ==> d == FallbackDescription
  {
    if metadataPrompt != "" then metadataPrompt else FallbackDescription
  }

  /** The audio download: the bytes of a 2xx response, or the status text of another. */
  datatype AudioResponse = AudioOk(bytes: seq<Byte>) | AudioNotOk(statusText: string)

  /** Lines 157-174: a timeout or a failed clip fails, a failed download fails, otherwise the data URI and description. */
  function Assemble(outcome: PollOutcome, audio: AudioResponse): (r: Result<ComposeOutput, FlowError>)
    ensures outcome.TimedOut? ==> r == Failure(GenerationTimedOut)
    ensures outcome.Errored? ==> r == Failure(ClipFailed(outcome.clipId, outcome.detail))
    ensures outcome.Resolved? && audio.AudioNotOk? ==> r == Failure(DownloadFailed(audio.statusText))
    ensures r.Success? <==> outcome.Resolved? && audio.AudioOk?
    ensures r.Success? ==>
      r.value == ComposeOutput(MusicDataUri(audio.bytes), Description(outcome.metadataPrompt))
  {
    match outcome
    case TimedOut => Failure(GenerationTimedOut)
    case Errored(clipId, detail) => Failure(ClipFailed(clipId, detail))
    case Resolved(_, metadataPrompt) =>
      match audio
      case AudioNotOk(statusText) => Failure(DownloadFailed(statusText))
      case AudioOk(bytes) => Success(ComposeOutput(MusicDataUri(bytes), Description(metadataPrompt)))
  }

  function FeedRequests(clipIds: seq<string>): (r: seq<Request>)
    ensures |r| == |clipIds| && forall k :: 0 <= k < |clipIds| ==> r[k] == FeedRequest(clipIds[k])
  {
    seq(|clipIds|, k requires 0 <= k < |clipIds| => FeedRequest(clipIds[k]))
  }

  /** The flow gets as far as the generation request: a key is set and the cleaned lyrics are not empty. */
  predicate Submits(apiKey: string, input: ComposeInput) {
    apiKey != "" && CleanLyricsForSuno(input.lyrics) != ""
  }

  /**
   * `composeMusicFlow`. `apiKey` is SUNO_API_KEY ("" when unset). Returns
   * the flow's result and the requests it sent, in order.
   */
  method ComposeMusic(apiKey: string, input: ComposeInput, submit: SubmitResponse,
                      feed: seq<seq<PollResult>>, audio: AudioResponse)
    returns (result: Result<ComposeOutput, FlowError>, requests: seq<Request>)
    requires FeedCovers(feed, |ClipIds(submit.data)|)
    ensures apiKey == "" ==> result == Failure(MissingApiKey) && requests == []
    ensures apiKey != "" && CleanLyricsForSuno(input.lyrics) == "" ==> result == Failure(EmptyLyrics) && requests == []
    ensures Submits(apiKey, input) && CheckSubmission(submit).Failure? ==>
      && result == Failure(CheckSubmission(submit).error)
      && requests == [SubmitRequest(CleanLyricsForSuno(input.lyrics), input.title, input.style)]
    ensures Submits(apiKey, input) && CheckSubmission(submit).Success? ==>
      var session := Run(ClipIds(submit.data), feed, 0);
      && result == Assemble(session.outcome, audio)
      && requests == [SubmitRequest(CleanLyricsForSuno(input.lyrics), input.title, input.style)]
                     + FeedRequests(session.fetched)
                     + (if session.outcome.Resolved? then [AudioRequest(session.outcome.audioUrl)] else [])
  {
    requests := [];
    if apiKey == "" {
      return Failure(MissingApiKey), requests;
    }
    var cleanedLyrics := CleanLyricsForSuno(input.lyrics);
    if cleanedLyrics == "" {
      return Failure(EmptyLyrics), requests;
    }
    requests := [SubmitRequest(cleanedLyrics, input.title, input.style)];
    var checked := CheckSubmission(submit);
    if checked.Failure? {
      return Failure(checked.error), requests;
    }
    var clipIds := checked.value;
    var outcome, attempts, fetched := Poll(clipIds, feed);
    ghost var session := Run(clipIds, feed, 0);
    assert session.outcome == outcome && session.fetched == fetched;
    requests := requests + FeedRequests(fetched);
    if outcome.Errored? {
      return Failure(ClipFailed(outcome.clipId, outcome.detail)), requests;
    }
    if outcome.TimedOut? {
      return Failure(GenerationTimedOut), requests;
    }
    requests := requests + [AudioRequest(outcome.audioUrl)];
    if audio.AudioNotOk? {
      return Failure(DownloadFailed(audio.statusText)), requests;
    }
    result := Success(ComposeOutput(MusicDataUri(audio.bytes), Description(outcome.metadataPrompt)));
  }
}
