# Sur Sangam composition core, modelled in Dafny

Sur Sangam turns a short prompt into Hindi lyrics and then into a song by
calling a music-generation provider (Suno). This project models the parts of
it that hold local logic, and proves properties about them:

- **The music-composition flow** (`composeMusicFlow`). It checks the API key,
  sanitises the lyrics (`cleanLyricsForSuno`), submits them, and normalises the
  submission envelope into an ordered list of clip ids. It then polls the clips
  for at most 30 ticks. On success it builds a `data:audio/mpeg;base64,` data URI
  (RFC 2397) from the downloaded audio, and chooses a description with a
  fallback.
  - The provider is an oracle:
    - one submission response;
    - a table `feed[t][k]`, the answer for clip k on tick t;
    - one audio response.
  - The flow is a method that also returns the requests it sent, in order.
  - The polling loop is the method `Poll`, with the per-tick scan `PollTick`.
    Both are proved against the session function `Run`.
  - Base 64 follows section 4 of RFC 4648. It is defined on the alphabet of
    Table 1 and proved to round-trip.
- **The song library** in the browser's localStorage (`songsStorage.ts`).
  - A `SongStore` class holds the stored item: absent, unparsable text, or a
    song list.
  - `Save` upserts by id: it prepends the song and filters out older copies.
  - `Delete` filters by id.
  - Reading falls back to the empty list.
  - Failed writes are caught. Without a window, nothing changes.
- **The pure helpers of the song-creation form**:
  - the classification of AI errors into three user-facing texts;
  - the prompt length rule;
  - the lyrics download filename;
  - the guard and the `Song` record of the compose handler.

Modules:
- `Wrappers`: Option and Result.
- `Text`: JavaScript string operations.
  - `trim` strips ECMAScript white space and line terminators.
  - `split` and `join` work on one separator character.
  - `includes` is a substring test.
  - `toLowerCase` is ASCII lower-casing.
  - `replace(/ /g, '_')` replaces every space.
- `Filters`: `Array.prototype.filter` and counting.
- `CleanLyrics`: the sanitiser.
- `Base64`: RFC 4648 encoding, plus a decoder used as its inverse.
- `ComposeMusicFlow`: the flow.
- `SongTypes`: the `Song` record.
- `SongsStorage`: the library.
- `SongCreationForm`: the form helpers.

The empty string stands for a missing or falsy string value in the source's
data: a missing `audio_url`, `metadata.prompt`, clip `id`, `error_message` or
`msg`, and an unset `SUNO_API_KEY`.

Three behaviours of the code are easy to misread. The model follows the code:
- The header filter is a case-insensitive **prefix** test, so "Introduction"
  and "Verse one" are dropped too. It does not match only a label followed by
  an optional number.
- Within a tick, the first clip in id order that is complete or failed
  decides the tick. A failed clip does not end the session when a clip earlier
  in the order is complete with a non-empty URL: that clip resolves the
  session first. A complete clip with an empty URL stops the tick's scan,
  and polling goes on.
- The parenthesised-note pattern `^\(.*\)$` has no `s` flag, so `.`
  does not match a line terminator. A line like `(a\rb)`, which keeps its
  inner carriage return after splitting on `\n`, is therefore kept.

## Model

| member | source | states |
|---|---|---|
| Text.Trim | src/ai/flows/compose-music-from-lyrics.ts:28 | the result has no leading or trailing white space, contains only characters of the input, and is the input itself when that was already trimmed |
| Text.TrimCutsWhitespace | src/ai/flows/compose-music-from-lyrics.ts:28 | the trimmed string is a slice of the input, and everything cut off before and after it is white space or a line terminator |
| Text.TrimOfTrimmed | src/ai/flows/compose-music-from-lyrics.ts:28 | trimming a string with no white space at either end leaves it unchanged |
| Text.Split | src/ai/flows/compose-music-from-lyrics.ts:26 | at least one piece; no piece contains the separator; joining the pieces with the separator gives the input back |
| Text.Join | src/ai/flows/compose-music-from-lyrics.ts:34 | a join is at least as long as its first piece |
| Text.JoinEnds | src/ai/flows/compose-music-from-lyrics.ts:34 | a join of no pieces is empty; otherwise it starts with the first piece, has the separator right after it when there are more pieces, and ends with the last piece |
| Text.JoinTrimmed | src/ai/flows/compose-music-from-lyrics.ts:28-34 | joining non-empty trimmed pieces gives a trimmed string, empty exactly when there are no pieces |
| Text.SplitJoin | src/ai/flows/compose-music-from-lyrics.ts:26-34 | splitting a join of separator-free lines gives the lines back (the inverse of `Split`'s round trip) |
| Text.ToLower | src/components/SongCreationForm.tsx:42 | same length; each character is lower-cased on its own (ASCII letters up by 32, every other character unchanged) |
| Text.LowerLetterOrigin | src/components/SongCreationForm.tsx:42 | a lower-case letter in the lower-cased string comes from that letter or its upper-case form in the original |
| Text.Contains | src/components/SongCreationForm.tsx:42 | the empty string is found in every string, and a found substring is no longer than the string |
| Text.ContainsPrefix | src/components/SongCreationForm.tsx:42 | a string contains each of its prefixes |
| Text.ContainsInConcat | src/components/SongCreationForm.tsx:42 | a substring found in either part is found in their concatenation |
| Text.ContainsLowerNonLetters | src/components/SongCreationForm.tsx:42 | for a substring with no letters (such as "429"), `includes` gives the same answer on the lower-cased string as on the original |
| Text.ToLowerIdempotent | src/components/SongCreationForm.tsx:42 | lower-casing twice is lower-casing once |
| Text.StartsWithIgnoringCase | src/ai/flows/compose-music-from-lyrics.ts:30 | a string starts, ignoring case, with each of its exact prefixes |
| Text.StartsWithLowerPrefix | src/ai/flows/compose-music-from-lyrics.ts:30 | the `/^p/i` test holds exactly when the string is at least as long as p and its first characters, as many as p has, lower-case to p lower-cased |
| Text.StartsWithExtended | src/ai/flows/compose-music-from-lyrics.ts:30 | appending characters keeps a case-insensitive prefix match |
| Text.StartsWithIgnoringCaseLower | src/ai/flows/compose-music-from-lyrics.ts:30 | the case-insensitive prefix test gives the same answer on the lower-cased string |
| Text.ContainsChars | src/components/SongCreationForm.tsx:42-45 | every character of a substring found by `includes` occurs in the string |
| Text.ReplaceSpaces | src/components/SongCreationForm.tsx:150 | same length; every space becomes `_` and every other character stays; no space is left |
| Filters.Filter | src/ai/flows/compose-music-from-lyrics.ts:30-33 | the result is no longer than the input and holds exactly the input elements that satisfy the predicate |
| Filters.FilterConcat | src/ai/flows/compose-music-from-lyrics.ts:105 | filtering a concatenation is concatenating the filtered parts (filter keeps the original order) |
| Filters.FilterFilter | src/ai/flows/compose-music-from-lyrics.ts:30-33 | two successive filters are one filter by the conjunction |
| Filters.FilterIdempotent | src/lib/songsStorage.ts:25 | filtering twice by the same predicate is filtering once |
| Filters.FilterLength | src/lib/songsStorage.ts:41 | a filter removes exactly the elements that fail the predicate: length is input length minus their count |
| CleanLyrics.IsHeader | src/ai/flows/compose-music-from-lyrics.ts:30 | a line that matches a header label is at least five characters long |
| CleanLyrics.HeaderIgnoresCase | src/ai/flows/compose-music-from-lyrics.ts:30 | the header test gives the same answer after lower-casing the line |
| CleanLyrics.HeaderExtended | src/ai/flows/compose-music-from-lyrics.ts:30 | a header followed by any text is still a header (a prefix test) |
| CleanLyrics.IsProductionNote | src/ai/flows/compose-music-from-lyrics.ts:32 | a line matching `^\(.*\)$` is trimmed and contains no newline |
| CleanLyrics.TrimAll | src/ai/flows/compose-music-from-lyrics.ts:28 | the mapped list has the same length, and each line is the trimmed line at the same index |
| CleanLyrics.TrimAllTrimmed | src/ai/flows/compose-music-from-lyrics.ts:28 | trimming lines that are already trimmed changes nothing |
| CleanLyrics.CleanLyricsForSuno | src/ai/flows/compose-music-from-lyrics.ts:24-35 | the sanitised text is empty exactly when no line survives the filters, and it has no white space at either end |
| CleanLyrics.SanitisedLinesAreKeptLines | src/ai/flows/compose-music-from-lyrics.ts:26-33 | the three chained filters over the trimmed lines are one filter by "not a header, not a note, non-empty", so the order of the input is kept |
| CleanLyrics.SanitisedLineMembership | src/ai/flows/compose-music-from-lyrics.ts:24-35 | a line is in the output exactly when it is a trimmed input line that passes all three filters |
| CleanLyrics.SanitisedLineShape | src/ai/flows/compose-music-from-lyrics.ts:28-33 | every output line is non-empty, trimmed, not a header, not a production note, and contains no newline |
| CleanLyrics.CleanLines | src/ai/flows/compose-music-from-lyrics.ts:24-35 | a non-empty output, split on newlines, gives back exactly the surviving lines |
| CleanLyrics.SanitisedLinesOfJoin | src/ai/flows/compose-music-from-lyrics.ts:24-35 | sanitising a join of kept, trimmed, newline-free lines gives back exactly those lines |
| CleanLyrics.CleanOfKeptLines | src/ai/flows/compose-music-from-lyrics.ts:24-35 | such a join is a fixed point of the sanitiser |
| CleanLyrics.CleanHasNoEmptyLine | src/ai/flows/compose-music-from-lyrics.ts:33-34 | a non-empty output has no empty newline-separated line |
| CleanLyrics.CleanIdempotent | src/ai/flows/compose-music-from-lyrics.ts:24-35 | sanitising twice is sanitising once |
| CleanLyrics.CleanEmptyIff | src/ai/flows/compose-music-from-lyrics.ts:24-35 | the output is empty exactly when every trimmed input line fails a filter |
| CleanLyrics.CleanEmpty | src/ai/flows/compose-music-from-lyrics.ts:25 | the empty input gives the empty output |
| CleanLyrics.CleanEmptyWhenNoneKept | src/ai/flows/compose-music-from-lyrics.ts:24-35 | when no trimmed line of the input passes the filters, the output is empty |
| CleanLyrics.NoneOfThreeKept | src/ai/flows/compose-music-from-lyrics.ts:28-33 | a header line, a note line and an empty line are all dropped after trimming |
| CleanLyrics.MarkersOnlyCleanToEmpty | src/ai/flows/compose-music-from-lyrics.ts:24-35 | a header line, a note line and a final newline sanitise to the empty string, so the flow refuses them |
| CleanLyrics.SoftPianoExample | src/ai/flows/compose-music-from-lyrics.ts:30-32 | "Verse 1" is a header and "(Soft Piano)" a production note |
| CleanLyrics.IntroductionIsHeader | src/ai/flows/compose-music-from-lyrics.ts:30 | the header test is a prefix test: "Introduction" is dropped |
| CleanLyrics.UpperCaseHeader | src/ai/flows/compose-music-from-lyrics.ts:30 | the header test ignores letter case: "CHORUS 2" is dropped |
| CleanLyrics.LoneParenthesisKept | src/ai/flows/compose-music-from-lyrics.ts:32 | a lone "(" is not a production note and is kept |
| CleanLyrics.NoteWithCarriageReturnKept | src/ai/flows/compose-music-from-lyrics.ts:32 | a parenthesised line with a carriage return inside is kept, because `.` does not match a line terminator |
| Base64.AlphabetIndex | src/ai/flows/compose-music-from-lyrics.ts:168 | the index of an alphabet character is in 0..63 and maps back to that character |
| Base64.AlphabetIndexOfChar | src/ai/flows/compose-music-from-lyrics.ts:168 | the character of index i has index i: the alphabet is a bijection |
| Base64.Encode | src/ai/flows/compose-music-from-lyrics.ts:168 | the encoding of n bytes has 4 * ceil(n / 3) characters, each an alphabet character or the pad |
| Base64.GroupQuantum | src/ai/flows/compose-music-from-lyrics.ts:168 | three bytes encode to four alphabet characters that decode back to the three bytes |
| Base64.EncodeVectors | src/ai/flows/compose-music-from-lyrics.ts:168 | the test vectors of section 10 of RFC 4648: "f", "fo", "foo" and "foobar" encode to "Zg==", "Zm8=", "Zm9v" and "Zm9vYmFy" |
| Base64.DecodeEncode | src/ai/flows/compose-music-from-lyrics.ts:168 | decoding the encoding gives the bytes back |
| Base64.EncodeConcat | src/ai/flows/compose-music-from-lyrics.ts:168 | the encoding of a whole number of 3-byte groups followed by more bytes is the concatenation of the two encodings |
| ComposeMusicFlow.FlowError.Message | src/ai/flows/compose-music-from-lyrics.ts:65-165 | the missing-key message starts with `SUNO_API_KEY`; the clip-failure and timeout messages start with "Suno song generation"; the generation, malformed-data and download messages end with the provider's reason, data text and status text |
| ComposeMusicFlow.CandidateIds | src/ai/flows/compose-music-from-lyrics.ts:104 | no data gives no ids; a single clip gives its id; an array gives one id per element, in order |
| ComposeMusicFlow.ClipIds | src/ai/flows/compose-music-from-lyrics.ts:104-105 | an id is in the list exactly when some element of `data` carries it and it is non-empty |
| ComposeMusicFlow.SingleClipIsOneElementList | src/ai/flows/compose-music-from-lyrics.ts:104 | a single clip object and a one-element array give the same ids |
| ComposeMusicFlow.ClipIdsConcat | src/ai/flows/compose-music-from-lyrics.ts:104-105 | the ids of an array are the ids of its parts in order, so order is kept |
| ComposeMusicFlow.CheckSubmission | src/ai/flows/compose-music-from-lyrics.ts:98-112 | an envelope code other than 200 fails with the provider's `msg`, or else the status text; a success with no usable id fails with the malformed-data error when `data` was present and with the no-clips error when it was not; otherwise the non-empty id list |
| ComposeMusicFlow.EmptyArrayIsUnexpected | src/ai/flows/compose-music-from-lyrics.ts:104-109 | an empty array of clips is present data, so it gives the malformed-data error |
| ComposeMusicFlow.FirstDecisive | src/ai/flows/compose-music-from-lyrics.ts:124-153 | the index returned is the first complete-or-failed clip at or after the start, or the row length when there is none |
| ComposeMusicFlow.ErrorDetail | src/ai/flows/compose-music-from-lyrics.ts:151 | the detail is never empty and is the provider's error message when there is one |
| ComposeMusicFlow.TickVerdict | src/ai/flows/compose-music-from-lyrics.ts:124-154 | a tick decides exactly when its first complete-or-failed clip failed or has a URL; a decided tick never times out, and it resolves only with a non-empty URL |
| ComposeMusicFlow.TickFetches | src/ai/flows/compose-music-from-lyrics.ts:124-147 | a tick requests the ids in order, up to and including the first complete-or-failed clip, or all of them |
| ComposeMusicFlow.Run | src/ai/flows/compose-music-from-lyrics.ts:115-159 | from tick t, the session runs at least one more tick when t is below 30 and never past 30; a resolution has a non-empty URL |
| ComposeMusicFlow.RunFetchesClipIds | src/ai/flows/compose-music-from-lyrics.ts:115-153 | every id a session requests is one of the submitted clip ids |
| ComposeMusicFlow.RunTimesOut | src/ai/flows/compose-music-from-lyrics.ts:115-159 | from any tick, the session times out exactly when no tick from there on decides, and then it has run all 30 ticks |
| ComposeMusicFlow.RunDecides | src/ai/flows/compose-music-from-lyrics.ts:115-159 | a session that does not time out ends on its first deciding tick, within 30 ticks, with that tick's outcome; a resolution always has a non-empty URL |
| ComposeMusicFlow.FirstErrorAborts | src/ai/flows/compose-music-from-lyrics.ts:150-152 | a failed clip with no decisive clip before it ends the session with that clip's id and detail, even when a later clip is complete |
| ComposeMusicFlow.FirstCompleteResolves | src/ai/flows/compose-music-from-lyrics.ts:144-148 | a complete clip with a URL and no decisive clip before it resolves the tick, even when a later clip failed |
| ComposeMusicFlow.EmptyUrlEndsScan | src/ai/flows/compose-music-from-lyrics.ts:144-154 | a complete clip with an empty URL stops the tick's scan (later clips are not requested) and polling goes on |
| ComposeMusicFlow.SecondClipResolvesOnSecondTick | src/ai/flows/compose-music-from-lyrics.ts:115-155 | three clips, all pending on tick 1 and the second complete on tick 2: resolved after 2 ticks, with requests a, b, c, a, b |
| ComposeMusicFlow.UndecidedTimesOut | src/ai/flows/compose-music-from-lyrics.ts:120-159 | when no clip is ever complete or failed, every tick requests every clip, and the session times out after exactly 30 ticks with 30 requests per clip |
| ComposeMusicFlow.PollTick | src/ai/flows/compose-music-from-lyrics.ts:124-153 | the loop over the clips (with `continue` for failed requests, `break` on complete, and the error exit) gives the tick's verdict and requests exactly the tick's ids |
| ComposeMusicFlow.Poll | src/ai/flows/compose-music-from-lyrics.ts:115-159 | the bounded while loop, with `attempts` up by one per tick, gives exactly the session of `Run`, with between 1 and 30 ticks |
| ComposeMusicFlow.MusicDataUri | src/ai/flows/compose-music-from-lyrics.ts:167-169 | the URI starts with `data:audio/mpeg;base64,`; its payload decodes back to the audio bytes; and its length is the prefix length plus 4 * ceil(n / 3) |
| ComposeMusicFlow.Description | src/ai/flows/compose-music-from-lyrics.ts:173 | the description is never empty: it is the clip's `metadata.prompt` when non-empty, else the fallback text |
| ComposeMusicFlow.Assemble | src/ai/flows/compose-music-from-lyrics.ts:157-174 | a timeout and a failed clip fail with their errors; a failed download fails with its status text; it succeeds exactly when the session resolved and the download succeeded, and then with the data URI and description |
| ComposeMusicFlow.ComposeMusic | src/ai/flows/compose-music-from-lyrics.ts:65-175 | a missing key or lyrics that sanitise to the empty string fail before any request; otherwise the first request submits the cleaned lyrics with the title and style; a rejected submission fails after that one request; otherwise the result is the assembly of the polling session, and the requests after the submission are that session's status requests plus the audio download when it resolved |
| SongsStorage.WithoutId | src/lib/songsStorage.ts:41 | the kept songs are exactly the songs with another id; length drops by the number of songs with the id; none with the id is left |
| SongsStorage.Upsert | src/lib/songsStorage.ts:25 | the new list is non-empty and starts with the saved song |
| SongsStorage.UpsertSingleCopy | src/lib/songsStorage.ts:25 | after an upsert, exactly one song carries the saved id |
| SongsStorage.UpsertKeepsOthers | src/lib/songsStorage.ts:25 | the songs with other ids are kept, in their original relative order |
| SongsStorage.UpsertLength | src/lib/songsStorage.ts:25 | new length = old length - number of songs with the id + 1 |
| SongsStorage.UpsertIdempotent | src/lib/songsStorage.ts:25 | saving the same song twice is saving it once |
| SongsStorage.WithoutAbsentId | src/lib/songsStorage.ts:41 | deleting an id that no song carries leaves the list unchanged |
| SongsStorage.WithoutIdKeepsUnique | src/lib/songsStorage.ts:41 | deleting keeps ids unique |
| SongsStorage.UpsertKeepsUnique | src/lib/songsStorage.ts:25 | saving keeps ids unique |
| SongsStorage.SongStore.Songs | src/lib/songsStorage.ts:5-16 | the read gives [] without a window, without an item, or when the item fails to parse; otherwise the stored list |
| SongsStorage.SongStore.Save | src/lib/songsStorage.ts:18-33 | without a window nothing changes; a successful write stores the upsert of what was read, so the saved song comes first and alone with its id; a failed write keeps the stored item, is not passed to the caller, and alerts exactly on a full store; ids stay unique |
| SongsStorage.SongStore.Delete | src/lib/songsStorage.ts:35-46 | without a window or on a failed write nothing changes; a successful write stores the read list without the id, so no song with that id is left; ids stay unique |
| SongCreationForm.MentionsQuota | src/components/SongCreationForm.tsx:42 | a message that mentions "429" or "quota" has at least three characters |
| SongCreationForm.QuotaTestIgnoresCase | src/components/SongCreationForm.tsx:42 | the quota test gives the same answer on the lower-cased message |
| SongCreationForm.AiErrorDescription | src/components/SongCreationForm.tsx:40-50 | the daily-limit text exactly for an `Error` whose message has "429" or a lower-cased "quota"; the missing-key text exactly for an `Error` with no quota mention whose message has "SUNO_API_KEY"; the generic text for anything else |
| SongCreationForm.GenericWithout | src/components/SongCreationForm.tsx:40-50 | a message with no '4', 'q' or 'Q' that lacks a character of the key name maps to the generic text |
| SongCreationForm.KeyNameFirst | src/components/SongCreationForm.tsx:42-46 | a message that starts with the key name and has no '4', 'q' or 'Q' after it maps to the missing-key text |
| SongCreationForm.MissingKeyErrorDescribed | src/ai/flows/compose-music-from-lyrics.ts:67-69 | the flow's missing-key error maps to the missing-key text |
| SongCreationForm.QuotaBeforeKey | src/components/SongCreationForm.tsx:42-46 | a message with both the key name and "quota" maps to the daily-limit text: the quota test comes first |
| SongCreationForm.KeyNameIsCaseSensitive | src/components/SongCreationForm.tsx:45 | a message with the key name only in lower case maps to the generic text |
| SongCreationForm.TimeoutIsGeneric | src/ai/flows/compose-music-from-lyrics.ts:157-159 | the flow's timeout error maps to the generic text |
| SongCreationForm.ToLowerConcat | src/components/SongCreationForm.tsx:42 | lower-casing distributes over concatenation |
| SongCreationForm.ProviderQuotaIsDailyLimit | src/ai/flows/compose-music-from-lyrics.ts:98-100 | a provider message that mentions a quota, wrapped in the flow's generation error, still maps to the daily-limit text |
| SongCreationForm.ValidatePrompt | src/components/SongCreationForm.tsx:33 | a prompt is accepted exactly when its length is 5 to 200; shorter gets the minimum message, longer the maximum message |
| SongCreationForm.DownloadFilename | src/components/SongCreationForm.tsx:141-150 | a filename exists exactly when there are lyrics and the trimmed prompt is non-empty; it is the trimmed prompt with each space turned into `_`, then `-lyrics.txt`, and it holds no space |
| SongCreationForm.FilenameStem | src/components/SongCreationForm.tsx:150 | the filename's stem is non-empty and starts with the prompt's first non-white-space character |
| SongCreationForm.HandleComposeMusic | src/components/SongCreationForm.tsx:92-126 | composing without lyrics is refused; a failing style suggestion or composition is shown through the error classification; on success the saved song has the given id and time, title and prompt equal to the current prompt, the lyrics and style used for the composition, and the composition's data URI and description |
| SongCreationForm.RefusalIgnoresServices | src/components/SongCreationForm.tsx:93-96 | without lyrics the outcome does not depend on the style and composition services, so neither is consulted |
| SongCreationForm.MissingKeyShownOnCompose | src/components/SongCreationForm.tsx:120-122 | a composition that fails for a missing key is shown as the missing-key text |

## Left out

- Network I/O: every `fetch`, and network errors that reject a `fetch`, which the flow does not catch. The provider's answers are oracle parameters.
- JSON parsing: bodies that are not JSON make `response.json()` throw, uncaught. `JSON.stringify(data)` is an opaque `dataJson` string parameter.
- ComposeMusicFlow.FlowError.Message: a clip with no `id` reads "undefined" in the source's clip-failure message, while the model's "" leaves it blank. The error is still classified the same way.
- Clip ids may not be strings. They are modelled as strings, and "" stands for every falsy value.
- Time: `sleep(5000)` between ticks is not modelled; only the tick count is.
- ComposeMusicFlow.Poll: the first sleep happens before the first status request, and this is not modelled.
- The Genkit wrapper (`ai.defineFlow`, input/output schema checks) and the LLM flows are left out: lyric generation, style suggestion, lyric improvement, viral ideas and the voice sample. They are foreign model calls. The form takes their results as function parameters.
- SongCreationForm.HandleComposeMusic: it does not model React state, toasts, the loading flags, the clipboard, the Blob/anchor download, `console` logging, or the call of `onSongSaved`. `crypto.randomUUID()` and the ISO timestamp are parameters.
- SongCreationForm.AiErrorDescription: assumes the thrown message reaches the client unchanged. Next.js may replace server-action error messages in production builds.
- Text.ToLower: folds ASCII letters only. `toLowerCase` also folds other scripts. This is exact for detecting "quota", which is all it is used for.
- SongCreationForm.ValidatePrompt: counts characters (code points). The schema library counts UTF-16 units, so a prompt with characters outside the Basic Multilingual Plane can measure differently. Devanagari text lies inside it.
- SongsStorage.SongStore.Songs: JSON serialisation of the song list is taken to round-trip.
  - A stored item that parses to a non-array is not modelled.
  - An item that parses as a non-array makes `save` and `delete` throw inside their `try`. read would return the non-array value.
- Page-level wiring (`page.tsx`, `SavedSongsList.tsx`, `AppHeader.tsx`) and config files only call the modelled operations or render. They are left out.
- The `wav` encoding in the voice-sample flow is not modelled.
