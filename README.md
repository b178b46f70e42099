# my-shorts-bot: the daily publish gate and the publish workflow

This project models the decision logic of the bot's `index.js`.

- **The scheduler tick.** Every 60 seconds it reads the New York hour and date. At 18:00-18:59, on a day that has no log file yet, it starts an automatic publish.
- **`triggerUpload(todayDate, manualChatId)`**:
  1. It lists the storage folder ("the vault") and stops if the query lists no non-trashed video. In that case a manual caller gets a warning.
  2. It picks one listed video at random and reads the JSON metadata stored in the file's description, falling back to defaults.
  3. It builds a `#shorts` title and a trimmed description, then streams the file to YouTube.
  4. It deletes the file from the vault. On an automatic run it then writes the day's log file.
- **The pure helpers inside it**: metadata defaulting, title normalisation, description composition and the random pick.

Modules:

- `Wrappers` (wrappers.dfy): `Option` and `Result`.
- `Text` (text.dfy): the JavaScript string operations the workflow uses.
  - `toLowerCase` is `Lower`.
  - `includes` is `Contains`: the text occurs at some position (`OccursAt`). `IndexOf` is the left-to-right search, and `ContainsIffFound` ties the two together.
  - `trim` is `Trim`, with its reference shape `TrimShape`. It strips the ECMAScript white-space and line-terminator characters.
- `Shorts` (shorts.dfy): the metadata record and its defaults, `NormalizeTitle`, `ComposeDescription` and `PickIndex`.
- `Drive` (drive.dfy): the vault as a sequence of file records.
  - `Listing` is the `files.list` query: a video MIME type, not trashed, first page of 100.
  - `Remove` is `files.delete`.
- `Publish` (publish.dfy): the world and the operations on it.
  - The world is the vault, the set of logged days, the accepted uploads and the sent chat messages.
  - `Attempt` is one workflow run and `TickStep` is one timer tick, both as specification functions.
  - `Day` is the ticks of one day.
  - The class `Bot` holds that state in fields and updates it in place. `Bot.TriggerUpload` and `Bot.Tick` are proved to change the state exactly as `Attempt` and `TickStep` say.

Everything that comes from outside a run is a parameter of type `Env`:
- the `Math.random()` draw, a real number in [0, 1);
- the external call that throws, if any. A throw ends the run where it stands, and the effects before it stay;
- the video id YouTube returns.

The hour and the date are parameters of the tick. `getOrCreateFolder` always succeeds with the storage folder unless its call is the one that throws. `checkIfUploadedToday` is membership in the log set. `createLogFile` adds the date to that set.

Decisions taken where the code leaves room:
- `if (manualChatId)` follows JavaScript truthiness, so a chat id of 0 counts as an automatic run (`Publish.IsManual`).
- A stored description is one of three things: JSON that does not parse (or no description at all), a record with a text title, or a parsed value without a text title. The first keeps the defaults. The last throws at line 90 (reading the title of a parsed `null`) or line 91 (`toLowerCase` on a title that is not text), before any download or upload; `Publish.UntitledMetadataAborts` states that the run then stops with the world unchanged.
- Facts of `index.js` the model keeps as written:
  - the default title is the literal `'Short'`, not one derived from the file name;
  - titles and descriptions are not truncated;
  - the hashtags never reach the description, so a file titled Cat with hashtags `#cat` gets no `#cat` in its description (`Publish.ManualRunOnOneCatVideo`);
  - a returned video id is not checked for being non-empty;
  - a delete that throws (line 113) ends the run before the log is written. So does a `createLogFile` that throws (line 117), after the upload and the delete. In both cases the next tick of the same hour can upload a second time that day, when its run hits no exception and its picked file has a text title (`Publish.DeleteFailureUploadsTwice`, `Publish.CreateLogFailureUploadsTwice`).

## Model

| member | source | states |
|---|---|---|
| Text.Lower | index.js:91 | `toLowerCase` keeps the length and lower-cases each character in place |
| Text.LowerConcat | index.js:91 | lower-casing distributes over concatenation |
| Text.LowerOfLowerText | index.js:91 | text without upper-case letters is its own lower-case form |
| Text.OccursAt | index.js:91 | defines "`sub` occurs in `s` at position `k`"; stated by Text.OccursInTail, Text.IndexOfFirst |
| Text.Contains | index.js:91 | defines `includes` as "occurs at some position"; stated by Text.ContainsIffFound, Text.ContainsInSuffix, Text.ContainsInPrefix |
| Text.IndexOf | index.js:91 | defines the left-to-right search for `includes`; stated by Text.IndexOfFirst, Text.ContainsIffFound |
| Text.OccursInTail | index.js:91 | an occurrence at `j` in the text without its first character is an occurrence at `j + 1` in the text, and back |
| Text.IndexOfFirst | index.js:91 | the search returns -1 or a position in range; a position it returns is an occurrence with none before it; -1 means no occurrence anywhere |
| Text.ContainsIffFound | index.js:91 | `includes` holds exactly when the search finds a position |
| Text.ContainsInSuffix | index.js:91 | text contained in `b` is contained in `a + b` |
| Text.ContainsInPrefix | index.js:91 | text contained in `a` is contained in `a + b` |
| Text.TrimStart | index.js:93 | defines the front half of `trim`; stated by Text.TrimStartDrops, Text.TrimStartConcat, Text.TrimStartSkipsSpace, Text.TrimStartOfSpace |
| Text.TrimEnd | index.js:93 | defines the back half of `trim`; stated by Text.TrimEndDrops, Text.TrimEndKeeps |
| Text.Trim | index.js:93 | defines `trim` as trimming the front, then the back; stated by Text.TrimShape, Text.TrimEdges |
| Text.TrimStartDrops | index.js:93 | trimming the front drops exactly the leading run of white space |
| Text.TrimEndDrops | index.js:93 | trimming the back drops exactly the trailing run of white space |
| Text.TrimShape | index.js:93 | the input is white space, then the trimmed text, then white space |
| Text.TrimEdges | index.js:93 | the trimmed text neither starts nor ends with white space |
| Text.TrimEndKeeps | index.js:93 | text whose last character is not white space is unchanged by trimming the back |
| Text.TrimStartConcat | index.js:93 | when `a` is not blank, trimming the front of `a + b` only touches `a` |
| Text.TrimStartSkipsSpace | index.js:93 | trimming the front skips a leading blank part |
| Text.TrimStartOfSpace | index.js:93 | a blank text trims to the empty text |
| Shorts.ResolveMetadata | index.js:87-88 | failure exactly for a parsed value without a text title; unparsable text gives title 'Short', empty description and hashtags, no user id; a parsed record is used as is |
| Shorts.HasMarker | index.js:91 | defines the marker test: the lower-cased title contains `#shorts`; stated by Shorts.NormalizeTitleMarks, Shorts.MarkedTitleNotBlank, Publish.ShortTitleUnmarked |
| Shorts.NormalizeTitle | index.js:90-91 | defines the `#shorts` title; stated by Shorts.NormalizeTitleMarks, Shorts.NormalizeTitleIdempotent |
| Shorts.NormalizeTitleMarks | index.js:90-91 | the result carries `#shorts` in any case and extends the input; it is the input exactly when the input carried the marker, otherwise input + " #shorts" |
| Shorts.NormalizeTitleIdempotent | index.js:90-91 | normalising twice is normalising once |
| Shorts.LowerToHash | index.js:91 | only '#' lower-cases to '#' |
| Shorts.MarkedTitleNotBlank | index.js:90-93 | a title carrying the marker is not blank |
| Shorts.TrimStartBeforeWord | index.js:93 | trimming the front of `a + b`, when `b` does not start with white space, only touches `a` |
| Shorts.ComposeDescription | index.js:92-93 | defines the trimmed description template; stated by Shorts.ComposeDescriptionShape, Shorts.DescriptionOfNormalizedTitle |
| Shorts.ComposeDescriptionShape | index.js:92-93 | the description ends with the promotional line and does not start with white space; for a non-blank title it is the title without leading white space, two newlines, the description, two newlines, the promotional line |
| Shorts.TrimTemplate | index.js:93 | trimming text that ends in the promotional line only trims its front |
| Shorts.TrimHead | index.js:93 | for a non-blank title, the template trims to the title's trimmed front followed by the rest unchanged |
| Shorts.DescriptionOfNormalizedTitle | index.js:90-93 | the description of a normalised title keeps the whole title, minus leading white space |
| Shorts.PickIndex | index.js:85 | `Math.floor(Math.random() * n)` is an index below `n`, and the floor of the scaled draw |
| Shorts.PickIndexReaches | index.js:85 | every index below `n` is the pick of some draw in [0, 1) |
| Drive.Matching | index.js:72-76 | defines the query's filter over the folder, in order; stated by Drive.MatchingMembers |
| Drive.MatchingMembers | index.js:72-76 | the query matches exactly the files that are videos and not trashed |
| Drive.Listing | index.js:72-76 | the first page holds at most 100 matching files of the folder, is empty exactly when none matches, and is all of them when at most 100 match |
| Drive.Remove | index.js:113 | defines `files.delete` on the vault; stated by Drive.RemoveMembers, Drive.RemovePresent, Drive.RemoveAbsent, Drive.RemoveKeepsDistinct |
| Drive.RemoveMembers | index.js:113 | deleting keeps exactly the files with another id |
| Drive.RemovePresent | index.js:113 | with unique ids, deleting a present file removes exactly that one and keeps the order of the rest |
| Drive.RemoveAbsent | index.js:113 | deleting an absent id changes nothing |
| Drive.RemoveKeepsDistinct | index.js:113 | deleting keeps the ids unique |
| Publish.IsManual | index.js:79 | defines JavaScript truthiness of `manualChatId`, tested here and again at line 116; stated by Publish.EmptyVaultMessages, Publish.ManualRunKeepsLogs, Publish.LogIffCompletedAutomaticRun |
| Publish.EmptyVaultMessages | index.js:79 | a manual caller gets exactly one warning to its chat; an automatic run sends nothing |
| Publish.PickedFile | index.js:85 | the picked file is one of the listed files, so it is in the folder and is a video that is not trashed |
| Publish.RequestFor | index.js:90-111 | defines the `videos.insert` request for a file and its metadata; stated by Publish.RequestForShape, Publish.RequestForUnmarkedTitle, Publish.UnparsableMetadataUsesDefaults |
| Publish.RequestForShape | index.js:90-111 | the insert streams the picked file; its title is the normalised metadata title, carries the marker and extends the metadata title; its description is that title without its leading white space, the metadata description and the promotional line; category 24, the three tags, public, not made for kids |
| Publish.RequestForUnmarkedTitle | index.js:90-111 | a metadata title without the marker that does not start with white space gets " #shorts", and the description repeats that title |
| Publish.ShortTitleUnmarked | index.js:91 | a title shorter than the marker does not carry it |
| Publish.Attempt | index.js:69-118 | defines one run of `triggerUpload` on the world; stated by Publish.EmptyVaultNoEffects, Publish.AttemptLogsBounded, Publish.AttemptUploadsAtMostOne, Publish.AttemptOutbox, Publish.DeleteOnlyAfterUpload, Publish.FailedInsertKeepsWorld, Publish.LogIffCompletedAutomaticRun, Publish.PublishedFileWasListed, Publish.CompletedAttempt, Publish.Bot.TriggerUpload |
| Publish.EmptyVaultNoEffects | index.js:78-82 | an empty listing ends the run with no upload, no delete and no log; only a manual caller is told |
| Publish.AttemptLogsBounded | index.js:69-118 | a run removes no log and adds at most today's |
| Publish.AttemptUploadsAtMostOne | index.js:99-111 | a run keeps the earlier uploads and appends at most one |
| Publish.AttemptOutbox | index.js:79 | the only message a run sends is the empty-vault warning |
| Publish.DeleteOnlyAfterUpload | index.js:97-113 | when the vault changes, one upload with the returned id was recorded, and exactly the listed file it streamed was removed |
| Publish.FailedInsertKeepsWorld | index.js:97-111 | a throwing download or insert leaves vault, logs and uploads as they were, and nothing is published |
| Publish.ManualRunKeepsLogs | index.js:116-118 | a manual run never changes the log set |
| Publish.LogIffCompletedAutomaticRun | index.js:113-118 | the logs change only on a completed automatic run, which adds today; such a run always leaves today logged |
| Publish.PublishedFileWasListed | index.js:85-113 | a completed run published a listed file with the returned id, recorded one upload streaming it, and deleted it |
| Publish.PublishedRemovesOneFile | index.js:113 | with unique ids, a completed run removes exactly one file and keeps the others in order |
| Publish.UnparsableMetadataUsesDefaults | index.js:87-93 | an unparsable description gives the title "Short #shorts" and the description "Short #shorts", four newlines and the promotional line |
| Publish.UntitledMetadataAborts | index.js:88-91 | a parsed value without a text title stops the run with the world unchanged |
| Publish.CompletedAttempt | index.js:69-118 | a run in which nothing throws uploads the picked file's request, deletes that file, logs the day when automatic, and sends nothing |
| Publish.DeleteFaultKeepsFile | index.js:113-118 | a throwing delete keeps the file and writes no log, after one upload |
| Publish.TickStep | index.js:45-63 | defines one timer tick; stated by Publish.TickGate, Publish.TickAfterCompletedRun, Publish.Bot.Tick |
| Publish.Day | index.js:45-63 | defines the ticks of one day in order, counting completed runs; stated by Publish.LoggedDayIsQuiet, Publish.AtMostOneCompletedRunPerDay, Publish.AtMostOneUploadPerDay |
| Publish.TickGate | index.js:50-61 | a tick starts a run exactly at hour 18 on a day without a log, and otherwise changes nothing |
| Publish.TickAfterCompletedRun | index.js:54-58 | after a tick whose run completed, every later tick that day does nothing |
| Publish.LoggedDayIsQuiet | index.js:45-63 | once the day is logged, no sequence of ticks changes anything |
| Publish.AtMostOneCompletedRunPerDay | index.js:45-63 | the ticks of one day complete at most one run, and none once the day is logged |
| Publish.AtMostOneUploadPerDay | index.js:45-63 | when neither the delete nor the log write throws, the ticks of one day upload at most one video, none once the day is logged |
| Publish.DeleteFailureUploadsTwice | index.js:113-118 | a delete that throws on the first tick at 18 lets the second tick upload again: two uploads in one day |
| Publish.CreateLogFaultLeavesDayOpen | index.js:113-118 | a throwing `createLogFile` on an automatic run leaves the upload and the delete done, and today without a log |
| Publish.CreateLogFailureUploadsTwice | index.js:113-118 | a `createLogFile` that throws on the first tick at 18 lets the second tick upload again: two uploads in one day |
| Publish.ManualRunOnOneCatVideo | index.js:69-118 | one video titled "Cat", run manually: the insert gets "Cat #shorts" and the description "Cat #shorts", four newlines, the promotional line; the vault ends empty and no log is written |
| Publish.Bot.constructor | index.js:36-38 | a bot starts with the given vault and logs, no uploads and no messages |
| Publish.Bot.CheckIfUploadedToday | index.js:54 | the answer is whether the date has a log |
| Publish.Bot.CreateLogFile | index.js:117 | the date joins the logs; nothing else changes |
| Publish.Bot.TriggerUpload | index.js:69-118 | the new state and the outcome are what `Attempt` gives for the old state; ids stay unique |
| Publish.Bot.Tick | index.js:45-63 | the new state and the started run's outcome are what `TickStep` gives for the old state |

## Left out

- get_refresh_token.js is not part of this model. It is a one-shot OAuth consent flow with no state of its own.
- The Telegraf bot, the HTTPS agent and the OAuth, Drive and YouTube client construction (index.js:18-34) are I/O set-up.
- The Drive and YouTube calls become operations on the abstract world. A call that throws is an `Env` parameter. The byte stream from `files.get` is not modelled; the insert records the file id it streams.
- `moment-timezone` (index.js:46-53): the New York hour and date are inputs of the tick.
- `setInterval` and concurrency: one tick and one run at a time. A timer run overlapping a manual run is not modelled.
- Publish.AtMostOneCompletedRunPerDay: assumes each run ends before the next tick. `setInterval` does not wait for the async callback, so a run that takes longer than 60 s overlaps the 18:01 tick. That tick sees no log yet and can upload a second time, possibly the same file.
- Publish.AtMostOneUploadPerDay: assumes each run ends before the next tick, for the same reason.
- Drive.Listing: the listing is modelled as a full first page. The Drive API may return a partial or empty page before the end of the results; line 78 would then wrongly report an empty vault.
- Shorts.PickIndex: the uniformity of `Math.random()` and floating-point rounding are not modelled. The draw is an exact real in [0, 1).
- Text.Lower: lower-cases only the ASCII letters A-Z. No other character lower-cases to a character of `#shorts`, so the marker test is exact, but other lower-cased text would differ.
- JSON parsing: a description parses to one of the three kinds of `MetaAttr`. A record whose description field is not text, or whose user id is not a number, is not modelled.
- The catch block, notifications and everything after index.js:118 are not part of the file. A thrown error simply ends the run as `Aborted`.
- `userSessions` (index.js:36), the ffmpeg import (index.js:14-15) and the `console.log` lines have no effect on the modelled state.
- `getOrCreateFolder`, `checkIfUploadedToday` and `createLogFile` are not shown in the file. They become, in order: a lookup that can only throw, membership in the log set, and insertion into it.
