# Download toolkit core, in Dafny

This project models the deterministic core of a small Node.js download
toolkit. The toolkit drives yt-dlp, ffmpeg and ffprobe from Express routes,
and the model covers the pieces between those tools:

- the single-download admission slots of `universal-api.js` and
  `youtube-video-api.js`, each a class whose fields the route handlers update
  (`isDownloading`, and in `universal-api.js` the process handle);
- the file-name sanitisers `sanitizeFilename` (the four API files) and
  `sanitizeName` (`folder.js`);
- the split of yt-dlp's `title|||uploader|||duration` line with its
  fallbacks, and the `info.txt` files built from it;
- the byte-range replies of the two video-serving routes, including the
  ranges the read stream refuses;
- the random edit: segment count, segment names, the Fisher–Yates shuffle,
  the ffmpeg concat list, and where a failing command stops the edit;
- `convertVttToText`, the subtitle-command fallback loop, language
  detection, error classification and the preview of the transcript route;
- the ffmpeg filter-graph builder of the video merger, with its layout
  arithmetic, `escapeText` and temp-file clean-up;
- the `/api/download-link` route of `server.js`: its replies and events, and the file-name extraction from yt-dlp's output;
- the folder tree `folder.js` creates;
- the script segmenter `video_naskah/split_naskah.js`.

The external tools are not modelled. What they return (an exit status, a
stdout text, a directory listing, a probe result) is a parameter. The file
system is a set of folders plus a map from path to content, or a set of
present files. Socket.IO emissions are an appended sequence of events.

Modules, one per file: `Text` (JavaScript string built-ins),
`Sanitize`, `Metadata`, `ByteRange`, `RandomEdit`, `UniversalApi`,
`YouTubeApi`, `Vtt`, `Transcript`, `VideoMerger`, `DownloadLink`,
`FolderLayout` and `SplitNaskah`.

Two facts about the code that a reader might not expect:

- Filename sanitisation is not idempotent: a name whose 100-character cut
  ends right after a `_` loses that `_` on a second pass
  (`Sanitize.SanitizeTwiceIff`, `Sanitize.SanitizeNotIdempotentExample`).
- The reset of `isTextLine` on empty lines in `convertVttToText` can never
  run, because empty lines are skipped earlier (`Vtt.FlagStaysSet`).

## Model

| member | source | states |
|---|---|---|
| `Text.Trim` | video_naskah/split_naskah.js:13 | `trim` leaves no white space at either end and never lengthens its input |
| `Text.TrimSlice` | video_naskah/split_naskah.js:13 | what `trim` keeps is a slice of the input; everything cut at either side is white space |
| `Text.SplitCount` | video_naskah/split_naskah.js:9 | splitting on a one-character separator yields exactly one more piece than there are separators |
| `Text.SplitPiecesFree` | video_naskah/split_naskah.js:9 | no piece of a split contains the separator |
| `Text.SplitJoin` | universal-api.js:70 | splitting undoes joining when no part holds the separator's first character |
| `Text.ToUpper` | universal-api.js:107 | `toUpperCase` keeps the length and upper-cases each ASCII lower-case letter, leaving other characters alone |
| `Text.ZeroPadValue` | universal-api.js:356 | `String(n).padStart(w, '0')` still reads back as `n` |
| `Text.ZeroPadInjective` | universal-api.js:356 | different numbers get different padded texts: padding never truncates |
| `Text.ParseIntDec` | youtube-video-api.js:199 | `parseInt` reads back the text `String(n)` wrote |
| `Text.ParseIntText` | youtube-video-api.js:199-200 | `parseInt` reads an optional sign: it reads back `String(i)` for any integer, negative ones included |
| `Sanitize.ReplaceIllegal` | universal-api.js:19 | the first step keeps the length, leaves none of `<>:"/\` and the other illegal characters, and changes nothing in a legal name |
| `Sanitize.SpacesToUnderscoreNoSpace` | universal-api.js:20 | after the second step no white space is left |
| `Sanitize.SpacesToUnderscoreLength` | universal-api.js:20 | the second step never lengthens the text |
| `Sanitize.SpacesToUnderscoreIdentity` | universal-api.js:20 | the second step changes nothing in a text without white space |
| `Sanitize.CollapseNoDouble` | universal-api.js:21 | after the third step no two `_` are adjacent |
| `Sanitize.CollapseIdentity` | universal-api.js:21 | the third step changes nothing in a text without `__` |
| `Sanitize.StripEdgeUnderscores` | universal-api.js:22 | the fourth step returns a slice of its input, and the input itself when neither end is `_` |
| `Sanitize.UnclippedShape` | universal-api.js:18-22 | before the cut the name has no illegal character, no white space, no `__` and no `_` at either end |
| `Sanitize.SanitizeFilenameShape` | universal-api.js:17-24 | the result has no illegal character, no white space, no `__`, at most 100 characters and no leading `_` |
| `Sanitize.SanitizeFixedPoint` | universal-api.js:17-24 | a name already of that form, with no trailing `_`, is returned unchanged |
| `Sanitize.EndsWithUnderscoreIff` | universal-api.js:22-23 | the result ends with `_` exactly when the cut at 100 lands right after a `_` |
| `Sanitize.SecondPassCuts` | universal-api.js:17-24 | a second pass over such a result removes exactly that trailing `_` |
| `Sanitize.SanitizeTwiceIff` | universal-api.js:17-24 | sanitising twice gives the same name exactly when the first result does not end with `_` |
| `Sanitize.SanitizeNotIdempotentExample` | universal-api.js:17-24 | 99 letters, `_` and one more letter sanitise to a name ending in `_`, and a second pass changes it |
| `Sanitize.OnlyIllegalIsEmpty` | universal-api.js:17-24 | a title made only of illegal characters and white space sanitises to the empty name |
| `Sanitize.UnderscoresKept` | folder.js:12 | turning white-space runs into `_` never lowers the number of `_` |
| `Sanitize.TrimmedKept` | folder.js:12 | after the filter and the trim only `[0-9a-zA-Z _-]` is left |
| `Sanitize.SanitizeNameChars` | folder.js:11-13 | `sanitizeName` returns only `[0-9a-zA-Z_-]` and is never longer than its input |
| `Sanitize.SanitizeNameKeepsOrder` | folder.js:11-13 | every ASCII letter, digit and `-` of the input is kept, in order; `_` are never lost; and all the input's `[0-9a-zA-Z_-]` characters, `_` included, are a subsequence of the name |
| `Sanitize.SanitizeNameEnds` | folder.js:11-13 | the name is empty exactly when the input has no name character; otherwise it starts and ends with the input's first and last name characters, so surrounding spaces never become `_` |
| `Sanitize.SanitizeNameIdempotent` | folder.js:11-13 | `sanitizeName` applied twice equals applied once |
| `Metadata.OrElse` | universal-api.js:161 | the logical-or fallback gives the fallback when the value is undefined or empty, and the value itself when it is a non-empty string |
| `Metadata.ParseInfoJoin` | universal-api.js:68-70 | splitting yt-dlp's line gives back the first three printed fields, a missing field being undefined |
| `Metadata.ParseInfoJoinNewline` | universal-api.js:69-70 | the same when the line ends with the newline yt-dlp prints |
| `Metadata.ParseInfoTitleOnly` | universal-api.js:70 | a line with one separator gives an empty uploader and an undefined duration |
| `Metadata.ParseInfoBlank` | universal-api.js:70 | blank output gives an empty title and no uploader or duration |
| `Metadata.EmptyTitleFallback` | universal-api.js:72 | an empty title names the folder after the fallback when that is already a plain name |
| `Metadata.UniversalFallbackIsPlain` | universal-api.js:72 | an empty title gives the folder `Universal_Video` |
| `Metadata.YouTubeFallbackIsPlain` | youtube-video-api.js:75 | an empty title gives the folder `YouTube_Video` |
| `Metadata.IllegalTitleEmptyFolder` | universal-api.js:72 | a non-empty title of only illegal characters and white space gives an empty folder name; the fallback is not used |
| `Metadata.InfoTextSplits` | universal-api.js:161 | lines without CR joined by CRLF split back into those lines |
| `Metadata.UniversalInfoTextLines` | universal-api.js:161 | the info.txt reads back as its seven lines, with `Tidak diketahui` for a missing uploader or duration |
| `Metadata.YouTubeInfoTextLines` | youtube-video-api.js:142 | the same for the YouTube info.txt and its `Channel:` line |
| `ByteRange.Refusal` | youtube-video-api.js:176-219 | when the read stream throws, the YouTube route (no `try`) answers 500 through Express's default handler and the universal route's `catch` (universal-api.js:269-271) answers 404 `Video not found` |
| `ByteRange.Serve` | youtube-video-api.js:195-218 | no range header answers the whole file; otherwise the reply is 206 exactly when both bounds are integers with `0 <= start <= end <= MAX_SAFE_INTEGER`, with length `end - start + 1` and `Content-Range` `bytes start-end/size`, and the route's refusal otherwise (same code at universal-api.js:245-271) |
| `ByteRange.Answer` | youtube-video-api.js:199-209 | a 206 carries the parsed bounds exactly when `createReadStream` accepts them |
| `ByteRange.PartsOf` | youtube-video-api.js:198 | a `bytes=first-last` header splits into its two parts |
| `ByteRange.ServeBounds` | youtube-video-api.js:198-200 | the bounds are the parsed parts, an empty second part meaning the last byte |
| `ByteRange.ClosedRange` | youtube-video-api.js:198-209 | `bytes=a-b` is served from `a` to `b` with `b - a + 1` bytes when `a <= b <= MAX_SAFE_INTEGER`, and refused when `b < a` or `b` is beyond that |
| `ByteRange.OpenRange` | youtube-video-api.js:198-209 | `bytes=a-` runs to `size - 1`, `size - a` bytes, when `a < size`; a start at or past the end, and so any open range on an empty file, is refused |
| `ByteRange.SuffixRange` | youtube-video-api.js:198-209 | the suffix form `bytes=-n` of section 2.1 of RFC 7233 has a `NaN` start and is refused |
| `ByteRange.UncheckedRange` | youtube-video-api.js:200-201 | the end is not held to the file: a range ending at or past the last byte is served with a length larger than the file holds from `a` on |
| `RandomEdit.SegmentCount` | universal-api.js:343-345 | the count is the floor of the duration over 5, and `NaN` when the duration is |
| `RandomEdit.SegmentsToCut` | universal-api.js:345-350 | a duration under 10 s stops the edit; otherwise at least two segments are cut, `NaN` counting as none |
| `RandomEdit.CutSegments` | universal-api.js:354-366 | the loop makes `n` jobs, job `i` starting at `5 * i` and named `segment_` plus `i` padded to three digits |
| `RandomEdit.SegmentNamesDistinct` | universal-api.js:356 | different segments get different file names |
| `RandomEdit.SegmentsTile` | universal-api.js:355 | the segments lie back to back from second 0, with distinct names |
| `RandomEdit.SegmentOrder` | universal-api.js:371-375 | whatever index each step picks, the shuffled order lists `0 .. n-1` each once |
| `RandomEdit.OrderInRange` | universal-api.js:371-375 | the order holds nothing outside `0 .. n-1` |
| `RandomEdit.OrderDistinct` | universal-api.js:371-375 | the order holds no segment twice |
| `RandomEdit.OrderComplete` | universal-api.js:371-375 | the order misses no segment |
| `RandomEdit.ConcatLines` | universal-api.js:379-380 | one `file 'segment_NNN.mp4'` line per entry of the order, in that order |
| `RandomEdit.ConcatLineInjective` | universal-api.js:380 | different segments get different concat lines |
| `RandomEdit.ConcatLineOneLine` | universal-api.js:380 | a concat line holds no line break |
| `RandomEdit.ConcatContentSplits` | universal-api.js:379-381 | the concat file splits back into its lines |
| `RandomEdit.ConcatListLines` | universal-api.js:379-381 | the concat file has exactly `n` lines, names every segment once and in the shuffled order |
| `RandomEdit.RunAll` | universal-api.js:318-407 | when no command fails, every command of every stage runs |
| `RandomEdit.RunStopsAt` | universal-api.js:404-406 | when stage `k` is the first to fail, the commands of stages `0 .. k` run and no other: the `catch` ends the edit |
| `RandomEdit.CutStage` | universal-api.js:353-368 | the cuts awaited together are `n` cuts, cut `i` starting at `5 * i` into `segment_` plus `i` padded |
| `RandomEdit.EditRunShape` | universal-api.js:330-368 | the temp folder, the probe and the cuts run in turn, each only when the one before succeeded, a short video stopping after the probe |
| `RandomEdit.FinishShape` | universal-api.js:377-401 | the list, the concat, the unlink, the rename and the clean-up run in turn, each only when the one before succeeded |
| `RandomEdit.FinishEdit` | universal-api.js:377-401 | the commands after the shuffle are exactly the run of the last five stages |
| `RandomEdit.CutAndFinish` | universal-api.js:352-401 | the cuts run; only when none fails is the order shuffled, a permutation of the segments, and the rest run |
| `RandomEdit.ApplyRandomEdit` | universal-api.js:318-407 | no mp4 means nothing is done; otherwise the commands run are exactly the stages up to the first failing one, and a written concat list always lists a permutation of the segments |
| `RandomEdit.CleanUpOnlyAfterSuccess` | universal-api.js:397-401 | the temp folder is removed exactly when every command before the clean-up succeeded; a short video or any failure leaves it behind |
| `RandomEdit.OriginalRemovedAfterConcat` | universal-api.js:394-397 | the original video is deleted only after a concat that ran and succeeded, which needs at least one segment |
| `RandomEdit.UnreadableDuration` | universal-api.js:343-394 | a `NaN` duration cuts no segment, ffmpeg fails on the empty list, so the original is kept and the temp folder left behind |
| `RandomEdit.FailedRenameLosesOriginal` | universal-api.js:397-398 | when the rename is the first command to fail, the original is already deleted and the run ends with the rename, the temp folder left behind |
| `UniversalApi.DownloadCommand` | universal-api.js:87-98 | a command exists exactly for `youtube` and `tiktok` |
| `UniversalApi.UniversalDownloads.constructor` | universal-api.js:13-14 | the slot starts free with no handle |
| `UniversalApi.UniversalDownloads.Submit` | universal-api.js:36-65 | the request's effect on the slot and its early reply |
| `UniversalApi.UniversalDownloads.Catch` | universal-api.js:195-205 | the `catch` frees the slot, drops the handle and emits the error, unless `platform` is missing |
| `UniversalApi.UniversalDownloads.FetchInfo` | universal-api.js:67-127 | metadata, reply and start of the download process |
| `UniversalApi.UniversalDownloads.DownloadClosed` | universal-api.js:128-193 | the end of the download: info.txt when its write succeeds (a failed write is ignored), completion event and the flag cleared, the handle kept |
| `UniversalApi.UniversalDownloads.Cancel` | universal-api.js:209-224 | `/cancel-download` on the slot |
| `UniversalApi.AdmissionRules` | universal-api.js:39-65 | an empty URL gets 400 and a busy slot 409, neither changing anything; only a request passing every check takes the slot |
| `UniversalApi.SuccessKeepsHandle` | universal-api.js:127-172 | a successful download clears the flag but keeps the finished process's handle |
| `UniversalApi.StaleCancelSucceeds` | universal-api.js:172-221 | after a success, cancel kills the stale handle and still reports success |
| `UniversalApi.MissingPlatformLeavesState` | universal-api.js:100-197 | with no `platform` the handler throws again in its `catch` and the slot state is untouched |
| `UniversalApi.StuckSlot` | universal-api.js:196-223 | such a slot stays busy: later requests get 409 and cancel finds nothing to cancel |
| `UniversalApi.CancelWithoutHandle` | universal-api.js:222-224 | with no handle, cancel replies failure and changes nothing, busy or not |
| `UniversalApi.CancelWithHandle` | universal-api.js:210-221 | with a handle, cancel kills that process, drops the handle, frees the slot and replies success |
| `UniversalApi.UnknownPlatform` | universal-api.js:84-127 | another platform gets the started reply, then the undefined command throws and the `catch` frees the slot |
| `UniversalApi.LateCatchFreesNewerDownload` | universal-api.js:195-198 | a cancelled download's late `catch` frees the slot and drops the handle of a newer download |
| `UniversalApi.SuccessWritesInfo` | universal-api.js:159-193 | a success whose write lands leaves an info.txt that reads back as its seven lines, a failed write leaves the files unchanged, and either way the completion event carries the player path `/api/universal-video/<name>` exactly when an mp4 is found |
| `YouTubeApi.YouTubeDownloads.constructor` | youtube-video-api.js:13 | the slot starts free |
| `YouTubeApi.YouTubeDownloads.Submit` | youtube-video-api.js:36-68 | the request's effect on the slot and its early reply |
| `YouTubeApi.YouTubeDownloads.Catch` | youtube-video-api.js:163-172 | the `catch` frees the slot and emits the error |
| `YouTubeApi.YouTubeDownloads.FetchInfo` | youtube-video-api.js:71-110 | metadata and reply |
| `YouTubeApi.YouTubeDownloads.Finish` | youtube-video-api.js:127-161 | the end of the download clears the flag |
| `YouTubeApi.YouTubeDownloads.Status` | youtube-video-api.js:222-227 | `/download-status` returns exactly the slot's flag |
| `YouTubeApi.AdmissionRules` | youtube-video-api.js:38-68 | a non-YouTube URL gets 400 and a busy slot 409, neither changing anything; acceptance sets the flag and emits the start event |
| `YouTubeApi.NonYouTubeRejected` | youtube-video-api.js:38-43 | an example of the rule above: a URL without any `y` is refused with 400 and no change |
| `YouTubeApi.EveryOutcomeClears` | youtube-video-api.js:127-172 | a failed metadata call, a failed download and a finished download all clear the flag |
| `YouTubeApi.StatusCycle` | youtube-video-api.js:64-165 | the flag is set from acceptance to the end of the download and cleared after it either way |
| `YouTubeApi.QualityLabelBest` | youtube-video-api.js:109 | the label is `Terbaik (Auto)` exactly for `best`, and otherwise ends with `p` |
| `YouTubeApi.AlternativesJoin` | youtube-video-api.js:88 | the height-limited option is its three alternatives joined by `/` |
| `YouTubeApi.FormatAlternatives` | youtube-video-api.js:84-89 | `best` selects the fixed format; any other quality is spliced as `height<=quality` into both limited alternatives |
| `YouTubeApi.FolderAgreement` | youtube-video-api.js:75-159 | the reply and the completion event name the same folder `YouTube_Videos/<name>`, an empty title gives `YouTube_Video`, and info.txt has the reply's quality label |
| `YouTubeApi.SlotsIndependent` | youtube-video-api.js:13 | a busy YouTube slot does not stop a universal download, nor the reverse (universal-api.js:13 holds the other flag) |
| `Vtt.SkippedStep` | transcript-api.js:226-228 | empty, `WEBVTT` and `NOTE` lines are skipped |
| `Vtt.TimingStep` | transcript-api.js:231-234 | any other line containing `-->` is a timing line |
| `Vtt.OtherStep` | transcript-api.js:237-253 | an all-digit line is a cue id; any other line shows its cleaned text followed by a space, or nothing when that is blank |
| `Vtt.ScanLine` | transcript-api.js:223-258 | one pass adds the line's contribution to the text and updates the flag |
| `Vtt.ScanLines` | transcript-api.js:218-259 | the loop collects the text of the lines' views |
| `Vtt.ConvertVttToText` | transcript-api.js:217-269 | the converter returns the cleaned-up text of what the loop collects |
| `Vtt.FlagStaysSet` | transcript-api.js:255-258 | once set, `isTextLine` is never cleared: the reset is unreachable |
| `Vtt.NoTimingNoText` | transcript-api.js:220-242 | without a timing line nothing is collected |
| `Vtt.FirstTimingLine` | transcript-api.js:231-242 | lines before the first timing line are dropped and every caption line after it is kept |
| `Vtt.SilentLine` | transcript-api.js:226-239 | a skipped, timing or cue-id line adds nothing |
| `Vtt.TagRemoved` | transcript-api.js:245 | a tag is removed with everything between its brackets |
| `Vtt.TagOnlyLine` | transcript-api.js:244-252 | a line made only of tags, with nothing but white space between them, contributes nothing |
| `Vtt.TagRunStripped` | transcript-api.js:245 | removing the tags of such a line leaves only its white space |
| `Vtt.StripPlain` | transcript-api.js:245 | text without `<` passes through the tag removal unchanged |
| `Vtt.DecodeLt` | transcript-api.js:246 | `&lt;` decodes to `<` |
| `Vtt.DecodeAmpLt` | transcript-api.js:246-248 | `&amp;lt;` decodes once, to `&lt;`, because `&amp;` is replaced last |
| `Vtt.DecodePlainChar` | transcript-api.js:246-248 | for every text, a leading character other than `&` is kept and decoding goes on after it |
| `Vtt.DecodeLtPrefix` | transcript-api.js:246 | for every text, a leading `&lt;` becomes `<` and decoding goes on after it |
| `Vtt.DecodeGtPrefix` | transcript-api.js:246-247 | for every text, a leading `&gt;` becomes `>` and decoding goes on after it |
| `Vtt.DecodeAmpPrefix` | transcript-api.js:246-248 | for every text, a leading `&amp;` becomes `&` and is not decoded again: the three chained replaces act as one left-to-right pass |
| `Vtt.ReplaceAllPlainPrefix` | transcript-api.js:246-248 | a global replace passes over text that lacks the pattern's first character |
| `Vtt.ReplaceAllSkipsEntity` | transcript-api.js:246-248 | one entity at the start is left whole by the replace of another |
| `Vtt.PunctuationMatch` | transcript-api.js:264-267 | a punctuation match ends after the white space that follows the mark |
| `Vtt.CollapseSingle` | transcript-api.js:263 | `\s+` to one space leaves no two blanks together, and starts with a blank exactly when the input does |
| `Vtt.SpacedSingle` | transcript-api.js:264-267 | a punctuation pass keeps blanks single and adds no leading blank |
| `Vtt.CleanupShape` | transcript-api.js:262-268 | the clean-up leaves no line break, only plain spaces, never two spaces together, and no white space at either end |
| `Vtt.VttToTextShape` | transcript-api.js:217-268 | the converted text has no line break, no two blanks together and no white space at either end |
| `Transcript.DetectLanguage` | transcript-api.js:177 | the language is `unknown` or two lower-case letters the name ends with, between `.` and `.vtt` |
| `Transcript.LanguageTagged` | transcript-api.js:177 | a name ending in `.xy.vtt`, with lower-case `x` and `y`, gives `xy` |
| `Transcript.LanguageNeedsLowerTag` | transcript-api.js:177 | without a lower-case letter in place the language is `unknown` |
| `Transcript.Prefix` | transcript-api.js:191 | `substring(0, end)` is the first `end` characters, or all of a shorter text |
| `Transcript.Preview` | transcript-api.js:191 | the preview is the whole text up to 500 characters, else its first 500 characters followed by `...` |
| `Transcript.RateLimitWins` | transcript-api.js:199-200 | a message holding `429` gets the rate-limit reply, whatever else it holds |
| `Transcript.DefaultOnlyWithoutPatterns` | transcript-api.js:197-207 | the default reply is given exactly when none of the six patterns occurs |
| `Transcript.PrivateBeforeUnavailable` | transcript-api.js:203-206 | a message holding both later patterns gets the private-video reply |
| `Transcript.DefaultWithoutFirstChars` | transcript-api.js:197-207 | an example of the default reply: a message without the first characters of the patterns gets it |
| `Transcript.VttFiles` | transcript-api.js:118 | the filter keeps exactly the listed names ending in `.vtt` |
| `Transcript.VttFilesFirst` | transcript-api.js:153-163 | the filter is empty exactly when no name ends in `.vtt`, and otherwise its first element is the listing's first `.vtt` name |
| `Transcript.FirstFound` | transcript-api.js:111-142 | the first command after which the folder holds a `.vtt`, if any |
| `Transcript.Tried` | transcript-api.js:111-142 | the number of commands run never exceeds the number of commands |
| `Transcript.LastError` | transcript-api.js:126 | `lastError` is the error of a failed command after which no command failed, and null when none failed |
| `Transcript.TryMethods` | transcript-api.js:108-142 | the loop succeeds exactly when some command leaves a `.vtt`, stops at the first such command and keeps the last error before it |
| `Transcript.Subtitle` | transcript-api.js:144-163 | a subtitle is chosen exactly when the fallback succeeded and the final listing has a `.vtt`, and it is the listing's first `.vtt` name; with none found the last error is thrown |
| `Transcript.Success` | transcript-api.js:184-192 | the success reply carries the preview and the detected language |
| `Transcript.DownloadTranscript` | transcript-api.js:62-214 | the route's reply for the given tool results |
| `Transcript.FailureMeansNoSubtitle` | transcript-api.js:145-160 | after a good metadata call the route fails exactly when no command left a subtitle |
| `Transcript.ErrorWithFilesSucceeds` | transcript-api.js:125-137 | a command that fails but leaves a subtitle still ends the fallback with success |
| `Transcript.AllRateLimited` | transcript-api.js:145-200 | when every command is rate-limited the reply is the rate-limit message |
| `Transcript.SuccessFolderOneLevel` | transcript-api.js:88-190 | the folder is `YouTube_Transcripts/<name>` and the file `<name>_transcript.txt`, the name having no `/` and at most 100 characters |
| `DownloadLink.LineFrom` | server.js:72 | `.+` runs to the end of the line and no further |
| `DownloadLink.LastExt` | server.js:72 | the greedy `.+` backs off to the last position where the extension occurs |
| `DownloadLink.FirstCapture` | server.js:72 | `match` fails exactly when the expression matches nowhere, and otherwise captures at a position before which it matches nowhere |
| `DownloadLink.Basename` | server.js:74 | `path.basename` never holds a `/` |
| `DownloadLink.BasenameOfJoin` | server.js:74 | the base name of `dir/name` is `name` |
| `DownloadLink.BasenamePlain` | server.js:79 | a name without `/` is its own base name |
| `DownloadLink.ExtractNames` | server.js:68-88 | an ExtractAudio line wins, else a download line gives `<base>.mp3`, else `file.mp3`; the thumbnail is the base name of its line or null |
| `DownloadLink.DownloadByLink` | server.js:36-112 | a URL not starting with `http` gets 400 and no events; a URL with a NUL character makes `exec` throw, so the `catch` answers 500 `Terjadi kesalahan server` and emits that error; otherwise a failed command gets 500 and the hint event, and a success replies with the extracted names |
| `DownloadLink.NoDestinationDefaults` | server.js:68-69 | with none of the three lines the file is `file.mp3` and there is no thumbnail |
| `DownloadLink.LastExtAtEnd` | server.js:72 | an extension at the end of the line is where the greedy match stops |
| `DownloadLink.CaptureFirstLine` | server.js:72 | the expression matched at a destination line captures that line's path |
| `DownloadLink.LineFromShift` | server.js:72 | what `.` matches from a position does not depend on the text before it |
| `DownloadLink.CaptureShift` | server.js:72 | the capture at the start of a text is the same after any text put before it |
| `DownloadLink.NoCaptureInEarlierLines` | server.js:72 | the expression matches nowhere inside whole earlier lines that do not contain its prefix |
| `DownloadLink.LeftmostAt` | server.js:72 | a capture with none before it is what `match` returns |
| `DownloadLink.LineCaptured` | server.js:72 | after earlier lines without the prefix, `match` captures the destination line's path |
| `DownloadLink.ExtractAudioLine` | server.js:72 | an `[ExtractAudio] Destination: <path>.mp3` line, after any lines without that prefix, captures `<path>.mp3` |
| `DownloadLink.DownloadLine` | server.js:77 | a `[download] Destination: <path>.webm` line, after any lines without that prefix, captures `<path>` |
| `DownloadLink.ThumbnailLine` | server.js:85 | a `[ThumbnailsConvertor] Destination: <path>.jpg` line, after any lines without that prefix, captures `<path>.jpg` |
| `DownloadLink.AudioFileName` | server.js:72-74 | a converted mp3 at `<dir>/<file>` gives the file name `<file>` |
| `DownloadLink.DownloadFileName` | server.js:77-81 | without one, a download at `<dir>/<name>.webm` gives `<name>.mp3` |
| `DownloadLink.ThumbnailFileName` | server.js:85-88 | a thumbnail at `<dir>/<file>` is named `<file>` |
| `DownloadLink.NulUrlServerError` | server.js:46-53 | a URL with a NUL character passes the `http` check but gets the server-error reply, whatever yt-dlp would have done |
| `DownloadLink.NulUrlExample` | server.js:105-111 | `http://a` followed by a NUL character gets 500 with the start event and the server-error event |
| `DownloadLink.RefusedUrlIgnoresRun` | server.js:39-44 | a refused URL never reaches yt-dlp: the outcome does not depend on the command's result |
| `VideoMerger.ComputeLayout` | video-merger-api.js:93-100 | `fontSize` is the floor of 4% of the width, `lineHeight` the floor of 1.5 times it, `startX` the floor of 5% of the width, `startY` the floor of half of what the list leaves of the height |
| `VideoMerger.LayoutCentred` | video-merger-api.js:100-101 | the list is centred with the spare row below, and `startY` is negative exactly when the list is taller than the video |
| `VideoMerger.LineBreaksToSpaces` | video-merger-api.js:109 | every CR and LF becomes a space and nothing else changes |
| `VideoMerger.EscapeConcat` | video-merger-api.js:104-110 | escaping a concatenation escapes each part |
| `VideoMerger.EscapeTextPerChar` | video-merger-api.js:104-110 | `escapeText` equals escaping each character on its own |
| `VideoMerger.EscapeNoLineBreak` | video-merger-api.js:104-110 | escaped text holds no line break |
| `VideoMerger.EscapePlain` | video-merger-api.js:104-110 | text without `\`, `:`, `'` or line breaks passes through unchanged |
| `VideoMerger.FallbackTitleUnchanged` | video-merger-api.js:139 | the fallback title `Video <i+1>` needs no escaping |
| `VideoMerger.Numbers` | video-merger-api.js:127-134 | one number overlay per video |
| `VideoMerger.Chains` | video-merger-api.js:121-161 | one chain per uploaded video |
| `VideoMerger.DrawNumbers` | video-merger-api.js:127-134 | the inner loop draws the numbers `1.` to `n.`, one per row |
| `VideoMerger.BuildChain` | video-merger-api.js:123-158 | one pass of the outer loop writes chain `i`: input, numbers, title, optional source, label |
| `VideoMerger.BuildInputs` | video-merger-api.js:116-118 | one `-i "<path>"` argument per upload, in order |
| `VideoMerger.BuildFilterGraph` | video-merger-api.js:112-165 | the inputs and the whole `-filter_complex` text: every chain in order, then the concat filter |
| `VideoMerger.RowsEvenlySpaced` | video-merger-api.js:128 | consecutive rows are one line height apart |
| `VideoMerger.ChainLayout` | video-merger-api.js:121-155 | chain `i` draws the labels `1.` … `n.` on rows `startY + k * lineHeight`, a line height apart, its escaped title on row `i` at `startY + i * lineHeight`, and a source overlay exactly when `showSource` is `'true'` and `sources[i]` is truthy |
| `VideoMerger.NumbersDistinct` | video-merger-api.js:129 | different rows get different number texts |
| `VideoMerger.ChainOutDistinct` | video-merger-api.js:158 | different chains produce different stream labels |
| `VideoMerger.ChainFrame` | video-merger-api.js:123-158 | chain `i` starts with `[i:v]` and ends with `[vi]; ` |
| `VideoMerger.ConcatInputsOrder` | video-merger-api.js:164 | the pair `[vi][i:a]` sits after the pairs of the earlier videos |
| `VideoMerger.ConcatConsumesChains` | video-merger-api.js:164-165 | the concat filter reads every chain's output and ends with `concat=n=<n>:v=1:a=1[outv][outa]` |
| `VideoMerger.MergeReply` | video-merger-api.js:40-208 | no uploads get 400, a missing ffmpeg 500; otherwise success needs an output name, a video stream and a good merge, and names `<sanitised>.mp4` with the probed resolution |
| `VideoMerger.CleanupPaths` | video-merger-api.js:179-203 | the uploads are removed on success and on failure after the checks, and kept on the two early rejections |
| `VideoMerger.Uploads.constructor` | video-merger-api.js:44 | the uploaded temp files are present |
| `VideoMerger.Uploads.UnlinkAll` | video-merger-api.js:180-182 | every upload is removed, a missing one skipped |
| `VideoMerger.Uploads.MergeVideos` | video-merger-api.js:40-209 | the route's reply, the temp files left, and the filter graph handed to ffmpeg exactly when ffmpeg runs |
| `SplitNaskah.SegmentName` | video_naskah/split_naskah.js:12 | segment `k` is named with `k + 1` padded to three digits and `.txt` |
| `SplitNaskah.SegmentCount` | video_naskah/split_naskah.js:9 | there is one segment more than there are line feeds, a trailing one included |
| `SplitNaskah.SegmentNameNumber` | video_naskah/split_naskah.js:12 | the digits of the name read back as `k + 1`, at least three of them, never cut past `999` |
| `SplitNaskah.SegmentPathsDistinct` | video_naskah/split_naskah.js:12 | different segments go to different files |
| `SplitNaskah.SegmentFilesKeys` | video_naskah/split_naskah.js:11-14 | the files written are exactly the segments' paths |
| `SplitNaskah.SegmentFilesContent` | video_naskah/split_naskah.js:11-14 | file `k` holds segment `k` trimmed; no later segment overwrites it |
| `SplitNaskah.SegmentFilesCount` | video_naskah/split_naskah.js:11-14 | one file per segment, empty segments included |
| `SplitNaskah.SegmentContentTrimmed` | video_naskah/split_naskah.js:13 | no file content has white space at either end, so the CR of a CRLF script is gone |
| `SplitNaskah.Disk.constructor` | video_naskah/split_naskah.js:4-5 | the disk holds the given folders and files |
| `SplitNaskah.Disk.SplitScript` | video_naskah/split_naskah.js:5-16 | the script adds the segment folder and exactly the segment files, and reports their number, the line-feed count plus one |
| `FolderLayout.Blank` | folder.js:47 | every path gets empty content |
| `FolderLayout.ItemFolderComponents` | folder.js:32-40 | an item folder is `BAHAN_ONEPIECE/<sanitised category>/<sanitised item>`, empty names joining to their parent |
| `FolderLayout.JoinPathChars` | folder.js:40 | joining sanitised names keeps every path to `[0-9a-zA-Z_/-]` |
| `FolderLayout.InfoFileNotFolder` | folder.js:46 | no folder name holds a `.`, so `info.txt` is never a folder the loops make |
| `FolderLayout.ItemFoldersExactly` | folder.js:39-44 | a category's item folders are exactly those of its listed items |
| `FolderLayout.InfoFilesExactly` | folder.js:46-47 | a category's `info.txt` files are exactly those of its listed items |
| `FolderLayout.TreeFoldersExactly` | folder.js:31-44 | the folders made are exactly each category's folder and its item folders |
| `FolderLayout.TreeInfoFilesExactly` | folder.js:31-48 | the `info.txt` files written are exactly one per listed item |
| `FolderLayout.FalsyListOnlyFolder` | folder.js:38 | a category with no list gets its folder and nothing inside it |
| `FolderLayout.FileTree.constructor` | folder.js:26-27 | the tree holds the given folders and files |
| `FolderLayout.FileTree.MakeItems` | folder.js:39-48 | the inner loop adds each listed item's folder and an empty `info.txt`, overwriting what was there |
| `FolderLayout.FileTree.MakeTree` | folder.js:25-49 | the script adds the main folder, every category and item folder and an empty `info.txt` per item, and nothing else |

## Left out

- External tools: yt-dlp, ffmpeg and ffprobe are not run. Their exit status, stdout, the directory listings and the probed size are parameters, and the command strings they would be given are not modelled. In the random edit, which commands fail is a parameter; the one failure built in is ffmpeg's on a concat list that names no segment.
- Concurrency: the download routes are split into steps where other requests can change the module state: admission, the metadata call, the end of the download and cancellation. Each step is atomic, although the `await` at universal-api.js:55 opens a check-then-act window. The end of a universal download (universal-api.js:128-193) is one step across its `await`s at 139 and 144, because no module state changes there and the watermark and the random edit swallow their own errors. The transcript route is one function of the tools' results. Parallel segment encodes are a sequence of steps.
- Timers and events: the `setInterval` progress timer, its leak on the `catch` paths and Socket.IO delivery are not modelled. Emitted events are an appended sequence.
- Randomness: `Math.random` is an arbitrary choice of index in `[0, i]`. Only the permutation property is proved, not uniformity.
- Floating point: the layout values are exact integer floors. `textOffsetX` is an exact half written by a stand-in number printer. `sourceX` is a real written by a number-printing parameter. `parseFloat` of the duration is a real or `NaN`.
- The watermark of universal-api.js:277-315 is left out. It runs ffmpeg on a command string and its errors are swallowed.
- Paths use POSIX `/` in `path.join` and `path.basename`. The Windows separators of the `ffmpeg.exe` setups are not modelled.
- Strings are sequences of characters. UTF-16 lengths and surrogate pairs are not modelled. `toUpperCase` covers ASCII letters only. `\s` is JavaScript's white-space set.
- `parseInt` is modelled with radix 10, as both routes call it: it skips leading white space and reads an optional sign and the leading digits. Digit strings beyond 2^53 are read exactly rather than rounded to a double; the read stream refuses any bound that large either way.
- `JSON.parse` of the merger's `titles` and `sources` is not modelled. They are given as sequences of strings, with an empty string for a missing entry.
- JSON reading in folder.js is not modelled: the read, the parse, `process.exit` on failure, and item values that are truthy but not arrays. The categories are given in the order `for ... in` visits them, and every item is a string. A non-string item, such as a number, makes `name.replace` throw a `TypeError` at folder.js:12 after part of the tree is made; that path is not modelled.
- Request bodies are taken to carry strings. A truthy non-string `url` makes `url.startsWith` throw at server.js:39, before the `try`, so the async handler's promise rejects and no reply is sent; that path is not modelled.
- `fs` failures are not modelled, except the info.txt writes of the two video routes, whose errors are caught and ignored (a flag says whether the write landed): a failing `mkdirSync` of the segment folder (it is not recursive), a missing `naskah.txt`, and an unreadable info file.
- Console output, `toLocaleString` timestamps (a parameter) and V8's exact error texts (except the one for reading a property of `undefined`) are not modelled.
- `encodeURIComponent` of the universal player path (universal-api.js:180) is not modelled: the path carries the sanitised name as it is, which differs only for names holding characters outside letters, digits and `-_.!~*'()`.
- Multi-range headers and the `200` body stream of the video routes are left out.
- The transcript route's `info.txt` (transcript-api.js:176-180) is left out: its language text repeats the detection that is modelled, and its timestamp is a clock reading.
- The merger's `_info.txt` file (video-merger-api.js:187-189) is left out. Its write errors are swallowed and nothing reads it.
