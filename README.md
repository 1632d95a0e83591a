# yt-scan-download-translate, modelled in Dafny

The service polls a list of YouTube playlists. For every video whose id is
not yet in its ledger of processed videos, it downloads the video. Optionally
it fetches a machine-translated audio track, muxes that track onto the video
and removes the intermediate files. After each success it appends the id to
the ledger and saves the ledger. A first-run interactive setup asks for the
playlists, and it can mark the videos already in a playlist as processed.
A start-up check makes sure the three external programs are installed.

This project models the logic of `main.go`. The external programs, the file
system and standard input become inputs of the model:

| file | module | models |
|---|---|---|
| `wrappers.dfy` | `Wrappers` | the `Option` type |
| `domain.dfy` | `Domain` | playlists, videos, the ids of a scan, ledgers without duplicates |
| `files.dfy` | `Files` | how a whole-file save ends and what it leaves in the file (main.go:192-198) |
| `paths.dfy` | `Paths` | the path derivation of the translate path (main.go:155-159) |
| `pipeline.dfy` | `Pipeline` | `handleVideo`: gated steps, the error returned, the trace of effects (main.go:140-182) |
| `scan_cycle.dfy` | `ScanCycle` | `runScanCycle` as specification functions over oracle answers (main.go:82-138) |
| `cycle_properties.dfy` | `CycleProperties` | what a cycle promises about the ledger, the ledger file and the pipeline calls |
| `service.dfy` | `Daemon` | the service state as a class; `RunScanCycle` is the nested loop, proved equal to the specification |
| `answers.dfy` | `Answers` | the yes/no answer rules: trim, lower-case, compare |
| `setup.dfy` | `Setup` | `setupInteractiveConfig` over a sequence of input lines, including the id-merge loop |
| `dependencies.dfy` | `Dependencies` | `checkDependencies`: the first program missing from the search path |
| `scenarios.dfy` | `Scenarios` | the effects of one translated video, and three concrete cycles: a known video is skipped; a failed translation leaves the ledger unchanged; a save that empties the file and fails leaves it undecodable |

Answers from outside the program are oracles indexed by position. These are:
- the scan result of playlist `i`;
- the outcomes of the pipeline's steps for video `j` of playlist `i`;
- how the save after that video ends: written, not opened (the file keeps
  its old contents), emptied and then failed (the file no longer decodes), or
  written with an error on close;
- whether the context is cancelled at each of the two checks.

Each position is visited at most once in a cycle, so indexing by position
loses no behaviour. The trace of a cycle records each pipeline call (`Handled`)
and each save of the ledger (`Saved`) with the snapshot written.

## Model

| member | source | states |
|---|---|---|
| Paths.AudioPathSplits | main.go:155-158 | splitting the checked audio path gives back exactly the directory and the file name the translator was asked to write, for every file name |
| Paths.JoinSplits | main.go:155-158 | joining a non-empty name without '/' onto a directory and splitting again returns both parts |
| Paths.CleanSplitsBack | main.go:155-158 | a file name with nothing to normalise (non-empty, no trailing '/', no "//", no "." or ".." component) splits and re-joins to itself |
| Paths.UncleanExamples | main.go:155-156 | "a//b", "a/./b", "a/../b", "a/" and "./a", which the platform's cleaning changes, are not clean |
| Paths.AudioBesideVideo | main.go:155-158 | for a clean file name, the audio path is the file name followed by ".mp3" |
| Paths.OutputsDistinct | main.go:155-159 | the muxed output ".[VOT-CLI-LIVE].mp4" differs from both the downloaded file and the audio track; for a clean name the audio track differs from the video |
| Paths.BaseHasNoSlash | main.go:156 | the last element of a path never contains '/' |
| Pipeline.SucceedsExactly | main.go:140-182 | the pipeline returns nil exactly when the download succeeds and, when translating, so do the filename lookup, the translator, the audio check and the mux |
| Pipeline.DownloadFirst | main.go:141-144 | the download is always the first effect; a failed download returns its error with no other effect |
| Pipeline.UntranslatedIsDownloadOnly | main.go:141-148 | without translation the result is nil exactly when the download succeeds, and the only effect is the download |
| Pipeline.CleanupNeverFails | main.go:174-176 | the outcomes of the two removals change neither the result nor the effects |
| Pipeline.NoCleanupOnFailure | main.go:140-179 | a failing call removes nothing, so the downloaded video stays when translation fails |
| Pipeline.MissingAudio | main.go:167-179 | when the audio track is absent after a successful translation, the error is "audio file not found" for the derived path, and nothing is muxed or removed |
| Pipeline.MuxTargets | main.go:155-172 | every mux combines the downloaded file with the audio path into the output name, and the translator was asked to write exactly that audio path |
| Pipeline.CleanupTargets | main.go:174-176 | a successful call ends by removing the audio track and then the un-muxed video, and never removes the output |
| CycleProperties.LedgerAppendsSuccesses | main.go:125-130 | the final ledger is the loaded ledger followed by the ids of the successful pipeline calls, in order |
| CycleProperties.SnapshotsGrow | main.go:130-133 | every snapshot saved, even a lone one, extends the loaded ledger and is a prefix of the final ledger; every later snapshot extends every earlier one |
| CycleProperties.NeverReprocesses | main.go:116-118 | no pipeline call is made for an id that is in the loaded ledger or was appended earlier in the cycle |
| CycleProperties.SavesExactlyAfterSuccesses | main.go:125-133 | every success is directly followed by a save of the ledger with its id appended, and every save directly follows a success |
| CycleProperties.NoDuplicatesIntroduced | main.go:116-130 | a loaded ledger without duplicates leads to a final ledger without duplicates |
| CycleProperties.HandlesOnlyScannedVideos | main.go:95-125 | every pipeline call is on a video of a playlist with a non-empty URL whose scan succeeded, with that playlist's translate flag, in scan order |
| CycleProperties.EveryScannedVideoReached | main.go:95-135 | without cancellation the cycle returns nil, and every video of every scanned playlist ends in the ledger or has a failed call, whatever failed in other playlists |
| Files.FileAfter | main.go:192-198 | after a save the file holds the new contents when it reports success; otherwise its old contents, the new ones, or (only after the file was emptied) nothing that decodes |
| Files.AtomicReplace | main.go:192-198 | a save done by renaming a temporary file reports success exactly when the in-place one does, and never leaves the file emptied or half-written |
| CycleProperties.FileHoldsLedgerPrefix | main.go:130-133 | while the ledger file decodes it holds a prefix of the final ledger that extends the loaded one; it stops decoding only through a save that emptied it and failed; when every save succeeds it holds the whole final ledger |
| CycleProperties.RestartSkipsPersisted | main.go:88-133 | a later cycle that starts from a decodable file this cycle left never runs the pipeline for an id that file holds; from an undecodable one it fails at the load before any effect |
| CycleProperties.UnreadableFilesDoNothing | main.go:83-91 | an unreadable source list or ledger ends the cycle with its error, before any effect |
| CycleProperties.CycleIsSound | main.go:82-138 | a cycle's ledger is the loaded one plus its successes and has no new duplicates; the file, while it decodes, lies between the loaded ledger and it, and stops decoding only through a truncating save; no call repeats a ledger id |
| CycleProperties.CancellationStops | main.go:95-114 | the cycle returns the cancellation error exactly when a check it reaches fires (before a playlist, or before a video of a scanned playlist); every pipeline call comes after all checks up to its own passed |
| CycleProperties.Atomically | main.go:130-133 | the same outside world with each ledger save done as a rename of a temporary file: same scans, steps and cancellations, no truncating save |
| CycleProperties.AtomicSavesKeepLedger | main.go:88-133 | with atomic saves the ledger file always decodes, lies between the loaded and the final ledger, and a restart from it skips every id it holds |
| Daemon.Service.RunScanCycle | main.go:82-138 | the nested loop leaves the error, ledger, ledger file and trace that `Cycle` specifies, and for loaded files that state is sound |
| Dependencies.FirstMissingFrom | main.go:200-209 | the first required program not on the search path; None exactly when all are found |
| Dependencies.CheckDependencies | main.go:200-209 | the loop reports no program exactly when all three are found, and otherwise reports the first one missing |
| Answers.TrimSpaceIsTrimmed | main.go:238 | trimmed text neither starts nor ends with white space |
| Answers.TrimSpaceSplits | main.go:238 | the text is its leading white space, the trimmed text and its trailing white space |
| Answers.PaddingIgnored | main.go:238 | white space added around an answer does not change its trimmed form |
| Answers.ToLowerEquals | main.go:238 | lower-casing gives a lower-case word exactly when the text spells it in any mix of cases |
| Answers.IsNoCharacterized | main.go:238-239 | an answer is a no exactly when, trimmed, it spells "n" or "no" in any case |
| Answers.IsYesCharacterized | main.go:275-276 | an answer is a yes exactly when, trimmed, it spells "y" or "yes" in any case |
| Answers.YesAndNoExclusive | main.go:236-281 | no answer is both a yes and a no |
| Answers.DefaultsOnMissing | main.go:236-242 | ended input or an empty answer keeps yes for the default-yes questions and no for "add another" |
| Answers.OtherWordsKeepDefaults | main.go:245-281 | every answer that, trimmed, spells neither "n" nor "no" in any case keeps yes, and every one that spells neither "y" nor "yes" keeps no |
| Answers.OtherWordsExamples | main.go:245-281 | "nope" and "0" keep yes, and "yeah" keeps no |
| Answers.CaseAndSpaceIgnored | main.go:299-304 | " No\r" answers no and "\tYES " answers yes |
| Setup.MergedMarksAll | main.go:259-263 | marking keeps the ledger as a prefix and adds every scanned id, only scanned ids, no id already present and none twice |
| Setup.MarkDownloaded | main.go:259-263 | the merge loop computes `Merged`: every scanned id is in the result, nothing else is added, and no duplicate is introduced |
| Setup.AskDefaultYes | main.go:236-242 | one default-yes question reads at most one line and answers no only for an explicit no |
| Setup.AskDefaultNo | main.go:273-281 | the "add another" question reads at most one line and answers yes only for an explicit yes |
| Setup.ConfigurePlaylist | main.go:235-271 | one round of questions computes the `ReadEntry` specification |
| Setup.EntryFacts | main.go:229-271 | a round adds the trimmed URL with the translate answer, and its marking only adds scanned ids without duplicates |
| Setup.SessionKeepsAll | main.go:224-282 | every playlist added has a non-empty trimmed URL, and the ledger only gains scanned ids without duplicates |
| Setup.NothingConfiguredIffBlank | main.go:224-282 | no playlist is added exactly when every remaining input line is blank |
| Setup.FirstPlaylistFromFirstLine | main.go:224-271 | the first non-blank line, trimmed, is the first playlist's URL, and the line after it sets its translate flag |
| Setup.SaveAndAsk | main.go:284-309 | the two saves and the launch question after the loop compute `Finish` |
| Setup.SetupInteractiveConfig | main.go:211-310 | the prompt loop, the two saves and the launch question compute the `SetupSpec` specification |
| Setup.SetupGuarantees | main.go:284-309 | "no playlists configured" exactly for blank input, touching neither file; the collected playlists have valid URLs and the collected ledger only gained scanned ids; each file ends with its old contents, the collected ones, or undecodable after a truncating save; launch exactly when both saves succeed, with both files holding what was collected |
| Scenarios.SkipsKnownProcessesNew | main.go:95-133 | for playlist P1 with videos v1 and v2 and ledger ["v1"], only v2 is processed; the ledger and file become ["v1", "v2"] |
| Scenarios.TranslatorFailureKeepsLedger | main.go:125-165 | when the translator fails, the ledger stays ["v1"], nothing is saved and nothing is removed |
| Scenarios.TranslatedVideoEffects | main.go:140-182 | the seven effects of a translated video, with the derived paths for "tmp/T2.mp4" |
| Scenarios.TruncatedSaveLosesLedger | main.go:88-133 | when the save after v2 empties the ledger file and fails, the file no longer decodes and every later cycle fails at the load before any effect |

## Left out

- Path normalisation: the platform's `Dir`, `Base` and `Join` also clean paths (collapsing "//", resolving "." and "..", stripping trailing slashes). The model only splits at the last '/'. The two agree for the names `Paths.IsClean` accepts, which have nothing to clean: non-empty, no trailing '/', no "//" and no "." or ".." component. For other names the model's parts differ from the program's. The directory differs for "a//b" or "a/../b". The last element differs for "a/" (the model gives "", the program "a") and for "/" (the model gives "", the program "/"). So `Paths.BaseHasNoSlash` is a fact about the model's split: the program's last element of an all-slash path is "/".
- Paths.AudioBesideVideo: requires a clean file name, because for names like "./x" the cleaning the model leaves out changes the result.
- Answers.ToLower: lower-cases ASCII letters only. Every other character whose lower case is an ASCII letter lower-cases to 'i' or 'k', and neither letter occurs in "n", "no", "y" or "yes", so the answer rules are unaffected.
- The JSON format of the two files and the actual reads and writes (main.go:184-198). A load is modelled as a value, or None when the file cannot be read or decoded. A save is modelled by how it ends (`Files.WriteOutcome`) and what that leaves in the file. A file that is cut short is modelled as not decoding; a partly decoded file is not modelled.
- The ledger load at the start of the setup ignores its error (main.go:217). The model starts from the loaded list, or from the empty list when it cannot be read.
- The downloader library, the translator and the muxer wrappers (`ffmpeg/add_audio.go`, `votclilive/download.go`) are external programs. Their results are oracle answers, and their effects are actions in the trace.
- `copyFile.go` and `createConfigsIfNotExist.go` only copy template files and create directories; they are not part of this model.
- `main`'s signal handling, one-minute timer and `select` (main.go:63-79) are concurrency and time. Cancellation is a boolean answer at each of its two checks (main.go:96 and 112).
- Logging and the stdout prompts are not modelled. The scanner's token-size failure is not modelled either: an input line is read whole, and a read fails only at the end of input.
- The scan oracles are indexed by playlist position rather than by URL. This is more general: the same URL may scan differently at two positions.

## Findings

| source | as written | input that shows it | evidently intended | confidence | as-written member | corrected member |
|---|---|---|---|---|---|---|
| main.go:130-133, 192-198 | the ledger is saved by writing the file in place, which empties it before the new contents are written | a cycle from ledger ["v1"] in which v2 succeeds and the save after it fails once the file has been emptied (for example, the disk is full) | a failed save leaves the previous ledger, so a failure or a crash costs at most a repeat of the item in progress | not executed | Scenarios.TruncatedSaveLosesLedger | CycleProperties.AtomicSavesKeepLedger |

In the as-written run, the file no longer decodes. Every later cycle then fails at the ledger load, so the ids of completed work are lost and nothing is processed again. The corrected save writes a temporary file and renames it over the ledger (`Files.AtomicReplace`, applied to every save by `CycleProperties.Atomically`). It leaves either the old file or the new one. The cycle and its lemmas are stated for every way a save can end, so they hold for the corrected save too. `Daemon.Service.RunScanCycle` follows the program as written. The setup saves both files the same way (main.go:289-294), and `Setup.SetupGuarantees` states the undecodable case.

