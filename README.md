# wandarr core, modelled in Dafny

wandarr spreads video transcodes over a cluster of ffmpeg hosts. This project models the decision logic behind a transcode job and proves properties of it:

- the size and progress arithmetic of `wandarr/utils.py`: the savings-threshold veto, the progress estimate, the OS tag and the final statistics rows;
- the streaming worker loop `StreamingManagedHost.go` of `wandarr/streaminghost.py`:
  - path resolution and the output-name collision loop;
  - the refusal to clobber the source;
  - the encoder argument list;
  - the outcome branches after the result is copied back;
  - the queue discipline of one `task_done` per dequeued job;
- the media record of `wandarr/media.py`:
  - the `StreamInfoWrapper` getters and `MediaInfo`;
  - the record built from the ffprobe JSON;
  - the defaulting of the text-scrape match groups;
- the command-line driver of `wandarr/transcode.py`:
  - `setup_host_override`, which edits the host map in place;
  - `finalize_files`, with `glob` as a given function;
  - the flag derivation and exit order of `start`.

Files:

- `wrappers.dfy` (`Wrappers`): `Option`, the Python exceptions the core can raise, and `Result`.
- `strings.dfy` (`Strings`), `numbers.dfy` (`Numbers`) and `paths.dfy` (`Paths`): the Python built-ins the core relies on:
  - `str.replace`, `split`, `join` and `rjust`;
  - `int(a / b)` (truncation toward zero), `str(int)`, `int(str)` and `int(float(str))`;
  - `os.path.basename`, `dirname` and `join` (POSIX).
- `utils.dfy` (`Utils`): pure functions and lemmas. `DumpStats` is a method with a loop.
- `media.dfy` (`Media`):
  - the parsers, as functions over a stream datatype whose missing keys are `None`;
  - `parse_ffmpeg_details_json`, as a method with the source's `found_video` loop, proved equal to a fold;
  - the regex post-processing, as loops.
- `streaming_host.dfy` (`StreamingHost`):
  - `StreamingManagedHost`, a class holding the job queue, the file system (a set of existing paths) and a ghost log of effects;
  - `Go` drains the queue and is proved equal to the function `GoSpec`. `GoSpec` composes one `RunJob` per job with a `TaskDone` after each.
- `transcode.dfy` (`Transcode`):
  - `ConfigFile`, a class whose host map `SetupHostOverride` updates in place;
  - `Globals`, a class holding the package-wide flags that `Start` assigns.

External commands are exit codes handed in per job (`JobOutcome`): rsync, the remote encoder, scp and exiftool. The same goes for the file sizes the savings filter reads, the glob expansion and the from-file lines.

## Model

| member | source | states |
|---|---|---|
| Utils.ThresholdWithoutDivision | wandarr/utils.py:22-26 | for a non-empty original, `is_exceeded_threshold` is true exactly when `new*100 < (101 - threshold)*orig`, i.e. when `100 - floor(new*100/orig)` reaches the threshold |
| Utils.ThresholdMonotone | wandarr/utils.py:22-26 | if a new size is accepted, every smaller new size with the same original and threshold is accepted too |
| Utils.ThresholdExamples | wandarr/utils.py:22-26 | `(10, 1000, 850)` saves 15% and is accepted; `(20, 1000, 950)` saves 5% and is rejected |
| Utils.FilterThreshold | wandarr/utils.py:14-19 | a threshold of 0 or less accepts without reading the sizes; with a positive threshold an empty original raises ZeroDivisionError, and otherwise the result is accepted exactly when the savings rule holds |
| Utils.CalculateProgress | wandarr/utils.py:47-63 | `(0, 0)` when the runtime is unknown (≤ 0), whenever the extrapolated source byte count is ≤ 0 and whenever the percentage done is 0; otherwise the first component is the percentage done |
| Utils.ProgressMeaning | wandarr/utils.py:50-63 | once estimated, `done` is the truncated percentage of the runtime elapsed, and `100 - comp` is the truncated percentage of the consumed source bytes written so far (both bracketed by exact products) |
| Utils.ProgressDoneBounds | wandarr/utils.py:49-52 | while the elapsed time is within the runtime, the percentage done lies in 0..100 |
| Utils.ProgressCompressionMonotone | wandarr/utils.py:57-61 | a larger output so far never reports more compression |
| Utils.ProgressExample | wandarr/utils.py:47-63 | runtime 100, 10 MB, time 50 and 4,000,000 bytes written give `(50, 22)` |
| Utils.LocalOsType | wandarr/utils.py:43-44 | Windows, Linux and Darwin map to win10, linux and macos, each in both directions, and every other name to unknown |
| Utils.ElapsedParts | wandarr/utils.py:82-83 | minutes times 60 plus seconds is the elapsed time, and the seconds are below 60 |
| Utils.MaxLen | wandarr/utils.py:78 | the width is at least every path's length and equals one of them |
| Utils.StatLineLayout | wandarr/utils.py:80-84 | a row splits the elapsed time into minutes and seconds, ends with the path, is padded in front with spaces only, and is exactly the width long when the path fits |
| Utils.DumpStats | wandarr/utils.py:72-85 | no rows in a dry run; otherwise one row per completed job, in order, each padded to the longest path's length |
| Media.GetterDefaults | wandarr/media.py:23-41 | the getters return the stored values of present `stream`, `format`, `default`, `lang` and `mb` keys, and for absent keys fall back to stream -1, format `???`, default `0`, lang `???` and mb 0 (the numeric ones exactly when the key is absent) |
| Media.NewMediaInfo | wandarr/media.py:47-61 | no dictionary gives an invalid record and only then; a dictionary without the video keys raises KeyError on `path`; otherwise the record is valid, has runtime 0 when none was found, and keeps the track lists |
| Media.TagValue | wandarr/media.py:233-234 | a tag value is found exactly when some tag has that name, and then it is that tag's value |
| Media.DurationLangFirst | wandarr/media.py:235-241 | a language is derived exactly when some tag name begins `DURATION-`, and it is the rest of the first such name |
| Media.DefaultFlag | wandarr/media.py:228-230 | `"0"` without a disposition; otherwise the text reads back as `disposition.get('default', 0)` |
| Media.BaseTrack | wandarr/media.py:225-230 | a missing `index` or `codec_name` raises KeyError in source order; otherwise the track has exactly stream, format and default, and the stream and default read back as given |
| Media.WithAudioLang | wandarr/media.py:231-241 | the `language` tag wins; without it a language is set exactly when a tag name begins `DURATION-`, and it is the rest of the first such name; other keys are kept |
| Media.WithAudioSize | wandarr/media.py:242-243 | without `NUMBER_OF_BYTES` the track is unchanged; an unparsable count raises ValueError; otherwise `mb` reads back as the count divided by 1,024,000 and truncated |
| Media.AudioTrackFields | wandarr/media.py:224-245 | an audio track's index, codec, default flag, language (the `language` tag, else the rest of the first `DURATION-` tag name, else `???`) and size (else 0), with the errors of the helpers passed through |
| Media.SubtitleTrackFields | wandarr/media.py:248-265 | a subtitle track's index, codec and default flag; its language from the `language` tag; tags without it raise AttributeError at the misspelled `itekeysms`; no tags leave the language `???` |
| Media.HmsDecomposes | wandarr/media.py:181 | with minutes and seconds below 60, `h*3600 + m*60 + s` gives back h, m and s by division |
| Media.DurationTagMatchesRegexRuntime | wandarr/media.py:215-221 | a `DURATION` tag `hh:mm:ss.frac` yields the same runtime as the text-scrape formula (line 181) on the same digit groups |
| Media.FrameRateOfQuotient | wandarr/media.py:208-210 | a rate `a/b` gives `int(a / b)` truncated toward zero, or ZeroDivisionError for `b = 0` |
| Media.VideoFields | wandarr/media.py:201-221 | `codec_name`, `index`, `width`, `height`, `r_frame_rate` and `pix_fmt` raise KeyError in that order, a bad frame rate raises before `pix_fmt` is read, and an unparsable `duration` raises ValueError; a parsed video carries the codec and pixel format, reads back its index and the truncated frame rate, carries the given path and size, and takes its runtime from the truncated `duration`, else the `DURATION` tags, else none |
| Media.DurationTagRuntimeFirst | wandarr/media.py:215-221 | the tag runtime is the `hh:mm:ss` formula on the value of the first tag whose name starts with `DURATION`, and none without such a tag |
| Media.ParseDetailsJson | wandarr/media.py:268-272 | the record is invalid exactly when `streams` is missing |
| Media.ParseFfmpegDetailsJson | wandarr/media.py:268-286 | the loop with its `found_video` flag computes exactly the fold over the streams (first video only, tracks appended, first exception ends it) |
| Media.LaterVideoIgnored | wandarr/media.py:276-278 | once a video stream is parsed, a later video stream is skipped, even a malformed one |
| Media.AudioInStreamOrder | wandarr/media.py:274-281 | a successful parse appends exactly the audio streams' tracks, one per audio stream, in stream order |
| Media.SubtitleInStreamOrder | wandarr/media.py:283-284 | a successful parse appends exactly the `subtitle` and `subrip` streams' tracks, one per stream, in stream order |
| Media.MultistreamFromStreams | wandarr/media.py:134-135 | a parsed record is valid, its tracks are the streams' tracks, and it is multi-stream exactly when the prober listed more than one audio or more than one subtitle stream |
| Media.ParseRegexAudio | wandarr/media.py:138-147 | one track per match, in order, with the match groups; an absent language becomes `und` and an absent default `"0"` |
| Media.ParseRegexSubtitle | wandarr/media.py:150-158 | one track per match, in order; an absent language becomes `und` and the default is always `"0"` |
| StreamingHost.NameNoExtDropsLastPart | wandarr/streaminghost.py:56 | the name without extension is empty for a dot-free name; otherwise it plus a dot plus a dot-free last part rebuilds the name |
| StreamingHost.RemoteNames | wandarr/streaminghost.py:54-57 | the remote input carries the input's file name, and the remote output is `<name>.tmp<ext>` |
| StreamingHost.EscapedInputResolves | wandarr/streaminghost.py:49 | a shell-escaped input path resolves to the path before escaping |
| StreamingHost.CandidateInjective | wandarr/streaminghost.py:77-80 | different suffix indices give different output names |
| StreamingHost.FreeIndexIsFirstFree | wandarr/streaminghost.py:77-80 | the collision loop ends (the file system is finite) at the first index whose name is free, and every earlier name exists |
| StreamingHost.ChosenPathIsFree | wandarr/streaminghost.py:72-84 | without overwrite, a chosen path does not exist, is not the input, and every earlier candidate exists; a refusal only happens for an input not in the file system |
| StreamingHost.ChoiceAvoidsInput | wandarr/streaminghost.py:72-84 | without overwrite, an existing input is never chosen and never refused: the job goes elsewhere or is skipped as existing |
| StreamingHost.FirstFreeCandidateChosen | wandarr/streaminghost.py:72-84 | when candidates `0..k-1` exist and `k` does not (and no skip applies), candidate `k` is chosen, or refused if it is the input |
| StreamingHost.OverwriteTargetsInput | wandarr/streaminghost.py:58-68 | in overwrite mode, with no output folder and the input's own extension, the output path is the input path |
| StreamingHost.EncoderArgsLayout | wandarr/streaminghost.py:93-96 | `-y` first, then the input options, `-i` and the remote input, the video, output and stream-map options, and the remote output last |
| StreamingHost.WindowsRemotePathHasNoSlash | wandarr/streaminghost.py:191-197 | the Windows form of the remote path has no `/` left |
| StreamingHost.DurationSeconds | wandarr/streaminghost.py:166-169 | `timedelta.seconds` is below a day, and equals the elapsed seconds when they are below a day |
| StreamingHost.FinishRejected | wandarr/streaminghost.py:162-168 | a rejected result records completion first and removes the retrieved copy; nothing is moved and the remote temporary is not deleted |
| StreamingHost.FinishAccepted | wandarr/streaminghost.py:169-199 | an accepted result records completion first; it is moved to the output path exactly when metadata copying succeeded or was off, and only then is the remote temporary deleted |
| StreamingHost.FinishFailed | wandarr/streaminghost.py:186-199 | a failed retrieval completes nothing, moves nothing, and deletes the remote temporary; a filter dividing by zero crashes the job before any completion |
| StreamingHost.SkipExistingNoTransfer | wandarr/streaminghost.py:67-76 | a skipped existing output makes the job's whole effect list the folder creation (only when the folder is set and missing) followed by the skip: no status, copy, encode, retrieval, completion, move or remote delete |
| StreamingHost.CopyFailureDecided | wandarr/streaminghost.py:123-128 | after a failed rsync, a decided job leaves the file system unchanged and logs only status, copy and skip reasons |
| StreamingHost.CopyFailureSkipsJob | wandarr/streaminghost.py:123-128 | a failed rsync means no encode, retrieval, completion, move or remote delete |
| StreamingHost.EncoderCodeIgnored | wandarr/streaminghost.py:140-156 | the encoder's exit code never changes what the worker does, because scp's code overwrites it |
| StreamingHost.TransferMovesOnlyTo | wandarr/streaminghost.py:115-184 | the only move a transfer makes is onto the chosen output path |
| StreamingHost.DecidedAvoidsInput | wandarr/streaminghost.py:72-84 | without overwrite and with an existing input, a decided job neither refuses nor moves onto the input |
| StreamingHost.InputNeverClobbered | wandarr/streaminghost.py:58-184 | without overwrite, an existing input is never the target of a move and never refused |
| StreamingHost.RunJobHasNoTaskDone | wandarr/streaminghost.py:43-199 | a job's own effects contain no `task_done` |
| StreamingHost.AcknowledgedCount | wandarr/streaminghost.py:201-204 | acknowledging a job adds exactly one `task_done` |
| StreamingHost.OneTaskDonePerJob | wandarr/streaminghost.py:40-204 | draining the queue logs exactly one `task_done` per dequeued job, and the last effect is a `task_done` |
| StreamingHost.StreamingManagedHost.PickOutPath | wandarr/streaminghost.py:67-84 | the loop that bumps the suffix computes the output-path decision |
| StreamingHost.StreamingManagedHost.FinishJob | wandarr/streaminghost.py:151-199 | the log grows by the outcome handling's effects and the file system becomes what it leaves |
| StreamingHost.StreamingManagedHost.TransferJob | wandarr/streaminghost.py:112-199 | the log grows by copy-in, encode, retrieval and outcome handling, and the file system follows |
| StreamingHost.StreamingManagedHost.PrepareOutFolder | wandarr/streaminghost.py:59-65 | a set but missing output folder is created and logged |
| StreamingHost.StreamingManagedHost.Dispatch | wandarr/streaminghost.py:67-128 | a stop reason is logged alone; otherwise the transfer runs |
| StreamingHost.StreamingManagedHost.ProcessJob | wandarr/streaminghost.py:42-199 | one iteration up to `task_done`: the log and file system follow the job's specification |
| StreamingHost.StreamingManagedHost.Step | wandarr/streaminghost.py:40-204 | taking the head job, processing and acknowledging it leaves the rest of the loop's specification to do |
| StreamingHost.StreamingManagedHost.Go | wandarr/streaminghost.py:32-204 | the queue ends empty, and the log and file system are the whole loop's specification |
| Transcode.SetupHostOverride | wandarr/transcode.py:93-105 | the in-place loops leave exactly the overridden host map and touch nothing else of the configuration |
| Transcode.LocalOnlyDisablesNonLocal | wandarr/transcode.py:94-98 | with `-l`, a host ends disabled exactly when it is not `local` or was disabled already; local hosts are untouched, other settings kept, no host added or removed, and `--hosts` ignored |
| Transcode.OverrideDisablesUnlisted | wandarr/transcode.py:100-105 | with `--hosts`, a host ends disabled exactly when its name is not in the comma-split list or it was disabled already; listed hosts are left exactly as they were |
| Transcode.UnknownNamesIgnored | wandarr/transcode.py:103-105 | names in the list that are not hosts make no difference |
| Transcode.OverrideOfJoinedNames | wandarr/transcode.py:100-105 | for comma-free names, `--hosts a,b,…` keeps exactly the named hosts and disables every other one |
| Transcode.NoOverrideUnchanged | wandarr/transcode.py:93-105 | with neither option the host map is unchanged |
| Transcode.HostOverrideIdempotent | wandarr/transcode.py:93-105 | applying the override a second time changes nothing |
| Transcode.ExpandAppend | wandarr/transcode.py:75-80 | expanding two argument lists one after the other appends their expansions |
| Transcode.ExpandMembership | wandarr/transcode.py:75-80 | a path is in the expansion exactly when some argument's pattern matches it |
| Transcode.FinalizeFiles | wandarr/transcode.py:70-90 | the nested loops and the `extend` compute nothing-to-do, or the expansions in argument order followed by the from-file entries |
| Transcode.FinalizedFilesContents | wandarr/transcode.py:70-90 | nothing to do exactly when there are no arguments and no from-file; otherwise a path is listed exactly when a pattern matched it or the from-file holds it |
| Transcode.SkipExistingRule | wandarr/transcode.py:124-133 | skip-existing ends on exactly when neither `--no_skip_existing` nor overwrite-source is given |
| Transcode.ShowInfoForcesDryRun | wandarr/transcode.py:135-137 | `-i` forces a dry run and never serves as agent, reaches the cluster or fails on the template; it exits 0 unless exiftool is missing |
| Transcode.CopyMetadataRule | wandarr/transcode.py:128-156 | metadata copying ends on exactly when `--no-metadata` is absent or, once the configuration is read, its `metadata` setting asks for it; then the exiftool probe is never run |
| Transcode.StartExits | wandarr/transcode.py:139-172 | the exits in source order: exiftool missing (1), agent mode (0), `-t ?` listing the templates (0), no files (0), and a missing template (1) only after show-info; each condition stated as an if-and-only-if |
| Transcode.StartHandsOnFiles | wandarr/transcode.py:163-174 | the files shown or handed to the cluster are exactly the finalized list |
| Transcode.HostsTouchedAfterFiles | wandarr/transcode.py:158-164 | the host map changes only after the agent and template checks, and only with a non-empty file list |
| Transcode.Globals.ParseFlags | wandarr/transcode.py:122-137 | the step-by-step assignments leave the flags read from the arguments, with overwrite clearing skip-existing and show-info forcing a dry run and dropping agent mode |
| Transcode.Globals.ReadConfig | wandarr/transcode.py:151-156 | `--console` turns rich output off, and the configuration's `metadata` setting turns copying on |
| Transcode.Globals.Start | wandarr/transcode.py:116-177 | the flags, the stop, the host map and the console flag are those of the specification functions; the statistics rows are produced only after a cluster run that completed something outside a dry run, one per completed job |
| Transcode.Proceed | wandarr/transcode.py:158-177 | from `-t ?` on, the stop and the host map follow the specification; no rows except after a cluster run |
| Transcode.Launch | wandarr/transcode.py:166-177 | show-info, a missing template, or the cluster, with the statistics rows of a non-empty completed list |
| Strings.UnescapeEscapeSpaces | wandarr/streaminghost.py:49 | unescaping undoes a shell's escaping of spaces for every file name |
| Strings.JoinSplit | wandarr/streaminghost.py:56 | splitting on a character and joining with it again gives the string back |
| Strings.SplitJoin | wandarr/transcode.py:102 | joining separator-free names and splitting again gives the names back |
| Strings.Split | wandarr/transcode.py:102 | `split` gives at least one part and no part holds the separator |
| Strings.ReplaceRemovesChar | wandarr/streaminghost.py:192 | replacing every `/` by `\` leaves no `/` |
| Strings.RJust | wandarr/utils.py:81 | `rjust` gives the longer of the width and the length, ends with the string, and pads with spaces only |
| Numbers.TruncDivBounds | wandarr/utils.py:50 | `int(a / b)` has the largest magnitude `m` with `m*|b| <= |a|`, and the sign of the exact quotient |
| Numbers.TruncDivMonotone | wandarr/utils.py:60 | truncating division by a positive divisor is monotone in the dividend |
| Numbers.ParseIntToString | wandarr/media.py:226 | `int(str(i)) == i` for every integer |
| Numbers.ParseTruncatedDecimalOfNat | wandarr/media.py:213 | `int(float(s))` of a non-negative decimal, with or without a fraction, gives its whole part |
| Paths.DirnameBasenameJoin | wandarr/streaminghost.py:58-68 | joining a path's directory and base names rebuilds the path |
| Paths.BasenameOfJoin | wandarr/streaminghost.py:55-57 | joining a separator-free name onto a directory keeps it as the base name |
| Paths.PathJoinInjective | wandarr/streaminghost.py:79 | joining one directory with names starting alike is injective |
| Paths.Basename | wandarr/streaminghost.py:55 | the base name has no `/` and is a suffix of the path |
| Paths.PathJoin | wandarr/streaminghost.py:55 | an absolute second part replaces the first; otherwise the result ends with the second part |

## Left out

- Subprocesses and the network: `run`, `run_process`, ssh, rsync, the remote encoder, scp and exiftool, including the exiftool availability probe. Each is an exit code or a boolean given as input. The remote delete is an effect carrying its command text, and its own exit code is not looked at, as in the source.
- Threads and the shared queue: the queue is a sequence consumed by one worker. Status messages and log lines are effects in a ghost log, and their text other than paths and arguments is not modelled. Other workers draining the same queue are not modelled.
- Floating point: file sizes in megabytes, `float(duration)` and `calculate_progress`'s `filesize_mb` are integers (whole megabytes, times 1,024,000 for bytes). `os.path.getsize` is an input.
- Utils.CalculateProgress: does not model `pct_done / 100.0` as a float product; the source bytes are `int(filesize*pct_done/100)` in exact integer arithmetic, which can differ from the float result in the last unit.
- Utils.PctDone: computes `int(time / runtime * 100)` exactly, as `time*100` divided by the runtime truncated toward zero. The source's double arithmetic can land just below a whole number and truncate one lower: time 29 with runtime 100 gives 28 in the source and 29 here (likewise 57/100, 58/100 and 29/50). The `pct_dest` quotient `int(size / pct_source * 100)` (wandarr/utils.py:58) is exact in the same way and can differ by one for the same reason.
- Utils.DumpStats: requires a dry run or a non-empty list. `max` of an empty list raises ValueError, and the only caller checks `len(completed) > 0`. Printing is left out; the rows stand for the printed lines.
- Media.ParseJsonVideo: takes the file size in whole megabytes as input, where the source divides `getsize` by 2^20 as a float.
- `parse_ffmpeg_details` (wandarr/media.py:189-198) is not modelled as a working path:
  - line 195 stores a one-element tuple as the audio list (a stray comma);
  - a failed video match makes line 195 index `None`.
- `_parse_regex_video` (wandarr/media.py:161-186): the regex engine is not modelled. Only its runtime formula is (`Media.RegexRuntime`, `Media.DurationTagMatchesRegexRuntime`). The audio and subtitle parsers start from the match groups.
- Media.TagValue: takes the value of the first tag with a given name. The prober's JSON is decoded by `json.loads`, which keeps the last of duplicate keys; the prober does not emit duplicate tag names.
- Numbers.ParseInt: accepts an optional sign and decimal digits only. Python's `int(str)` also accepts surrounding whitespace and `_` digit separators, none of which appear in the prober output or in text the model itself produces.
- The remote input copy: wandarr/streaminghost.py:193-196 converts `remote_in_path` for Windows but never deletes it; only the remote output is removed, and the model does the same (no effect names the remote input after the encode).
- `MediaInfo.__str__` and `show_info` (wandarr/media.py:63-132): console rendering only.
- The `code is None` branch (wandarr/streaminghost.py:156-160) is dead, because scp's integer exit code has replaced the encoder's. The model follows the code as written (`StreamingHost.EncoderCodeIgnored`).
- Exceptions inside a job: only those the modelled code raises appear, as a `Crash` effect. Only ZeroDivisionError is possible, from the savings filter on an empty original. Exceptions from the omitted modules are not modelled.
- `os.path.exists` on the output folder and on candidate names is membership in the modelled file system. Paths are POSIX: Windows hosts affect only the rsync target and the remote delete command.
- Argparse, signal handling, agent serving, configuration loading and `files_from_file` are inputs:
  - `Args` holds the parsed arguments;
  - `ConfigFile` is the loaded configuration;
  - the from-file's lines and `glob.glob` are given;
  - an absent `--output_path`, `--from-file` or `-t` is the empty string, since only their truthiness is used.
- Transcode.Launch: the hand-off to `manage_cluster` is the `Cluster` stop. The completed list it returns is an input, and the template list that `-t ?` prints is the list of names, not the printed line.
- Modules not shown (`cluster`, `ffmpeg`, `template`, `config`, `agent`, `base`):
  - a template is its name, extension, threshold and option lists;
  - `converted_path` is a given function;
  - `map_streams` is part of the job's given outcome.
- Host settings are string-to-string maps. Only `type` and `status` are read or written.
- The dictionaries the source mutates in place (`minfo`, each host's settings) are values: the map or record is updated and returned, so aliasing between them is not modelled.
