# Kiosk media-player agent — a Dafny model

The agent in `main.go` runs on a single-board computer that drives a screen.
Its job is a loop of five steps:

- It checks in with a control plane, identified by its MAC address, and keeps the token it gets back in `.jwt`.
- It syncs its media directory with the manifest the server publishes. The sync runs once as soon as a token first appears, and again at 04:00 on each calendar date.
- Each sync stops the running playback and fetches the manifest.
- It then deletes files whose id left the manifest and downloads every item with a URL.
- Last, it writes an ffmpeg concat list and starts `ffmpeg` piped into `mplayer` or `mpv`.

This project models the agent's decision and transformation rules and proves properties of them.

The model treats the outside world as values:
- The network appears as HTTP outcomes, and each download as one outcome per item.
- The media directory is a listing sorted by name.
- The token file is an optional string and the clock is a reading per pass.
- The environment and the set of existing paths are a `Host`.
- Child processes are handles recorded in an event log.

Modules follow the program's parts:

| module | file | models |
|---|---|---|
| `Text` | text.dfy | the `strings` functions the agent uses (ToLower, TrimSpace, TrimRight, Split, Fields, `<`) |
| `Naming` | naming.dfy | `fileID`, `extFromURL`, `filepath.Ext`, the stem, the video-suffix test |
| `ControlPlane` | control_plane.dfy | `checkIn`, `fetchMedia`, the check-in worker, `loadJWT`/`saveJWT` |
| `Cache` | cache.dfy | `cleanupByIDs`, `downloadMedia`, `listVideoFiles` on a `Listing` |
| `Playlist` | playlist.dfy | the `.concat.txt` builder and a reader under the quote-doubling convention it is written with |
| `Environment` | environment.dfy | `getEnv`, `mplayerVideoOutput`, `mplayerDisplay`, `xauthPath`, the player's environment |
| `Display` | display.dfy | `setDisplayResolution1280x720` as the xrandr commands it runs |
| `Playback` | playback.dfy | the ffmpeg and player command lines |
| `Framebuffer` | framebuffer.dfy | `fbClear`'s size guard, int64 arithmetic and chunked write loop |
| `Identity` | identity.dfy | `macAddressString` |
| `Scheduler` | scheduler.dfy | the decision half of `main`'s loop (`initialSyncDone`, `lastRunDate`) |
| `Agent` | agent.dfy | `stopPlayback`, `syncAndPlay`, `runConcatPlayback`, the playback worker and the loop, as the class `MediaAgent` |

In `Agent`, the closure state of `main` is the class `MediaAgent`. Its fields are:
- `files`, the media directory;
- `concatList`, the text last written to `.concat.txt` (whether the file is still there is recorded in `files`; every cleanup deletes it);
- `ffmpegCmd` and `playerCmd`, the process handles;
- `playCancel`, whether a cancel function is held;
- `nextPid` and `events`, the log of blanking, xrandr runs, starts and kills.

Each method is proved against a function on the state value `World`. The properties of the cycle are lemmas about those functions:
- `SyncSpec` for `SyncAndPlay`;
- `StopSpec` for `StopPlayback`;
- `LaunchSpec` and `StartSpec` for `RunConcatPlayback`;
- `PlayerExitedSpec` for the worker's code after `Wait`.

The invariant `WorldValid` holds through every method. It says:
- the listing stays sorted;
- the two handles are both set or both unset, and name running processes;
- no event names a pid not yet handed out.

The loop `MediaAgent.Run` keeps `initialSyncDone` and `lastRunDate` as its own variables, as `main` does. Its passes are exactly `Scheduler.Triggers`.

## Model

| member | source | states |
|---|---|---|
| Text.ToLowerAppend | main.go:356 | lower-casing a concatenation is the concatenation of the lower-cased parts |
| Text.TrimRight | main.go:240 | the result is a prefix of the input that does not end in the trimmed rune, and only that rune was dropped |
| Text.TrimLeftSpace | main.go:250 | the result is a suffix that does not start with a space, and only spaces were dropped |
| Text.TrimRightSpace | main.go:250 | the result is a prefix that does not end with a space, and only spaces were dropped |
| Text.Lines | main.go:451 | `strings.Split(s, "\n")` gives at least one line, no line holds a newline, and the lines joined by newlines are s again |
| Text.FirstField | main.go:453-455 | the first field of a line contains no space, and it is empty exactly when the line is all white space |
| Text.FirstFieldIsFirstRun | main.go:453-455 | for a line made of white space, a non-empty run without white space, and then nothing or white space, the first field is that run |
| Text.BelowIrreflexive | main.go:544 | the name order of `os.ReadDir` is irreflexive |
| Text.BelowTransitive | main.go:544 | the name order is transitive |
| Text.BelowTotal | main.go:544 | any two distinct names are ordered one way or the other |
| Text.BelowAsymmetric | main.go:544 | the name order is asymmetric |
| Text.Decimal | main.go:612 | `fmt.Sprint` of a uid is a non-empty string of decimal digits that denotes the uid, with no leading zero |
| Naming.FileIdOf | main.go:322-336 | `fileID` is never empty, holds only `[A-Za-z0-9-_]`, and has the input's rune count for a non-empty id |
| Naming.FileID | main.go:322-336 | the builder loop returns exactly `FileIdOf(id)`: each rune kept when safe, `_` otherwise, "media" for an empty result |
| Naming.FileIdRune | main.go:325-329 | rune i of the result is rune i of the id when it is safe and `_` otherwise |
| Naming.FileIdKeepsSafeNames | main.go:322-336 | a non-empty id of safe runes is its own fileID |
| Naming.FileIdIdempotent | main.go:322-336 | `fileID(fileID(x)) == fileID(x)` |
| Naming.FirstOccurring | main.go:357-362 | the scan returns one of the candidates or the default |
| Naming.ExtFromURL | main.go:355-363 | `extFromURL` always returns one of `.mkv`, `.mp4`, `.avi`, `.webm` |
| Naming.ExtFromURLFirstMatch | main.go:355-363 | it returns extension k exactly when k is the first of the list to occur in the lower-cased URL, or when none occurs and k is `.mp4` |
| Naming.Ext | main.go:553 | `filepath.Ext` is a suffix of the name that is empty or starts at the last `.` with no `.` or `/` after it |
| Naming.Stem | main.go:554 | the stem is a prefix of the name, and StemThenExt says which: the one the extension completes |
| Naming.StemThenExt | main.go:554 | the stem followed by `filepath.Ext` of the name is the name again |
| Naming.ExtOfSuffix | main.go:553 | a name ending in a well-formed extension has exactly that extension |
| Naming.StemOfTargetName | main.go:552-554 | a downloaded file's extension is `extFromURL(url)` and its stem is `fileID(id)`, so cleanup keeps it while the id is listed |
| Naming.TargetNameIsVideo | main.go:757-759 | every name downloadMedia writes passes listVideoFiles' suffix test |
| ControlPlane.CheckIn | main.go:265-293 | empty MAC is an error; success exactly for 401 (as "") or for 200/201 with a decodable body; a non-empty token comes only from 200/201; any other status is an error with the body |
| ControlPlane.FetchMedia | main.go:295-319 | items exactly for 200 with a decodable body, and they are the decoded list; 401 is "token invalid"; other statuses are errors with the body |
| ControlPlane.CheckInActions | main.go:78-93 | the worker saves a token exactly for 200/201 with a non-empty accessToken; it reports "awaiting group" exactly for 401 or 200/201 with an empty accessToken |
| ControlPlane.WriteFile | main.go:253-255 | `os.WriteFile`, as saveJWT calls it, leaves the whole token when it succeeds, the old file when its open fails, and a prefix of the token when a write or the close fails after the truncating open |
| ControlPlane.CheckInFile | main.go:78-93 | the token file is written only for a 200/201 check-in with a non-empty accessToken; then it holds the token, is unchanged (open failed) or holds a prefix of the token (later failure); every other outcome leaves it alone |
| ControlPlane.FailedSaveHidesToken | main.go:245-255 | a save that fails before writing anything empties the file, so the loop then reads no token |
| ControlPlane.TrimSpaceEmpty | main.go:250 | a token file reads as "" exactly when all of it is white space |
| ControlPlane.SavedTokenVisible | main.go:250-254 | a saved token is seen by the loop exactly when it holds a non-space rune |
| ControlPlane.TrimmedEnds | main.go:250 | a string with non-space ends is its own TrimSpace |
| ControlPlane.LoadIsTrimmed | main.go:245-251 | the loaded token is already trimmed |
| Cache.OrderedNamesDistinct | main.go:544 | a sorted listing has distinct names |
| Cache.Insert | main.go:380 | creating a file adds exactly that entry, and the listing grows by one |
| Cache.InsertOrdered | main.go:380 | a new name is placed so that the listing stays sorted |
| Cache.StoreMembers | main.go:380 | `os.Create` adds the file when its name is new, changes no directory, and leaves the name present |
| Cache.StoreFacts | main.go:380 | as StoreMembers, and the listing stays sorted |
| Cache.RemoveAbsent | main.go:559 | removing a name that is not there changes nothing |
| Cache.RemoveAppend | main.go:559 | removal by name distributes over concatenation |
| Cache.SurvivorsSnoc | main.go:548-561 | the surviving entries of a listing extended by one entry |
| Cache.SurvivorsExact | main.go:543-562 | cleanupByIDs keeps an entry exactly when it is not a file with a non-empty stem outside keepIDs: directories, empty stems and kept stems, whatever their extension, stay |
| Cache.SurvivorsOrdered | main.go:543-562 | cleanup keeps the listing sorted |
| Cache.NameUnique | main.go:548-559 | the entry being visited shares its name with no survivor before it and no entry after it |
| Cache.CleanupStep | main.go:548-561 | one iteration removes the visited entry when it is doomed and changes nothing else |
| Cache.StepOnPieces | main.go:548-561 | CleanupStep on the entries before, at and after the visited one |
| Cache.RemoveMiddle | main.go:559 | removing a name only the middle entry has removes just that entry |
| Cache.CleanupByIDs | main.go:543-562 | the loop over the ReadDir snapshot leaves exactly `Survivors(files, keep)` |
| Cache.AfterDownloadsFacts | main.go:338-353 | downloads keep the listing sorted and change no directory |
| Cache.DownloadMedia | main.go:338-353 | the loop returns `DownloadedPaths` and leaves `AfterDownloads`, a sorted listing, and its error is always nil |
| Cache.DeliversPrefix | main.go:339-351 | an item of a prefix of the manifest succeeds exactly as it does in the whole manifest |
| Cache.DownloadedPathsMembers | main.go:338-353 | a path is returned exactly when some item with a URL was fully downloaded into `dir/fileID(id)+extFromURL(url)` |
| Cache.DownloadedPathsOutcomes | main.go:339-351 | the returned paths depend only on the outcomes of the manifest's own items |
| Cache.FetchAtDrop | main.go:339-351 | outcomes after a dropped item shift down by one |
| Cache.FailedItemOmitted | main.go:345-348 | a failed item is only missing from the result; the later items are handled as if it had not been listed |
| Cache.CreatesPrefix | main.go:339-351 | an item of a prefix of the manifest lands exactly as it does in the whole manifest |
| Cache.AfterDownloadsDirs | main.go:380 | downloads never create or remove a directory |
| Cache.AfterDownloadsGrows | main.go:338-353 | downloads never remove an entry |
| Cache.AfterDownloadsNew | main.go:380 | an entry added by downloads is a file named after a landed item whose name was free |
| Cache.StoredFile | main.go:380 | creating a name that no directory holds leaves a file of that name |
| Cache.AfterDownloadsKeeps | main.go:339-351 | one more item never removes an entry |
| Cache.LandedLast | main.go:380 | the last item, when it lands, leaves its file |
| Cache.LandedIsPresent | main.go:338-353 | every item whose file was created is present as a file afterwards, partial or whole |
| Cache.AfterDownloadsMembers | main.go:338-353 | after downloads the directory holds the old entries plus one new file for each landed item whose name was new |
| Cache.NoUnknownStems | main.go:143-149 | after cleanup and downloads every file with a non-empty stem has the stem of a manifest id |
| Cache.ReconcileKeepsDirs | main.go:147-149 | cleanup and downloads never touch a directory |
| Cache.SurvivorsUnchanged | main.go:543-562 | cleanup of a directory without doomed files changes nothing |
| Cache.AfterDownloadsStable | main.go:338-353 | downloads whose names all exist already leave the listing as it is |
| Cache.ReconcileIdempotent | main.go:143-149 | reconciling again with the same manifest and outcomes leaves the directory as the first run left it |
| Cache.ListVideoFiles | main.go:747-764 | the loop returns exactly `VideoPaths`: non-directories whose lower-cased name ends in a video extension, in listing order |
| Cache.VideoPathsMembers | main.go:747-764 | a path is listed exactly when it is `dir/name` of a non-directory entry with a video name |
| Cache.DownloadedAreListed | main.go:747-764 | every path downloadMedia reports is then played by listVideoFiles |
| Playlist.Escape | main.go:637 | doubling quotes never shortens the path |
| Playlist.ConcatTextSnoc | main.go:635-641 | one more path adds its line at the end |
| Playlist.BuildConcatList | main.go:634-641 | the builder loop produces one `file '<escaped>'\n` line per path, in order |
| Playlist.ParseQuoted | main.go:637-640 | reading a quoted body consumes input |
| Playlist.ParseEscaped | main.go:637-640 | undoing the doubling recovers the path and stops right after the closing quote |
| Playlist.ConcatRoundTrip | main.go:633-641 | read with `''` inside quotes taken as one quote, the convention the builder's comment states, the list yields exactly the paths, in order, whatever quotes they hold |
| Playlist.ConcatInjective | main.go:633-641 | distinct path lists give distinct files |
| Playlist.CountNewlinesAppend | main.go:640 | newline counts add over concatenation |
| Playlist.EscapeHasNoNewlines | main.go:637 | escaping adds no newline |
| Playlist.ConcatLineCount | main.go:633-641 | a list of newline-free paths has exactly one line per path |
| Environment.LookupFirst | main.go:239 | `os.Getenv` takes the first `key=` entry, and finds none only when there is none |
| Environment.GetEnvCases | main.go:238-243 | `getEnv` gives the default exactly when the variable is empty or unset, and otherwise the value without its trailing slashes |
| Environment.GetEnvRootIsEmpty | main.go:238-243 | `MEDIA_DIR=/` yields "" rather than the default |
| Environment.VideoOutput | main.go:567-579 | the chosen video output is never empty |
| Environment.SelectorsAgree | main.go:567-590 | without MPLAYER_VO, x11 is chosen exactly when DISPLAY or WAYLAND_DISPLAY is set or the X socket exists, else fbdev2; a display is known exactly when DISPLAY is set or the socket exists, and then the output is x11 |
| Environment.WaylandOnlyHasNoDisplay | main.go:567-590 | under Wayland alone the player is told x11 but given no display |
| Environment.FirstExisting | main.go:593-624 | the result is "" or an existing candidate |
| Environment.FirstExistingIsFirst | main.go:593-624 | the earliest existing candidate is chosen |
| Environment.FirstExistingNone | main.go:623 | "" when no candidate exists |
| Environment.XauthPathIsFirstExisting | main.go:593-624 | `xauthPath` returns the first existing of XAUTHORITY, /home/$SUDO_USER, /home/user, /run/user/<uid of X0>, lightdm, gdm |
| Environment.WithoutDisplayVars | main.go:689-694 | the filtered environment is the original without its DISPLAY= and XAUTHORITY= entries, in order |
| Environment.WithoutSnoc | main.go:690-694 | the filter over an environment extended by one entry |
| Environment.DropDisplayVars | main.go:688-694 | the filtering loop returns exactly `WithoutDisplayVars(env)` |
| Environment.LookupCons | main.go:239 | the lookup of `key` in a one-entry-longer environment |
| Environment.LookupAppend | main.go:239 | entries without `key=` in front do not change the lookup |
| Environment.PlayerSeesDisplay | main.go:687-699 | the player sees the chosen display as DISPLAY and the found authority file, or none, as XAUTHORITY |
| Display.WithoutPrefix | main.go:435-440 | the filtered environment holds exactly the entries without the prefix |
| Display.WithoutPrefixSnoc | main.go:436-440 | the filter over an environment extended by one entry |
| Display.WithoutPrefixStep | main.go:436-440 | one iteration of the filtering loop |
| Display.XrandrEnvironment | main.go:433-442 | the environment-building loop returns exactly `XrandrEnv(host)` |
| Display.XrandrSeesDisplay | main.go:433-442 | xrandr always sees the chosen display as DISPLAY |
| Display.ConnectedOutput | main.go:450-459 | the scan returns the first field of the first line containing " connected", or "" |
| Display.ContainsNonSpace | main.go:452 | a line containing " connected" has a non-space rune |
| Display.FirstFieldOfNonBlank | main.go:453 | a line with a non-space rune has a first field |
| Display.ConnectedLineHasField | main.go:452-454 | the `len(fields) >= 1` test never fails on a " connected" line |
| Display.FirstConnectedFound | main.go:450-462 | an output name is found exactly when some line contains " connected" |
| Display.TriedModesStopAtFirst | main.go:468 | the modes tried are a prefix of the list that stops at the first accepted mode, or the whole list |
| Display.ModeCommands | main.go:463-467 | one `xrandr --output <name> --mode <m>` per tried mode, in order |
| Display.SetDisplayResolution | main.go:428-471 | the function runs exactly `ResolutionCommands` |
| Display.TryModes | main.go:463-468 | the `||` chain runs the mode switches up to the first that succeeds |
| Display.ResolutionPlan | main.go:428-471 | nothing runs without a display; otherwise the query runs first under the chosen DISPLAY, at most three switches follow, and each names the connected output |
| Playback.FfmpegCommand | main.go:647-652 | ffmpeg reads the concat list and writes to stdout with the agent's environment |
| Playback.PipelineJoins | main.go:647-721 | ffmpeg writes to "-" and both players read "-" |
| Playback.FullscreenOnlyUnderX11 | main.go:673-720 | the full-screen flag is added exactly under x11, at its fixed place |
| Playback.OutputsPassed | main.go:667-712 | mpv gets the output with fbdev2 turned into drm; mplayer gets it unchanged with the ALSA device |
| Playback.MpvIgnoresAudioDevice | main.go:665-711 | mpv's arguments do not depend on MPLAYER_AUDIO_DEVICE, mplayer's do |
| Playback.PlayerEnvironment | main.go:687-737 | the player gets its own environment exactly under x11 with a known display, and then sees that display |
| Framebuffer.Wrap64 | main.go:520 | int64 wrap-around is the identity in range and congruent modulo 2^64 |
| Framebuffer.Quot | main.go:520 | Go's integer division truncates toward zero |
| Framebuffer.ClearSize | main.go:517-523 | the size fbClear goes on to write lies in [0, 64 MiB] |
| Framebuffer.ChunksCover | main.go:529-539 | the writes sum to the size, each is between 1 byte and 256 KiB, all but the last are full, and there are ceil(size/256 KiB) of them |
| Framebuffer.ChunkStep | main.go:532-535 | one iteration writes a full chunk or the remainder |
| Framebuffer.FbClear | main.go:517-539 | fbClear issues exactly `Writes(...)`: nothing when a guard fails or the device does not open |
| Framebuffer.WriteZeros | main.go:529-539 | the `written` loop issues exactly the chunks up to and including the first failed write |
| Framebuffer.WritesOnlyWhenGuarded | main.go:517-527 | something is written exactly when w, h, bpp > 0, the wrapped size lies in (0, 64 MiB] and the device opens |
| Framebuffer.WritesCoverFrame | main.go:529-539 | without a failure the writes zero exactly the frame size, in writes of at most 256 KiB |
| Framebuffer.FailureStopsEarly | main.go:536-538 | a failed write ends the loop: the writes are a prefix of the full run ending with the failed one |
| Framebuffer.FrameBytesExact | main.go:520-523 | when the product fits in int64 the size is w·h·(bpp/8) and the guard is the plain range test |
| Framebuffer.FrameBytesWraps | main.go:520 | a 2^62+1 by 4 frame at 8 bpp wraps to 4 bytes |
| Identity.Hex2 | main.go:233 | `%02X` gives two characters |
| Identity.JoinHex | main.go:233 | n bytes give 3n-1 characters |
| Identity.FormatMac | main.go:233 | the address string has 17 characters |
| Identity.MacFromFirstUsable | main.go:228-234 | the address comes from the first non-loopback interface with at least six bytes |
| Identity.NoUsableNoMac | main.go:235 | "" when no interface is usable |
| Identity.HexRoundTrip | main.go:233 | a hex pair reads back as its byte |
| Identity.JoinHexRoundTrip | main.go:233 | the colon-joined pairs read back as the bytes |
| Identity.MacRoundTrip | main.go:233 | the address reads back as the first six bytes, so distinct interfaces give distinct identities |
| Scheduler.DecideCases | main.go:194-218 | a pass runs the initial sync exactly when it sees a token before the first sync; it runs the daily sync exactly when it sees a token after it at 04:00 on a date other than lastRunDate; each records its flag or date |
| Scheduler.OnlyFirstPassWaits | main.go:195-203 | only the first pass re-reads the token after the wait |
| Scheduler.Triggers | main.go:190-219 | one decision per pass |
| Scheduler.TriggersCons | main.go:190-219 | a run is its first pass followed by the rest |
| Scheduler.TriggersFrom | main.go:190-219 | the passes from i on are pass i followed by the rest |
| Scheduler.TriggersStep | main.go:190-219 | one more pass of a run in progress |
| Scheduler.NoSecondInitialSync | main.go:208-213 | once the initial sync has run it never runs again |
| Scheduler.NoInitialStep | main.go:208-213 | one step of NoSecondInitialSync |
| Scheduler.ComesFirstStep | main.go:208-213 | one step of InitialSyncComesFirst |
| Scheduler.InitialSyncComesFirst | main.go:208-218 | every sync of a run that starts before the initial sync is preceded by the initial sync |
| Scheduler.InitialSyncOnce | main.go:208-213 | the initial sync runs at most once in any run |
| Scheduler.NotAfterAntisymmetric | main.go:206 | the date order is antisymmetric |
| Scheduler.NotAfterTransitive | main.go:206 | the date order is transitive |
| Scheduler.TailFacts | main.go:214-215 | the date-order facts carry over to the rest of a run |
| Scheduler.DecideBeforeInitial | main.go:208-213 | before the initial sync a pass runs it or changes nothing |
| Scheduler.DailyAvoidsLastDate | main.go:214-215 | while the clock does not go backwards no daily sync repeats the date recorded before the run |
| Scheduler.DailyStep | main.go:214-217 | one step of DailyOncePerDate |
| Scheduler.DailyOncePerDate | main.go:214-217 | while the clock does not go backwards two daily syncs never share a date |
| Scheduler.DailyOncePerDateFromBoot | main.go:190-219 | from boot, while the clock does not go backwards, the 04:00 sync runs at most once per calendar date |
| Scheduler.RunStep | main.go:190-219 | a run is its first pass followed by the rest from the state that pass leaves |
| Scheduler.ClockBackRepeatsDate | main.go:214-218 | with the clock set back, passes at 04:00 on d1, d1, d2, d1 run the initial sync and then three daily syncs, two of them on d1 |
| Scheduler.NoRetryBefore4AM | main.go:208-218 | once the initial sync has run, whatever its outcome, a pass syncs only as a daily sync at 04:00, so a failed first sync waits for the next 04:00 |
| Agent.RanAll | main.go:159 | one event per xrandr command, in order |
| Agent.StopKillsAll | main.go:108-124 | stopPlayback kills what was running, clears both handles and the cancel function, leaves the directory alone, only appends to the log and ends with blanking |
| Agent.NoTokenNoSync | main.go:127-130 | without a token syncAndPlay changes nothing |
| Agent.FetchFailureStopsPlayback | main.go:132-137 | a failed manifest fetch still leaves playback stopped, with the directory as it was |
| Agent.EmptyManifestKeepsFiles | main.go:139-142 | an empty manifest returns before cleanup: no file deleted, playback stopped |
| Agent.SyncDirectory | main.go:143-171 | after a sync with a non-empty manifest the directory is the reconciled one, plus `.concat.txt` when it was written |
| Agent.ConcatListIsDoomed | main.go:548-561 | `.concat.txt` never has a kept id, so every cleanup deletes it |
| Agent.SyncKeepsOnlyManifestFiles | main.go:143-171 | after a sync every file with a non-empty stem, other than the concat list, belongs to a current manifest id |
| Agent.DownloadedMeansVideos | main.go:149-157 | a sync that downloaded something finds video files to play |
| Agent.ReachesLaunch | main.go:126-171 | such a sync reaches runConcatPlayback with the reconciled directory and the same directories as before |
| Agent.PipelineIffAllSucceed | main.go:126-184 | after a sync a pipeline runs exactly when every step succeeded, or when there was no token and the old one still runs |
| Agent.PlayerFailureKillsMuxer | main.go:701-705 | when the player does not start, the ffmpeg just started is killed at once and no handle is left |
| Agent.PipelinePlaysDownloads | main.go:629-641 | the list written for a running pipeline, read under the quote-doubling convention, is the directory's video files, which include every file downloaded in this sync |
| Agent.StopValid | main.go:108-124 | stopPlayback keeps the invariant |
| Agent.PrepareValid | main.go:159-162 | the steps before the worker keep the invariant |
| Agent.LaunchValid | main.go:628-745 | runConcatPlayback keeps the invariant |
| Agent.LaunchOutcome | main.go:628-745 | runConcatPlayback adds at most `.concat.txt` to the directory, and leaves a pipeline exactly when there are videos, the list is written whole and both processes start |
| Agent.PartialListStartsNothing | main.go:642-645 | a list write that fails after the truncating open leaves `.concat.txt` holding a prefix of the list, possibly empty, and starts no process |
| Agent.StartValid | main.go:647-745 | starting the pipeline keeps the invariant: both handles or neither, both running |
| Agent.FetchStageValid | main.go:133-171 | the rest of syncAndPlay keeps the invariant |
| Agent.SyncValid | main.go:126-184 | syncAndPlay keeps the invariant |
| Agent.PlayerExitedValid | main.go:176-182 | the worker after Wait kills ffmpeg, clears both handles and keeps the invariant |
| Agent.FollowsSnoc | main.go:190-219 | a trace of the loop extended by one pass |
| Agent.QuietStep | main.go:190-219 | "no pass has synced" extended by one pass |
| Agent.BootValid | main.go:101-106 | the fresh agent satisfies the invariant |
| Agent.MediaAgent.constructor | main.go:101-106 | the agent starts with nothing running and no cancel function |
| Agent.MediaAgent.StopPlayback | main.go:108-124 | the new state is `StopSpec` of the old |
| Agent.MediaAgent.RunConcatPlayback | main.go:628-745 | returns the two handles `LaunchSpec` assigns, writing the list (whole, not at all, or a prefix after a failed write) and starting processes as it says, and leaves the handle fields alone |
| Agent.MediaAgent.StartPipeline | main.go:647-745 | ffmpeg first; when the player fails, ffmpeg is killed and both results are nil |
| Agent.MediaAgent.KeepIDs | main.go:143-146 | the loop builds exactly the fileIDs of the manifest ids |
| Agent.MediaAgent.SyncAndPlay | main.go:126-184 | the new state is `SyncSpec` of the old, and the invariant is kept |
| Agent.MediaAgent.FetchAndPlay | main.go:133-171 | the state after the fetch is `FetchStage` of the old |
| Agent.MediaAgent.PlayerExited | main.go:176-182 | the new state is `PlayerExitedSpec` of the old, and the invariant is kept |
| Agent.MediaAgent.Run | main.go:190-219 | the passes fire exactly `Scheduler.Triggers` from boot; each triggering pass applies syncAndPlay to the state and an idle pass leaves it alone; a run without a sync changes nothing; the invariant is kept |

## Left out

- HTTP, TLS and JSON are not modelled. A reply is given as its status, its body and the value the decoder produced. The download is one `Fetch` outcome per item: refused, interrupted after `os.Create`, or complete.
- Child processes, pipes, `Wait` and the mutex are left out. Processes are handles in an event log, and `ffmpeg.StdoutPipe` failing is folded into "ffmpeg does not start".
- The context passed to the worker is left out. `playCancel` is held as a boolean.
- The race between a new sync and an old worker's `Wait` return is left out. `MediaAgent.PlayerExited` models the worker's code after `Wait` on its own; `MediaAgent.Run` models the main goroutine only, and player exits are not part of its trace.
- The filesystem is left out:
  - errors of `os.ReadDir` and `os.Remove`;
  - `MkdirAll` and `filepath.Abs` at start-up (the media directory is given as a clean absolute path);
  - whether a path exists is a set of paths in `Host`.
- The clock, the one-minute ticker and the two-second sleep are left out. Each pass gets an `Observation`, holding the hour, the minute, the date string and the two token-file reads.
- Agent.MediaAgent.Run: covers a finite run of passes instead of `main`'s endless loop, so properties of the loop are stated for every finite prefix.
- The check-in worker's ten-minute ticker is left out. One check-in is `ControlPlane.CheckInCycle` on the token file.
- Logging and `fmt` output are left out.
- `clearDisplayBlack`'s tty writes are a single `Blank` event. `fbClear` is modelled on its own in `Framebuffer`, with the sysfs readings already parsed. `fmt.Sscanf` is not part of this model.
- `runStartupChecks` is left out. `exec.LookPath`, the sound-card check and `os.Exit` become the `PlayerKind` in `Config`.
- `net.Interfaces` is an input list of interfaces.
- Strings are sequences of runes, and invalid UTF-8 is not modelled. `strings.ToLower` is modelled for A–Z and the two non-ASCII runes whose lower case is ASCII (U+0130, U+212A), which is all a search for ASCII extensions can see.
- Text.Below: compares runes. This agrees with Go's byte order on valid UTF-8 only.
- The date string is compared as text, as `today != lastRunDate` does (main.go:214). The order `NotAfter` on these strings is only used to say that the clock does not go backwards.
- Scheduler.DailyOncePerDateFromBoot: holds only while the clock does not go backwards (its `DatesNonDecreasing` precondition). The loop remembers only the last date (main.go:214-215), so a clock set back repeats a date's daily sync; `Scheduler.ClockBackRepeatsDate` shows it.
- Scheduler.DailyOncePerDate: assumes the same non-decreasing clock.
- ControlPlane.WriteFile: a failed write keeps a prefix counted in runes; Go keeps a prefix counted in bytes, which can end inside a multi-byte rune.
- ffmpeg's concat demuxer is not part of this model. `Playlist.ParseConcat` reads `''` inside quotes as one quote, which is the convention the builder's comment states (main.go:636); ffmpeg's own reader may not.
- Playlist.ConcatRoundTrip: holds for that convention only. It says nothing about which files ffmpeg opens for a path holding a quote.
- Agent.PipelinePlaysDownloads: reads the list with the same convention, so the same limit applies.

Behaviours of the code worth knowing, each with the lemma that states it:
- A failed manifest fetch leaves playback stopped, because `stopPlayback` runs before `fetchMedia` (main.go:132-133). See `Agent.FetchFailureStopsPlayback`.
- A check-in answered 200/201 with an empty `accessToken` returns `("", nil)` and is reported as "awaiting group" (main.go:288-292, 90-91). See `ControlPlane.CheckInActions`.
- `saveJWT` overwrites the file in place with `os.WriteFile` (main.go:253-255), which truncates before writing. A write that fails after the open leaves the file empty or holding part of the token, and the loop then reads that. See `ControlPlane.CheckInFile` and `ControlPlane.FailedSaveHidesToken`.
- `runConcatPlayback` writes `.concat.txt` with `os.WriteFile` too (main.go:642-645). A write that fails after the open leaves the file empty or partial and starts nothing; the next cleanup deletes it. See `Agent.PartialListStartsNothing`.
- `initialSyncDone` is set before `syncAndPlay` runs and whatever it achieves (main.go:208-211). A first sync that fails is not retried before the next 04:00. See `Scheduler.NoRetryBefore4AM`.
- `MPLAYER_AUDIO_DEVICE` reaches mplayer only. mpv always uses `--ao=alsa` (main.go:673-679). See `Playback.MpvIgnoresAudioDevice`.
- `getEnv` of a value made only of slashes gives "" rather than the default (main.go:239-240). See `Environment.GetEnvRootIsEmpty`.
- `.concat.txt` has the stem ".concat", which no fileID can equal, so every cleanup deletes the previous list (main.go:552-559). See `Agent.ConcatListIsDoomed`.
