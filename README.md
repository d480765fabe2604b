# CardioID logging component, modelled in Dafny

This project models the core of the CardioID logging component for ESP32 (components/CardioIDLogging). It has two sides.

- **Logging.** `cidlogging.c` holds the SD-card sink that ESP-IDF's log output is redirected to, the routine that mounts the card and installs the sink, the level dispatch of `CARDIO_LOG`, and the initialisation entry point. Module `CidLogging` models them. The static state (`log_file`, the installed vprintf hook and the SNTP start) becomes the fields of class `Logger`.
- **Delivery.** `ssh.c` holds the server host-key check, the sweep `sftpClientTest` and the retry loop `SSH_INIT`. The sweep connects to an SFTP server, uploads every regular `*.txt` file of `/sdcard` under a temporary remote name, renames it to its final name and deletes the local copy. `SSH_INIT` repeats the sweep until it returns `NO_ERROR`. Module `Ssh` models them. The filter uses `ENDSWITH` from `utils.c`, modelled in module `Utils` on a C-faithful `strncmp`. The read loop uses `fgets` into a 1024-byte buffer and sends `strlen` bytes of each chunk; module `Fgets` models that.

## How the foreign world is modelled

- Name resolution, every SFTP client call whose result is tested, `opendir` and `remove` are *oracle calls*. Each takes the next entry of an input sequence of outcomes. Once that sequence is used up, every such call succeeds.
- A failing run of `sftpClientTest` therefore always takes up an outcome, which is why the `while (1)` loop of `SSH_INIT` ends.
- The SD card is a `Volume`: the directory listing (name, and whether the entry is a regular file) plus a map from local paths to contents. The local `fopen` succeeds exactly when the map holds the path.
- The local `fopen` and `fgets` are tested too, but they are not oracle calls. The SD card's contents decide them: `fopen` as just said, `fgets` as module `Fgets` describes.
- The calls that matter for delivery are recorded, in order, as an `Event`: the oracle calls and the local `fopen` with their results, the writes, `sftpClientDisconnect`, and the unchecked teardown of `SSH_INIT`. `sftpClientInit`, `fclose`, `closedir` and `sftpClientDeinit` are not recorded; none of them has a result the source looks at.
- The methods are imperative and follow the C control flow. `WriteLocalFile`, `DeliverEntry`, `SftpClientTest` and `SshInit` are each proved equal to a specification function (`Stream`, `Deliver`/`Finalize`, `Sweep`, `TestRun`, `Retry`). Module `SshProperties` proves what those functions guarantee.
- `Logger.PrintToSdCard` is specified through the function `AfterPrint`, whose properties are proved as lemmas. `HostKeyVerifyCallback` and the other `Logger` methods have no such function: their `ensures` state the result and the new state directly.
- The log stream is a stdio `FILE` with its own buffer. vfprintf appends to that buffer. How much of it the stdio layer hands to the file descriptor is an input of each sink call. fsync commits only what the descriptor holds.

## Where this model follows the code rather than the design

The component's design describes the behaviour below. The code does something else in each case, and the model follows the code.

| The design or a source comment says | The code does | Proved by |
|---|---|---|
| A failure on one file moves on to the next file. | Any failure breaks out of the whole `readdir` loop, so later files are not attempted in that run. | `SshProperties.FailureSkipsRemainingEntries` |
| A file is deleted only after the transport confirms it. | A failed chunk write is overwritten by the result of the following close. The upload, possibly truncated, is then still renamed and the local file deleted. | `SshProperties.WriteFailureStillDeletes` |
| The sink's own comment (components/CardioIDLogging/cidlogging.c:67-68) says that syncing on each write ensures no data is lost. | `fsync(fileno(log_file))` commits only what the stdio layer has already handed to the descriptor. Nothing calls `fflush`, so text still in the stream's buffer is not on the card after a successful fsync. | `CidLogging.SyncLeavesBufferedText` |
| Unknown levels map to verbose. | Every level other than 0, 1 and 2 (including 4 and negative levels) is logged at debug, and verbose is never emitted. | `CidLogging.CardioLogDispatch` |

The model also keeps these details of the code:

- A local file that cannot be opened ends the loop, yet `sftpClientTest` still returns `NO_ERROR` (`SshProperties.MissingLocalFileBreaksWithNoError`).
- A failed `remove` is only traced (`SshProperties.RemoveFailureOnlyTraced`).
- A failed `opendir` skips the loop, and the run still returns the connect's `NO_ERROR`.
- `CARDIO_LOGGING_INIT` has its mount call commented out. After it alone, no log file is open and the sink returns -1 (`CidLogging.InitThenPrint`).

## Model

| member | source | states |
|---|---|---|
| Utils.Strncmp | components/CardioIDLogging/utils.c:20 | C strncmp over at most n characters, stopping at the NUL; 0 when n is 0 |
| Utils.StrncmpZero | components/CardioIDLogging/utils.c:20 | on C strings at least n long, strncmp is 0 exactly when the first n characters agree |
| Utils.EndsWith | components/CardioIDLogging/utils.c:12-21 | result is 0 or 1; a suffix longer than the string gives 0 before any comparison |
| Utils.EndsWithIff | components/CardioIDLogging/utils.c:12-21 | ENDSWITH is 1 exactly when the suffix fits and equals the last \|suffix\| characters (both directions) |
| Utils.EndsWithBound | components/CardioIDLogging/utils.c:17-18 | a result of 1 implies the suffix is no longer than the string |
| Utils.EndsWithEmpty | components/CardioIDLogging/utils.c:20 | the empty suffix matches every string |
| Utils.EndsWithSelf | components/CardioIDLogging/utils.c:12-21 | every C string ends with itself |
| Utils.EndsWithAppended | components/CardioIDLogging/utils.c:12-21 | prefix + suffix always ends with suffix |
| Utils.EndsWithSplits | components/CardioIDLogging/utils.c:12-21 | conversely, a string that ends with suffix is its prefix followed by suffix |
| Fgets.LineLength | components/CardioIDLogging/ssh.c:297 | one fgets takes at most the room and the input, and at least one character when there is any |
| Fgets.LineLengthStops | components/CardioIDLogging/ssh.c:297 | fgets takes no line feed except as its last character, and stopping early means it took a line feed |
| Fgets.ChunkLength | components/CardioIDLogging/ssh.c:285-297 | one fgets into the 1024-byte buffer takes 1..1023 characters of non-empty input |
| Fgets.Chunks | components/CardioIDLogging/ssh.c:297 | the successive fgets buffers: none exactly for an empty file, and no more chunks than characters (their content is fixed by ChunksCover and ChunksShape) |
| Fgets.UpToNul | components/CardioIDLogging/ssh.c:299 | strlen of the buffer is no longer than the buffer (the rest is fixed by UpToNulPrefix) |
| Fgets.Sent | components/CardioIDLogging/ssh.c:299 | one write per chunk (its content is fixed by NulFreeChunksSentWhole and NulTruncatesChunk) |
| Fgets.UpToNulPrefix | components/CardioIDLogging/ssh.c:299 | strlen of the buffer is a NUL-free prefix, followed by a NUL unless it is the whole buffer |
| Fgets.ChunksCover | components/CardioIDLogging/ssh.c:297 | the successive fgets buffers, read back to back, are the whole file in order |
| Fgets.ChunksShape | components/CardioIDLogging/ssh.c:285-297 | every chunk is 1..1023 characters with a line feed at most as its last character |
| Fgets.FirstChunkEndsAtLineFeed | components/CardioIDLogging/ssh.c:297 | a chunk shorter than both the buffer and the remaining input ends with a line feed |
| Fgets.NulFreeSentWhole | components/CardioIDLogging/ssh.c:299 | strlen of a NUL-free chunk is the whole chunk |
| Fgets.NulFreeChunksSentWhole | components/CardioIDLogging/ssh.c:297-299 | for NUL-free content every chunk is sent whole |
| Fgets.NulFreeFileSentWhole | components/CardioIDLogging/ssh.c:297-299 | for NUL-free content the bytes written, in order, are exactly the file |
| Fgets.NulTruncatesChunk | components/CardioIDLogging/ssh.c:299 | a NUL inside a chunk truncates what is sent: "a\0b" sends only "a" |
| CidLogging.Logger.constructor | components/CardioIDLogging/cidlogging.c:29 | at start no log file is open, no sink is installed, SNTP has not started |
| CidLogging.AfterPrint | components/CardioIDLogging/cidlogging.c:66-71 | one sink call keeps the path, appends the text to what was written when vfprintf succeeds, only adds to what the descriptor holds, and puts on the card exactly what the descriptor holds when fsync succeeds (the card is unchanged otherwise) |
| CidLogging.AfterPrints | components/CardioIDLogging/cidlogging.c:60-73 | a series of sink calls keeps the stream on the same path |
| CidLogging.Logger.PrintToSdCard | components/CardioIDLogging/cidlogging.c:60-73 | -1 and no change without a file; otherwise the stream becomes AfterPrint's result for the vfprintf, hand-over and fsync outcomes, and the result is 0 whatever vfprintf and fsync returned |
| CidLogging.PrintsAppendInOrder | components/CardioIDLogging/cidlogging.c:60-73 | successive sink calls whose vfprintf succeeds write the earlier contents, then every text in call order, whatever the stdio layer and fsync do |
| CidLogging.DurableIsWrittenPrefix | components/CardioIDLogging/cidlogging.c:66-71 | whatever the vfprintf, hand-over and fsync results, written text is only appended; the card holds a prefix of what the descriptor holds, which is a prefix of what was written; nothing committed is lost |
| CidLogging.SyncLeavesBufferedText | components/CardioIDLogging/cidlogging.c:66-71 | a line still in the stream's buffer is not on the card after a successful fsync |
| CidLogging.FullHandOverReachesCard | components/CardioIDLogging/cidlogging.c:66-71 | when the stdio layer hands over its whole buffer and fsync succeeds, everything written is on the card |
| CidLogging.FailedPrintWritesNothing | components/CardioIDLogging/cidlogging.c:66-72 | a failed vfprintf leaves what was written unchanged; fsync commits what the descriptor holds when it succeeds, and leaves the card as it was when it fails |
| CidLogging.Logger.MountSdCard | components/CardioIDLogging/cidlogging.c:132-159 | mount failure (ESP_FAIL or another code) changes nothing and reports which; a failed fopen leaves no file and no redirect; success opens LOG_FILE_PATH (/sdcard/log.txt) for append, after its earlier contents, with an empty stdio buffer, and installs the sink |
| CidLogging.MountThenPrint | components/CardioIDLogging/cidlogging.c:60-73 | after a successful mount and two successful sink calls, log.txt's stream has written the earlier contents and then both texts; the card holds at least the earlier contents and at most what was written |
| CidLogging.CardioLog | components/CardioIDLogging/cidlogging.c:179-206 | one emission carrying the caller's tag and message |
| CidLogging.CardioLogDispatch | components/CardioIDLogging/cidlogging.c:190-205 | levels 0, 1, 2 select error, warn, info; every other level selects debug; verbose is never emitted |
| CidLogging.CardioLogLevelOf | components/CardioIDLogging/cidlogging.c:190-205 | the severity emitted is the one whose level is the input, or debug's level 3 for levels outside 0..2 |
| CidLogging.CardioLogRoundTrip | components/CardioIDLogging/cidlogging.c:190-205 | logging at a severity's own level emits that severity |
| CidLogging.Logger.CardioLoggingInit | components/CardioIDLogging/cidlogging.c:242-246 | starts SNTP and leaves the log file and the redirect as they were |
| CidLogging.InitThenPrint | components/CardioIDLogging/cidlogging.c:242-246 | after CARDIO_LOGGING_INIT alone, a sink call returns -1 and nothing is redirected |
| Ssh.TempName | components/CardioIDLogging/ssh.c:239-244 | the temporary remote name is the 34 fixed characters of APP_SFTP_TEMP_FILENAME and "cardioid" followed by the entry name: it is 34 characters longer, and its tail gives the entry name back |
| Ssh.FinalName | components/CardioIDLogging/ssh.c:325-330 | the final remote name is 29 characters longer than the entry name (APP_SFTP_FILENAME and "cardioid"), and its tail gives the entry name back |
| Ssh.LocalPath | components/CardioIDLogging/ssh.c:288 | the local path, used for fopen and for remove (ssh.c:343-346), is 8 characters ("/sdcard/") longer than the entry name, and its tail gives the entry name back |
| Ssh.Selected | components/CardioIDLogging/ssh.c:237 | a picked entry is a regular file whose name is at least as long as ".txt" (both directions of the filter: SshProperties.SelectedIff) |
| Ssh.Finish | components/CardioIDLogging/ssh.c:358-373 | the run returns the last error and the card as the sweep left it; the listing keeps exactly the entries that are not deleted regular files |
| Ssh.Invoke | components/CardioIDLogging/ssh.c:189-224 | a checked call leaves the card alone, records itself with its result, and a failure takes up an outcome |
| Ssh.Stream | components/CardioIDLogging/ssh.c:296-307 | the write loop touches no local file, only adds events, and a failed write takes up an outcome |
| Ssh.Finalize | components/CardioIDLogging/ssh.c:314-354 | a break has an error and deletes nothing; going on means a successful rename followed by the remove, which deletes the local file exactly when it succeeds |
| Ssh.Deliver | components/CardioIDLogging/ssh.c:237-355 | the per-file block only removes local files and keeps the others' contents |
| Ssh.Sweep | components/CardioIDLogging/ssh.c:235-356 | the readdir loop returns NO_ERROR unless it broke, and only removes local files |
| Ssh.Surviving | components/CardioIDLogging/ssh.c:343-347 | the listing after the run holds exactly the entries that are not deleted regular files |
| Ssh.TestRun | components/CardioIDLogging/ssh.c:174-374 | a run only removes local files; a failing run takes up at least one outcome |
| Ssh.Retry | components/CardioIDLogging/ssh.c:397-410 | the retry loop ends after at most one run more than there are outcomes |
| Ssh.WriteLocalFile | components/CardioIDLogging/ssh.c:283-309 | the fgets/write loop computes Stream: the strlen bytes of each chunk in order, stopping at the first failed write |
| Ssh.DeliverEntry | components/CardioIDLogging/ssh.c:239-354 | the per-file block computes Deliver: stop means Break with the returned error, otherwise Continue with NO_ERROR |
| Ssh.SftpClientTest | components/CardioIDLogging/ssh.c:174-374 | sftpClientTest computes TestRun on the card and the outcomes |
| Ssh.SshInit | components/CardioIDLogging/ssh.c:382-416 | SSH_INIT computes Retry's card, run count and calls, then the DHCP release and both interface stops |
| Ssh.HostKeyVerifyCallback | components/CardioIDLogging/ssh.c:95-117 | the host key is accepted exactly when some trusted key verifies it; keys are tried in order up to the first success; otherwise the last key's error is returned |
| SshProperties.NameBuffersFit | components/CardioIDLogging/ssh.c:239-244 | the 100-byte name buffers hold the temporary name exactly for entry names of at most 65 characters, the final name for 70, the local path for 91 |
| SshProperties.TempNeverFinal | components/CardioIDLogging/include/utils.h:49-50 | the temporary and final remote names never coincide |
| SshProperties.NamesInjective | components/CardioIDLogging/ssh.c:239-346 | distinct entries get distinct temporary, final and local names |
| SshProperties.SelectedIff | components/CardioIDLogging/ssh.c:237 | an entry is picked exactly when it is a regular file whose name ends in ".txt" |
| SshProperties.TxtFilesSelected | components/CardioIDLogging/ssh.c:237 | every regular "*.txt" file is picked |
| SshProperties.SelectedOnly | components/CardioIDLogging/ssh.c:237 | the picked entries are exactly the members that pass the filter |
| SshProperties.SweepSeesOnlySelected | components/CardioIDLogging/ssh.c:235-237 | the sweep over the listing equals the sweep over its picked entries: nothing else causes a call |
| SshProperties.NothingSelectedNothingHappens | components/CardioIDLogging/ssh.c:235-237 | a listing without picked entries makes no call and changes nothing |
| SshProperties.SweepAppend | components/CardioIDLogging/ssh.c:235-356 | a break in the first part of the listing ends the sweep; otherwise the second part continues from there |
| SshProperties.FailureSkipsRemainingEntries | components/CardioIDLogging/ssh.c:250-254 | a file that breaks the loop ends the sweep: later entries are not attempted and nothing more is deleted |
| SshProperties.DeliverBreakChangesNothing | components/CardioIDLogging/ssh.c:247-340 | a per-file break leaves the card and the deleted list unchanged and makes no remove |
| SshProperties.DeliverContinueEndsWithRemoval | components/CardioIDLogging/ssh.c:334-354 | going on from a file means its rename succeeded and the remove was the last call; the file is deleted exactly when the remove succeeded |
| SshProperties.StreamOnlyWrites | components/CardioIDLogging/ssh.c:297-307 | the write loop makes only remote writes |
| SshProperties.InvokeAllOk | components/CardioIDLogging/ssh.c:189-224 | with no failing outcome left, a checked call succeeds and leaves none |
| SshProperties.WriteEvents | components/CardioIDLogging/ssh.c:299 | one successful write event per chunk |
| SshProperties.SentCons | components/CardioIDLogging/ssh.c:297-299 | write events of a chunk list are the first chunk's write, then the rest's |
| SshProperties.StreamAllOkSucceeds | components/CardioIDLogging/ssh.c:297-307 | with no failure left, the write loop succeeds and leaves no failure |
| SshProperties.StreamAllOkWrites | components/CardioIDLogging/ssh.c:297-307 | with no failure, the write loop writes each chunk's strlen bytes in file order |
| SshProperties.DeliverAllOk | components/CardioIDLogging/ssh.c:247-354 | with no failure and the local file present, the file is created, reopened, written, closed, renamed and removed in that order, and deleted |
| SshProperties.DeliverAllOkNeverFails | components/CardioIDLogging/ssh.c:247-354 | with no failure, a file breaks the loop only when its local fopen fails, and then with NO_ERROR |
| SshProperties.MissingLocalFileBreaksWithNoError | components/CardioIDLogging/ssh.c:289-294 | a local file that cannot be opened breaks the loop with NO_ERROR, changing nothing |
| SshProperties.WriteFailureStillDeletes | components/CardioIDLogging/ssh.c:299-354 | a failed first write is overwritten by the close: the file is still renamed and deleted |
| SshProperties.WriteErrorOverwritten | components/CardioIDLogging/ssh.c:297-315 | once the remote file is open for writing and the local file opened, the block goes on to close, rename and remove from wherever the write loop stopped, whatever its error |
| SshProperties.CloseAndRenameGoOn | components/CardioIDLogging/ssh.c:314-354 | a close and a rename that succeed always go on to the next entry, whatever the remove does |
| SshProperties.AnyWriteFailureStillRenamed | components/CardioIDLogging/ssh.c:297-354 | a write failing at any chunk never keeps the upload from being renamed and the local file removed, when the close and the rename succeed |
| SshProperties.TwoChunkSecondWriteFails | components/CardioIDLogging/ssh.c:297-307 | on the file "a\nb", a successful first write and a failed second write end the loop with that error after sending "a\n" |
| SshProperties.SecondWriteFailureStillDeletes | components/CardioIDLogging/ssh.c:297-354 | the two-chunk file whose second write fails is still renamed and deleted, its last line missing from the upload |
| SshProperties.RemoveFailureOnlyTraced | components/CardioIDLogging/ssh.c:343-354 | a failed remove keeps the file and the loop goes on |
| SshProperties.DeliveredPersists | components/CardioIDLogging/ssh.c:334-354 | a recorded rename-then-remove stays recorded as calls are added |
| SshProperties.LocalPathsAppend | components/CardioIDLogging/ssh.c:343-346 | local paths of two name lists are the union of each list's paths |
| SshProperties.DeletesOnlyNothing | components/CardioIDLogging/ssh.c:235-356 | no step deletes nothing |
| SshProperties.DeletesOnlyChain | components/CardioIDLogging/ssh.c:235-356 | the deletions of successive steps compose |
| SshProperties.DeletesOnlyUnchanged | components/CardioIDLogging/ssh.c:235-356 | an unchanged card deletes nothing |
| SshProperties.DeletesOnlyOne | components/CardioIDLogging/ssh.c:334-354 | deleting one name after its rename and remove satisfies the deletion invariant |
| SshProperties.DeliverDeletesOnly | components/CardioIDLogging/ssh.c:247-354 | a file's block can delete only that file, and only after its rename and removal succeeded |
| SshProperties.SweepDeletesOnlyDelivered | components/CardioIDLogging/ssh.c:235-356 | the sweep deletes only picked entries, each after a successful rename and remove, and the card loses exactly their paths |
| SshProperties.SweepAllOkNoError | components/CardioIDLogging/ssh.c:235-356 | with no failure the sweep returns NO_ERROR |
| SshProperties.DeletesAllChain | components/CardioIDLogging/ssh.c:235-356 | full deletions of successive steps compose |
| SshProperties.DistinctTail | components/CardioIDLogging/ssh.c:235 | a directory's names stay distinct after the first |
| SshProperties.OthersStayPresent | components/CardioIDLogging/ssh.c:347 | removing one local path keeps every other name's file |
| SshProperties.DeliverableTail | components/CardioIDLogging/ssh.c:235-356 | delivering the first picked entry keeps the rest deliverable |
| SshProperties.SweepAllOkDeliversAll | components/CardioIDLogging/ssh.c:235-356 | with no failure and every picked file present, the sweep deletes every picked file in directory order and nothing else |
| SshProperties.FinishUntouched | components/CardioIDLogging/ssh.c:366-373 | a run that deleted nothing returns the card as it found it |
| SshProperties.SurvivingNothing | components/CardioIDLogging/ssh.c:343-347 | with nothing deleted, the listing is unchanged |
| SshProperties.ConnectFailureLeavesCardAlone | components/CardioIDLogging/ssh.c:189-224 | a failure before the connection is up returns the error, leaves the card untouched and disconnects nothing |
| SshProperties.AllOkRunSucceeds | components/CardioIDLogging/ssh.c:174-374 | with no failure, sftpClientTest returns NO_ERROR |
| SshProperties.AllOkRunDeliversAll | components/CardioIDLogging/ssh.c:174-374 | with no failure and every picked file present, one run deletes every picked file and leaves every other file |
| SshProperties.RunDeletesOnlyDelivered | components/CardioIDLogging/ssh.c:174-374 | every file a run deletes belongs to a picked entry and was renamed to its final name first; the card loses exactly those paths |
| SshProperties.RetryOnlyRemovesFiles | components/CardioIDLogging/ssh.c:397-410 | across retries the card only loses files, and keeps the others' contents |
| SshProperties.RetryAllOkOnce | components/CardioIDLogging/ssh.c:397-410 | when nothing fails, SSH_INIT runs the sweep once |
| SshProperties.RetryDeliversAfterFailure | components/CardioIDLogging/ssh.c:397-410 | a transport that fails the first upload and then recovers: the first run keeps the file, and the second run delivers and deletes it |

## Left out

- Wi-Fi set-up, `ioInit`, the DHCP/SLAAC/NDP configuration and the network stack: hardware and network configuration, outside this model.
- `sftpClientSshInitCallback` (components/CardioIDLogging/ssh.c:128-164): its PRNG, user-name, password and callback registration happen inside the SFTP library during connect. They are folded into the connect call's outcome.
- The SFTP and SSH library itself, `sshVerifyHostKey` and the crypto drivers: foreign code. The key check is a function parameter, and every other call is an oracle outcome.
- The text formatting of `vfprintf` and the ESP-IDF log macros, the clock (`GET_DATE_TIME`), the core-id print and every `TRACE_INFO`: formatting and I/O. `CidLogging.CardioLog` models the severity, tag and message only.
- The delays `osDelayTask(5000)` and `osDelayTask(1000)`, concurrency and task scheduling: timing only.
- `sdmmc_card_print_info`, the GPIO pull-ups and the host and slot configuration of `MOUNT_SD_CARD`: hardware. Only the outcome branches are modelled.
- SshProperties.NameBuffersFit: entry names longer than 65 characters overflow the 100-byte name buffers (undefined behaviour in C). The model builds the full names instead, and this lemma only states the bound.
- `closedir(NULL)` after a failed `opendir`: undefined behaviour in C, modelled as skipping the loop.
- `write_n` (bytes written) and short writes by `sftpClientWriteFile`: the oracle only decides success or failure.
- CidLogging.AfterPrint: how much text newlib's stdio layer hands to the file descriptor is an input of each call (`handed`), not derived from its buffer size or buffering mode.
- A partial `vfprintf` write: the sink's text is appended whole or not at all.
- A read error of `fgets`, which would end the write loop before the end of the file: the local file is read to its end.
- Ssh.Retry: the `while (1)` loop at components/CardioIDLogging/ssh.c:397-410 never ends if the transport never recovers. The model cannot express that run. Its outcome sequence is finite, and every call succeeds once it is used up, so `Retry` always ends within `|outcomes| + 1` runs.
- `SEND_LOG_OVER_SSH` and main.c: they only call `WIFI_INIT` and `SSH_INIT`, or start tasks.
