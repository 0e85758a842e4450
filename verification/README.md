# Verified models of Sailfish Connect's transfer and list code

This project models, and proves properties of, six parts of Sailfish Connect:

* **Copy jobs** (`CopyJobSpec`, `CopyJobs`, `CopyJobSafety`, `CopyJobRuns`, `CopyJobFairness`):
  the event-driven pump that moves bytes from one device to another through a 512 KiB array.
  A run is any interleaving of the job's slots with bytes arriving at the source and leaving
  the sink, with short reads, short writes and failing devices.
* **SFTP sessions** (`SftpSpec`, `SftpServer`, `SftpHandles`, `SftpTransfer`): handles, reading,
  writing and listing of SFTP version 3 (draft-ietf-secsh-filexfer-02, sections 6.3, 6.4, 6.7).
* **Media players** (`MprisRows`, `MprisPlayers`, `MprisRuns`): a plugin's map of players and
  the sorted list model that follows it through row notifications.
* **Album art** (`AlbumArtNames`, `AlbumArtSpec`, `AlbumArtAccounting`, `AlbumArtEndings`,
  `AlbumArtTransfers`, `AlbumArtCaches`): the table of downloads, redirects, how downloads end, and
  the count of bytes on disk.
* **Download names** (`FileHelper`, `Downloads`): probing for a free name, and never
  overwriting a file.
* **Call notifications** (`Telephony`): which packets are sent for which call.

Each part has functions on values that say what one slot, request or event does, a class with
the fields of the source whose methods are proved to do exactly that, and lemmas about runs.
Devices, the file system, the allocator, libssh, the modem and the network are parameters: an
event or request carries their answers, and a predicate (`CanAnswer`, `Enabled`, `Takes`) says
which answers are possible.

Verify with `dafny verify dfyconfig.toml`.

## What the proofs found

* *A copy of unknown size does not notice a sink that closes early.* If the sink closes while
  the buffer is empty, the job ends without error. It then delivered the whole source exactly
  when the source had nothing left (`UnknownSizeEarlyClose`, `EarlyCloseLosesData`).
* *A job that finishes while it is being started leaves its timer running*, because `doStart`
  starts the timer after its first poll (pluginscommon/copyjob.cpp:132-133). `TimerOutlivesJob`:
  in every run the timer is on exactly while the job is unfinished, unless that poll finished it,
  and then for ever; `SmallFileAtOnce` has such jobs. Later timeouts change nothing but repeat the
  final progress (`FinishedIsFinal`, `ProgressIsMonotone`).
* *Device errors do not set the finished flag* (pluginscommon/copyjob.cpp:149-154, 163-168), so a
  failing device can make a job emit several results (`SeveralResults`). `ResultCount` says how
  many: one for each poll that met a failing device, and one for finishing; so a job emits just its
  one result if and only if no poll met one (`OneResultPerRun`).
* *The album art byte count can fall behind the directory.* A transfer that wrote bytes and then
  fails, or is redirected, while its file cannot be opened again leaves those bytes uncounted.
  `StepAccounts` shows this is the only way, `RedirectMayLeaveBytes` gives a run.
* *When libssh's handle table is full, an opened object stays open with no handle*
  (`OpenReachableIff`); 257 OPENs do it (`FullTableLosesObject`).
* *STAT does not follow links and LSTAT does*, the reverse of draft-ietf-secsh-filexfer-02, section
  6.8: the two are dispatched with the flag exchanged (plugins/sftpserver/sftpservercommands.cpp:149-154),
  so STAT of a link is answered as unsupported (`StatOfLinks`).
* *While a packet with removed players is being signalled, rows name players that are already
  gone*; `DanglingRows` says exactly which, `RowDangles` gives a run.
* *A call that vanishes while it rings silences the next incoming call with the same path*,
  since removing a call does not clear what was sent for it (`NewCallRings`, and
  `VanishedCallSilences` for the three events that do it). Outgoing calls
  are matched by the state "dealing"; the model uses that spelling.

## Model

| member | source | states |
|---|---|---|
| CopyJobs.MoveToFront | pluginscommon/copyjob.cpp:170-171 | the in-place left shift leaves exactly the unwritten bytes at the front of the same array |
| CopyJobs.CopyJob.constructor | pluginscommon/copyjob.cpp:33-56 | a new job between fresh devices is in the initial state of all runs |
| CopyJobs.CopyJob.BytesToWrite | pluginscommon/copyjob.cpp:249-257 | the backlog: queued bytes, and for an encrypted sink the encrypted ones too |
| CopyJobs.CopyJob.CloseSource | pluginscommon/copyjob.cpp:58-62 | closing the source of a started job may come back as the end of its stream, with a poll |
| CopyJobs.CopyJob.CloseSink | pluginscommon/copyjob.cpp:58-62 | closing the sink of a started job finishes it before the sink is closed |
| CopyJobs.CopyJob.Close | pluginscommon/copyjob.cpp:58-62 | closing in any state, finished or not: both devices' signals come back to the job and the array code does what they do to the byte sequences |
| CopyJobs.CopyJob.DoKill | pluginscommon/copyjob.cpp:259-263 | cancelling closes both devices and succeeds |
| CopyJobs.CopyJob.Finish | pluginscommon/copyjob.cpp:213-247 | the finish that is re-entered while it closes the devices has the effect of one finish: one result, one report, devices closed |
| CopyJobs.CopyJob.ReadSome | pluginscommon/copyjob.cpp:146-159 | first third of poll: reads behind the buffered bytes only if there is room and the backlog allows it, or fails with one result |
| CopyJobs.CopyJob.WriteSome | pluginscommon/copyjob.cpp:161-179 | second third of poll: hands the buffer to the sink and keeps exactly the untaken rest, or fails with one result |
| CopyJobs.CopyJob.SettleDown | pluginscommon/copyjob.cpp:181-199 | last third of poll: queue another poll, or end the job at the end of the stream |
| CopyJobs.CopyJob.Poll | pluginscommon/copyjob.cpp:141-200 | the whole poll on the array refines the step on byte sequences |
| CopyJobRuns.PollEffect | pluginscommon/copyjob.cpp:141-200 | what a poll without failing devices reads and hands over, when it queues another poll, and when it ends the job, in terms of the 512 KiB array, the 2 MiB backlog and the devices |
| CopyJobs.CopyJob.PollAtSourceClose | pluginscommon/copyjob.cpp:202-211 | marks the end of the source and polls, unless finished |
| CopyJobs.CopyJob.Arm | pluginscommon/copyjob.cpp:100-110 | end of source for files, started flag, and the size taken from the file if none was given |
| CopyJobs.CopyJob.DoStart | pluginscommon/copyjob.cpp:85-134 | refuses closed devices with an error and a result each, without starting; otherwise arms, polls, then starts the timer even if that poll finished the job |
| CopyJobRuns.StartResults | pluginscommon/copyjob.cpp:85-134 | starting emits exactly one result if and only if a device is closed, or the first poll meets a failing one or finishes; a closed source is named first, then a closed sink, and then no byte moves and the job is neither started nor finished |
| CopyJobRuns.RefusedStaysRefused | pluginscommon/copyjob.cpp:90-99 | a refused job is never called again, so that result stays the only one |
| CopyJobs.CopyJob.Timeout | pluginscommon/copyjob.cpp:46-53 | reports the amount, and polls only for sequential sinks |
| CopyJobSafety.ReadKeepsPipe | pluginscommon/copyjob.cpp:146-155 | reading keeps stream fidelity and the backlog bound |
| CopyJobSafety.WriteKeepsPipe | pluginscommon/copyjob.cpp:161-173 | writing any part of the buffer keeps stream fidelity and the backlog bound |
| CopyJobSafety.StepKeepsInv | pluginscommon/copyjob.cpp:141-247 | every slot, in any state, keeps fidelity, bounds, control and verdict |
| CopyJobSafety.StepKeepsTicking | pluginscommon/copyjob.cpp:44-53 | an unfinished job's timer runs, and if it runs on after the end nothing is queued |
| CopyJobRuns.TimerOutlivesJob | pluginscommon/copyjob.cpp:132-133 | in every run the timer is on if and only if the job is unfinished or the poll in doStart finished it |
| CopyJobRuns.RunKeepsInv | pluginscommon/copyjob.cpp:85-247 | the invariant in every state of every run |
| CopyJobRuns.StepDelivers | pluginscommon/copyjob.cpp:141-200 | what was accepted or sent stays so, in order; nothing is taken back |
| CopyJobRuns.StreamFidelity | pluginscommon/copyjob.cpp:141-173 | in every run: accepted bytes followed by the buffer are exactly the bytes read, the written count is their number, bytes read = sent + queued + buffered, and buffered + queued stays below 2 MiB + 512 KiB |
| CopyJobRuns.BacklogBoundIsTight | pluginscommon/copyjob.cpp:146-148 | every unencrypted job into a socket, with enough to read, has a run that comes within one byte of the bound, so it cannot be lowered |
| CopyJobRuns.FinishVerdict | pluginscommon/copyjob.cpp:223-239 | finishing reports a wrong size first, then unwritten bytes, else keeps the error there was; so there is none if and only if there was none, nothing is buffered and the size is unknown or met |
| CopyJobRuns.RunKeepsSize | pluginscommon/copyjob.cpp:108-110 | the expected size during a run: as given, else of the file, else unknown |
| CopyJobRuns.KnownSizeSuccess | pluginscommon/copyjob.cpp:189-239 | success with a known size means the sink got exactly that many first bytes |
| CopyJobRuns.UnknownSizeSuccess | pluginscommon/copyjob.cpp:189-199 | an end reached through the end of the source means everything was sent |
| CopyJobRuns.UnknownSizeEarlyClose | pluginscommon/copyjob.cpp:213-239 | finishing early with unknown size reports no error, and delivered everything if and only if the source had nothing left |
| CopyJobRuns.EarlyCloseLosesData | pluginscommon/copyjob.cpp:213-239 | a concrete run that ends without error and lost the only byte |
| CopyJobRuns.FinishedIsFinal | pluginscommon/copyjob.cpp:202-247 | after the first finished state no slot changes verdict, results, buffer, position or delivered bytes |
| CopyJobRuns.ResultCount | pluginscommon/copyjob.cpp:141-247 | in every run the number of results is that of the polls of an unfinished job that met a failing device, plus one once finished |
| CopyJobRuns.OneResultPerRun | pluginscommon/copyjob.cpp:141-247 | a run has emitted just the result of the finished job, and none before, if and only if no poll met a failing device |
| CopyJobRuns.SeveralResults | pluginscommon/copyjob.cpp:146-155 | a concrete run with two results and an unfinished job |
| CopyJobRuns.FailureDoesNotFinish | pluginscommon/copyjob.cpp:146-169 | a read or write error emits one result with that error, loses no byte, and does not finish the job |
| CopyJobRuns.EncryptedWaits | pluginscommon/copyjob.cpp:193-198 | an encrypted job does not finish in a poll unless the socket disconnects at once |
| CopyJobRuns.KillEnds | pluginscommon/copyjob.cpp:259-263 | cancelling a running job finishes it with one result, and one more if its last poll meets a failing device; delivered bytes stay, in order, and no error is reported only if nothing was left to write and the size was met |
| CopyJobRuns.KillOfIdle | pluginscommon/copyjob.cpp:259-263 | cancelling a job that was not started, or has finished, only closes the devices |
| CopyJobRuns.TimeoutReports | pluginscommon/copyjob.cpp:46-53 | each timeout reports what has left the sink, and moves bytes only for sockets |
| CopyJobRuns.ProgressIsMonotone | pluginscommon/copyjob.cpp:46-48 | reports of an unencrypted job never decrease, never run ahead, and end at the written count |
| CopyJobFairness.PollOutcome | pluginscommon/copyjob.cpp:141-200 | a poll of working devices moves a byte, or ends the job, or sees the end, or waits for the sink |
| CopyJobFairness.StepAtMost | pluginscommon/copyjob.cpp:141-211 | no slot adds work: 3·unread + 2·buffered + queued, then the encrypted backlog; draining removes some |
| CopyJobFairness.StepKeepsEnded | pluginscommon/copyjob.cpp:189-192 | once the source is closed, or has brought all that was promised, that stays so |
| CopyJobFairness.StepKeepsFileSinkReady | pluginscommon/copyjob.cpp:181-199 | with a file as sink an unfinished job past the end of its source always has a poll queued, and a job that has read all that was promised has finished |
| CopyJobFairness.RunIsAttended | pluginscommon/copyjob.cpp:118-122 | while bytes wait at an unfinished job into a file, a poll is queued or the announcement of an arrival is still to come |
| CopyJobFairness.FairRunsFinish | pluginscommon/copyjob.cpp:141-211 | every fair infinite run between working devices finishes, encrypted or not, whether the source is closed or just brings all that was promised |
| CopyJobFairness.FairRunsDeliver | pluginscommon/copyjob.cpp:85-247 | and if nobody hangs up early and the size is unknown or right, it ends without error with the whole source sent |
| CopyJobFairness.SmallFileAtOnce | pluginscommon/copyjob.cpp:85-134 | a file that fits the buffer is copied to a file completely by the poll in doStart, and then its timer is started |
| CopyJobFairness.FairFileCopy | pluginscommon/copyjob.cpp:85-134 | every such file has a fair run |
| CopyJobFairness.FairStreamCopy | pluginscommon/copyjob.cpp:85-211 | every stream of up to a bufferful has a fair run in which it is copied into a socket and then closed |
| CopyJobFairness.FairDownload | pluginscommon/copyjob.cpp:118-122 | every such stream of known size has a fair run in which it is copied into a file and never closed |
| CopyJobFairness.ReportedSizeIsFileSize | pluginscommon/copyjob.cpp:221 | a finished copy into a file reports the size of that file |
| SftpServer.SftpServerSession.ReplyHandle | plugins/sftpserver/sftpservercommands.cpp:344-346 | a new object gets the first free slot, and its handle is the one reply |
| SftpServer.SftpServerSession.ReplyOpenDir | plugins/sftpserver/sftpservercommands.cpp:323-347 | OPENDIR: error statuses, or a new iterator at its first entry |
| SftpServer.SftpServerSession.ReplyReadDir | plugins/sftpserver/sftpservercommands.cpp:349-374 | the paging loop answers the next up to 100 entries, or EOF, or INVALID_HANDLE |
| SftpServer.SftpServerSession.ReplyClose | plugins/sftpserver/sftpservercommands.cpp:376-386 | CLOSE erases from one of the maps and frees the slot, or answers INVALID_HANDLE |
| SftpServer.SftpServerSession.ReplyOpenFile | plugins/sftpserver/sftpservercommands.cpp:414-426 | OPEN: failure, or a new file object with a handle |
| SftpServer.SftpServerSession.ReplyReadFile | plugins/sftpserver/sftpservercommands.cpp:429-454 | READ: capped length, seek, and EOF only if something was asked for and nothing came |
| SftpServer.SftpServerSession.WriteAll | plugins/sftpserver/sftpservercommands.cpp:470-478 | the partial-write loop writes exactly the prefix the device took, as if in one go |
| SftpServer.SftpServerSession.ReplyWriteFile | plugins/sftpserver/sftpservercommands.cpp:456-481 | WRITE: seek, write all, one status |
| SftpServer.SftpServerSession.ReadMessage | plugins/sftpserver/sftpservercommands.cpp:132-207 | each request, on handles or on paths, is dispatched to its handler, changes the session as its specification says and gets exactly one reply |
| SftpHandles.ServeKeepsInv | plugins/sftpserver/sftpservercommands.cpp:323-481 | every request keeps the maps disjoint, the slots injective into them, object ids distinct, and the slots in agreement with the replies |
| SftpHandles.SessionKeepsInv | plugins/sftpserver/sftpservercommands.cpp:323-481 | the same in every state of every session |
| SftpHandles.HandleResolves | plugins/sftpserver/sftpservercommands.cpp:340-427 | a handle resolves if and only if it was issued and not closed since, and then to the very object it was last issued for, even when addresses are reused |
| SftpHandles.InvalidHandles | plugins/sftpserver/sftpservercommands.cpp:349-460 | INVALID_HANDLE is answered exactly to handles not owned or owned by the wrong kind of object |
| SftpHandles.CloseEffect | plugins/sftpserver/sftpservercommands.cpp:376-386 | CLOSE removes that one object and frees that one slot |
| SftpHandles.CloseRemovesOne | plugins/sftpserver/sftpservercommands.cpp:376-386 | exactly one live object fewer, and the handle no longer resolves |
| SftpHandles.OpenReachableIff | plugins/sftpserver/sftpservercommands.cpp:421-426 | opening keeps every open object reachable if and only if a slot was free |
| SftpHandles.FullTableLosesObject | plugins/sftpserver/sftpservercommands.cpp:421-426 | a concrete session after which an open object has no handle |
| SftpHandles.StatOfLinks | plugins/sftpserver/sftpservercommands.cpp:149-154 | of what is there, STAT answers with attributes if and only if it is no link, LSTAT always, of what is not there neither; neither changes the session |
| SftpHandles.PathAnswers | plugins/sftpserver/sftpservercommands.cpp:483-565 | the other requests on paths: OK if and only if the file system did it, which status otherwise; no session changes |
| SftpHandles.OpenAnswers | plugins/sftpserver/sftpservercommands.cpp:323-427 | OPENDIR and OPEN: which status for which refusal, changing nothing; else one more object at its beginning, and the first free slot leads to it and is the answer |
| SftpHandles.UnsupportedAnswer | plugins/sftpserver/sftpservercommands.cpp:195-202 | other requests are answered as unsupported and change nothing |
| SftpHandles.OthersKeepReachable | plugins/sftpserver/sftpservercommands.cpp:349-481 | other requests keep every open object reachable |
| SftpTransfer.WriteAtSplit | plugins/sftpserver/sftpservercommands.cpp:470-478 | writing in two goes is writing once |
| SftpTransfer.WriteAnswers | plugins/sftpserver/sftpservercommands.cpp:466-480 | a write answers OK if and only if everything was taken, else FAILURE; after OK the data is at its offset, and nothing outside its range ever changes |
| SftpTransfer.PiecesBuildTarget | plugins/sftpserver/sftpservercommands.cpp:456-481 | slices that cover a byte string build it, in any order and with any overlap |
| SftpTransfer.OrderIrrelevant | plugins/sftpserver/sftpservercommands.cpp:456-481 | non-overlapping pieces that cover n bytes give the same n bytes in every order |
| SftpTransfer.NoInterference | plugins/sftpserver/sftpservercommands.cpp:429-481 | requests on other handles do not touch the file behind a handle |
| SftpTransfer.ContentIsPieces | plugins/sftpserver/sftpservercommands.cpp:456-481 | the file behind a handle holds at every moment what the writes on it put there |
| SftpTransfer.OneRead | plugins/sftpserver/sftpservercommands.cpp:435-453 | a read answers FAILURE if the seek or the device read fails, EOF exactly past the end, and never more than asked for or than 8 MiB; it leaves the content alone |
| SftpTransfer.ReadAnswers | plugins/sftpserver/sftpservercommands.cpp:429-454 | in every session, for every READ on a handle owned by a file: FAILURE if and only if the seek or the device read fails; EOF if and only if neither does, something was asked for and the offset is at or past the end; else the bytes at the offset |
| SftpTransfer.ReceivedIsPrefix | plugins/sftpserver/sftpservercommands.cpp:429-454 | what reads at advancing offsets have brought is a prefix of the content |
| SftpTransfer.NextReadAnswers | plugins/sftpserver/sftpservercommands.cpp:429-454 | the next read answers FAILURE if and only if it breaks, EOF if and only if it does not and everything was received, else at least one more byte |
| SftpTransfer.RoundTrip | plugins/sftpserver/sftpservercommands.cpp:388-481 | in any session from its start: OPEN of an empty file, upload in any order with partial device writes, then download to the first EOF, going on after failed reads, returns exactly the uploaded bytes, whatever other handles do meanwhile |
| SftpTransfer.RoundTripHappens | plugins/sftpserver/sftpservercommands.cpp:388-481 | sessions as in RoundTrip exist, for every byte string up to 8 MiB |
| SftpTransfer.NoDirInterference | plugins/sftpserver/sftpservercommands.cpp:349-374 | requests on other handles do not touch the iterator behind a handle |
| SftpTransfer.PageReply | plugins/sftpserver/sftpservercommands.cpp:357-373 | a READDIR after k others is answered with 1 to 100 names while k < ⌈n/100⌉, with EOF from then on |
| SftpTransfer.ListingIsComplete | plugins/sftpserver/sftpservercommands.cpp:323-374 | in any session from its start: after an OPENDIR, whatever other handles do, the first ⌈n/100⌉ READDIRs on its handle bring 1 to 100 names each, together all entries in order and each once, and all later ones EOF |
| FileHelper.Rejoin | pluginscommon/filehelper.cpp:29-33 | base name and suffix rejoin to the file name |
| FileHelper.NumberRoundTrip | pluginscommon/filehelper.cpp:39-42 | the decimal index can be read back, so it is injective |
| FileHelper.NumberLeads | pluginscommon/filehelper.cpp:39-42 | the index has no leading zeros |
| FileHelper.CandidatesDistinct | pluginscommon/filehelper.cpp:39-51 | no two candidates are the same name, in either branch |
| FileHelper.FirstFreeExistsOnce | pluginscommon/filehelper.cpp:35-54 | a least free index exists and is unique, so probing terminates |
| FileHelper.NonexistingFile | pluginscommon/filehelper.cpp:27-55 | both loops stop within one probe more than there are names, at the first free candidate |
| FileHelper.CandidateKeepsSuffix | pluginscommon/filehelper.cpp:39-42 | everything from the first dot on is kept, and the counter stands right before it |
| FileHelper.CandidateSpells | pluginscommon/filehelper.cpp:27-55 | how every candidate is spelled: the name itself, then the counter before the first dot, or behind a name that starts with a dot |
| FileHelper.EscapeForFilePath | pluginscommon/filehelper.cpp:57-70 | the result is one safe path component, and the name itself if and only if that is safe and trimmed |
| FileHelper.EscapedIsSafe | pluginscommon/filehelper.cpp:57-70 | the result is always one safe path component, and a name is left alone if and only if it is safe and trimmed |
| FileHelper.EscapedKeeps | pluginscommon/filehelper.cpp:57-70 | the result is the name without the white space around it, with slashes and NULs taken out and the rest in its order, or _ if that is empty or names a directory |
| FileHelper.CandidateIsSafe | pluginscommon/filehelper.cpp:39-51 | every candidate for a safe name is safe |
| Downloads.DownloadJob.DoStart | pluginscommon/downloadjob.cpp:53-87 | a started download creates an empty file at the first free name in its folder and changes nothing else; a refused one changes no file and emits one result with its error |
| Downloads.DestinationsDistinct | pluginscommon/downloadjob.cpp:66-75 | no two downloads of a run share a destination |
| Downloads.NeverOverwritten | pluginscommon/downloadjob.cpp:66-75 | files that are not downloads of the run keep their content for ever |
| Downloads.OwnFileKept | pluginscommon/downloadjob.cpp:66-86 | a download's file holds exactly what its own job wrote last |
| Downloads.ReceivedNameStaysInFolder | plugins/sf_share/shareplugin.cpp:89-98 | whatever name a peer sends, the download lands in the folder for incoming files under a safe new name |
| MprisRows.SortedUnique | plugins/sf_mprisremote/mprisremoteplugin.cpp:284-289 | a sorted list of a set of names is unique |
| MprisRows.LessIsAscending | plugins/sf_mprisremote/mprisremoteplugin.cpp:284-289 | the order of names: one comes before another if and only if it is a proper prefix of it or has the smaller character where they first differ |
| MprisRows.AddKeepsSorted | app/src/models/mprisplayersmodel.cpp:176-191 | adding keeps the rows strictly sorted and adds just that name |
| MprisRows.RemoveKeepsSorted | app/src/models/mprisplayersmodel.cpp:193-203 | removing keeps the rows strictly sorted and removes just that name |
| MprisRows.AddIsSorted | app/src/models/mprisplayersmodel.cpp:176-191 | inserting at the lower bound equals sorting again |
| MprisRows.RemoveIsSorted | app/src/models/mprisplayersmodel.cpp:193-203 | removing one row equals sorting again |
| MprisRows.AddReplays | app/src/models/mprisplayersmodel.cpp:183-190 | the insert notice takes an observer from the old rows to the new ones |
| MprisRows.RemoveReplays | app/src/models/mprisplayersmodel.cpp:195-202 | so does the remove notice |
| MprisRows.WithinPacket | plugins/sf_mprisremote/mprisremoteplugin.cpp:215-240 | in the middle of a packet the rows are the old names with those added and without those removed so far, for every iteration order, and the notices reproduce them |
| MprisRows.PacketShows | plugins/sf_mprisremote/mprisremoteplugin.cpp:215-240 | after the packet the rows are the sorted names of the packet |
| MprisRows.PacketNotices | app/src/models/mprisplayersmodel.cpp:176-203 | a packet is told row by row: one insertion for each new name, then one removal for each name that is gone, no reset |
| MprisRows.DanglingRows | plugins/sf_mprisremote/mprisremoteplugin.cpp:229-239 | in between, a row names a vanished player if and only if its removal is still to be signalled |
| MprisRuns.RowDangles | plugins/sf_mprisremote/mprisremoteplugin.cpp:229-239 | a concrete run and packet in which one does |
| MprisPlayers.MprisPlayersModel.FindPosition | app/src/models/mprisplayersmodel.cpp:178 | the binary search finds the first row not before the name |
| MprisPlayers.MprisPlayersModel.PlayerAdded | app/src/models/mprisplayersmodel.cpp:176-191 | one insertion with its notice, or nothing if the name is there |
| MprisPlayers.MprisPlayersModel.PlayerRemoved | app/src/models/mprisplayersmodel.cpp:193-203 | one removal with its notice, or nothing |
| MprisPlayers.MprisPlayersModel.PluginDestroyed | app/src/models/mprisplayersmodel.cpp:214-220 | no plugin, no rows, one reset |
| MprisPlayers.MprisPlayersModel.SetPlugin | app/src/models/mprisplayersmodel.cpp:137-167 | switching shows exactly the sorted players of the new plugin after one reset, leaves both plugins' players alone, and never looks up a missing player |
| MprisPlayers.MprisRemotePlugin.Players | plugins/sf_mprisremote/mprisremoteplugin.cpp:284-289 | the keys of the map, each once, every one followed by a greater one in that order |
| MprisPlayers.MprisRemotePlugin.ReceivePlayerList | plugins/sf_mprisremote/mprisremoteplugin.cpp:215-240 | the map becomes the packet's set, kept players keep their objects, new ones have their names, and the listening model stays valid |
| MprisRuns.RowsAgree | app/src/models/mprisplayersmodel.cpp:137-220 | after any sequence of plugins coming, going and being attached, and of packets, the rows ascend, equal the attached plugin's players, and are what an observer replays |
| AlbumArtNames.CacheNameBase | plugins/sf_mprisremote/albumartcache.cpp:114-122 | the base name of a cache file is the hash it is looked up by |
| AlbumArtNames.CacheNameSuffix | plugins/sf_mprisremote/albumartcache.cpp:114-122 | what follows the first dot of a cache file is the suffix of its URL |
| AlbumArtNames.ParseIdMeans | plugins/sf_mprisremote/albumartcache.cpp:209-229 | an id is taken apart if and only if it is a device and a file with one slash between them, and then into these |
| AlbumArtNames.ImageUrlRoundTrip | plugins/sf_mprisremote/albumartcache.cpp:124-229 | for a device id and a suffix without characters that QUrl rewrites, the id in an image URL gives back device, file and hash if and only if the device id has no slash |
| AlbumArtCaches.AlbumArtCache.constructor | plugins/sf_mprisremote/albumartcache.cpp:61-66 | scanning the directory in any order indexes every file and counts all bytes |
| AlbumArtCaches.AlbumArtCache.FetchFinished | plugins/sf_mprisremote/albumartcache.cpp:172-188 | an ended download leaves the table, and enters the index and the count only on success |
| AlbumArtCaches.AlbumArtCache.JobGotData | plugins/sf_mprisremote/albumartcache.cpp:325-355 | a second payload is ignored; a missing one or an unusable file ends the download; else the file is emptied and a transfer starts |
| AlbumArtCaches.AlbumArtCache.JobFetchFinished | plugins/sf_mprisremote/albumartcache.cpp:357-402 | results of replaced transfers are ignored; errors, redirects, statuses and success as the code orders them |
| AlbumArtCaches.AlbumArtCache.JobFailed | plugins/sf_mprisremote/albumartcache.cpp:404-415 | a failure empties the file if it can, and ends the download |
| AlbumArtCaches.AlbumArtCache.StartFetching | plugins/sf_mprisremote/albumartcache.cpp:130-158 | at most one download per hash, none for cached images |
| AlbumArtCaches.AlbumArtCache.EndFetching | plugins/sf_mprisremote/albumartcache.cpp:160-170 | a payload reaches the download of its URL, if there is one |
| AlbumArtEndings.RequestDecides | plugins/sf_mprisremote/albumartcache.cpp:130-158 | in every run: a request creates a download if and only if its image is neither cached nor being fetched; one for a local file is asked for and waits, any other begins its transfer at once, to an empty file, or ends in failure |
| AlbumArtEndings.AskedOnce | plugins/sf_mprisremote/albumartcache.cpp:147-155 | in every run the other device is asked once for each download of a local image, and for nothing else |
| AlbumArtEndings.WaitsForPayload | plugins/sf_mprisremote/albumartcache.cpp:130-170 | in every run a download without a transfer waits, unchanged, until a payload for it comes |
| AlbumArtEndings.PayloadDecides | plugins/sf_mprisremote/albumartcache.cpp:160-170 | in every run the first payload for a waiting download begins its first transfer, with a new number and an empty file; a missing payload, or a file that does not open, takes it out with one new failed ending |
| AlbumArtEndings.ResultDecides | plugins/sf_mprisremote/albumartcache.cpp:357-415 | in every run, what the result of the current transfer leads to: success caches and counts the file; errors, bad statuses and the eleventh redirect end the download in failure; an earlier redirect begins the next transfer to the same file, emptied |
| AlbumArtEndings.CachedIsThere | plugins/sf_mprisremote/albumartcache.cpp:61-188 | in every run every cached image is in a file of the directory that is found by its hash |
| AlbumArtAccounting.StepKeepsInv | plugins/sf_mprisremote/albumartcache.cpp:130-415 | every event keeps cached and fetching disjoint, jobs in order, chains bounded and jobs conserved |
| AlbumArtAccounting.RedirectLimit | plugins/sf_mprisremote/albumartcache.cpp:374-388 | the tenth redirect is followed by a new transfer, the eleventh ends the download after eleven transfers |
| AlbumArtAccounting.StepAccounts | plugins/sf_mprisremote/albumartcache.cpp:130-415 | an event keeps the byte count right if and only if it does not leave bytes in a file that could not be emptied |
| AlbumArtAccounting.RunKeepsInv | plugins/sf_mprisremote/albumartcache.cpp:130-415 | in every run: no image both cached and fetching, at most 11 transfers per download, table and endings together as many as were created |
| AlbumArtEndings.EachEndsOnce | plugins/sf_mprisremote/albumartcache.cpp:130-188 | in every run, for every image: each download created for it has ended exactly once, except one in the table |
| AlbumArtEndings.DownloadEnds | plugins/sf_mprisremote/albumartcache.cpp:357-402 | in every run a download with r redirects behind it leaves the table at the latest with the 11 - r-th result of its transfers, with exactly one new ending, and stays until then |
| AlbumArtAccounting.RunAccounts | plugins/sf_mprisremote/albumartcache.cpp:61-188 | in every run without such an event, whenever nothing is in flight the count is the size of the directory |
| AlbumArtTransfers.SuccessAddsReportedSize | plugins/sf_mprisremote/albumartcache.cpp:172-188 | if the writes to a cache file are those of a finished copy job, success adds exactly the amount that job reported last, which is the size of that file |
| AlbumArtAccounting.StaleEventsIgnored | plugins/sf_mprisremote/albumartcache.cpp:325-360 | results of replaced transfers, further payloads and repeated requests change nothing |
| AlbumArtAccounting.RedirectMayLeaveBytes | plugins/sf_mprisremote/albumartcache.cpp:338-388 | a concrete run in which the count is wrong |
| Telephony.TelephonyPlugin.SendTelephonyPacket | plugins/telephony/telephonyplugin.cpp:196-219 | an event is sent and remembered unless it is the one remembered |
| Telephony.TelephonyPlugin.SendCancelTelephonyPacket | plugins/telephony/telephonyplugin.cpp:221-243 | a cancel names the remembered event, or talking, and forgets it |
| Telephony.TelephonyPlugin.OnCallStateChanged | plugins/telephony/telephonyplugin.cpp:173-194 | which state sends what |
| Telephony.TelephonyPlugin.OnCallAdded | plugins/telephony/telephonyplugin.cpp:145-157 | a new call is treated as a state change, then stored |
| Telephony.TelephonyPlugin.OnCallRemoved | plugins/telephony/telephonyplugin.cpp:159-166 | a removed call is dropped, what was sent for it stays remembered |
| Telephony.LogIsWellFormed | plugins/telephony/telephonyplugin.cpp:173-243 | in every run nothing is sent twice between cancels, each cancel names the last event sent since the previous one or talking, and the memory is that function of the packets |
| Telephony.EventSends | plugins/telephony/telephonyplugin.cpp:145-243 | what one more event adds to the packets of any run, by the name of the call's state: ringing for incoming, talking for active, dealing and alerting, unless said last; a cancel if and only if disconnected; else nothing |
| Telephony.LastStateDecides | plugins/telephony/telephonyplugin.cpp:173-243 | in every run there is something to cancel for a path if and only if its last relevant state was not disconnected, and its last packet then is ringing after incoming and talking after any other |
| Telephony.EachCallAlone | plugins/telephony/telephonyplugin.cpp:173-243 | what is sent for a call depends on its own states only, and is what an adjacent-repeat filter of them gives |
| Telephony.NewCallRings | plugins/telephony/telephonyplugin.cpp:145-203 | in every run of calls appearing, changing and vanishing, an incoming call rings if and only if the last thing its path asked for was not ringing |
| Telephony.VanishedCallSilences | plugins/telephony/telephonyplugin.cpp:145-166 | incoming, removed, incoming again: only one packet is sent |

## Left out

- Qt, KJob, libssh, D-Bus and SQLite themselves: only the answers they give appear. A write that
  calls back into poll before it returns is not modelled.
- Cancelling a download, which also deletes its file; cancelling is not an event of the runs, so that
  KillEnds is about one call. That closing a source discards its unread bytes is not modelled.
- FairRunsFinish: for devices that fail, or that return nothing although something is available,
  no claim is made; sockets that answer a read after their end with an error are such devices.
- ProgressIsMonotone: only for unencrypted sinks, because the encrypted backlog is subtracted
  from the reported amount and can exceed it (see TimeoutReports for the encrypted amount).
- RunAccounts: only for runs without the events that StepAccounts singles out.
- FairRunsFinish and FairRunsDeliver: a file that a network reply is copied into is only polled when
  the reply closes, so there the reply is taken to close.
- RoundTrip: one handle per file, no append or text mode, device writes of at least one byte.
- What SFTP requests on paths do to the file system (only their replies are modelled), the content
  of file attributes, long names, open flags, and Qt's implied truncation.
- The SFTP reply to an empty file name, which needs an empty home directory path.
- ImageUrlRoundTrip: nothing is claimed if the device id or the suffix of the file name has a
  character that QUrl escapes or reads as an escape, such as '%'; then the parsed id can differ.
- SuccessAddsReportedSize: that the writes to the cache file are those of its copy job is a premise.
- The SFTP reply to an open when the handle table is full is libssh's; the model only records
  that no handle was issued.
- NonexistingFile: the index is unbounded, while the source counts in a 32-bit int; the bound by
  the number of names shows that overflow needs two thousand million files in one directory.
- File names are compared and trimmed by characters; QString does so by UTF-16 code units.
- Player properties, commands, requests for player status, and the content of album art packets.
- Album art downloads are values in the cache's table, not objects of their own, so that further
  observers of a download (image responses) do not appear; results delivered for a download that
  has already ended are assumed not to occur.
- The MD5 hash and the URL parts are given with each URL; that distinct URLs have distinct hashes
  is not assumed.
- How modems and calls are discovered, and how contact names are looked up.
- The image provider, clipboard, battery, contacts, notifications, user interface and scripts.
