# Verified model of the launcher's engine cores

A Dafny model of the parts of the Espectral launcher whose correctness is not visible
from any one function: the agent command relay, the country table, the verified
download with its lock table, the layered client configuration, the presence queue, the
event pump, Discord sign-in, and a handful of sequential algorithms. Files on disk,
servers, clocks, random ids and the scheduler are inputs: a run is any sequence of steps,
and a step is one block the program makes atomic with a lock or an atomic flag.

The concurrent cores come in three layers. Functions on values say what an atomic block
does. Classes with the program's own fields and loops are proved to compute these
functions. Systems interleave the same functions over any number of callers, polls,
tasks and closures, and the lemmas about them hold for every run. Checks made without a
lock, as a call's look at a running flag, are steps of their own. The sequential cores
are methods proved against functions and lemmas about those. Modules named `Laws`,
`Fields` or `Outcome` say what the functions of a model mean without naming them: of
fields, bytes, records, positions and moments.

| module | contents |
|---|---|
| `RelayModel`, `AgentLaunch` | one launch's queue, parked polls, slots and pending calls, as values and as objects |
| `RelaySystem`, `RelayConservation`, `RelayOrder`, `RelayLaws` | every interleaving of calls, polls, drops, time-outs, results and release |
| `CommandIds`, `RelayIds` | base-36 command ids, and that they are fresh over runs of the relay |
| `GeoAddress`, `GeoIndex`, `GeoLookup`, `GeoTable` | addresses as numbers, sorting and merging, CSV rows to table and lookup, binary format |
| `DownloadModel`, `DownloadFile`, `DownloadSafety`, `DownloadOutcome` | one download over scripts of answers and faults, its loops, its guarantees |
| `DestLockModel`, `DestLockTable`, `DestLocks` | the reference-counted lock table, as values and as objects, and the tasks on it |
| `ClientConfig`, `ClientConfigLaws`, `ClientConfigFields` | normalize, patch and seed, and the algebra between them |
| `PresenceModel`, `PresenceBridge`, `PresenceLaws` | pending pairs and cache, and the loops over them |
| `PresenceSystem`, `PresencePace` | calls, timers and flushes in every interleaving, and their pauses on a clock |
| `EventQueue`, `EventPump` | queue and flag, and the closures posted for them |
| `DiscordAuthModel`, `DiscordAuthState`, `DiscordFlows`, `DiscordLaws` | OAuth states and sessions, the handlers' changes to them, and sign-ins in every interleaving |
| `FrameReader`, `InstanceState`, `InstanceRuns` | frames from second launches, and what becomes of those launches |
| `NaturalOrder`, `PackIds`, `Loadout`, `Router` | the sequential algorithms, and in `NaturalOrderLaws`, `PackIdLaws`, `LoadoutLaws`, `RouterLaws` what they mean |
| `Wrappers` | option, result, byte |

## Where code and documentation part

The model follows the code. These are proved, each with its exact condition or a run:

* An abandoned call can still be executed late when a poll already holds its command
  (`RelayConservation.GiveUpStopsIffNotHeld`, `RelayConservation.LateExecution`; comment
  at `agent.rs:759-760`).
* A call that races with a release stays queued in the released launch until its caller
  gives up (`RelayConservation.DeliverableIff`, `RelayConservation.LateCallIsStranded`;
  comment at `agent.rs:653-655`).
* Command ids can repeat when clock readings do not follow the sequence numbers, which
  are drawn before the clock is read (`CommandIds.CollideIffClockCutShort`; comment at
  `agent.rs:615`).
* With overlapping rows the later one hides an earlier one beyond its own end
  (`GeoLookup.LaterRowHidesEarlier`; notes at `geoip.rs:44-46`).
* The table reader accepts more countries than the writer
  (`GeoTable.EncodeInvertsDecodeIff`, `GeoTable.ReaderTakesAnyCount`).
* Local disk failures count as an outage of the host
  (`DownloadSafety.DiskFaultFallsBack`; notes at `download.rs:14-18`).
* A lock stays in the table after its last user is gone unless its only holder releases
  it (`DestLocks.EntryLeftIff`, `DestLocks.CancelledTaskLeavesEntry`).
* A claim in the middle of an exchange can be told `invalid` and later `ok`
  (`DiscordFlows.PendingIffNotExpired`, `DiscordFlows.ToldInvalidThenOk`; comment at
  `discord_auth.rs:257-259`).
* A refused closure ends the event pump (`EventPump.PostServesIff`,
  `EventPump.RefusalIsFinal`, `EventPump.FirstPostRefused`).
* Pending presence pairs can be left behind by a call made outside the async runtime
  (`PresenceSystem.ScheduleServesIff`, `PresenceSystem.StrandedOutsideRuntime`).
* A flush leaves pairs of an account without a session that asked for more than one
  batch, and schedules another (`PresenceModel.RoundEmptiesIff`,
  `PresenceModel.OneCallLeavesIff`; comment at
  `engine/src/bridge.rs:320-322`).
* A launch answered `ok` is dropped when the first instance closes before its window is
  ready (`InstanceRuns.NoneDroppedIff`, `InstanceRuns.ClosedWhileStarting`; notes at
  `single_instance.rs:20-22`).
* `%+5` decodes to one byte (`Router.StandardIffNoSignedEscape`,
  `Router.SignedEscapeDecodes`; comment at `router.rs:99`).
* A flush that finds nothing pending after its query does not pause, and a call that comes
  just then is queried at once (`PresencePace.NextSpacedIff`,
  `PresencePace.QueriesTooSoon`; notes at
  `engine/src/bridge.rs:17-18`).

## Model

| member | source | states |
|---|---|---|
| `AgentLaunch.PollWaiter.Deliver` | native/engine/src/agent.rs:499-508 | A waiter takes a batch only into an empty slot; otherwise the batch comes back untouched. |
| `AgentLaunch.PollWaiter.Take` | native/engine/src/agent.rs:510-512 | Taking returns the parked batch, or nothing, and empties the slot. |
| `AgentLaunch.LaunchInner.OfferOldest` | native/engine/src/agent.rs:745-755 | The oldest waiter leaves the list; it gets the whole queue when its slot is free, and otherwise the queue is as before. |
| `AgentLaunch.LaunchInner.ReleasePollers` | native/engine/src/agent.rs:743-757 | The loop over fields, slots and waiters computes `RelayModel.ReleasePollers` of the launch, and terminates. |
| `AgentLaunch.LaunchInner.PutBack` | native/engine/src/agent.rs:750-752 | Pushing a batch to the front one by one, last first, puts it in front in its own order. |
| `AgentLaunch.LaunchInner.Enqueue` | native/engine/src/agent.rs:852-864 | The locked block of a call is `RelayModel.Enqueue`, and it refuses exactly at the queue limit. |
| `AgentLaunch.LaunchInner.Enter` | native/engine/src/agent.rs:902-911 | A poll takes the whole queue at once when there is one, and otherwise joins the list with an empty slot. |
| `AgentLaunch.LaunchInner.TakeSlot` | native/engine/src/agent.rs:916-918 | A waking poll takes what its own slot holds and touches nothing else. |
| `AgentLaunch.LaunchInner.Others` | native/engine/src/agent.rs:885 | The waiters kept are those other than the dropped one, in order. |
| `AgentLaunch.LaunchInner.DropGuard` | native/engine/src/agent.rs:883-893 | Dropping a poll removes it from the list, puts a batch left in its slot back in front of the queue and serves the parked polls. |
| `AgentLaunch.LaunchInner.Abandon` | native/engine/src/agent.rs:812-818 | Abandoning removes the pending call and the first queued command with its id, leaving the order of the rest. |
| `AgentLaunch.LaunchInner.Complete` | native/engine/src/agent.rs:924-946 | A result settles a call exactly when it was still pending. |
| `AgentLaunch.LaunchInner.Close` | native/engine/src/agent.rs:665-673 | Releasing a launch empties calls, queue and list, and offers every listed poll an empty reply. |
| `RelayLaws.CallIsTakenIff` | native/engine/src/agent.rs:852-864 | A call is taken while fewer than a hundred commands are queued, and is pending then; otherwise it leaves no trace. |
| `RelayLaws.EnterTakesAll` | native/engine/src/agent.rs:898-911 | A poll that enters leaves at once with everything queued, and parks behind the others exactly when that is nothing. |
| `RelayLaws.GiveUpTakesBack` | native/engine/src/agent.rs:812-818 | Giving up takes the first queued command with the id back, wherever it stands, leaves the rest in order, and settles a pending call as abandoned. |
| `RelayLaws.PendingHasItsTool` | native/engine/src/agent.rs:852-864 | In every run a pending call is known by the tool of the command issued with its id. |
| `RelaySystem.ReleaseServesFirstFree` | native/engine/src/agent.rs:743-757 | Serving parked polls gives the whole queue to the first listed poll with a free slot; the polls up to it leave the list, and nothing else changes. |
| `RelaySystem.ServeOldest` | native/engine/src/agent.rs:736-757 | With unserved polls parked, the whole queue goes to exactly one of them, the oldest. |
| `RelaySystem.WakeAllAt` | native/engine/src/agent.rs:669-673 | Waking everyone gives the empty reply exactly to the listed polls whose slot is free. |
| `RelaySystem.DropGuardKeepsHandOver` | native/engine/src/agent.rs:882-894 | A dropped poll leaves no queued command next to a parked poll. |
| `RelaySystem.EnterKeepsHandOver` | native/engine/src/agent.rs:898-911 | An entering poll parks only when nothing is queued. |
| `RelaySystem.ExitKeepsHandOver` | native/engine/src/agent.rs:660-675 | After a release no poll waits without a reply in its slot or a place in the list. |
| `RelaySystem.HandOverKept` | native/engine/src/agent.rs:743-921 | Every step keeps: queue and parked polls exclude each other, parked polls are distinct, unserved and unfinished, and no waiting poll is forgotten. |
| `RelayConservation.StepConserves` | native/engine/src/agent.rs:660-947 | No step changes for any command the balance: issued = queued + held by polls + handed over + withdrawn. |
| `RelayConservation.SettledKept` | native/engine/src/agent.rs:811-872 | Every issued call is pending or settled and never both. |
| `RelayConservation.Reachable` | native/engine/src/agent.rs:660-947 | The whole invariant holds in every state that any interleaving of calls, polls, drops, time-outs, abandons, results and release reaches. |
| `RelayConservation.OnePlace` | native/engine/src/agent.rs:660-921 | In every reachable state an enqueued command is in exactly one place, counted over queue, slots, polls about to return, returned batches and withdrawals: none is lost and none handed out twice. |
| `RelayConservation.NeverStarved` | native/engine/src/agent.rs:496-508 | In every reachable state a queued command and a parked poll never coexist and every parked slot is empty, so delivery is never refused. |
| `RelayConservation.LogsGrow` | native/engine/src/agent.rs:811-947 | What was handed over, withdrawn or settled stays so: a call is answered at most once. |
| `RelayConservation.WithdrawnStaysBack` | native/engine/src/agent.rs:812-818 | A command abandoned while queued is never handed over, in any continuation. |
| `RelayConservation.LateBatchDelivers` | native/engine/src/agent.rs:882-894 | A batch that lands after its poll has taken still reaches a later poll, as long as one waits unserved, is admitted or can still come. |
| `RelayConservation.StrandedForGood` | native/engine/src/agent.rs:653-675 | A command nobody is left for stays so: no continuation hands it over. |
| `RelayConservation.DeliverableIff` | native/engine/src/agent.rs:874-921 | A command not withdrawn can still be handed over exactly when it has been already, the launch is open, a poll is admitted or waits unserved, or a poll bears it. |
| `RelayConservation.OpenNeverStrands` | native/engine/src/agent.rs:822-921 | While the launch is open, every command not withdrawn can still be handed over. |
| `RelayConservation.LateCallIsStranded` | native/engine/src/agent.rs:834-864 | A call that sees the launch running can take the lock behind its release: its command is queued and never handed over. |
| `RelayConservation.GiveUpStopsIffNotHeld` | native/engine/src/agent.rs:759-760 | Giving up stops a command for good exactly when no poll holds it or nobody is left to take it. The comment at the cited lines says it always does; a command held in a slot can still be executed. |
| `RelayConservation.LateExecution` | native/engine/src/agent.rs:812-818 | A run from the start: a command is served to a parked poll, its call gives up and is settled as abandoned, and the poll then hands the command over. |
| `RelayOrder.CallExtendsPipeline` | native/engine/src/agent.rs:852-864 | With one live poll a call appends its command behind everything handed over, held and queued. |
| `RelayOrder.WithdrawKeepsOrder` | native/engine/src/agent.rs:812-818 | Withdrawing queued commands keeps the order of all others. |
| `RelayOrder.GiveUpKeepsOrder` | native/engine/src/agent.rs:812-818 | Abandoning a call keeps first-in first-out order of what is left. |
| `RelayOrder.ReturnKeepsOrder` | native/engine/src/agent.rs:916-921 | A batch that lands during a poll's return goes back to its place in the order. |
| `RelayOrder.HangUpKeepsOrder` | native/engine/src/agent.rs:874-894 | A dropped poll puts its batch back to its place in the order. |
| `RelayOrder.HandedInOrder` | native/engine/src/agent.rs:743-921 | While at most one poll is live, what is handed over, held and queued is what was issued and not withdrawn, in the order of the calls, across drops and put-backs. |
| `RelayOrder.TwoPollsCanSwap` | native/engine/src/agent.rs:898-921 | With two live polls the order can break: a run hands two commands over in the other order. |
| `CommandIds.Base36` | native/engine/src/agent.rs:601-613 | The digit loop computes the base-36 numeral. |
| `CommandIds.ValueOfNumeral` | native/engine/src/agent.rs:601-613 | Reading the numeral back gives the number. |
| `CommandIds.NumeralOfValue` | native/engine/src/agent.rs:601-613 | A digit string without a leading zero is the numeral of its value. |
| `CommandIds.CollideIffClockCutShort` | native/engine/src/agent.rs:615-623 | Two calls can get the same id exactly when the numeral of the reading with the later sequence number is a proper prefix of the other, followed by a digit other than zero. The comment promises unique ids. |
| `CommandIds.FreshWhileReadingsFollow` | native/engine/src/agent.rs:615-623 | Ids never repeat while the clock readings follow the sequence numbers. |
| `CommandIds.RepeatAfterStepBack` | native/engine/src/agent.rs:615-623 | Two concrete calls with one id, the later sequence number with an earlier reading. |
| `RelayIds.NumberedRunsAreEnabled` | native/engine/src/agent.rs:840-864 | In every run of the relay, in whatever order calls take the lock, the guard that command ids are fresh is met by ids made from distinct sequence numbers while the readings follow the numbers. |
| `GeoAddress.LessIsNumeric` | native/engine/src/geoip.rs:28-31 | One lexicographic compare of big-endian addresses is the numeric compare. |
| `GeoAddress.SuccIsPlusOne` | native/engine/src/geoip.rs:252-264 | The next address is one more, and there is none exactly after the last. |
| `GeoAddress.Increment` | native/engine/src/geoip.rs:253-264 | The byte loop over the array computes the next address, or nothing for all ones. |
| `GeoAddress.NumOfBytes` | native/engine/src/geoip.rs:28-31 | Every number below 256^n is the value of its n bytes. |
| `GeoIndex.TouchesIsNumeric` | native/engine/src/geoip.rs:266-272 | Two ranges touch exactly when the next starts at most one past the end. |
| `GeoIndex.SortedRowsSorts` | native/engine/src/geoip.rs:275-276 | Sorting orders rows by start and keeps exactly the given rows. |
| `GeoIndex.Merge` | native/engine/src/geoip.rs:275-289 | The in-place merging loop computes the merged ranges of the rows. |
| `GeoIndex.MergedCovers` | native/engine/src/geoip.rs:274-289 | For consistent rows or not, merging keeps which country each address is covered by. |
| `GeoIndex.MergedSeparated` | native/engine/src/geoip.rs:274-289 | When no address has two countries, merged ranges are ascending, disjoint and maximally joined. |
| `GeoLookup.Mapped` | native/engine/src/geoip.rs:243-250 | A mapped IPv4 address is recognized as such and gives its octets back. |
| `GeoLookup.MappedNum` | native/engine/src/geoip.rs:243-250 | Mapped addresses are those with a value in one range of 32 bits, in the order of the octets' values. |
| `GeoLookup.ParseRowIff` | native/engine/src/geoip.rs:291-316 | The fields of a row give it exactly when both addresses read in the family chosen by the colon, the end is not before the start and the code is two ASCII letters; the row has these letters in upper case, and is an IPv4 row exactly when both addresses are mapped. |
| `GeoLookup.KeptIff` | native/engine/src/geoip.rs:324-341 | A row is kept for a family exactly when some line whose code is not ZZ, in either case, gives it. |
| `GeoLookup.ParseCsv` | native/engine/src/geoip.rs:320-369 | The line loop builds the table of the kept rows, one merged section a family over one sorted list of codes. |
| `GeoLookup.IndexFits` | native/engine/src/geoip.rs:352-369 | Sorted upper-case codes are at most 676, so the 16-bit index of a code never wraps and leads back to it. |
| `GeoLookup.UpperBound` | native/engine/src/geoip.rs:34-42 | Bisection over ascending starts finds the upper bound. |
| `GeoLookup.LookupInSeparated` | native/engine/src/geoip.rs:372-388 | On separated ranges the one range before the upper bound decides. |
| `GeoLookup.SectionExactIffConsistent` | native/engine/src/geoip.rs:34-46 | A section answers every key like a linear scan of the file's lines exactly when no two lines that count for it give one address two codes. |
| `GeoLookup.LookupIsScan` | native/engine/src/geoip.rs:369-387 | An address is looked up as the code of any line of its family that covers its number, and not found when none does; every mapped address is of the IPv4 family, however it is written. |
| `GeoLookup.LaterRowHidesEarlier` | native/engine/src/geoip.rs:44-46 | The notes say that with overlaps the later-starting range wins; past its end the earlier range, which still covers the address, is not found at all. |
| `GeoTable.Encode` | native/engine/src/geoip.rs:141-165 | The writing loops produce the encoded table, or the error of the first limit passed. |
| `GeoTable.Decode` | native/engine/src/geoip.rs:200-234 | The reading loops produce the decoded table, or the error of the header or the length. |
| `GeoTable.DecodedIffLaidOut` | native/engine/src/geoip.rs:14-32 | A file is read as a table exactly when it is laid out as that table, byte by byte as the notes say: magic, little-endian counts, codes, IPv4 entries, IPv6 entries. |
| `GeoTable.EncodedIffLaidOut` | native/engine/src/geoip.rs:141-163 | A table is written as a file exactly when the file is laid out as the table and the counts keep their limits. |
| `GeoTable.RefusedBecause` | native/engine/src/geoip.rs:180-205 | Which of the four errors a file is refused with, by the bytes of its header and its length. |
| `GeoTable.DecodeInvertsEncode` | native/engine/src/geoip.rs:141-229 | Reading back any table that can be written gives the table, and the file is as long as its header says. |
| `GeoTable.EncodeInvertsDecodeIff` | native/engine/src/geoip.rs:141-229 | Writing what was read gives the same bytes exactly when there are at most 65535 countries, a limit only the writer has. |
| `GeoTable.ReaderTakesAnyCount` | native/engine/src/geoip.rs:200-229 | A table without ranges is read whatever its number of countries is, and written again up to 65535. |
| `DownloadFile.Disk.Finalize` | native/engine/src/download.rs:541-569 | Replacing the destination, keeping an identical one, and the recheck after a failed rename, as on the model's files. |
| `DownloadFile.Disk.WriteBody` | native/engine/src/download.rs:633-667 | The chunk loop appends to a resumed part or starts a new one, wherever the body ends. |
| `DownloadFile.Disk.Attempt` | native/engine/src/download.rs:594-698 | One attempt leaves the model's files and verdict. |
| `DownloadFile.Disk.Download` | native/engine/src/download.rs:571-701 | The whole attempt loop leaves the model's files and result. |
| `DownloadFile.HttpClient.ViaMirror` | native/engine/src/download.rs:375-420 | Mirror choice, fallback and the preference learned from it. |
| `DownloadSafety.HashGuardsDestination` | native/engine/src/download.rs:541-701 | With a hash, for any servers, faults and left-over files: the destination changes only to content with that hash, success means it has it, and failure leaves it untouched. |
| `DownloadSafety.WritingKeepsPrefix` | native/engine/src/download.rs:633-667 | At every moment of a body from a faithful server the part is a prefix of the resource, and a completed body makes it whole (sections 14.2 and 15.3.7 of RFC 9110). |
| `DownloadSafety.FaithfulDownload` | native/engine/src/download.rs:571-701 | Through any interruptions and 200, 206 and 416 answers: the part stays a prefix, the destination keeps its content or becomes the whole resource, and success with a hash, or with neither hash nor size, means it is the whole resource. |
| `DownloadOutcome.CompleteBodySucceeds` | native/engine/src/download.rs:571-701 | From any prefix of the resource and faithful servers, through interruptions and 416 answers, a download that is sent one complete body succeeds, and then the resource is in place (with a hash, or with neither hash nor size) and no part is left. |
| `DownloadOutcome.InterruptionKeepsBytes` | native/engine/src/download.rs:633-669 | After a body that broke off the part is the resource up to the last byte that came, and the next try goes on there. |
| `DownloadOutcome.NothingAsked` | native/engine/src/download.rs:578-592 | With a destination or a part that passes the check no server is asked. |
| `DownloadOutcome.RefusalEnds` | native/engine/src/download.rs:603-632 | A request that fails ends the download as network error or timeout, and a status other than 416 outside 200 to 299 with that status; nothing on the disk changes. |
| `DownloadOutcome.UnfitPartIsDropped` | native/engine/src/download.rs:618-629 | A 416 throws a part away that does not pass the check, and the next try starts from nothing. |
| `DownloadOutcome.BodyEndsOrRetries` | native/engine/src/download.rs:637-670 | A disk that fails ends the download with an I/O error, and a body that breaks off is tried again from what the part holds. |
| `DownloadOutcome.WrongBodyEnds` | native/engine/src/download.rs:671-697 | A complete body of the wrong hash, or without a hash of the wrong size, ends the download with that mismatch, and the part is thrown away. |
| `DownloadOutcome.RightBodyEnds` | native/engine/src/download.rs:541-569 | A complete body that passes is put in place unless the same bytes are there already; when the rename fails the download succeeds exactly if the file there passes. |
| `DownloadSafety.SizeOnlyGivesSize` | native/engine/src/download.rs:583-585 | With only a size, success means a file of that size. |
| `DownloadSafety.SizeOnlyKeepsOldBytes` | native/engine/src/download.rs:583-585 | With only a size, an old file of that size with other bytes is taken for the download. |
| `DownloadSafety.MirrorKeepsGuarantees` | native/engine/src/download.rs:375-420 | The guarantees hold across a switch to the mirror, which continues the same part. |
| `DownloadSafety.FallsBackIffOutage` | native/engine/src/download.rs:14-18 | The second host is asked exactly after a failure that is neither a wrong hash nor a status below 500. |
| `DownloadSafety.DiskFaultFallsBack` | native/engine/src/download.rs:14-18 | The notes say only a network error or a 5xx falls through to the mirror; a local disk failure does too. |
| `DownloadOutcome.SecondHostDecides` | native/engine/src/download.rs:407-420 | Once the second host is asked its outcome is the outcome, and a local failure there is reported as a network error. |
| `DownloadSafety.PreferredIff` | native/engine/src/download.rs:386-406 | However requests overlap, a host's mirror is preferred exactly when the last request to fall back had asked the primary first, less than the sticky time ago. |
| `DestLockTable.LockTable.Clone` | native/engine/src/download.rs:516-519 | Taking a lock gives the destination's lock, made on first use, with one more reference. |
| `DestLockTable.LockTable.Make` | native/engine/src/download.rs:518 | A new lock is shared by the table and its first caller. |
| `DestLockTable.LockTable.Release` | native/engine/src/download.rs:521-527 | Releasing removes the entry when at most two references are left, and drops the table's own. |
| `DestLocks.ReleaseRemovesIffAlone` | native/engine/src/download.rs:521-527 | A release removes the entry exactly when no other task holds a clone of the lock. |
| `DestLocks.ReleaseKeepsSharing` | native/engine/src/download.rs:521-527 | After a release every working task still has the lock that is in the table. |
| `DestLocks.InvKept` | native/engine/src/download.rs:516-539 | Every step of taking, locking, releasing, dropping and cancelling keeps reference counts and sharing. |
| `DestLocks.MutualExclusion` | native/engine/src/download.rs:529-539 | In every interleaving at most one task is inside the critical section of a destination. |
| `DestLocks.OneLockPerDestination` | native/engine/src/download.rs:516-539 | All tasks working on a destination share one lock, the one in the table. |
| `DestLocks.EntryLeftIff` | native/engine/src/download.rs:516-539 | In every run a lock has an entry in the table exactly when no task that alone held the lock has released it. |
| `DestLocks.EntryCanBeLeft` | native/engine/src/download.rs:521-539 | A run after which all tasks are gone and the entry is still in the table: two releases before either clone is dropped. |
| `DestLocks.CancelledTaskLeavesEntry` | native/engine/src/download.rs:531-537 | One cancelled download drops its clone without a release, and its entry stays. |
| `ClientConfig.Merge` | native/engine/src/client.rs:161-167 | The insert loop overlays one object on another. |
| `ClientConfig.CoerceEntry` | native/engine/src/client.rs:169-179 | A feature entry is read over its defaults; a bare boolean sets `enabled`, and junk counts as missing. |
| `ClientConfig.NormalizeFeatures` | native/engine/src/client.rs:195-213 | The two loops give the features view: registered ones over their defaults, other entries that look like features, and no others. |
| `ClientConfig.Normalize` | native/engine/src/client.rs:181-226 | Normalizing computes the view field by field. |
| `ClientConfig.Patch` | native/engine/src/client.rs:530-580 | Patching a raw file overlays the patch's objects on the file's own. |
| `ClientConfig.PatchFeatures` | native/engine/src/client.rs:550-570 | The feature loop overlays each patched entry on the file's entry, a bare boolean read as `enabled`. |
| `ClientConfig.SeedEntry` | native/engine/src/client.rs:325-345 | A feature entry is replaced exactly when it is missing, a bare boolean, or lacks a default. |
| `ClientConfig.SeedFeatures` | native/engine/src/client.rs:325-345 | Seeding fills every registered feature and tells whether any entry changed. |
| `ClientConfig.Seed` | native/engine/src/client.rs:308-370 | Seeding computes the seeded file and whether it is written. |
| `ClientConfigLaws.DeepEqualReflexive` | native/engine/src/client.rs:138-148 | Every value is equal to itself. |
| `ClientConfigLaws.CoerceOverlay` | native/engine/src/client.rs:169-179 | Reading a patched entry is overlaying the patch on the entry as read, whatever shape it had. |
| `ClientConfigLaws.SuiteOverlayIff` | native/engine/src/client.rs:185-194 | The suite view follows an overlay exactly when it gives `enabled` as a boolean or not at all. |
| `ClientConfigLaws.PatchIsOverlay` | native/engine/src/client.rs:537-580 | For any file and any accepted patch: normalizing the patched file is overlaying the patch on the normalized view, for suite, every feature, macros and personalization. |
| `ClientConfigLaws.PatchKeepsTheRest` | native/engine/src/client.rs:537-580 | What a patch does not name stays as it was in the file: top-level keys it cannot name, keys of suite and personalization, and feature entries. |
| `ClientConfigLaws.NormalizedTwice` | native/engine/src/client.rs:181-226 | Normalizing a normalized view changes nothing. |
| `ClientConfigFields.ViewReads` | native/engine/src/client.rs:169-226 | The normalized object field by field, for any file: the file's value where it has one that counts, and otherwise the registry's default for a registered feature, off for another one, and the fixed defaults elsewhere. |
| `ClientConfigFields.PatchWrites` | native/engine/src/client.rs:537-580 | After a patch the file says what the patch says, a bare boolean counting as `enabled`, and otherwise what it said before; an old schema is renewed. |
| `ClientConfigFields.PatchRefusedIff` | native/engine/src/client.rs:434-487 | Which part a patch is refused for: the first, in a fixed order, of the wrong shape. |
| `ClientConfigLaws.FilledSettles` | native/engine/src/client.rs:325-345 | A filled entry needs no filling any more. |
| `ClientConfigLaws.SeedIsIdempotent` | native/engine/src/client.rs:308-370 | A second seed with the same launcher settings writes nothing and leaves the file as it is. |
| `ClientConfigFields.LaunchWritesIff` | native/engine/src/client.rs:308-370 | A launch writes the file exactly when it lacks something: a schema, the suite switch, a default of a registered feature, a list of macros, or the launcher's personalization. |
| `ClientConfigFields.LaunchFillsFeatures` | native/engine/src/client.rs:323-340 | After a launch every registered feature is an object with the file's values, and the registry's defaults for the rest. |
| `ClientConfigFields.LaunchFillsRest` | native/engine/src/client.rs:311-364 | After a launch theme and motion are the launcher's, HUD theme and background are the file's or the default, the suite has its switch, the macros are a list, and an old schema means the current one. |
| `ClientConfigLaws.SeedKeepsView` | native/engine/src/client.rs:308-370 | Seeding leaves the normalized suite, features and macros view unchanged. |
| `ClientConfigLaws.SeedKeepsUnknownKey` | native/engine/src/client.rs:308-370 | Seeding keeps every top-level key it does not know. |
| `ClientConfigLaws.SeedKeepsInnerKey` | native/engine/src/client.rs:308-370 | Seeding keeps unknown keys inside suite and personalization. |
| `ClientConfigLaws.SeedKeepsFeatureKey` | native/engine/src/client.rs:325-345 | Seeding keeps every key inside a feature object, and the entry of an unregistered feature as it is, of whatever kind. |
| `PresenceBridge.Bridge.Visible` | native/engine/src/bridge.rs:211-249 | One call: what is shown, queued and dropped from the cache for the first thousand distinct well-formed ids, and whether a flush is to be scheduled. |
| `PresenceModel.Asked` | native/engine/src/bridge.rs:217-221 | The ids asked for are the well-formed ones, each once. |
| `PresenceModel.ShownIff` | native/engine/src/bridge.rs:222-232 | A player is shown exactly when asked for and freshly cached as present. |
| `PresenceLaws.ShownAsAnswered` | native/engine/src/bridge.rs:222-232 | From a query to a later call: for sixty seconds from the answer a player is shown exactly with the profile of the last record for it, and not at all when there is none. |
| `PresenceLaws.ShownInOrder` | native/engine/src/bridge.rs:217-232 | Players are shown in the order they were asked for, each once. |
| `PresenceLaws.AskedInOrder` | native/engine/src/bridge.rs:217-221 | Ids are asked for in the order of their first places in the call. |
| `PresenceModel.QueuedHas` | native/engine/src/bridge.rs:234-242 | A pair is pending after a call exactly when it was before, or this account asked for a player not freshly cached. |
| `PresenceLaws.InsertAsker` | native/engine/src/bridge.rs:239-242 | A player who waits keeps its place, and an account that asks for it comes behind those that asked before. |
| `PresenceLaws.InsertPlayer` | native/engine/src/bridge.rs:239-242 | A player who does not wait yet comes last. |
| `PresenceModel.GroupsHoldThePairs` | native/engine/src/bridge.rs:287-298 | Grouping by account keeps every pending pair and invents none, one group an account. |
| `PresenceLaws.RoundTakesFirst` | native/engine/src/bridge.rs:286-301 | A round takes for every account the first hundred players it asked for, in the order of the queue. |
| `PresenceLaws.LaterAccountsBehind` | native/engine/src/bridge.rs:292-298 | Accounts are served in the order of their first waiting player. |
| `PresenceModel.RemoveAllHas` | native/engine/src/bridge.rs:302-312 | Taking a batch removes exactly its pairs. |
| `PresenceLaws.RemoveAt` | native/engine/src/bridge.rs:302-312 | Taking a pair off leaves all other players and askers in their order, and a player nobody asks for any more is gone. |
| `PresenceBridge.Bridge.TakeBatch` | native/engine/src/bridge.rs:302-312 | The removal loop is the model's. |
| `PresenceBridge.Bridge.QueryOnce` | native/engine/src/bridge.rs:342-389 | The answer loops cache what the model says. |
| `PresenceModel.AnswerCachesBatch` | native/engine/src/bridge.rs:342-389 | After a query every player of the batch is cached for a full time to live, as present exactly when the service listed them, and an error makes all of them absent. |
| `PresenceLaws.AnswerGivesProfile` | native/engine/src/bridge.rs:355-372 | After a query every listed player is cached with the profile of the last record for it, for sixty seconds. |
| `PresenceLaws.AnswerGivesAbsence` | native/engine/src/bridge.rs:373-388 | Every player asked for and not listed is cached as absent for sixty seconds, as all of them after an error; nobody else is touched. |
| `PresenceBridge.Bridge.Round` | native/engine/src/bridge.rs:300-319 | One round takes a batch of every account off the queue and queries those whose session is found, with an answer and a clock reading of its own for each; queue, cache and number of queries are stated exactly. |
| `PresenceModel.RoundProgresses` | native/engine/src/bridge.rs:285-322 | A round makes the queue shorter, and every pair it takes off is cached or belongs to an account just found without a session. |
| `PresenceBridge.Bridge.Flush` | native/engine/src/bridge.rs:277-333 | Without new calls a flush ends, whatever sessions, answers and clock do meanwhile: a pair that left is cached or its account was found without a session, what is left belongs to such accounts, and it asks to be scheduled again exactly when something is left. |
| `PresenceModel.RoundEmptiesIff` | native/engine/src/bridge.rs:300-322 | A round without any session empties the queue exactly when no account asked for more than one batch; the comment says every queued player is dropped. |
| `PresenceModel.OneCallLeavesIff` | native/engine/src/bridge.rs:300-322 | One call that asks for up to a thousand players at once leaves pairs after such a round exactly when it asks for more than a hundred. |
| `PresenceSystem.InvKept` | native/engine/src/bridge.rs:211-333 | Every step with a runtime at hand keeps one flush at a time and someone coming for pending pairs. |
| `PresenceSystem.NeverStranded` | native/engine/src/bridge.rs:251-333 | In every interleaving of calls, timers and flushes a pending pair has a running flush, an armed timer, or a task about to schedule or flush. |
| `PresenceSystem.ScheduleServesIff` | native/engine/src/bridge.rs:251-272 | Scheduling leaves pending pairs with nobody coming exactly when no async runtime is at hand and nothing else was under way. |
| `PresenceSystem.StrandedOutsideRuntime` | native/engine/src/bridge.rs:255-257 | A run from the start: one call, scheduled outside the runtime, leaves its pair with every task settled. |
| `PresenceLaws.NeverTwoTimers` | native/engine/src/bridge.rs:251-272 | In no interleaving two timers are armed at once. |
| `PresenceSystem.QuietRunsEnd` | native/engine/src/bridge.rs:277-333 | However tasks interleave, a run without new calls is bounded by the pairs and tasks it starts with. |
| `PresenceSystem.AlwaysDrains` | native/engine/src/bridge.rs:251-333 | From every such state a run without new calls settles all tasks with the queue empty. |
| `PresenceSystem.NothingLeftBehind` | native/engine/src/bridge.rs:251-333 | Whenever all tasks have settled, nothing is pending. |
| `PresenceSystem.LeavesInABatch` | native/engine/src/bridge.rs:300-314 | A pair leaves the queue only in a batch, which is queried unless its account has no session. |
| `PresenceSystem.BatchIsCached` | native/engine/src/bridge.rs:342-389 | Once an answer is in, every player of the batch is cached, as present exactly when listed, for a full time to live. |
| `PresencePace.SpacedWhileRoundsWait` | native/engine/src/bridge.rs:300-319 | On every timed run queries are at least three seconds apart, as long as each round that finds something pending starts three seconds after the last query. |
| `PresencePace.NextSpacedIff` | native/engine/src/bridge.rs:17-18 | The next query comes at least three seconds after the last one in every continuation exactly when that time is over, the flush will pause because something is pending, or the flush has no query to come and no task can begin another before. The notes promise it always. |
| `PresencePace.QueriesTooSoon` | native/engine/src/bridge.rs:314-318 | A run from the start to a query with nothing else pending, which a second query can follow at once. |
| `EventPump.DispatchedOnceInOrder` | native/app/src/bridge.rs:176-209 | In every interleaving of push, swap, post, lowering and take, the dispatched events are a prefix of the received ones, and the rest is in hand or queued, in order. |
| `EventPump.QueueIsServed` | native/app/src/bridge.rs:192-206 | A non-empty queue always has a taker coming, and there is never more than one closure waiting. |
| `EventPump.QuietRunsEnd` | native/app/src/bridge.rs:192-206 | Without new events every run ends. |
| `EventPump.StepUntilSettled` | native/app/src/bridge.rs:192-206 | Until both sides rest some step is possible. |
| `EventPump.AllDispatchedAtRest` | native/app/src/bridge.rs:176-209 | At rest every received event has been dispatched, once and in order. |
| `EventPump.PostServesIff` | native/app/src/bridge.rs:197-205 | In every continuation the queue always has a taker coming exactly when the post is accepted. |
| `EventPump.RefusalIsFinal` | native/app/src/bridge.rs:197-205 | The refusal of a post is ignored: the flag stays up for good, no closure is ever posted again, and all that is still dispatched is the batch in hand, or the one that a closure under way has yet to take. |
| `EventPump.FirstPostRefused` | native/app/src/bridge.rs:192-205 | A run that gets there: the first event is queued, its closure is refused, and nobody comes for it. |
| `DiscordAuthModel.Swept` | native/engine/src/discord_auth.rs:94-97 | The sweep removes exactly the states past their time to live. |
| `DiscordAuthState.DiscordAuth.Start` | native/engine/src/discord_auth.rs:148-171 | A fresh state is registered after a sweep. |
| `DiscordAuthState.DiscordAuth.Begin` | native/engine/src/discord_auth.rs:217-264 | A redirect starts an exchange exactly for a state that is known, unused, not in flight and not expired, marks it in flight, and otherwise changes nothing and says why. |
| `DiscordAuthState.DiscordAuth.Sweep` | native/engine/src/discord_auth.rs:94-97 | Sweeping removes exactly the expired states. |
| `DiscordAuthState.DiscordAuth.Conclude` | native/engine/src/discord_auth.rs:280-322 | The end of a callback: a failure drops the state, a link outcome is attached to it, and a plain sign-in stores its session and attaches that. |
| `DiscordFlows.FailureConcludes` | native/engine/src/discord_auth.rs:280-288 | A failed exchange step leaves the tables as the end of its callback does. |
| `DiscordFlows.SuccessConcludes` | native/engine/src/discord_auth.rs:289-322 | The steps of a successful exchange, with nothing but time in between, leave the tables as the end of its callback does. |
| `DiscordAuthState.DiscordAuth.ClaimUser` | native/engine/src/discord_auth.rs:175-208 | A claim sweeps, takes an outcome out of the table for good, looks its session up, waits while there is none, and is invalid for an unknown state. |
| `DiscordAuthState.DiscordAuth.TakeClaim` | native/engine/src/discord_auth.rs:175-208 | The part of a claim under the states lock. |
| `DiscordAuthState.DiscordAuth.SessionUser` | native/engine/src/discord_auth.rs:348-360 | A session answers within its time to live and is removed after it. |
| `DiscordAuthModel.LoggedOut` | native/engine/src/discord_auth.rs:362-367 | After a log-out a session id belongs to nobody, for a claim and for a look-up, and every other id is as before. |
| `DiscordFlows.StartedNotAdmitted` | native/engine/src/discord_auth.rs:238-251 | A state whose exchange was started is never admitted again. |
| `DiscordFlows.InvKept` | native/engine/src/discord_auth.rs:148-323 | Every step of minting, redirects, exchanges, storing, attaching, claims, sweeps and time keeps the table in line with the exchanges. |
| `DiscordFlows.OneExchangePerState` | native/engine/src/discord_auth.rs:217-264 | Over whole runs with sweeps, duplicate redirects and failures, a minted state starts at most one code exchange. |
| `DiscordFlows.OneOkClaimPerState` | native/engine/src/discord_auth.rs:173-208 | A state's outcome is taken by at most one claim. |
| `DiscordFlows.OkReportsOwnUser` | native/engine/src/discord_auth.rs:217-323 | A claim told `ok` reports the user of its own state's exchange, as a link exactly when the state was minted for an account id with a flat form. |
| `DiscordAuthModel.FlatIff` | native/engine/src/identity.rs:51-55 | An account id has a flat form exactly when its characters other than dashes are 32 hexadecimal digits, and then it is just these in lower case. |
| `DiscordLaws.OkLinksMintedAccount` | native/engine/src/discord_auth.rs:217-323 | The same said of the characters: a claim told `ok` links the 32 digits of the id its state was minted with, in lower case, when it has them, and is a session otherwise; either way with its own exchange's user. |
| `DiscordLaws.AdmittedIff` | native/engine/src/discord_auth.rs:230-264 | In every reachable state a redirect is admitted exactly for a known state at most fifteen minutes old whose exchange was not started. |
| `DiscordLaws.MintedLasts` | native/engine/src/discord_auth.rs:148-171 | A state just minted admits a redirect, and keeps its claims waiting, for fifteen minutes. |
| `DiscordLaws.OutcomeLasts` | native/engine/src/discord_auth.rs:175-208 | An outcome can be claimed, with its own account or session and user, for fifteen minutes from its attachment. |
| `DiscordLaws.SessionLasts` | native/engine/src/discord_auth.rs:348-360 | A session answers its user for thirty days and nobody after. |
| `DiscordLaws.TakeTells` | native/engine/src/discord_auth.rs:175-208 | The two locked steps of a claim in the flows tell what the claim's handler answers. |
| `DiscordFlows.PendingIffNotExpired` | native/engine/src/discord_auth.rs:257-259 | Until the outcome of an exchange is attached a claim is told to wait exactly while the state is known and not expired, and is told `invalid` otherwise; the comment says it always waits. |
| `DiscordFlows.InvalidThenOk` | native/engine/src/discord_auth.rs:257-259 | With its state gone, a claim in the middle of an exchange is told `invalid`, and `ok` once the exchange attaches its outcome. |
| `DiscordFlows.OvertakenIsReached` | native/engine/src/discord_auth.rs:94-97 | A run that gets there: a state is minted, its exchange starts, the state expires and a sweep removes it. |
| `DiscordFlows.ToldInvalidThenOk` | native/engine/src/discord_auth.rs:257-259 | From the end of that run a claim is told `invalid`, and later `ok`. |
| `NaturalOrder.TakeRun` | native/engine/src/backgrounds.rs:232-239 | The inner loop takes the whole digit run. |
| `NaturalOrder.RunsCompareByValue` | native/engine/src/backgrounds.rs:240-245 | Comparing trimmed runs by length and then as text compares the numbers they write, of any size. |
| `NaturalOrder.NaturalCmp` | native/engine/src/backgrounds.rs:224-257 | The loop compares names as sequences of characters and digit-run values. |
| `NaturalOrderLaws.LessIff` | native/engine/src/backgrounds.rs:224-257 | A name comes first exactly when its tokens are a proper beginning of the other's, or lower where they part: characters by code, numbers by value, and a number among characters where the digits are. |
| `NaturalOrderLaws.NumberDecides` | native/engine/src/backgrounds.rs:223-257 | After the same beginning the smaller number decides, however it is written and whatever follows: frame2 comes before frame10. |
| `NaturalOrderLaws.TokensConcat` | native/engine/src/backgrounds.rs:232-255 | Names put together have their tokens put together, unless a digit run goes on. |
| `NaturalOrder.NamesReversible` | native/engine/src/backgrounds.rs:223-257 | Swapping the names swaps the answer, and names are equal exactly when they split into the same characters and values. |
| `NaturalOrder.NamesTransitive` | native/engine/src/backgrounds.rs:223-257 | The order is transitive, and two steps are equal together exactly when each is. |
| `PackIds.SlugFor` | native/engine/src/backgrounds.rs:108-127 | The loop with its dash flag computes the slug. |
| `PackIds.SlugIsValid` | native/engine/src/backgrounds.rs:57-63 | Every name gets a valid id, and the fallback exactly when it has no letter or digit. |
| `PackIdLaws.SlugIsJoined` | native/engine/src/backgrounds.rs:108-127 | An id is the stretches of letters and digits of the name with single dashes between them, cut at 32 characters, and "pack" when there are none. |
| `PackIds.SlugTwiceIff` | native/engine/src/backgrounds.rs:108-127 | A slug is its own slug exactly when the length limit did not cut it right after a dash. |
| `PackIds.UniquePackId` | native/engine/src/backgrounds.rs:129-144 | A free slug is the id; otherwise the smallest free number from 2 to 999 is added, and the random suffix exactly when all of them are taken. |
| `PackIds.NumberedIsValid` | native/engine/src/backgrounds.rs:135-140 | A numbered id still keeps the rule for ids. |
| `PackIdLaws.NumberedReadsBack` | native/engine/src/backgrounds.rs:135-140 | The number added to an id reads back as that number, so different numbers give different ids. |
| `Loadout.ValidateLoadout` | native/engine/src/cosmetics.rs:149-196 | The loops report the first offending entry in input order, and only then a broken rule; otherwise every slot is filled in. |
| `LoadoutLaws.RefusedIff` | native/engine/src/cosmetics.rs:145-196 | A candidate is refused for its first entry that is not fine, with the reason of that entry, and only when all are fine for a clash; it is accepted in all other cases. |
| `LoadoutLaws.FilledSays` | native/engine/src/cosmetics.rs:154-183 | An accepted slot has what the last entry for it says. |
| `LoadoutLaws.AcceptedSlots` | native/engine/src/cosmetics.rs:154-183 | What is accepted has exactly the slots of the catalogue. |
| `Loadout.SanitizeLoadout` | native/engine/src/cosmetics.rs:201-230 | The clean-up loops over entries and over rules compute the sanitized loadout. |
| `Loadout.RulesHold` | native/engine/src/cosmetics.rs:218-228 | A rule once applied stays respected whatever later rules take off. |
| `Loadout.SanitizedClean` | native/engine/src/cosmetics.rs:199-230 | The result has every slot, only fitting and allowed items, and breaks no rule. |
| `LoadoutLaws.GrantedIff` | native/engine/src/cosmetics.rs:206-217 | Before the rules a slot has the last item stored for it that exists, belongs there and is free or has its flag, and nothing when there is none. |
| `LoadoutLaws.WornUnlessBlocked` | native/engine/src/cosmetics.rs:218-228 | An item granted is worn in the end unless a rule blocks it when its turn comes, the rules being taken first to last. |
| `LoadoutLaws.FirstRuleWins` | native/engine/src/cosmetics.rs:218-228 | Of two items that block each other the one whose rule comes first stays. |
| `LoadoutLaws.NothingBlocked` | native/engine/src/cosmetics.rs:218-228 | In the end no item is worn that a rule blocks. |
| `Loadout.UnchangedIffClean` | native/engine/src/cosmetics.rs:199-230 | The clean-up leaves exactly the clean loadouts alone. |
| `Loadout.AcceptedIffClean` | native/engine/src/cosmetics.rs:145-196 | Validation accepts a full loadout unchanged exactly when it is clean and names no empty id. |
| `Loadout.SanitizedIsAccepted` | native/engine/src/cosmetics.rs:145-230 | With a catalogue of non-empty ids and any flags, whatever is stored, the cleaned loadout is accepted unchanged. |
| `Loadout.AcceptedIsUnchanged` | native/engine/src/cosmetics.rs:145-230 | Whatever validation accepts is left alone by the clean-up. |
| `Loadout.SanitizeIsIdempotent` | native/engine/src/cosmetics.rs:201-230 | Cleaning twice is cleaning once. |
| `FrameReader.ReadFrame` | native/app/src/single_instance.rs:277-297 | However the stream comes in chunks, the answer is that of the bytes that arrive in time. |
| `FrameReader.FrameIff` | native/app/src/single_instance.rs:275-297 | A frame is read exactly when the bytes start with it and a newline, it has no newline and is at most 65536 bytes long. |
| `FrameReader.CutsDoNotMatter` | native/app/src/single_instance.rs:277-297 | Any cut of a stream into reads of up to 4096 bytes delivers the same bytes. |
| `FrameReader.FrameIsFinal` | native/app/src/single_instance.rs:285-291 | A complete frame does not depend on what follows. |
| `InstanceState.Shared.Take` | native/app/src/single_instance.rs:79-97 | The reply to a second launch in each state; only a starting instance keeps it. |
| `InstanceState.Shared.Ready` | native/app/src/single_instance.rs:112-121 | Becoming ready hands out exactly the queued launches, once, and does not reopen a closing instance. |
| `InstanceRuns.NoneDroppedIff` | native/app/src/single_instance.rs:20-22 | Launches answered `ok` are all served or queued, in order, exactly when the instance never closes with launches still queued. The notes say a launch is never dropped silently. |
| `InstanceRuns.ClosedWhileStarting` | native/app/src/single_instance.rs:121-124 | The shortest run that drops one: a launch is answered `ok`, and the instance closes before it is ready. |
| `InstanceRuns.ClosingIsFinal` | native/app/src/single_instance.rs:76-96 | Once it closes an instance stays closing, also when it becomes ready later, and accepts at most the calls under way. |
| `InstanceRuns.ReadyUntilClosed` | native/app/src/single_instance.rs:107-124 | Once ready, an instance hands launches to its handler until it closes. |
| `Router.EncodeComponent` | native/app/src/router.rs:81-92 | The byte loop computes the encoded text. |
| `RouterLaws.ByteIsWritten` | native/app/src/router.rs:80-92 | A byte is kept when it is a letter, a digit or one of nine marks, and otherwise written as a percent sign and two upper-case digits. |
| `RouterLaws.EncodedConcat` | native/app/src/router.rs:81-92 | Texts are written byte by byte. |
| `Router.PercentDecode` | native/app/src/router.rs:100-117 | The index loop computes the decoded text, or the input when the bytes are not UTF-8. |
| `RouterLaws.EscapeIsRead` | native/app/src/router.rs:104-113 | A percent sign and two hexadecimal digits of either case read as their byte; a plus sign in place of the first counts as zero. |
| `RouterLaws.OtherIsRead` | native/app/src/router.rs:104-114 | Any other character reads as itself. |
| `RouterLaws.Utf8Iff` | native/app/src/router.rs:116 | Bytes are taken for text exactly when they are code points in the encoding of section 3 of RFC 3629, none of them a surrogate and each in its shortest form. |
| `Router.RoundTripIffText` | native/app/src/router.rs:80-117 | Decoding undoes encoding on every UTF-8 text; other bytes come back encoded. |
| `Router.StandardIffNoSignedEscape` | native/app/src/router.rs:99-117 | The decoder gives what one following section 2.1 of RFC 3986 gives, with the same fallback, exactly on texts without a percent sign, a plus sign and a hexadecimal digit in a row, and on those whose decoded bytes are not UTF-8: the number parser takes the plus as a sign. |
| `Router.SignedEscapeDecodes` | native/app/src/router.rs:106-113 | `%+5` decodes to one byte where the standard keeps its three characters; in `%+5%FF` the fallback hides the difference. |
| `Router.InstanceRouteParses` | native/app/src/router.rs:45-97 | Parsing an instance's route gives its name and an empty query, and the Instance page exactly when the name is not empty. |
| `RouterLaws.QueryAfterMark` | native/app/src/router.rs:53-54 | The query is what follows the first question mark, and has no say in the page. |
| `RouterLaws.SegmentsSplit` | native/app/src/router.rs:55 | A path is split at its slashes, and what is empty between two of them does not count. |
| `RouterLaws.FirstTwoLead` | native/app/src/router.rs:56-76 | Only the first two segments say where a path leads. |
| `RouterLaws.Pages` | native/app/src/router.rs:59-76 | Which page each of the fixed paths leads to, and that every other path leads home. |
| `Router.RoutesAreDistinct` | native/app/src/router.rs:94-97 | Different names have different routes. |

## Left out

- HTTP, TLS, sockets, processes, files and user interface: their outcomes are answers, faults and steps.
- Cryptography: a hash is any function; collision-freedom is assumed only where a lemma says so.
- JSON, CSV and address text: the model starts from parsed values. Object keys are unordered, as they are for comparison.
- Lower-casing and accent tables: names arrive lower-cased, and for pack ids with accents folded.
- Relay registration: looking a launch up by its key is left out; its `running` flag and the checks of it before the lock are steps of the system and have no field in `AgentLaunch.LaunchInner`.
- Relay payloads: the text of a result or an error is not carried, only which way a call was settled.
- DownloadSafety.FaithfulDownload: takes for granted that a hash given is the resource's, that hashing reads the whole file, and that a body marked complete is complete (the HTTP library checks the length).
- Download progress callbacks, retries of small fetches and batch downloads: easy beside the loop modelled.
- DownloadFile.Disk.Download: the files are one object; other programs writing to them at the same time are not modelled.
- DestLocks.MutualExclusion: a lock is granted in any order; fairness is not modelled.
- ClientConfig.Patch: takes a patch of accepted shape; the limits on macro fields and on personalization values are left out, being a chain of field checks.
- Client configuration files: reading and writing are left out; registry and defaults are parameters.
- PresenceBridge.Bridge.Flush: no new calls arrive while it runs (they may in `PresenceSystem`).
- PresencePace.NextSpacedIff: one monotone clock stands for the wall clock and the timer's; the sleeps take at least their length; cancelling on shutdown is left out.
- Presence launch registry and request signatures: look-ups and cryptography.
- EventPump.AllDispatchedAtRest: counts events from the moment they are received; events the broadcast channel skipped for a slow receiver never were.
- DiscordAuthState.DiscordAuth.Conclude: its two locked blocks follow each other; other handlers run between them in `DiscordFlows`.
- DiscordFlows.OneExchangePerState: outside mock mode, with random ids never drawn twice; the user file and the exchange's own requests are left out, and `SessionUser` and log-out appear as sessions that may vanish at any time.
- Loadout order: slots of a loadout carry no order in the model, so the order of the answer's slots is not stated.
- NaturalOrder.NaturalCmp: sorting itself is the library's.
- FrameReader.ReadFrame: the deadline is the point where reads stop; its length is not stated.
- InstanceRuns.NoneDroppedIff: the retry loop of a second launch and the port file are left out.
- Router history, hooks and query parameters: they would add only easy members.
- Grants, accounts, emotes, textures, themes, toasts, logging, translations, mods, Java and ffmpeg provisioning: process and file plumbing, or floating point.
