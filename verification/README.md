# A verified model of phosphor-logging

phosphor-logging keeps the error logs of a BMC and, with its openpower-pels
extension, the Platform Event Logs (PELs) that go with them. This project models
its most intricate parts in Dafny and proves what they promise, for all inputs and
over all runs.

| file | what it models |
|---|---|
| `RepositoryState.dfy`, `SeverityTable.dfy`, `RepositoryRuns.dfy` | the PEL repository, its seven size counters, which severities they count where, and whole lives of it |
| `Pruning.dfy`, `PruningOrder.dfy`, `Archive.dfy`, `Repository.dfy` | pruning in five stages of four passes, which PELs that removes, the archive it fills, and the repository object |
| `NotifierState.dfy`, `NotifierProofs.dfy`, `HostNotifier.dfy` | the protocol that tells the host about PELs, and the object that runs it |
| `NotifierLoss.dfy`, `NotifierStalls.dfy`, `NotifierRuns.dfy`, `NotifierWitnesses.dfy` | which events lose a PEL or stall it, whole runs, and runs that go wrong |
| `NotifierOrder.dfy`, `NotifierControl.dfy` | the order in which the host hears of PELs, and what each event does to counts, flags and timers |
| `RepositoryView.dfy` | the repository as the notifier sees it |
| `PldmInterface.dfy` | the life of one PLDM command |
| `Bytes.dfy`, `Stream.dfy`, `Fields.dfy`, `Sequences.dfy` | network byte order, the byte stream, runs of fields, find and erase |
| `CalloutFormat.dfy`, `CalloutReprint.dfy`, `CalloutLayout.dfy`, `CalloutBuilding.dfy`, `CalloutList.dfy`, `CalloutStreams.dfy` | callouts: bytes, printing them again, their layout by index, construction, the list in an SRC, and the loops on streams |
| `Sections.dfy`, `PelFormat.dfy`, `PelLayout.dfy`, `PelGrowth.dfy`, `PelBuilding.dfy`, `PelFacts.dfy`, `PelStreams.dfy` | the sections of a PEL, the whole PEL, its layout by index, its 16 KB cap, building one, and what its bytes then show |
| `BcdTime.dfy` | binary coded decimal |
| `LogState.dfy`, `LogRules.dfy`, `LogManager.dfy`, `BmcPosition.dfy` | the native log manager and its entry IDs |
| `ErrorOrder.dfy`, `ErrorRounds.dfy` | the ordering of inherited errors in the code generator, and the order it comes to |
| `RsyslogConfig.dfy` | the rsyslog configuration line, written and parsed |

Where the source changes objects in place, the model has a state datatype with
functions for the operations, on which the properties are proved, and a class
whose methods, loops included, are proved to do just what those functions say.
Beside the functions stand descriptions that do not use them: tables of severities,
layouts by byte index, rules by the stored fields alone. The functions are proved to fit
these, and where it matters to be the only ones that do.
`Result` stands for a C++ call that may throw; `std::map` keyed by a PEL ID is an
ascending sequence, so that its iteration order is part of the model.

What the environment decides is a parameter or an event: the host's replies and
state, timers firing, what the file system and the PLDM libraries answer, what extensions prohibit, clock
values, the result of `inet_pton` and `getaddrinfo`.

## What turned out false, and when it holds

- A PEL whose ID is already stored is counted without being stored: the counters
  are right exactly for new IDs (`IndexAgreesIffFresh`, `RunValidIffNeverRepeats`), and after
  startup exactly if no two files with content share one (`RestoreAgreesIffNoRepeats`).
- The notifier can lose a PEL, in three ways and no other (`LossIffForgotten`): a wakeup by
  the host-full timer, the timer after the host came up or a dispatch may start a send while
  another command is outstanding (`OverwriteHappens`, `FullTimerOverwrites`); a send that
  throws has taken its PEL off the queue (`ThrowLosesAndStalls`); and a restart while the
  host PEL enablement is off queues nothing, nor does turning it on later
  (`DisabledRestartLoses`).
- Sending can stall, by five kinds of events and no other (`StallIffStalls`). When no
  exception leaves a handler and replies name sent PELs it stalls only by giving up with
  the retries used up (`RegularRunStallsByGivingUp`, `GivingUpHappens`), which a new PEL
  ends (`NewLogRevivesIff`); stray replies are enough for it to stall (`StallHappens`).
- An ack that comes before the response to its send is forgotten (`ReplySettlesIff`,
  `EarlyAckForgotten`), and so is a host-full reply (`FullBeforeResponseIsFiled`).
- A PLDM command can stay marked as in progress: the failure to allocate an instance
  ID is thrown as a type that sendNewLogCmd does not catch (`ConsistentIffCaught`).
- A PEL with more than 253 sections beyond its headers does not read back, as its
  section count wraps (`FinishedRoundTrips`, `TooManySectionsToRead`); neither does an
  empty user data section (`UserDataReadsBack`), which the class allows though the constructor
  of a PEL makes none of an empty file. The cap fails exactly for data of 65528
  bytes and more whose wrapped size still fits (`CapKeptIffNoWrap`, `LongDataBreaksCap`).
- Reading a PEL and writing it back, as every update of a stored PEL does, changes its bytes
  exactly when there are bytes behind its last section or a callout in it has a substructure
  repeated or out of order (`ReadPelReprintsIff`, `TrailingByteDropped`,
  `RepeatedFRUChangesBytes`).
- A file archived twice under one name is counted twice (`ArchivedCountsIffNew`,
  `ArchivedTwiceMiscounts`).
- After a restart an entry ID is given out again exactly when the entry of the highest ID
  is gone (`RestartReissuesIff`, `DeletedIDComesAgain`).
- A location code that starts with a NUL makes a callout equal to every callout
  without a location (`SameIffSameIdentity`).
- Without a BMC position an entry ID can be 0 (`TimeBasedIDMarked`).
- An rsyslog address with a colon or a bracket that is not IPv6, or a UDP address that
  starts with `@`, does not survive a restart (`ReadsBackIffSurvives`), and a line that
  ends in its only `@` ends the parser with an exception (`RaisedIff`).

Where comments and code disagree the model follows the code: serviceable PELs of
other creators may take up 30 percent, not the 15 of the comment
(`extensions/openpower-pels/repository.cpp:631-634`); the callouts parser accepts
substructures repeated and in any order, though the class comment allows one of each,
the FRU identity first (`extensions/openpower-pels/callout.hpp:28-36`); and the ID
made without a BMC position need not carry its marker (`bmc_pos_mgr.hpp:94-102`).

## Model

| member | source | states |
|---|---|---|
| `RepositoryState.IndexAgreesIffFresh` | extensions/openpower-pels/repository.cpp:159-192 | Indexing a PEL keeps all seven size counters equal to the sums over the stored PELs exactly when its ID was not yet stored (or its file is empty): a repeated ID is ignored by the map and counted all the same. |
| `RepositoryState.RemoveAtKeepsCounters` | extensions/openpower-pels/repository.cpp:226-262 | Removing a stored PEL lowers each counter by exactly that PEL's size where it belongs, so the clamp to zero never acts. |
| `RepositoryState.SetStatesKeepsValid` | extensions/openpower-pels/repository.cpp:441-482 | Updating the transmission states of a PEL leaves every counter right. |
| `RepositoryState.RemovesByKey` | extensions/openpower-pels/repository.hpp:93-104 | Removal by PEL ID takes the one entry that has it, by log ID the entry of the lowest PEL ID that has it, and by neither nothing. |
| `SeverityTable.SeverityIsClassified` | extensions/openpower-pels/repository.cpp:484-504 | Row by row of the severity table: predictive, unrecoverable, critical and their symptoms are serviceable, recovered ones (0x10, 0x71) exactly if not hidden, and 0x00, 0x60, 0x61 and 0x76 never. |
| `SeverityTable.UpdateGoesByTable` | extensions/openpower-pels/repository.cpp:506-550 | Counting a PEL in or out moves the total, the half of its creator, and the serviceable or informational counter of that half by exactly its size, and no other. |
| `SeverityTable.AddedBytesGoByTable` | extensions/openpower-pels/repository.cpp:159-192 | So does adding one to a repository in order, whatever its creator and severity. |
| `SeverityTable.RemovedBytesGoByTable` | extensions/openpower-pels/repository.cpp:226-262 | And so, downwards, does removing a stored one. |
| `SeverityTable.CountersByTable` | extensions/openpower-pels/repository.cpp:506-550 | The counters of any list of PELs are the sums by creator and table row. |
| `RepositoryRuns.StepKeepsValid` | extensions/openpower-pels/repository.cpp:506-550 | Every operation (add, remove, import, link completion, state updates, prune) keeps the repository invariant. |
| `RepositoryRuns.RunKeepsCounters` | extensions/openpower-pels/repository.cpp:506-550 | In every state reached by indexing new IDs only, the seven counters equal the sums over the stored PELs; the total is BMC plus non-BMC, and each half is serviceable plus informational. |
| `RepositoryRuns.RunValidIffNeverRepeats` | extensions/openpower-pels/repository.cpp:159-192 | Over any run of operations the counters are right at every moment if and only if no file that takes space is indexed under an ID already stored. |
| `RepositoryRuns.RestoreCounts` | extensions/openpower-pels/repository.cpp:69-148 | Startup over any log directory, two files of one PEL included: each counter is the bytes of all files in its category, which is the sum over the stored PELs plus the bytes of the files whose ID came before. |
| `RepositoryRuns.RestoreAgreesIffNoRepeats` | extensions/openpower-pels/repository.cpp:69-148 | So startup sets the counters right if and only if no file that takes space repeats an ID. |
| `RepositoryRuns.RestoreLeavesNoneSent` | extensions/openpower-pels/repository.cpp:83-101 | Whatever the files, no PEL is marked as sent afterwards. |
| `RepositoryRuns.RestoreSetsCounters` | extensions/openpower-pels/repository.cpp:69-148 | Startup over a directory in which every PEL has a nonzero ID of its own gives the whole invariant. |
| `RepositoryRuns.RepeatedIDBreaksCounters` | extensions/openpower-pels/repository.cpp:159-192 | A concrete repeated ID after which the counters no longer agree with the map. |
| `FileNames.FilenameOrderIsAgeOrder` | extensions/openpower-pels/repository.cpp:150-157 | File names sort as (commit time, PEL ID): the path order that pruning walks is oldest first. |
| `FileNames.FilenameShows` | extensions/openpower-pels/repository.cpp:150-157 | A file name is two upper-case hexadecimal digits for each of the eight time bytes, an underscore, and the PEL ID in eight digits. |
| `FileNames.FilenameIsUnique` | extensions/openpower-pels/repository.cpp:150-157 | Two PELs have the same file name only if ID and commit time are the same. |
| `Pruning.AllByPathSorts` | extensions/openpower-pels/repository.cpp:580-600 | The snapshot holds every stored PEL as often as the map does, in ascending path order. |
| `Pruning.SortedByPathUnique` | extensions/openpower-pels/repository.cpp:580-600 | With distinct paths there is only one such snapshot, however it was sorted. |
| `Pruning.RemovalOrderIsPriorityOrder` | extensions/openpower-pels/repository.cpp:694-766 | The order in which removal considers PELs holds each non-isolated PEL of the type once, ranked by the first of the four passes it matches, then by path; `PruningOrder.RemovalsAreRight` says which PELs that puts first. |
| `Pruning.RemovesShortestPrefix` | extensions/openpower-pels/repository.cpp:694-766 | removePELs removes a prefix of that order; at every shorter prefix the limit was still exceeded; it stops within the limit or with the whole order; nothing goes if the limit was met on entry. |
| `Pruning.ShortestPrefixUnique` | extensions/openpower-pels/repository.cpp:694-766 | There is only one prefix with that property, so it determines what is removed. |
| `Pruning.RemovePELsEffect` | extensions/openpower-pels/repository.cpp:694-766 | After one call the limit holds or every survivor of the type is isolated; only PELs of the type went, none isolated, and the invariant holds. |
| `PruningOrder.RemovalsAreRight` | extensions/openpower-pels/repository.cpp:694-766 | What one call removes, by the stored fields alone: PELs of the limit's creator and severity without isolation entry; those acked by the HMC before all others, then those acked by the host, then those sent, each class from the oldest file on; none passed over for one it goes ahead of; each of them one too much for its percentage when it went; and enough, or all there are. |
| `PruningOrder.RightRemovalsAreUnique` | extensions/openpower-pels/repository.cpp:694-766 | With a file for each PEL, no other list of PELs in any other order fits that description. |
| `PruningOrder.RemovesNothingIff` | extensions/openpower-pels/repository.cpp:699-702 | One call removes nothing exactly when the percentage is not exceeded or no PEL it is about may go. |
| `PruningOrder.PruneInTurn` | extensions/openpower-pels/repository.cpp:664-682 | prune sees to BMC informational, BMC serviceable, other informational and other serviceable PELs in this order, and to the number only if it still exceeds the maximum. |
| `PruningOrder.PruneRemovesNothingIff` | extensions/openpower-pels/repository.cpp:602-692 | prune leaves the repository as it is exactly when no PEL that may go belongs to a category over its 15, 30, 15 or 30 percent, nor is the number over its maximum: 80 percent of that is where removing ends, not where it starts. |
| `PruningOrder.WarnsIff` | extensions/openpower-pels/repository.cpp:552-578 | sizeWarning answers yes exactly when the stored bytes exceed 95 percent of the space or the PELs exceed their number. |
| `PruningOrder.WarningMeansRemoval` | extensions/openpower-pels/repository.cpp:552-578 | A yes is never in vain: with nothing isolated prune then removes some PEL, and asking again gives no. |
| `Pruning.PruneEffect` | extensions/openpower-pels/repository.cpp:602-692 | prune removes no isolated PEL; the removed PELs are exactly the missing ones; each category is under its limit or down to isolated PELs. |
| `Pruning.PruneClearsWarning` | extensions/openpower-pels/repository.cpp:552-578 | With nothing isolated, after prune the categories are within 15/30/15/30 percent, the total within 90, the count within its maximum, and sizeWarning answers no. |
| `RepositoryClass.Repository.constructor` | extensions/openpower-pels/repository.cpp:51-67 | A new repository is the restored one, over whatever files there are; its counters are right if their PELs have nonzero IDs of their own, and the archive counter is the sum over the archive. |
| `RepositoryClass.Repository.Restore` | extensions/openpower-pels/repository.cpp:69-148 | The walk over the files, tied to its value form. |
| `RepositoryClass.Repository.Add` | extensions/openpower-pels/repository.cpp:159-192 | add of any PEL, tied to its value form, with its file; keeps the invariant when the ID is new and the sizes do not overflow. |
| `RepositoryClass.Repository.Remove` | extensions/openpower-pels/repository.cpp:226-262 | remove, with the full ID it reports and the file it moves to the archive. |
| `RepositoryClass.Repository.UpdateStats` | extensions/openpower-pels/repository.cpp:506-550 | The nested branches move each counter exactly when the PEL is in its category; an addition raises the total, the half of the creator, and the serviceable or informational counter of that half as the severity table has it. |
| `RepositoryClass.Repository.SetPELHostTransState` | extensions/openpower-pels/repository.cpp:389-413 | Only the host state of the PEL changes. |
| `RepositoryClass.Repository.CompleteLink` | extensions/openpower-pels/repository.cpp:850-868 | A pending PEL is indexed and no longer pending; the invariant is kept when its ID is new. |
| `RepositoryClass.Repository.RemovePELs` | extensions/openpower-pels/repository.cpp:694-766 | The four-pass loop that erases from map and snapshot on the way removes exactly the shortest sufficient prefix, reports its IDs in order and moves its files to the archive; what it removes fits the description of `PruningOrder.RightRemovals`. |
| `RepositoryClass.Repository.Prune` | extensions/openpower-pels/repository.cpp:602-692 | The five stages in order, with the IDs of the PELs they removed and their files in the archive. |
| `RepositoryClass.Repository.SizeWarning` | extensions/openpower-pels/repository.cpp:552-578 | If logs and archive together are over 95 percent the loop deletes what can be deleted of the archive and sets its counter to zero; the answer and the seven counters do not depend on it. |
| `Archive.ArchivedCountsIffNew` | extensions/openpower-pels/repository.cpp:768-778 | Archiving a file keeps the archive counter equal to the sum over the archive exactly when no file of that name with any bytes was there: a replaced file is not taken off. |
| `Archive.ArchivedTwiceMiscounts` | extensions/openpower-pels/repository.cpp:768-778 | A file of 512 bytes archived twice under one name counts as 1024. |
| `Archive.MoveConserves` | extensions/openpower-pels/repository.cpp:239-255 | Removing a stored PEL moves its bytes from the logs to the archive: together they take what they took before, and the archive counter stays right. |
| `Archive.PruneConserves` | extensions/openpower-pels/repository.cpp:602-692 | So does a whole prune: it loses and duplicates no file. |
| `Archive.WarningBoundsArchive` | extensions/openpower-pels/repository.cpp:552-578 | After sizeWarning logs and archive are together within 95 percent, or all that is left in the archive is empty or could not be deleted. |
| `Archive.EmptiesArchiveIff` | extensions/openpower-pels/repository.cpp:552-573 | sizeWarning empties the archive exactly when it has bytes and takes more than 95 percent of the space together with the logs; what could not be deleted stays, uncounted. |
| `Archive.PruneThenWarningBoundsSpace` | extensions/openpower-pels/repository.cpp:552-578 | A prune with nothing isolated and the warning asked after it: the answer is no, and logs and archive together take at most 95 percent. |
| `RepositoryView.SetHostStateSeen` | extensions/openpower-pels/repository.cpp:389-413 | What the notifier reads of the repository follows its state updates: the projection of the updated repository is the notifier's own update. |
| `RepositoryView.SetHmcStateSeen` | extensions/openpower-pels/repository.cpp:415-439 | The same for the HMC state. |
| `RepositoryView.RemoveSeen` | extensions/openpower-pels/repository.cpp:226-262 | The same for a removal. |
| `RepositoryView.AddSeen` | extensions/openpower-pels/repository.cpp:159-192 | A new PEL is seen as new; one whose ID is stored already is not seen at all. |
| `RepositoryView.RestoreSeen` | extensions/openpower-pels/repository.cpp:69-148 | Restoring the files of the stored PELs, in whatever order the directory lists them, is what the notifier takes a restart for. |
| `RepositoryView.WalkIsWalk` | extensions/openpower-pels/host_notifier.cpp:24-36 | The walk of the notifier's constructor visits every PEL it sees once, in order of ID. |
| `NotifierProofs.StepKeepsInv` | extensions/openpower-pels/host_notifier.cpp:158-490 | Whatever the host replies and whatever throws, queue, sent list and in-progress stay disjoint and free of repeats, the retry timer never runs while a PEL is in progress, and the retry count never exceeds 15. |
| `NotifierProofs.StepPels` | extensions/openpower-pels/host_notifier.cpp:313-490 | What each event does to the stored transmission states, and to nothing else. |
| `NotifierOrder.NewPelGoesBehind` | extensions/openpower-pels/host_notifier.cpp:158-192 | A new PEL goes behind all those queued, exactly if the enablement is on, the host has neither acked nor rejected it, it is to be reported, and it is not hidden with an HMC ack. |
| `NotifierOrder.EventKeepsOrder` | extensions/openpower-pels/host_notifier.cpp:158-490 | No event but a restart reverses two PELs that stay in the queue. |
| `NotifierOrder.ReturnsToQueue` | extensions/openpower-pels/host_notifier.cpp:313-349 | When the host goes off the PEL in progress comes first in the queue and the sent ones last; a sent PEL the host is full for comes first. |
| `NotifierOrder.RestartQueue` | extensions/openpower-pels/host_notifier.cpp:24-50 | After a restart the queue holds the reportable PELs in ascending order of ID. |
| `NotifierOrder.ServedInTurn` | extensions/openpower-pels/host_notifier.cpp:233-311 | A PEL goes to the host only if it is the first in the queue that is stored, not acked and, if hidden, neither acked by an HMC nor under one; the host is up, no timer holds sending back, and fewer than 15 sends failed. |
| `NotifierOrder.WakeupServes` | extensions/openpower-pels/host_notifier.cpp:233-311 | And when a timer or the dispatcher wakes the notifier under these conditions and the libraries do their part, that PEL does go. |
| `NotifierOrder.BackToFront` | extensions/openpower-pels/host_notifier.cpp:373-417 | A PEL that was in progress and is queued afterwards stands in front of all that were queued. |
| `NotifierOrder.FailureKeepsFirst` | extensions/openpower-pels/host_notifier.cpp:261-304 | When a failure starts the retry timer, the PEL it was about is the first in the queue. |
| `NotifierOrder.LeavesQueue` | extensions/openpower-pels/host_notifier.cpp:233-311 | A PEL leaves the queue by going to the host, by being deleted, by not being needed any more, or by a send that throws, and in no other way. |
| `NotifierOrder.FirstQueuedFirstSent` | extensions/openpower-pels/host_notifier.cpp:158-490 | Over any run without a BMC restart PELs go to the host in the order they were queued: by the time one goes, each that was ahead of it has gone, or left the queue in one of the three other ways. |
| `NotifierControl.AfterSuccess` | extensions/openpower-pels/host_notifier.cpp:351-372 | A success files the PEL as sent, starts the retries over, and sends no other PEL while the host is full. |
| `NotifierControl.SuccessServes` | extensions/openpower-pels/host_notifier.cpp:351-372 | With the host up and not full it sends the first PEL still needed. |
| `NotifierControl.AfterFailure` | extensions/openpower-pels/host_notifier.cpp:373-380 | A failure puts the PEL in front of the queue and starts the retry timer; the retry count stays. |
| `NotifierControl.AfterAdding` | extensions/openpower-pels/host_notifier.cpp:158-192 | Exactly when a new PEL is dispatched and the retries start over. |
| `NotifierControl.AfterReplies` | extensions/openpower-pels/host_notifier.cpp:418-490 | What acks, rejections and the host being full do to the full state, its timer and the dispatcher. |
| `NotifierControl.AfterHostUp` | extensions/openpower-pels/host_notifier.cpp:313-322 | The host coming up starts the retries over and, with something queued, the wait for it to be ready. |
| `NotifierControl.AfterHostDown` | extensions/openpower-pels/host_notifier.cpp:323-349 | The host going off stops everything, but leaves two timers and the sent list if the command cannot be cancelled. |
| `NotifierControl.AfterWakeup` | extensions/openpower-pels/host_notifier.cpp:382-397 | A wakeup uses up its own timer only, and only the retry timer counts, with the host up. |
| `NotifierControl.FifteenthRetryCancels` | extensions/openpower-pels/host_notifier.cpp:239-258 | The fifteenth retry sends nothing but cancels the command and gives its instance ID back. |
| `NotifierLoss.EventKeepsHeld` | extensions/openpower-pels/host_notifier.cpp:158-490 | No event but a restart lets go of a PEL the host still has to hear of, unless it comes to a send that forgets that very PEL. |
| `NotifierLoss.SendForgets` | extensions/openpower-pels/host_notifier.cpp:261-304 | A send that is answered forgets the PEL that was in progress; one that throws forgets the PEL it was for, which has left the queue. |
| `NotifierLoss.RestartHoldsIff` | extensions/openpower-pels/host_notifier.cpp:81-121 | A new notifier takes up a live PEL that is to be reported if and only if the host PEL enablement is on. |
| `NotifierLoss.LossIffForgotten` | extensions/openpower-pels/host_notifier.cpp:233-311 | One event, restarts included, loses a PEL exactly when it gets an answer to a send while a live PEL is in progress, when its send of a live PEL throws, or when it restarts the notifier with the enablement off while there is a live PEL that was enqueued. |
| `NotifierLoss.Overwriters` | extensions/openpower-pels/host_notifier.cpp:219-231 | A send over an outstanding command comes from the host-full timer, the timer after the host came up, or a dispatch, and from nothing else. |
| `NotifierRuns.RunLosesNothing` | extensions/openpower-pels/host_notifier.cpp:158-490 | Over any run at all, restarts included: at every moment each PEL ever enqueued that is stored, not hidden, neither acked nor bad is in exactly one of queue, sent list and in-progress, if and only if no event of the run is one of these three. |
| `NotifierWitnesses.OverwriteHappens` | extensions/openpower-pels/host_notifier.cpp:418-447 | A run in which nothing fails and every host reply names a sent PEL, and which loses a PEL: the dispatch scheduled by an ack has no guard against an outstanding command. |
| `NotifierWitnesses.FullTimerOverwrites` | extensions/openpower-pels/host_notifier.cpp:393-397 | The host-full timer loses a PEL in the same way. |
| `NotifierWitnesses.DisabledRestartLoses` | extensions/openpower-pels/host_notifier.cpp:24-50 | A run in which the enablement is turned off, the notifier restarts, and the enablement is turned on again: the PEL that waited is in none of the three places. |
| `NotifierWitnesses.ThrowLosesAndStalls` | extensions/openpower-pels/pldm_interface.cpp:190-212 | One failure to allocate an instance ID loses the PEL that was to be sent and stalls the one behind it. |
| `NotifierStalls.StallIffStalls` | extensions/openpower-pels/host_notifier.cpp:158-490 | With the host up and not full, a nonempty queue has a response, a timer or a dispatch on the way that leads to the next attempt to send, after every event but five: an ack that disables the last timer, a send that throws, a response whose instance ID cannot be freed, a first PEL while the flag of an abandoned command is set, and an attempt with the retries used up. |
| `NotifierStalls.NewLogRevivesIff` | extensions/openpower-pels/host_notifier.cpp:170-192 | A new PEL gets a stalled queue going again, with the retries starting over, if and only if it stalled with the retries used up and nothing is marked as in progress. |
| `NotifierRuns.RunKeepsSending` | extensions/openpower-pels/host_notifier.cpp:158-490 | Over any run sending is alive at every moment if and only if none of these five happens. |
| `NotifierStalls.FullTimerKept` | extensions/openpower-pels/host_notifier.cpp:449-477 | If replies name sent PELs, the host-full timer only runs for a host that is up and full; a state change keeps this exactly unless stopping the command throws with something sent, awaited or timed. |
| `NotifierStalls.AttendedIff` | extensions/openpower-pels/pldm_interface.cpp:190-212 | What is in progress awaits its response, after every event but a response that does not get through and a send that throws out of the allocation. |
| `NotifierRuns.RegularRunStallsByGivingUp` | extensions/openpower-pels/host_notifier.cpp:240-259 | Over any run whose replies name sent PELs and from which no exception escapes, every ack and rejection settles its PEL, and sending stalls if and only if the notifier gives up with the retries used up. |
| `NotifierWitnesses.GivingUpHappens` | extensions/openpower-pels/host_notifier.cpp:240-259 | Such a run: fifteen refused sends in a row, and a queue with nothing that would send from it. |
| `NotifierWitnesses.StallHappens` | extensions/openpower-pels/host_notifier.cpp:449-477 | A run in which nothing fails, with a stray host-full reply and a stray ack, that ends stalled. |
| `NotifierRuns.EventKeepsSettled` | extensions/openpower-pels/host_notifier.cpp:81-156 | A PEL once acked or rejected never re-enters queue, sent list or in-progress, across host and BMC restarts. |
| `NotifierRuns.ReplySettlesIff` | extensions/openpower-pels/host_notifier.cpp:418-490 | An ack or rejection takes a PEL out of circulation exactly when the PEL is neither queued nor in progress. |
| `NotifierRuns.RunKeepsSettled` | extensions/openpower-pels/host_notifier.cpp:418-490 | Over any run all acked and rejected PELs are out of circulation at every moment if and only if no reply came while its PEL was queued or in progress. |
| `NotifierRuns.SendsNothingSettled` | extensions/openpower-pels/host_notifier.cpp:122-156 | A settled PEL is never sent. |
| `NotifierWitnesses.EarlyAckForgotten` | extensions/openpower-pels/host_notifier.cpp:351-380 | A run in which an ack that precedes the response to the send is overwritten by the state sent. |
| `NotifierRuns.FullRequeuesIffSent` | extensions/openpower-pels/host_notifier.cpp:449-477 | A host-full reply leaves its PEL on the queue exactly if the PEL was in the sent list or on the queue already. |
| `NotifierRuns.FullBeforeResponseIsFiled` | extensions/openpower-pels/host_notifier.cpp:449-477 | A host-full reply for the PEL in progress is forgotten by the response that follows: the PEL is filed as sent and not queued. |
| `NotifierRuns.RunSound` | extensions/openpower-pels/host_notifier.cpp:158-490 | Over any run, whatever the host replies and whatever throws: the three places are disjoint and free of repeats, and at most 15 sends fail before the retries start over, by a success, a host state change, a restart, or a new PEL that resets the retry count. |
| `NotifierRuns.BeginGood` | extensions/openpower-pels/host_notifier.cpp:14-57 | A notifier just constructed satisfies all this and has lost nothing. |
| `HostNotifierClass.HostNotifier.constructor` | extensions/openpower-pels/host_notifier.cpp:14-57 | Queues, in order, exactly the stored PELs that need to be sent. |
| `HostNotifierClass.HostNotifier.AddPELsToQueue` | extensions/openpower-pels/host_notifier.cpp:70-79 | The walk appends, in order, exactly the PELs that need to be sent. |
| `HostNotifierClass.HostNotifier.NewLogCallback` | extensions/openpower-pels/host_notifier.cpp:158-192 | A PEL that is to be reported, by its states and flags and the enablement, goes to the very end of the queue; the rest is tied to the value form. |
| `HostNotifierClass.HostNotifier.DeleteLogCallback` | extensions/openpower-pels/host_notifier.cpp:194-217 | The first occurrence leaves queue and sent list. |
| `HostNotifierClass.HostNotifier.DoNewLogNotify` | extensions/openpower-pels/host_notifier.cpp:233-311 | Skips PELs that need no sending, sends the next, starts the retry timer, or is left by an exception after the PEL was taken off the queue. |
| `HostNotifierClass.HostNotifier.SendPEL` | extensions/openpower-pels/host_notifier.cpp:277-310 | The send of that PEL with its three ends. |
| `HostNotifierClass.HostNotifier.FindPELToSend` | extensions/openpower-pels/host_notifier.cpp:261-275 | The loop drops exactly the PELs up to the first one still to be sent. |
| `HostNotifierClass.HostNotifier.HostStateChange` | extensions/openpower-pels/host_notifier.cpp:313-349 | Both directions of the state change, with the sent PELs back on the queue as new when the host goes off, unless the cancel throws first. |
| `HostNotifierClass.HostNotifier.CommandResponse` | extensions/openpower-pels/host_notifier.cpp:351-380 | Success and failure of the outstanding command. |
| `HostNotifierClass.HostNotifier.Receive` | extensions/openpower-pels/pldm_interface.cpp:270-349 | The command interface takes the response and calls the notifier back, unless its instance ID cannot be freed. |
| `HostNotifierClass.HostNotifier.RetryTimerExpired` | extensions/openpower-pels/host_notifier.cpp:382-391 | One more attempt, counted, if the host is up. |
| `HostNotifierClass.HostNotifier.StopCommand` | extensions/openpower-pels/host_notifier.cpp:399-416 | The PEL in progress goes back to the front of the queue, and the command is cancelled or the exception passed on. |
| `HostNotifierClass.HostNotifier.AckPEL` | extensions/openpower-pels/host_notifier.cpp:418-447 | The ack, with the dispatch it schedules. |
| `HostNotifierClass.HostNotifier.SetHostFull` | extensions/openpower-pels/host_notifier.cpp:449-477 | The PEL goes back to the front of the queue unless it is queued already. |
| `HostNotifierClass.HostNotifier.SetBadPEL` | extensions/openpower-pels/host_notifier.cpp:479-490 | The PEL leaves the sent list and is marked bad. |
| `PldmState.FreedOnce` | extensions/openpower-pels/pldm_interface.cpp:167-188 | An instance ID is freed only while allocated and recorded, and afterwards is neither, so none is freed twice. |
| `PldmState.ConsistentIffCaught` | extensions/openpower-pels/pldm_interface.cpp:190-212 | A command in progress holds an ID and awaits a response, except after an allocation failure that is thrown as something other than a std::exception. |
| `PldmState.RunAnswersOnce` | extensions/openpower-pels/pldm_interface.cpp:270-379 | Over any run each accepted send gets at most one callback: receive, timeout and cancel exclude each other, also when the callback sends again. |
| `PldmState.RunHolds` | extensions/openpower-pels/pldm_interface.cpp:145-188 | After any run the one instance ID allocated is the first since an ID was last given back, by a response or a cancelled command; a timeout or a failed start gives none back. |
| `PldmInterfaceClass.PLDMInterface.SendNewLogCmd` | extensions/openpower-pels/pldm_interface.cpp:190-212 | The send, tied to its value form. |
| `PldmInterfaceClass.PLDMInterface.Receive` | extensions/openpower-pels/pldm_interface.cpp:270-349 | A received response or read failure, tied to its value form. |
| `PldmInterfaceClass.PLDMInterface.CancelCmd` | extensions/openpower-pels/pldm_interface.cpp:362-366 | The cancel, tied to its value form. |
| `PelStream.Stream.ReadBytes` | extensions/openpower-pels/stream.hpp:317-322 | Either the bytes at the offset, which moves past them, or an exception and no move. |
| `PelStream.Stream.Write` | extensions/openpower-pels/stream.hpp:330-339 | The bytes replace what was at the offset and extend the data if need be. |
| `CalloutFormat.FRURoundTrip` | extensions/openpower-pels/fru_identity.cpp:40-80 | The FRU identity constructor rebuilds what was flattened, its optional fields chosen by flag bits; the size is the computed one. |
| `CalloutFormat.PCERoundTrip` | extensions/openpower-pels/pce_identity.cpp:13-32 | The same for the power controlling enclosure, whose name length is what is left of its size byte. |
| `CalloutFormat.MRURoundTrip` | extensions/openpower-pels/mru.cpp:18-44 | The same for the MRU substructure, whose count is in its flags. |
| `CalloutFormat.CalloutRoundTrip` | extensions/openpower-pels/callout.cpp:19-67 | A callout with any of its three optional substructures is rebuilt from its bytes, whatever follows. |
| `CalloutFormat.CalloutsRoundTrip` | extensions/openpower-pels/callouts.cpp:17-39 | Parsing undoes printing for the whole subsection and consumes exactly the length it states. |
| `CalloutLayout.FRULayout` | extensions/openpower-pels/fru_identity.cpp:174-193 | The bytes of a FRU identity, by index: 'ID', its length, the flags, and the eight, four and twelve bytes that bits 0x08 or 0x02, 0x04 and 0x01 call for; these and no others. |
| `CalloutLayout.PCELayout` | extensions/openpower-pels/pce_identity.cpp:29-32 | Those of a power controlling enclosure: 'PE', length, flags, machine type, serial number and name. |
| `CalloutLayout.MRULayout` | extensions/openpower-pels/mru.cpp:67-77 | Those of the MRUs: 'MR', length, flags with their number, and a priority and an ID of four bytes for each, most significant first. |
| `CalloutLayout.CalloutLayout` | extensions/openpower-pels/callout.cpp:172-196 | Those of a callout: length, flags, priority, location code with its length, then FRU, PCE and MRUs. |
| `CalloutLayout.SubsectionLayout` | extensions/openpower-pels/callouts.cpp:31-39 | Those of the subsection: ID, flags, length in words, and the callouts. |
| `CalloutLayout.SubsectionRead` | extensions/openpower-pels/callouts.cpp:12-29 | Bytes laid out like that are read as these very callouts, whatever follows. |
| `CalloutLayout.LettersChoose` | extensions/openpower-pels/callout.cpp:19-67 | Only 'ID', 'PE' and 'MR' begin a substructure, and each sets its own member. |
| `CalloutLayout.BuiltFRUShows` | extensions/openpower-pels/fru_identity.cpp:82-114 | What the three FRU constructors put in: the component type and presence bits, part number without leading spaces, CCIN and serial number cut or padded to their fields; the procedure or symbolic FRU itself, from the registry, or INVALID. |
| `CalloutLayout.BuiltShows` | extensions/openpower-pels/callout.cpp:69-130 | A built callout has the letter of its priority, its location code up to 79 characters, the FRU, no PCE, and the first 15 MRUs of hardware that has some. |
| `CalloutFormat.ParserTotal` | extensions/openpower-pels/callouts.cpp:17-29 | On arbitrary bytes the callouts parser ends, by an exception or with callouts read off the front of the bytes and nothing past their end, whatever the size fields claim. |
| `CalloutBuilding.BuiltIsWellBuilt` | extensions/openpower-pels/callout.cpp:76-127 | Every building constructor gives a callout whose size byte is its flattened size: a multiple of 4, at most 240, never truncated. |
| `CalloutBuilding.LocationKept` | extensions/openpower-pels/callout.cpp:129-158 | A location code reads back as it was given, up to 79 characters of it. |
| `CalloutBuilding.NameKept` | extensions/openpower-pels/fru_identity.cpp:194-211 | A part number, procedure or symbolic name reads back as given, up to seven characters of it. |
| `CalloutBuilding.SameIffSameIdentity` | extensions/openpower-pels/callout.cpp:196-227 | Two built callouts compare equal exactly when they were asked for the same location, or lacking one the same procedure or part number; a location that starts with a NUL equals every callout without one. |
| `CalloutBuilding.SetLocationCode` | extensions/openpower-pels/callout.cpp:129-158 | The padding loop computes the location field. |
| `CalloutBuilding.FillArray` | extensions/openpower-pels/fru_identity.cpp:29-36 | The fill loop copies the source and pads with NULs. |
| `CalloutBuilding.SetPartNumber` | extensions/openpower-pels/fru_identity.cpp:194-211 | Leading spaces go, eight bytes are filled, the last is a NUL. |
| `CalloutList.AddKeepsInv` | extensions/openpower-pels/callouts.cpp:41-78 | addCallout keeps word length * 4 = 4 + sum of sizes, at most ten callouts, descending rank and no two equal callouts, however the sort breaks ties. |
| `CalloutList.DuplicateTakesHigherRank` | extensions/openpower-pels/callouts.cpp:43-62 | A duplicate changes nothing but the priority of the one equal entry, which takes the higher rank of the two. |
| `CalloutList.OrderedByLetters` | extensions/openpower-pels/callouts.cpp:41-80 | In every list kept in order all 'H' come first and all 'L' last. |
| `CalloutList.MergeByLetters` | extensions/openpower-pels/callouts.cpp:41-80 | A duplicate turns its entry to 'H' if it is 'H', turns an 'L' to whatever it has, and changes nothing else; any other callout goes in unless there are ten. |
| `CalloutList.GrownListRoundTrips` | extensions/openpower-pels/callouts.cpp:17-39 | Any list grown by addCallout from building constructors is given back by parsing its bytes, which number word length * 4. |
| `CalloutList.GrownListIsSummary` | extensions/openpower-pels/callouts.cpp:41-78 | Over any run of additions the list holds exactly one entry for each of the first ten distinct parts asked for, at the highest priority ever asked for it. |
| `CalloutStreams.ReadCallout` | extensions/openpower-pels/callout.cpp:19-67 | The constructor's loop over peeked substructures, bounded by the bytes left, is the value parser. |
| `CalloutStreams.ReadMRUs` | extensions/openpower-pels/mru.cpp:22-30 | The loop over the MRUs is the value parser. |
| `CalloutStreams.WriteCallout` | extensions/openpower-pels/callout.cpp:172-194 | flatten writes exactly the bytes of the value printer at the stream's offset. |
| `CalloutStreams.SortDescending` | extensions/openpower-pels/callouts.cpp:76-77 | A permutation, with no lower rank before a higher one when the priorities are known. |
| `CalloutStreams.Callouts.Read` | extensions/openpower-pels/callouts.cpp:17-29 | The loop of the stream constructor is the value parser. |
| `CalloutStreams.Callouts.AddCallout` | extensions/openpower-pels/callouts.cpp:41-78 | Search, raise or append, then sort: the contents are those of the specification whatever the priorities, the order too if they are known, and the invariant is kept. |
| `CalloutStreams.Callouts.Flatten` | extensions/openpower-pels/callouts.cpp:31-39 | Writes exactly the bytes of the value printer. |
| `PelFields.FieldsRoundTrip` | extensions/openpower-pels/private_header.cpp:138-150 | Reading a run of fixed-width fields undoes writing it. |
| `PelFields.BytesRoundTrip` | extensions/openpower-pels/private_header.cpp:138-150 | Writing a run of fields undoes reading it. |
| `Sections.SectionRoundTrip` | extensions/openpower-pels/section_factory.cpp:22-68 | For every well-formed section of every kind, reading its bytes gives the section back and leaves what follows; `PelLayout` says which bytes these are. |
| `PelLayout.FlattenIsLayout` | extensions/openpower-pels/private_header.cpp:138-150 | The bytes of a section, by index: its two letters, size, version, subtype and component ID in the first eight, then each field of its kind at its offset, numbers most significant byte first, then its data; these and no others. |
| `PelLayout.ParseIsByIndex` | extensions/openpower-pels/section_factory.cpp:22-68 | On all bytes whatever, reading a section is picking each field by its index for the two letters in front; it is refused exactly when the bytes are too few, the version is wrong, the count is below 2 or data would be empty. |
| `CalloutReprint.CalloutReprintedIff` | extensions/openpower-pels/callout.cpp:19-67 | A callout read from any bytes prints to those bytes if and only if its substructures stood in the order FRU, PCE, MRU with none repeated, whatever the size bytes claim; and never to more bytes. |
| `CalloutReprint.CalloutsReprintedIff` | extensions/openpower-pels/callouts.cpp:17-39 | The same for the whole subsection: exactly if it is so for each of its callouts. |
| `CalloutReprint.RepeatedFRUChangesBytes` | extensions/openpower-pels/callout.cpp:36-66 | Two FRU identities in one callout, read and printed as one. |
| `Sections.ReprintedIffInOrder` | extensions/openpower-pels/section_factory.cpp:22-68 | A valid section read from any bytes prints to the very bytes it was read from if and only if the callouts in it, if any, stood in order; without callouts it is well-formed. |
| `Sections.FlattenedLength` | extensions/openpower-pels/private_header.hpp:213-220 | The length of a printed section: header, fixed fields of its kind, and its data. |
| `PelFormat.PelRoundTrip` | extensions/openpower-pels/pel.cpp:209-226 | Reading undoes writing for every well-formed PEL with the right section count. |
| `PelLayout.PelLaidOut` | extensions/openpower-pels/pel.cpp:260-276 | A printed PEL begins with 'PH' and its private header in 48 bytes, with the section count in byte 27, then 'UH' and the user header in 24, then the other sections. |
| `PelLayout.SectionsLaidOut` | extensions/openpower-pels/pel.cpp:260-276 | Each other section begins where the ones in front of it end, with its letters and fields at their places. |
| `PelLayout.PelReadByIndex` | extensions/openpower-pels/pel.cpp:209-226 | A PEL is read exactly when bytes 0, 1, 4, 27, 48, 49 and 52 are those of two good headers and the sections that byte 27 counts can be read; its header fields are the bytes at their offsets. |
| `PelFormat.ReadPelReprintsIff` | extensions/openpower-pels/pel.cpp:260-276 | Any bytes that read as a valid PEL are given back unchanged by writing the PEL if and only if nothing stands behind its last section and the callouts in it stood in order. |
| `PelFormat.TrailingByteDropped` | extensions/openpower-pels/repository.cpp:441-482 | A byte behind the last section of a well-formed PEL is dropped by reading and writing it. |
| `PelGrowth.AddKeepsCap` | extensions/openpower-pels/pel.cpp:463-488 | No addition takes size() over 16384, whatever its data, and the subtraction of the room left never wraps. |
| `PelGrowth.ShrinksToLongestFit` | extensions/openpower-pels/pel.cpp:463-488 | A user data section that does not fit by its stated size, wrapped or not, keeps the longest prefix of whole words that does, and is dropped exactly if not even one word fits. |
| `PelGrowth.NewUserDataSize` | extensions/openpower-pels/user_data.cpp:53-65 | The size field states the real length exactly when the data is shorter than 65528 bytes. |
| `PelGrowth.CapKeptIffNoWrap` | extensions/openpower-pels/pel.cpp:463-488 | One addition to a PEL within the cap keeps its bytes within 16384 exactly unless the data is 65528 bytes or more and the size field, wrapped, fits into the room left. |
| `PelGrowth.AddAllWithinCapIff` | extensions/openpower-pels/pel.cpp:678-722 | From a PEL within the cap, any run of additions gives one whose bytes number at most 16384 if and only if no size field wraps so on the way; then they number exactly size(). |
| `PelGrowth.LongDataBreaksCap` | extensions/openpower-pels/user_data.cpp:53-65 | With 65536 bytes of data the size field wraps and the printed PEL exceeds the cap. |
| `PelGrowth.UserDataReadsBack` | extensions/openpower-pels/user_data.cpp:18-32 | A user data section reads back as itself exactly when it has between 1 and 65527 bytes of data. |
| `PelGrowth.ExtendedUserDataReadsBack` | extensions/openpower-pels/extended_user_data.cpp:17-33 | The same for extended user data, between 1 and 65523 bytes. |
| `PelGrowth.ExtendedShrinksToLongestFit` | extensions/openpower-pels/extended_user_data.cpp:98-112 | Shrinking happens exactly from 16 bytes to below the present size; it keeps a word-aligned prefix, less than a word short of what was asked for, and a right size field. |
| `PelGrowth.FinishedRoundTrips` | extensions/openpower-pels/pel.cpp:195-200 | A finished PEL reads back as itself exactly when its sections are well-formed and no more than 253 beyond the two headers, as the count is one byte. |
| `PelGrowth.TooManySectionsToRead` | extensions/openpower-pels/pel.cpp:195-200 | 254 additions of four bytes stay below the cap and give a PEL that does not read back. |
| `PelGrowth.BuiltPelRoundTrips` | extensions/openpower-pels/pel.cpp:463-488 | After any run of additions: exactly when none left an empty section or a wrapped size, and the count fits. |
| `PelGrowth.NonemptyUnreadableIffWraps` | extensions/openpower-pels/pel.cpp:1001-1018 | With data in every addition, as the constructor sees to for FFDC files, only a wrapped size can be in the way. |
| `PelBuilding.StartSound` | extensions/openpower-pels/pel.cpp:108-126 | The sections every built PEL begins with are well-formed and state their own lengths, and take at most 2740 bytes with all the callouts there can be; `PelFacts.BuiltPelShowsFacts` says what is in them. |
| `PelFacts.BuiltPelShowsFacts` | extensions/openpower-pels/private_header.cpp:20-52 | Whatever is added: the bytes of the built PEL hold, each in its own place, creation and commit time, the creator 'O', the section count, log ID and PEL ID twice, subsystem, scope, severity, event type, action flags, the eight hex words, the ASCII string, the callouts, machine type and serial number twice, both firmware versions and the symptom ID; behind them stand the added sections. |
| `PelFacts.UserDataShows` | extensions/openpower-pels/user_data.cpp:34-40 | A user data section shows its component ID, subtype, version and data. |
| `PelFacts.ExtendedUserDataShows` | extensions/openpower-pels/extended_user_data.cpp:35-42 | So does an extended one, with the creator in front of the data. |
| `PelFacts.JournalShows` | extensions/openpower-pels/pel.cpp:678-722 | A journal buffer goes in as text of the logging component, padded with NULs to a whole word, when it fits as it is, and not at all otherwise. |
| `PelBuilding.SymptomFits` | extensions/openpower-pels/extended_user_header.cpp:113-167 | The symptom ID is a whole number of words, at most 80 bytes, and reads back up to 79 characters. |
| `PelBuilding.CreateSymptomID` | extensions/openpower-pels/extended_user_header.cpp:144-167 | The truncating and padding loop computes the symptom ID field. |
| `PelBuilding.BuiltPelWithinCapAndRoundTrips` | extensions/openpower-pels/pel.cpp:86-200 | Whatever an event log brings, callouts and data included: the PEL prints to at most 16384 bytes, and then exactly size(), if and only if no size field wrapped; it reads back as itself if and only if no addition left an empty section or a wrapped size and no more than 253 sections follow the headers. |
| `PelStreams.ReadSection` | extensions/openpower-pels/section_factory.cpp:22-68 | The field by field reads are the value parser. |
| `PelStreams.WriteSection` | extensions/openpower-pels/private_header.cpp:145-150 | The field by field writes are the value printer. |
| `PelStreams.PEL.PopulateFromRawData` | extensions/openpower-pels/pel.cpp:209-226 | The loop over the sections is the value parser, which picks each field by its index (`PelLayout.PelReadByIndex`, `PelLayout.ParseIsByIndex`). |
| `PelStreams.PEL.Size` | extensions/openpower-pels/pel.cpp:285-305 | The sum of the header sizes. |
| `PelStreams.PEL.AddUserDataSection` | extensions/openpower-pels/pel.cpp:463-488 | The addition, with what it returns. |
| `PelStreams.PEL.AddJournalSections` | extensions/openpower-pels/pel.cpp:678-722 | Each buffer is padded to a word, and appended if it fits as it is. |
| `PelStreams.PEL.Flatten` | extensions/openpower-pels/pel.cpp:260-276 | Writes exactly the bytes of the value printer, whose layout `PelLayout.PelLaidOut` gives. |
| `BcdTime.ToBCD` | extensions/openpower-pels/bcd_time.hpp:78-94 | The shifting loop computes the BCD value, cut to the width of the type. |
| `BcdTime.ByteKeepsTwoDigits` | extensions/openpower-pels/bcd_time.hpp:78-107 | A byte of BCD gives back exactly the last two decimal digits of any number. |
| `LogState.CreateEffect` | log_manager.cpp:219-307 | createEntry gives an ID no entry has, evicts at most one entry (the smallest ID of its class, and only at the cap), leaves the rest, and fails exactly when an extension prohibits that eviction, with nothing created. |
| `LogRules.CreateByEntries` | log_manager.cpp:219-312 | By the entries alone: severities 0 to 5 are real errors and 6 upwards are not; a class at its cap loses its oldest entry first, and if that is prohibited nothing is created; the entry gets the next ID and blocks exactly if asked to, a real error, and naming a part. |
| `LogState.RemoveKeepsInv` | log_manager.cpp:614-690 | erase takes the entry, its place in its list, its block and its callback, and nothing else. |
| `LogState.EraseAllEffect` | log_manager.cpp:548-612 | eraseAll keeps exactly the isolated and prohibited entries (or, with nothing isolated, fails at the first prohibited one), returns the exact decrease, and leaves the next ID above every survivor. |
| `LogRules.EraseAllByEntries` | log_manager.cpp:548-612 | By the entries alone: which ones are left, with their blocks; when the call fails; the number it returns; and the highest ID left as the last one given out, or 0. |
| `LogState.ResolveKeepsInv` | log_manager.cpp:362-393 | Resolving an entry ends exactly its block. |
| `LogState.InsertKeepsInvIff` | log_manager.cpp:266-274 | A new entry keeps lists, IDs and blocks in order exactly if the 32-bit ID does not wrap or no other entry exists. |
| `LogState.RunKeepsGood` | log_manager.cpp:219-307 | Over any run, restarts included, the lists are ascending, duplicate-free and partition the entries by severity, no entry has an ID above the last one counted, and what blocks is what is watched: existing, unresolved entries. |
| `LogState.RunKeepsCaps` | log_manager.cpp:223-239 | No list outgrows the larger of its cap and its length at the start. |
| `LogState.IssuedIDsGoUp` | log_manager.cpp:266-274 | As long as the entry of the last ID given out is there at every restart and after every deletion of everything, the IDs given out are the next ones in order, so none is reused. |
| `LogState.RewindsIff` | log_manager.cpp:777-783 | The ID that the next is counted from goes back exactly when that entry is gone. |
| `LogState.RestartReissuesIff` | log_manager.cpp:777-783 | After such a run from the beginning and a restart, the next entry gets an ID already given out if and only if the entry of the last ID given out was deleted or could not be read. |
| `LogState.DeletedIDComesAgain` | log_manager.cpp:777-783 | One entry created and deleted: after a restart the next one has its ID. |
| `LogManagerClass.Manager.CreateEntry` | log_manager.cpp:219-307 | createEntry, tied to its value form. |
| `LogManagerClass.Manager.Erase` | log_manager.cpp:614-690 | erase, tied to its value form. |
| `LogManagerClass.Manager.EraseEvery` | log_manager.cpp:566-575 | The loop without isolated IDs stops at the first entry that may not be deleted. |
| `LogManagerClass.Manager.EraseOthers` | log_manager.cpp:576-598 | The loop that passes over isolated and prohibited entries counts exactly what it erased. |
| `LogManagerClass.Manager.EraseAll` | log_manager.cpp:548-612 | eraseAll, tied to its value form. |
| `LogManagerClass.Manager.QuiesceOnError` | log_manager.cpp:441-475 | A block and its callback, unless the entry is blocked already. |
| `LogManagerClass.Manager.CheckAndRemoveBlockingError` | log_manager.cpp:526-546 | The block and the callback go together. |
| `LogManagerClass.Manager.FindAndRemoveResolvedBlocks` | log_manager.cpp:362-371 | Exactly the blocks of resolved entries go. |
| `LogManagerClass.Manager.Restore` | log_manager.cpp:692-798 | The readable entries come back, the lists in order, the next ID at the highest. |
| `LogManagerClass.RestoreIsRestart` | log_manager.cpp:692-798 | Restoring the files of a running manager gives exactly the state a restart leads to. |
| `BmcPosition.NextIDCarriesPosition` | bmc_pos_mgr.cpp:17-53 | With a known position every ID carries it in its top byte and a nonzero count below. |
| `BmcPosition.RepeatsExactlyAfterCycle` | bmc_pos_mgr.cpp:46-53 | An ID comes round again after exactly 16777215 creations and never sooner. |
| `BmcPosition.PositionsNeverCollide` | bmc_pos_mgr.cpp:38-44 | BMCs at different positions never give out the same ID. |
| `BmcPosition.NewUnlessRolledOver` | bmc_pos_mgr.cpp:17-31 | The next ID is above all of this BMC's own IDs unless the count rolls over. |
| `BmcPosition.TimeBasedIDMarked` | bmc_pos_mgr.cpp:98-108 | Without a position an ID carries the marker 0xFF exactly unless the clock's low 24 bits are all ones: then it is 0. |
| `BmcPosition.BMCPosMgr.Process` | bmc_pos_mgr.cpp:17-31 | The prefix, then the rollover. |
| `BmcPosition.BMCPosMgr.ReadBMCPosition` | bmc_pos_mgr.cpp:55-91 | The position is known afterwards exactly when the file gives one whose low byte is not 255; only that byte is kept. |
| `ErrorOrder.TerminatesIffOrderable` | tools/elog-gen.py:32-44 | The scanning loop ends exactly when no name is given twice, every parent is defined and no error inherits itself over any number of steps. |
| `ErrorOrder.OrderableIffAcyclic` | tools/elog-gen.py:32-44 | Every error leads to one without a parent in fewer steps than there are errors exactly when parents are defined and there is no cycle. |
| `ErrorOrder.PassMakesProgress` | tools/elog-gen.py:36-44 | While anything is missing, every scan places at least one more error. |
| `ErrorRounds.ScansAreRounds` | tools/elog-gen.py:36-44 | The order is determined without scans: an error without a parent is of the first round, another of its parent's round if that is listed ahead of it, else of the next; the scans put the rounds one after the other, each as it was listed. |
| `ErrorRounds.ScansOrderByRound` | tools/elog-gen.py:36-44 | So of two placed errors the one of the earlier round comes first, and within a round the one listed first; n scans place exactly the first n rounds. |
| `ErrorOrder.OrderInheritedErrors` | tools/elog-gen.py:23-49 | The result holds every error once, each behind its parent; without inheritance it is the list itself. |
| `ErrorOrder.Scan` | tools/elog-gen.py:37-44 | The inner loop is one scan. |
| `ErrorOrder.CheckErrorInheritance` | tools/elog-gen.py:52-62 | True exactly if every parent is defined. |
| `RsyslogConfig.ReadsBackIffSurvives` | phosphor-rsyslog-config/server-conf.cpp:222-255 | An enabled configuration is parsed back as it was written exactly when its address is IPv6, or is free of ':', '[', ']' and newline and, for UDP, does not start with '@'; otherwise address or protocol differ or nothing is found. |
| `RsyslogConfig.LineShows` | phosphor-rsyslog-config/server-conf.cpp:222-255 | The line has two '@' for TCP and one for UDP, the address in brackets exactly if it is an IPv6 one, and the port in decimal without leading zeros; the null device stands for port 0 or no address. |
| `RsyslogConfig.IgnoresComments` | phosphor-rsyslog-config/server-conf.cpp:39-70 | Nothing is taken from a comment, an empty first line or one without an '@'. |
| `RsyslogConfig.DisabledReadsNothing` | phosphor-rsyslog-config/server-conf.cpp:246-250 | A disabled configuration parses to nothing. |
| `RsyslogConfig.RaisedIff` | phosphor-rsyslog-config/server-conf.cpp:52-70 | On any text the parser returns, except when the first '@' of a line that is no comment is its last character: that exception is not caught. |
| `RsyslogConfig.RestartKeepsSettings` | phosphor-rsyslog-config/server-conf.cpp:277-288 | A restarted server has the settings that were written exactly if they were enabled with an address that survives, or are the ones it starts with. |
| `RsyslogConfig.Server.SetAddress` | phosphor-rsyslog-config/server-conf.cpp:125-162 | The property and the file change together, or an invalid address changes neither. |
| `RsyslogConfig.Server.SetPort` | phosphor-rsyslog-config/server-conf.cpp:164-191 | The property and the file change together. |
| `RsyslogConfig.Server.SetTransportProtocol` | phosphor-rsyslog-config/server-conf.cpp:193-220 | The property and the file change together. |
| `RsyslogConfig.Server.WriteConfig` | phosphor-rsyslog-config/server-conf.cpp:222-255 | The file holds the one line for the settings. |
| `RsyslogConfig.ParseFile` | phosphor-rsyslog-config/server-conf.cpp:39-121 | The parser, position by position, is the value parser. |

## Left out

- File contents and I/O errors: a stored PEL is its attributes and its size on disk, a file in the archive its name and size; what the file system says of a moved file's size is the size it had.
- updatePELFromFile: it replaces the attributes of a PEL without touching the counters.
- Pruning.PruneClearsWarning: for maximum sizes below 2^57 only, as the code's percentage products wrap above; sums of file sizes are below 2^63, as the code casts them to int64.
- std::sort leaves the order of equal paths open; the snapshot keeps the map's order among them.
- Erasing through a map iterator is erasing by index; aliasing of attributes through references is not modelled.
- D-Bus properties and signals, inventory, LEDs, the journal, GARD records, phal and SBE processing, JSON printing and the message registry: they do not decide what is modelled here.
- The traces in the notifier that look at the front of the queue are treated as not there.
- An exception that leaves a handler of the notifier goes to sdeventplus, which is not part of this model: the process is taken to go on, or to start again. Sizes and contents of the messages to the host are not modelled.
- Sections are values: a section that the code shrinks in place is replaced by its shrunk value, and a section that turns out invalid is not built, so neither the partly filled objects of an invalid PEL nor the stream position they leave are modelled.
- The SRC's hex words, ASCII string and the user header's values are given as facts of a new PEL; how the registry and additional data determine them is not modelled, nor is the later change of action flags and event type, which alters no size.
- FRU identity fields that are not NUL-terminated: the code reads past such an array, the model stops at its end.
- CalloutStreams.Callouts.AddCallout: with a priority that operator> does not know the order is left open, because then operator> is no ordering that std::ranges::sort may be given.
- gmtime and timegm: only the digits of BCD are modelled. A number of more than eight digits shifts further than an int is wide in toBCD, which is undefined; the model goes on.
- LogState.RunKeepsGood: the 32-bit ID does not wrap during a run (`LogState.InsertKeepsInvIff` says what a wrap does); redundant BMCs are covered by the ID arithmetic alone, not by a run of two managers.
- An extension that calls back into the log manager while an entry is created or deleted.
- Serialization of entries by cereal and JSON: restore starts from what was read.
- rsyslog is not restarted, and exceptions other than an invalid address are not modelled in the setters.
- Code templates, command-line tools, rules tables (pel_rules) and device-path parsing: thin wrappers or small tables.
