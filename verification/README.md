# Dafny model of rdstail

rdstail tails the log files of RDS instances through an API that only answers
"the data after this marker", and delivers them to sinks. This project models the
parts that decide whether a log line is lost, split or repeated, and proves what
they promise. `dafny verify dfyconfig.toml` checks all of it.

| file | what it models |
|---|---|
| `Wrappers`, `Text`, `Records`, `LogLayout` | lines, their grouping into records under the 1 MiB cap, the rejoining at chunk boundaries, and a log as a sequence of chunks |
| `DrainLines`, `DrainEntries`, `Drain` | the chunk-by-chunk drain of a growing log, with hold-back flushes and durable checkpoints: its lines at any size, its entries, and the imperative code |
| `Dump` | the one-shot dump loop with its held record |
| `RangeRead`, `ParallelDrain`, `WholeDrain` | byte-range reads of a growing file, waves of them against a sequential read, and waves followed by the chunk loop |
| `Truncation` | recovery from responses cut at the server's cap |
| `Markers`, `Rotation` | marker and hour arithmetic, and the hourly rotation planner |
| `ShippedRing`, `Restarts`, `EventWindow` | what a restart makes the worker re-read and from where, and what is dropped from that again |
| `SinkStack`, `Replay` | delivery through fan-out, filters, dead letters and retries; replaying dead letters |
| `Fleet`, `Shard` | which workers run, and which process owns an instance |

Conventions. A `char` is one byte. A record is its message. The engine's line parser
is reduced to the question grouping asks: does this line start a record
(`Records.Parser`)? Sink writes, checkpoint writes, downloads and dead-letter operations
fail nondeterministically; a failed sink or checkpoint write may still have taken effect,
which is also how a process that dies at that point is covered. `faults` fields count
failures, so that a contract can say that an operation fails only when something outside
failed. Times are integers, hashes are parameters.

The reference every grouping theorem is measured against is `Records.Entries`: it groups
lines from the right, knows nothing of the cap, of chunks or of an accumulator, and is
defined on a whole file.

## Where the code falls short of what its comments say

Each of these has an exact condition, proved both ways, and an input at which it fails.

- Hold-back drains (internal/pipeline/worker.go:706-710) do not split an entry inside a poll, but the last
  flush of a poll holds nothing back. Over any run of drains, failures and arrivals, with no entry of several
  lines over the cap, every batch is whole entries of the log as it now is if and only if, wherever a poll ended,
  the next line to arrive started an entry (`Drain.FileDrain.Live`, `DrainEntries.WholeUnlessContinued`). No line is
  ever lost either way, whatever the sizes (`Drain.FileDrain.DrainFile`, `Drain.FileDrain.Live`). The failing run is
  `Drain.ContinuedAfterThePoll`.
- Grouping: the parser's records are the log's entries if and only if no entry of several lines exceeds 1 MiB
  (`Records.GroupsAreEntries`), and the same condition decides it for chunked reading (`DrainEntries.TakenAreEntries`,
  `Dump.DumpFile`); above it lines are still conserved. The failing input is `Records.OverCapEntrySplits`.
- Parallel reading ships the last record of the wave that reads to the end of the file without holding it
  back. It is identical to sequential reading if and only if the next line to arrive does not continue that
  record (`ParallelDrain.EndOfFileRefines`, and with the chunk loop behind it `WholeDrain.DrainFile`); it fails at
  `ParallelDrain.LastWaveCanSplit`, at any size of file. No line is lost either way (`ParallelDrain.ChainKeepsLines`).
- Adjacent ranges do not always tile (internal/source/rds/fetcher.go:307-309): `RangeRead.AdjacentRangesTile` has the
  condition and `RangeRead.LongLastLineDoesNotTile` an input; the tiling check of a wave catches the rest.
- Only the newest 32 restarts are kept. With restarts told of in order, the idle test is right about a restart
  if and only if it is still noted (`Restarts.IdleTestRightWhileNoted`); `Restarts.DroppedRestartCanBeMissed`
  is a run in which an older one is taken as handled for a file written after it.

## Model

| member | source | states |
|---|---|---|
| Records.ParseRecords | internal/source/rds/fetcher.go:458-504 | the parser's loop, blank lines and the 1 MiB cap included, computes the function the lemmas below are about |
| Records.GroupsAreEntries | internal/source/rds/fetcher.go:458-504 | the parser's groups of lines are the log's entries if and only if no entry of several lines exceeds the cap |
| Records.ParseFindsEntries | internal/source/rds/fetcher.go:458-504 | under that condition the records are the entries' messages; at any size the leading flag says exactly whether the text opens with a continuation |
| Records.OverCapEntrySplits | internal/source/rds/fetcher.go:480-482 | an entry of two lines over the cap comes out as two records |
| Records.ParseGroups | internal/source/rds/fetcher.go:458-504 | at any size, records are consecutive non-empty runs of lines that together are all the lines |
| Records.RejoinFindsEntries | internal/source/rds/fetcher.go:513-525 | rejoining a chunk's leading record onto what came before gives the entries of both texts taken together |
| Records.JoinFits | internal/source/rds/fetcher.go:513-525 | the rejoin is never refused when the whole entry is within the cap |
| Records.LastRecord | internal/source/rds/fetcher.go:458-504 | the last record's lines parse to that record alone, and the lines before it to all the others |
| Records.ResumeAtLastRecord | internal/source/rds/fetcher.go:458-504 | at any size, parsing may be taken up again at the last record's first line with more text behind it, with the same result |
| Records.EntriesMerge | internal/source/rds/fetcher.go:513-525 | cutting a text inside an entry cuts exactly that entry in two |
| LogLayout.WholeEntries | internal/pipeline/worker.go:706-710 | the lines between two entry boundaries are exactly the run of source entries between them |
| LogLayout.LinesOfConcat | internal/source/rds/fetcher.go:458-504 | line-aligned chunks have the lines of the whole file |
| DrainLines.TakeKeepsLines | internal/pipeline/worker.go:806-826 | at any size, taking a chunk in leaves exactly the lines from the front to the end of the chunk held, and the newest record beginning in the chunk lastStart names, behind what a drain from there skips |
| DrainLines.SkipKeepsLines | internal/pipeline/worker.go:806-820 | a resumed drain passes over exactly the lines of the one record it drops |
| DrainLines.FlushLines | internal/pipeline/worker.go:732-749 | at any size, the batch of a flush holds exactly the lines from the front to where it leaves it, and what is carried the lines from there on |
| DrainLines.LinesFlushed | internal/pipeline/worker.go:752-763 | with the batch accepted, no line before the checkpoint aimed at is undelivered, and the drain can go on from it or from the old one |
| DrainEntries.TakeChunkHolds | internal/pipeline/worker.go:806-826 | taking a chunk in leaves pending holding exactly the entries from the front to the end of the chunk, and lastStart/lastStartSkip naming the chunk the newest began in |
| DrainEntries.TakeChunkSkips | internal/pipeline/worker.go:806-820 | a resumed drain drops exactly the tail of the entry that was delivered before |
| DrainEntries.HoldBack | internal/pipeline/worker.go:732-739 | holding the newest record back leaves whole entries in the batch and one whole prefix of an entry behind |
| DrainEntries.HoldBackCheckpoint | internal/pipeline/worker.go:735-738 | the chunk the newest record began in, with its skip flag, is a checkpoint from which entries resume no later than at that record |
| DrainEntries.FlushWrites | internal/pipeline/worker.go:732-743 | every batch a flush writes is a run of whole source entries |
| DrainEntries.FlushDone | internal/pipeline/worker.go:752-763 | after a flush the drain can go on from the old checkpoint or the new one, and the checkpoint does not go back |
| DrainEntries.TakenAreEntries | internal/pipeline/worker.go:806-826 | reading chunk by chunk finds exactly the entries, wherever the chunks are cut, if and only if no entry of several lines exceeds the cap |
| DrainEntries.CheckpointStays | internal/pipeline/worker.go:732-763 | a durable checkpoint stays good when chunks arrive |
| DrainEntries.WholeUnlessContinued | internal/pipeline/worker.go:732-763 | every batch written is a run of the log's entries if and only if wherever a poll ended the next line to arrive starts an entry |
| Drain.FileDrain.TakeIn | internal/pipeline/worker.go:806-826 | the loop body computes the specified function of the pending records |
| Drain.FileDrain.Flush | internal/pipeline/worker.go:732-765 | whatever fails, what was written in this drain is the lines from where it began up to some point within the chunks pulled, in order once each - and within the cap whole entries - the durable checkpoint stays good and does not go back; it fails exactly when a write fails; in the middle of a poll it leaves at most the held-back record in hand and the checkpoint at the chunk that record began in, or at the next chunk |
| Drain.FileDrain.OneChunkAgain | internal/pipeline/worker.go:706-710 | what a drain delivered beyond its durable checkpoint lies in the chunk the checkpoint names |
| Drain.FileDrain.DrainFile | internal/pipeline/worker.go:711-858 | at any size, one drain that may fail or be cut off anywhere keeps the durable invariant, and what it wrote is always the lines from its resume position up to some point, once each in order, and within the cap their entries; it succeeds exactly when nothing outside failed, and then that point is the end of the log and every line of it has been delivered; it asks for another chunk only while neither batch limit is reached or with at most the held-back record in hand and the checkpoint at its chunk, a batch it writes before the end has reached a limit or there are none, and it counts what was acknowledged |
| Drain.FileDrain.FlushIfDue | internal/pipeline/worker.go:849-856 | in the middle of a poll a flush happens exactly when a limit is reached or there are none, and after it more may be asked for |
| Drain.FileDrain.Arrive | internal/pipeline/worker.go:711-858 | chunks that arrive between drains, of any size, keep the invariant and the position the next drain delivers from |
| Drain.FileDrain.Live | internal/pipeline/worker.go:700-710 | over any run of drains, failures and arrivals and at any size of entry no line is lost and every batch holds the lines its span names; once caught up every line has been delivered; and when no entry of several lines exceeds the cap, every batch is whole entries if and only if no poll ended in the middle of one |
| Drain.ContinuedAfterThePoll | internal/pipeline/worker.go:841-848 | two drains without a failure that ship an entry of two lines as two records |
| Records.ParseKeepsLines | internal/source/rds/fetcher.go:458-504 | parsing conserves the non-blank lines of any text, in order |
| Records.RejoinKeepsLines | internal/cli/dump.go:170-175 | so does rejoining, whether or not it joins |
| Dump.TakeIn | internal/cli/dump.go:170-181 | one turn neither drops nor repeats a record and holds back exactly the newest, exactly when more is pending |
| Dump.DumpFile | internal/cli/dump.go:150-189 | a dump that succeeds has written the file's lines once each in order, and exactly its entries if and only if no entry of several lines exceeds the cap; one that fails has written a prefix, with or without the batch whose write failed; it succeeds exactly when no pull and no write failed |
| RangeRead.RangeOwnsItsLines | internal/source/rds/fetcher.go:307-312 | a range contains a complete line exactly when the line starts in it |
| RangeRead.AdjacentRangesTile | internal/source/rds/fetcher.go:307-313 | adjacent ranges tile if and only if a line starts at or after the cut, or the incomplete last line starts one byte before it |
| RangeRead.LongLastLineDoesNotTile | internal/source/rds/fetcher.go:341-358 | two ranges of a file that is one incomplete line, which do not tile |
| RangeRead.RangesTileAcrossGrowth | internal/source/rds/fetcher.go:307-313 | ranges read from two versions of a growing file tile when both had a line start past the cut |
| RangeRead.LongLineEmptiesRange | internal/source/rds/fetcher.go:350-365 | a line longer than a range leaves that range empty |
| RangeRead.RangeIsSlice | internal/source/rds/fetcher.go:350-365 | what a range returned is a slice of whole lines of every later version of the file |
| RangeRead.CutClosed | internal/source/rds/fetcher.go:331-340 | cutting at the first newline from end-1 on gives the lines that start before end |
| RangeRead.CutAtEof | internal/source/rds/fetcher.go:341-346 | at end of file the cut keeps complete lines only |
| RangeRead.ReadRange | internal/source/rds/fetcher.go:314-348 | however the server splits its responses and however the file grows, the result is the lines that start in the range, of the file as last seen; it gives up exactly when a response failed or could not be used |
| ParallelDrain.HoldBackAtLineStart | internal/pipeline/worker.go:1205-1211 | when the text ends with the last record and a newline, that record begins at a line start and the text before it has exactly the lines before it |
| ParallelDrain.WaveRefines | internal/pipeline/worker.go:1199-1211 | shipping all but the last record and parsing the rest from there equals parsing in one go, whatever follows, records over the cap included |
| ParallelDrain.EndOfFileRefines | internal/pipeline/worker.go:1199-1212 | shipping every record loses nothing against one parse if and only if what follows does not continue the last record |
| ParallelDrain.LastWaveCanSplit | internal/pipeline/worker.go:1199-1212 | a file of any size that ends with the first line of an entry when the last wave reads it, and whose growth continues that entry: one parse gives other records |
| ParallelDrain.GoodWaveTiles | internal/pipeline/worker.go:1178-1196 | a wave whose reads all succeeded passes the tiling check, however the file grew, when a line starts past each cut |
| ParallelDrain.ParallelReader.ReadWave | internal/pipeline/worker.go:1146-1198 | every slot is the range it should be or idle; a wave that passes is the exact slice of the file from off to its end, whole lines only; the last wave ends no earlier than the last whole line the file had when its last slot was read |
| ParallelDrain.ParallelReader.Tile | internal/pipeline/worker.go:1178-1198 | the check gives the first bad answer or the joined text, and what it lets through is an exact slice of the file |
| ParallelDrain.ParallelReader.HoldBack | internal/pipeline/worker.go:1199-1212 | which wave texts can be shipped, what of them, and where the wave then ends |
| ParallelDrain.ParallelReader.ShipWave | internal/pipeline/worker.go:1146-1245 | one wave did what it read called for: its reads are ranges of the file at sizes it had meanwhile, the tiling check over them decides, it stops exactly when what they tile to cannot be shipped, and otherwise ships exactly the records of that text and checkpoints at its end or at its last record; committed records and a sequential read from the checkpoint stay equal to one sequential read |
| ParallelDrain.ParallelReader.NextWave | internal/pipeline/worker.go:1147-1246 | one more wave keeps that, the checkpoint rises with every wave that goes on, and a wave that stops or was the last ends the drain for one of its reasons |
| ParallelDrain.ParallelReader.Drain | internal/pipeline/worker.go:1139-1247 | what was delivered is what its waves shipped, in order; each wave did what its reads called for and began where the one before it left the checkpoint; it ends only when the backlog is small or a wave read to the end of the file - past every whole line the file had when the drain began - or could not be used; and for every later size of the file the committed records and a sequential read from the checkpoint equal one sequential read if and only if that does not continue the records of a wave that read to the end; it fails only when a read or write failed, and always when a write did |
| ParallelDrain.NewestIsLastShipped | internal/pipeline/worker.go:1199-1212 | the records of a wave that read to the end of the file end with the last record the drain shipped |
| ParallelDrain.GoodWaveAdvances | internal/pipeline/worker.go:1178-1215 | a wave that got every range, with a line starting past each cut, stops exactly when its text is one giant record or does not end as its last record does |
| ParallelDrain.LastWaveEnds | internal/pipeline/worker.go:1160-1163 | the last wave reads to the end of the file as it then is, not as it was listed |
| ParallelDrain.LastWaveLeavesNothing | internal/pipeline/worker.go:1160-1215 | a drain whose last wave went through leaves its checkpoint behind every whole line the file had when the drain began, and its newest records are those of that wave |
| ParallelDrain.ChainKeepsLines | internal/pipeline/worker.go:1139-1247 | at any size of entry, the waves shipped exactly the lines between the checkpoint they began at and the one they left |
| WholeDrain.ThenSequential | internal/pipeline/worker.go:722-730 | the waves' records and then the chunk loop's are the lines once each in order, and are one parse's records if and only if the loop's lines do not continue what a wave shipped from the end of the file |
| WholeDrain.DrainFile | internal/pipeline/worker.go:722-858 | waves and then the chunk loop from their checkpoint, however either is served: a drain that succeeds delivered the lines of the file once each in order, at any size, and exactly one parse's records under that condition; one that fails leaves a checkpoint before which no line is missing |
| Truncation.ResponseRead | internal/source/rds/fetcher.go:373-391 | for lines that do not end with the notice, a response is recognised as cut exactly when it was, and completeLines counts exactly its whole lines |
| Truncation.WholeLinesNotTruncated | internal/source/rds/fetcher.go:373-376 | whole lines are never taken for a cut response |
| Truncation.CutResponse | internal/source/rds/fetcher.go:373-391 | stripping the notice restores the text and the cut part of the line |
| Truncation.WholeAgain | internal/source/rds/fetcher.go:270-274 | asking again for the whole lines only gets exactly those |
| Truncation.PortionServer.PullRaw | internal/source/rds/fetcher.go:257-286 | at most two downloads; the data is exactly the lines up to the next marker, or the first cap bytes of a single line over the cap; it fails exactly when a download does |
| Truncation.PortionServer.PullAll | internal/source/rds/fetcher.go:255-286 | repeated pulls give every line once in order, clipped to the cap; that is the file exactly if and only if no line is longer than the cap |
| Truncation.ClippedExactly | internal/source/rds/fetcher.go:255-286 | clipping loses nothing if and only if no line is longer than the cap |
| Markers.OffsetMarkerRoundTrip | internal/source/rds/fetcher.go:290-300 | prefix and 64-bit offset survive printing and parsing |
| Markers.RewindStaysInFile | internal/pipeline/worker.go:961-976 | a rewound marker is rewindBytes before min(offset, size) of the same file, or the beginning, and says which |
| Markers.CompareTotalOrder | internal/source/rds/rotation.go:40-52 | comparing hours is a total order that agrees with equality |
| Markers.CompareChronological | internal/source/rds/rotation.go:39-52 | on well-formed dates it is chronological order |
| Markers.HourMarkerRoundTrip | internal/source/rds/rotation.go:69-80 | an hour marker parses back to its hour and offset |
| Markers.SameHourExactly | internal/pipeline/worker.go:1249-1258 | two hour markers are of one file exactly when they name one hour, and a marker that names none is of no hour's file |
| Markers.SplitRotatedRoundTrip | internal/source/rds/rotation.go:56-66 | a rotated name splits back into base and hour exactly when the base is a name on one line that ends in .log |
| Markers.BaseIsNotRotated | internal/source/rds/rotation.go:54-66 | a base name is not taken for a rotated one |
| Rotation.PlanCoversRotated | internal/pipeline/worker.go:542-593 | after planning, a byte of a rotated hour is ahead of that file's cursor if and only if it was unread before, and the base cursor points into no rotated hour |
| Rotation.PlanGoesOnLive | internal/pipeline/worker.go:519-591 | with purging oldest first and a base checkpoint in any hour there was, the live file goes on where it should, and a gap is reported exactly when the checkpoint's hour was purged |
| Rotation.PlanCoversLive | internal/pipeline/worker.go:519-591 | for any listing at all: the live file's cursor is where reading has to go on if and only if the base checkpoint's hour is the live one, is not newer than the rotated ones, or had offset 0 |
| Rotation.PlanWithoutHour | internal/pipeline/worker.go:546-569 | without an hour in the base checkpoint nothing is moved, and hours are seeded, from their beginning, exactly when there is no base checkpoint and the file is read from its beginning |
| Rotation.PassDrains | internal/pipeline/worker.go:546-591 | the files to drain are in the order of their hours, once each: every one with a byte its cursor has yet to read, an hour file exactly until its size is reached, an untracked one exactly when it is given a checkpoint |
| Rotation.PlanRestarts | internal/pipeline/worker.go:542-593 | a pass cut off after any of its writes and run again on the same listing ends with the same checkpoints |
| Rotation.SeedsResume | internal/pipeline/worker.go:544-580 | after any prefix of the seeds exactly the others are left to write |
| Rotation.SeedsLeaveAlone | internal/pipeline/worker.go:549-555 | a tracked hour is never seeded again |
| Rotation.Planner.PlanHour | internal/pipeline/worker.go:544-580 | one hour: seeded once if it should be; drained until its size is reached; a failed write leaves it seeded or not |
| Rotation.Planner.PlanBase | internal/pipeline/worker.go:519-593 | the planner's writes are a prefix of the plan, all of it when nothing fails; its drain list and the gap count; after a pass that finishes, no hour with a byte its cursor has yet to read is left out of the files to drain, and no hour file read to its size is in it |
| ShippedRing.FilterIsDifference | internal/pipeline/worker.go:1007-1027 | the keys kept are the multiset difference of the re-read keys and the ring |
| ShippedRing.FilterKeepsOrder | internal/pipeline/worker.go:1017-1026 | what is kept is an order-preserving subsequence |
| ShippedRing.FilterConcat | internal/pipeline/worker.go:792-800 | dropping chunk by chunk with the counts carried over equals dropping in one go |
| ShippedRing.DedupeLosesNothing | internal/pipeline/worker.go:1007-1027 | if the ring is contained in what was shipped, every key ends up delivered at least as often as it was re-read |
| ShippedRing.RewindIsCovered | internal/pipeline/worker.go:977-1005 | records re-read from the recent end of what was shipped, up to 2 MiB of text and 50,000 records, are all recognised |
| ShippedRing.BytesAreText | internal/pipeline/worker.go:979-991 | the bytes a ring counts are the length of the text its records were shipped as |
| ShippedRing.Ring.Remember | internal/pipeline/worker.go:979-1005 | counts, bytes and keys agree; the keys are a suffix of everything shipped, at most 50,000, with nothing ever forgotten unless 2 MiB or 50,000 keys remain, and never a key more than that needs |
| ShippedRing.Ring.DropAlreadyShipped | internal/pipeline/worker.go:1010-1027 | the loop over mutable counts computes that filter |
| Restarts.RestartBook.NotifyRestart | internal/pipeline/worker.go:1049-1069 | a notice is recorded, under the next generation, exactly when it is 90 s or more from every restart noted; the newest 32 are kept |
| Restarts.RestartBook.PendingRestart | internal/pipeline/worker.go:1073-1088 | pending exactly when the loaded generation is not handled, with the earliest such restart's time |
| Restarts.RestartBook.MarkBefore | internal/pipeline/worker.go:1108-1123 | the newest mark not after t, or the oldest one there is |
| Restarts.RestartBook.Reverify | internal/pipeline/worker.go:648-684 | whether a drain reads again, whether it has a restart to commit, and the marker it starts from: a pending restart stands unless the file was last written more than a minute before it, a shrunk file is read again unless its hour marker still lies within it, and the re-read starts from the mark before the margin in the same hour file |
| Restarts.RestartBook.Checkpointed | internal/pipeline/worker.go:756-763 | a checkpoint in place is recorded and commits the restart of the drain |
| Restarts.EarliestIsEarliest | internal/pipeline/worker.go:1081-1086 | the time taken for the pending restarts is no later than that of any of them still noted |
| Restarts.RunInv | internal/pipeline/worker.go:648-763 | over every interleaving of notices, drains and checkpoints: which restarts a drain looked at and when it began, which checkpoint a re-read went back to and exactly when that is the one in place the margin before the restart, and that nothing is handled without such a drain |
| Restarts.RestartNeverLost | internal/pipeline/worker.go:648-763 | a recorded restart is pending for a file or was settled by a drain begun after it was recorded, which found the file last written more than a minute before the restart - if it is still noted - or made durable a checkpoint read on to from where such a re-read starts |
| Restarts.ReadAgainFromBefore | internal/pipeline/worker.go:660-683 | that re-read went back to a checkpoint no newer than the one in place the margin before the restart, and REWIND_BYTES further, if the file's checkpoints did not go back in between |
| Restarts.RewindFromCheckpoint | internal/pipeline/worker.go:660-683 | unless the store was written behind the marks' back, a re-read goes back from a checkpoint the file had, and from the newest itself when that was in place the margin before the restart |
| Restarts.CountedWhileNoted | internal/pipeline/worker.go:1073-1088 | in every run with restarts told of in order, the time a drain takes is no later than that of a restart it handles if and only if that restart is still noted |
| Restarts.IdleTestRightWhileNoted | internal/pipeline/worker.go:653-659 | so the idle test never says idle wrongly about a restart if and only if that restart is still noted |
| Restarts.DroppedRestartCanBeMissed | internal/pipeline/worker.go:1063-1065 | a run in which the 33rd restart pushes out the first, which a drain then takes as handled for a file written after it |
| Restarts.NotesApart | internal/pipeline/worker.go:1050-1065 | the restarts kept are pairwise at least 90 s apart, with generations rising by one |
| EventWindow.ForgettingIsSafe | internal/pipeline/scheduler.go:351-356 | forgetting keys over twice the lookback old cannot let one come up again in a later window |
| EventWindow.Watcher.Tick | internal/pipeline/scheduler.go:326-357 | a failed poll changes nothing; a successful one hands on exactly the new keys of its window and forgets those handed on more than ten minutes ago |
| EventWindow.IsRestartEvent | internal/source/rds/events.go:31-44 | the loop over categories finds exactly the failovers and the availability events whose message speaks of a restart, reboot or shutdown, in any case |
| EventWindow.RestartSpoken | internal/source/rds/events.go:31-44 | each of the three words counts anywhere in the message and in any case |
| EventWindow.PollRestartEvents | internal/source/rds/events.go:50-76 | following the markers from page to page gives the restart events of all pages in order; a request that fails on any page gives none |
| EventWindow.PagesAnswer | internal/source/rds/events.go:50-76 | so, however the listing is ordered and paged, a successful poll returns exactly the restart events of its window |
| EventWindow.Watch | internal/pipeline/scheduler.go:317-359 | over any sequence of polls every key is handed on at most once, and that of every event listed within five minutes exactly once |
| SinkStack.KeepLoop | internal/sink/filter.go:84-119 | the filters' loop keeps exactly the passing records, in order: from a time on, of the named severities in any case, or by the pattern |
| SinkStack.AlertsByLevel | internal/sink/filter.go:12-43 | a sink for a severity and above gets the records of that level and of every higher one in any case, and none whose severity is unknown |
| SinkStack.UpperAt | internal/sink/filter.go:27-28 | severities are compared letter by letter without regard to case |
| SinkStack.KeptConcat | internal/sink/filter.go:84-97 | what is kept of a batch is in its order, wherever batches are cut |
| SinkStack.BuiltAsConfigured | internal/sink/factory/factory.go:30-58 | what is built for a sink writes what its filter keeps, tries as often as configured or 10 times, and with a dead letter queue counts parking as taken |
| SinkStack.NamesInOrder | internal/sink/sink.go:50-60 | a fan-out's name is its sinks' names, in order, with commas between |
| SinkStack.NilMeansNothingDropped | internal/sink/factory/factory.go:30-58 | for the configured stack, a nil return means each record that passes a sink's filter was accepted by that sink or is parked under its name |
| SinkStack.Write | internal/sink/sink.go:65-73 | for any nesting of sinks: what a nil return promises, that an error stems from a failure and is permanent or cancelled only if one behind it was, that a permanent one is told of unless a batch was parked instead, the bound on writes, and that short of a cancellation every destination was tried |
| SinkStack.RetryWrite | internal/sink/retry.go:50-77 | at most the configured attempts, all of them for a destination that keeps failing, none after a permanent error |
| SinkStack.DeadLetterWrite | internal/sink/dlq.go:41-62 | an error comes back only when cancelled, for an empty batch, or when parking failed |
| SinkStack.FanoutWrite | internal/sink/sink.go:64-73 | nil only if every sink took the batch; every sink is written whatever the others return; the joined error answers for each of them |
| SinkStack.TakenStays | internal/sink/retry.go:50-77 | what was taken stays taken through later attempts and sinks |
| Replay.SelectNext | internal/state/sqlite/store.go:242-269 | paging by the last ID seen goes on exactly behind it |
| Replay.SelectedExactly | internal/state/sqlite/store.go:242-269 | a page comes from the rows behind the cursor, of the sink asked for or of all |
| Replay.SelectAfterDelete | internal/state/sqlite/store.go:242-278 | deleting a row the cursor has passed does not change what is selected next |
| Replay.Replayer.One | internal/replay/replay.go:107-150 | the fate of one row: a configured one that decodes is written, and left exactly when the sink refused it; the table and the sink changed only by a replay |
| Replay.Replayer.Run | internal/replay/replay.go:48-156 | for any page size and limit, a run without failure visits the first min(limit, matching) rows in order once each, and writes every one of them that is configured and decodes: the failures are those that do not decode and the refusals, and with no refusal exactly those rows were acknowledged; the table is the old one minus exactly the acknowledged rows, and the counters add up; after an abort nothing is lost and at most one acknowledged row is still parked |
| Replay.NothingLost | internal/replay/replay.go:89-155 | every row is still parked or its write was acknowledged, and after a finished run never both |
| Fleet.OneLiveWorkerPerKey | internal/pipeline/scheduler.go:208-237 | the running map's keys are exactly those of the live workers, and no key has two |
| Fleet.StartNeedsAbsence | internal/pipeline/scheduler.go:167-237 | starting a worker keeps that if and only if its key was not running |
| Fleet.SpecKeyTellsApart | internal/pipeline/scheduler.go:105-106 | no two instances of different region or name share a key |
| Fleet.Fleet.Others | internal/pipeline/scheduler.go:222-236 | any steps of the worker goroutines keep it, and a key leaves the map only with its worker |
| Fleet.Fleet.Reconcile | internal/pipeline/scheduler.go:256-286 | after a refresh the live workers not wanted are cancelled and no wanted one is newly so, nothing unwanted was started, and each wanted instance has a worker unless one ended or could not be built since the refresh began |
| Fleet.Run | internal/pipeline/scheduler.go:240-290 | over every interleaving of refreshes, cancellations and worker exits: at most one live worker per key, and at most `slots` of them tailing; every configured instance was started, or one could not be built; every refresh was acted on and the last one is served |
| Shard.MixUndone | internal/shard/shard.go:60-66 | the finalizer can be undone step by step |
| Shard.MixIsInjective | internal/shard/shard.go:59-66 | so distinct words have distinct images |
| Shard.Owns | internal/shard/shard.go:42-57 | the loop decides whether this shard is the first one of greatest weight |
| Shard.ExactlyOneOwner | internal/shard/shard.go:1-5 | for any hash, every key has exactly one owner among the shards 1..n |
| Shard.AnyOwners | internal/shard/shard.go:42-57 | the key and the shard number both count: by the hash, any two keys can have any two owners |
| Shard.GrowthMovesToNew | internal/shard/shard.go:1-5 | growing from n to n+1 shards moves a key only to shard n+1 |

## Left out

- AWS, Kafka, S3, HTTP, SQLite and file system calls: operations that succeed or fail; the
  checkpoint store is a map, the dead letter table a sequence of rows in ID order.
- Timestamps, severities, pgAudit fields, `Truncated`, `Marker` and `BatchID` of records: a record
  is its message, except in `SinkStack`, where filters need severity and timestamp.
- Drain.FileDrain.DrainFile: the file has line-aligned chunks with numbered markers and its
  checkpoint exists and needs no re-verification; choosing the start, the restart re-read with its
  dropped first line, error-running-log dedupe and stall detection are not part of this drain. Where a
  restart re-read starts is `Restarts.RestartBook.Reverify`.
- Drain.FileDrain.DrainFile: entries of several lines above 1 MiB are cut whatever the drain does; of those it
  promises every line, in order, but not where the records are cut (`Records.ParseGroups` says what one chunk gives).
- Drain.FileDrain.PullPortion: a chunk pulled again from the same marker is the same chunk. The skip flag relies on
  it: a second pull that returned only part of the leading continuation would have the rest shipped as a fragment
  (internal/pipeline/worker.go:806-820).
- WholeDrain.DrainFile: the chunk loop is served the whole lines the file has by then; how the two paths share
  metrics and the list of shipped keys is not modelled.
- Drain.FileDrain.Arrive: the log grows between drains; a chunk that arrives during one is either seen by
  that poll, as if it had been there, or not.
- ShippedRing.DedupeLosesNothing: the ring is fixed while data is re-read; a flush in the middle
  of the re-read adds to the ring being compared against, and the equation then does not hold.
- ShippedRing.Ring: a file without a ring is an empty ring; the map of rings by file and the
  time-limited set of shipped error lines are not modelled.
- ParallelDrain.ParallelReader.ReadWave: the concurrent reads are taken in slot order; each
  depends on the others only through the file's growth, which is arbitrary between any two downloads.
- RangeRead.ReadRange: the server's file grows towards some final content; it is neither truncated nor replaced meanwhile.
- Rotation.Planner.PlanBase: one base file and its hours, listed in order; grouping the listing by base name and sorting it are
  not modelled, and an in-place rotation between listing and planning is not covered.
- Rotation.PlanCoversRotated: requires an hour-addressed base marker; while the marker is still `"0"`, untracked hours are skipped by design.
- Restarts.RestartNeverLost: restarts are dated after Go's zero time and at most one drain of a file is in progress; a
  drain's reading between two checkpoints is one event. That it does not checkpoint before where it started
  (`Restarts.GoesOn`) is required of the event here and proved of the drain in `Drain.FileDrain.DrainFile`. The worker's
  memory starts empty: a checkpoint from before the process began, from the planner, or from a write that reported
  an error is in the store but not among the marks.
- EventWindow.Watch: two events of one instance with the same time share a key, as in the code.
- EventWindow.IsRestartEvent: letters outside ASCII are not lowered.
- SinkStack.Write: metrics decorators, backoff times and closing of sinks.
- Replay.Replayer.Run: the cache of built sinks; here building may fail at any row, and sinks are not closed.
- Fleet.Run: the shutdown timeout, the event watchers it starts, and the drain semaphore shared by workers.
- Shard.Owns: the FNV-1a sum of key and shard number is a parameter; reading "i/n" from the command line is not modelled.
- BytesWritten, lag and progress metrics, poll pacing, cost estimates, IAM policy text, configuration and the command line.
