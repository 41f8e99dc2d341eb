# Storm, HDFS and counter protocols: a verified model

Dafny models of the stateful protocols of the repository, with proofs about all their runs. Each protocol has
a pure machine (a state, its transitions, lemmas over every run) and, where the code updates fields or loops,
a class whose methods are proved against the transitions of that machine.

| file | protocol |
|---|---|
| `TridentState.dfy`, `HdfsState.dfy`, `TxnIndex.dfy`, `TridentCrashes.dfy` | Trident HDFS state: exactly-once output by recording `(txid, file, offset)` before a batch and recovering the prefix on replay; replacement of the index file, and deaths inside it |
| `Sessions.dfy`, `CounterRuns.dfy`, `LiveCounts.dfy`, `CountingBolts.dfy` | real-time viewer counters: optimistic transactions on `mac` and `mac\|cp`, expiry tasks, cached counter deltas |
| `TextReader.dfy`, `Tracker.dfy`, `Spout.dfy`, `SpoutProgress.dfy` | HDFS spout: resumable line reader, commit-prefix tracker, emit/acknowledge/fail machine, sessions one after another |
| `SpoutUnterminated.dfy` | the same over a text without a final newline |
| `LockLog.dfy`, `LockResume.dfy`, `SpoutTorn.dfy`, `Locks.dfy` | lock files as logs, resuming from them over whole runs, and timed mutual exclusion with takeover |
| `Bolt.dfy`, `BoltLosses.dfy` | HDFS bolt: pending tuples, writer cache, sync with retry, rotation; exactly when a call loses a tuple |
| `Framing.dfy` | length-prefixed RPC frames |
| `KafkaOffsets.dfy` | offsets of consecutive Kafka loader jobs |
| `BlobKeys.dfy` | blob-key iterator and cleanup |
| `Text.dfy`, `Common.dfy` | splitting, decimal numbers, small types |

What the file system, Redis, Storm, Kafka and the clock do is a parameter: how many bytes a write accepts,
where a process dies, whether a transaction is disturbed, what a fetch answers, which spout moves next.
Every such parameter is universally quantified in the results.

## Where the code falls short of its intent

Each of these is proved, most as an if-and-only-if with the condition under which the code is right.

- Recovering zero bytes leaves the byte counter of `HdfsFileOptions` stale (`HdfsState.java:154-159`), so the
  next record points past the end of its file and a second replay keeps bytes of the failed attempt.
- `updateIndex` is atomic only when the index file is there when it begins: after a death between delete and
  rename the record lives in the temporary file, which the next update truncates first. A death inside the offset
  of the new line then goes unnoticed: the next worker trusts the digits it finds and drops committed bytes. A replay that dies after
  `recover` with the old record in force cannot be attempted again if bytes had been recorded.
- The commit position of the spout may be trusted iff the session's first line has been acknowledged; a smaller
  line acknowledged later leaves the head stuck. `ack` archives a file without looking at the retry list.
- An unterminated last line reuses the number of the line before it. If it is acknowledged first, the line before
  it is taken for acknowledged and skipped by the next owner.
- A heartbeat cut short can leave an offset with a truncated line number; the character position is right
  whenever the offset can be parsed at all.
- `DirLock.takeOwnershipIfStale` examines, deletes and creates in three steps and hands out the lock even when
  the creation was lost: two spouts can end up owning the same file.
- `WritersMap` evicts without sync or close, and a rotation drops its writer even when the close fails: either way
  tuples are acknowledged that were never synced.
- A DEC is booked on the partner of the event, not on the stored one; totals are exact all the same.
- An expiry handler (`TriggerTask`) that starts after the viewer has come back removes the session of a live viewer, and one
  whose transaction is refused for nothing leaves a session counted that nobody will remove.
- The Kafka reader commits its checkpoint when it is closed, whatever becomes of the job: if the job fails after
  that, the messages read are delivered by nobody.
- A Kafka fetch that begins inside a compressed message set delivers messages before the offset asked for.
- The blob cleanup removes a key directory that holds only unrecognised files.

## Model

| member | source | states |
|---|---|---|
| `TridentExactlyOnce.ExactlyOnce` | source-二次/storm-hdfs-plus/src/main/java/cn/gitv/bi/external/storm2hdfs/trident/HdfsState.java:87-166 | over every legal run (Trident's protocol, and a fresh byte counter where zero bytes are recovered) of attempts, failures at any byte, replays, rotations and restarts, the surviving files in creation order hold the closed batches, each once and in increasing transaction order, then the open attempt; right after `beginCommit` the closed batches alone |
| `TridentExactlyOnce.StepRefines` | source-二次/storm-hdfs-plus/src/main/java/cn/gitv/bi/external/storm2hdfs/trident/HdfsState.java:519-547 | every event of the protocol keeps the relation between the files, the record on disk, the worker's memory and the ledger of batches |
| `TridentExactlyOnce.ReplayRefines` | source-二次/storm-hdfs-plus/src/main/java/cn/gitv/bi/external/storm2hdfs/trident/HdfsState.java:519-528 | a replayed `beginCommit` succeeds, moves the recorded prefix to a fresh file and drops every byte of the failed attempt |
| `TridentExactlyOnce.FirstAttemptRefines` | source-二次/storm-hdfs-plus/src/main/java/cn/gitv/bi/external/storm2hdfs/trident/HdfsState.java:492-528 | the first attempt of a new transaction closes the previous batch at exactly the bytes it wrote |
| `TridentExactlyOnce.CommitAndRestartRefine` | source-二次/storm-hdfs-plus/src/main/java/cn/gitv/bi/external/storm2hdfs/trident/HdfsState.java:235-247 | a commit, rotating or not, and a restart of the worker change nothing a reader of the output sees |
| `TridentExactlyOnce.RefinesMeansContents` | source-二次/storm-hdfs-plus/src/main/java/cn/gitv/bi/external/storm2hdfs/trident/HdfsState.java:399-420 | the relation determines the directory: closed batches followed by the open attempt |
| `TridentExactlyOnce.ExecuteAppends` | source-二次/storm-hdfs-plus/src/main/java/cn/gitv/bi/external/storm2hdfs/trident/HdfsState.java:279-285 | `execute` appends a prefix of the joined tuples, all of it iff the file system takes it, and then the byte counter has moved by as much |
| `TridentExactlyOnce.SequenceFilesNeedNoGuard` | source-二次/storm-hdfs-plus/src/main/java/cn/gitv/bi/external/storm2hdfs/trident/HdfsState.java:344-347 | with offsets asked of the writer the exactly-once run needs no condition beyond Trident's own protocol |
| `TridentExactlyOnce.RunInOrder` | source-二次/storm-hdfs-plus/src/main/java/cn/gitv/bi/external/storm2hdfs/trident/HdfsState.java:519-528 | the closed batches of every legal run carry strictly increasing transaction ids below the current one |
| `TridentExactlyOnce.RotationSeparates` | source-二次/storm-hdfs-plus/src/main/java/cn/gitv/bi/external/storm2hdfs/trident/HdfsState.java:235-247 | after any legal run that ends in a commit which rotates, and any number of restarts, the next transaction is recorded at the first byte of a file that did not exist before that commit |
| `TridentExactlyOnce.RecordPointsAtEndIff` | source-二次/storm-hdfs-plus/src/main/java/cn/gitv/bi/external/storm2hdfs/trident/HdfsState.java:149-166 | the record a replay writes points at the end of its file iff the byte counter was fresh: recovering zero bytes does not reset `offset` |
| `TridentExactlyOnce.SecondReplayCleanIff` | source-二次/storm-hdfs-plus/src/main/java/cn/gitv/bi/external/storm2hdfs/trident/HdfsState.java:149-166 | a transaction can be replayed twice without a trace of the failed attempt iff the byte counter was fresh |
| `TridentExactlyOnce.ZeroByteRecoveryDuplicates` | source-二次/storm-hdfs-plus/src/main/java/cn/gitv/bi/external/storm2hdfs/trident/HdfsState.java:154-159 | a run of `HdfsFileOptions` from the empty directory in which the second replay begins with an uncommitted byte still in the output |
| `TridentExactlyOnce.ReplayDropsAttempt` | source-二次/storm-hdfs-plus/src/main/java/cn/gitv/bi/external/storm2hdfs/trident/HdfsState.java:149-166 | the first replay always drops the open attempt, with or without a fresh counter |
| `TridentExactlyOnce.DeathBetweenRecoverAndIndex` | source-二次/storm-hdfs-plus/src/main/java/cn/gitv/bi/external/storm2hdfs/trident/HdfsState.java:520-528 | a worker that dies between `recover` and `updateIndex` can be followed by another attempt iff no bytes had been recorded |
| `HdfsStateClass.CopyBytes` | source-二次/storm-hdfs-plus/src/main/java/cn/gitv/bi/external/storm2hdfs/trident/HdfsState.java:257-264 | for every buffer size of at least one and every pattern of short reads exactly the first min(n, length) bytes are copied |
| `HdfsStateClass.HdfsState.constructor` | source-二次/storm-hdfs-plus/src/main/java/cn/gitv/bi/external/storm2hdfs/trident/HdfsState.java:432-490 | a worker starts with a new output file and the record found on disk or the default one |
| `HdfsStateClass.HdfsState.RotateOutputFile` | source-二次/storm-hdfs-plus/src/main/java/cn/gitv/bi/external/storm2hdfs/trident/HdfsState.java:87-102 | a new empty file becomes current and everything else stays |
| `HdfsStateClass.HdfsState.DoRecover` | source-二次/storm-hdfs-plus/src/main/java/cn/gitv/bi/external/storm2hdfs/trident/HdfsState.java:250-255 | the current file receives the recorded prefix and the offset becomes the recorded one; a missing source fails with the offset reset |
| `HdfsStateClass.HdfsState.RecoverFile` | source-二次/storm-hdfs-plus/src/main/java/cn/gitv/bi/external/storm2hdfs/trident/HdfsState.java:149-166 | a fresh current file holding the recorded prefix (nothing when zero bytes are recorded), the source deleted, the offset set only when something was copied; it fails iff bytes are to be copied and the source is gone |
| `HdfsStateClass.HdfsState.UpdateIndex` | source-二次/storm-hdfs-plus/src/main/java/cn/gitv/bi/external/storm2hdfs/trident/HdfsState.java:492-517 | the record on disk and in memory name the transaction, the current file and its offset: the counter's, or for a sequence file its length |
| `HdfsStateClass.HdfsState.BeginCommit` | source-二次/storm-hdfs-plus/src/main/java/cn/gitv/bi/external/storm2hdfs/trident/HdfsState.java:519-528 | an id above the last seen one leaves the files alone, any other recovers into a fresh file and removes the recorded one; on success disk and memory name this transaction and the current file |
| `HdfsStateClass.HdfsState.UpdateState` | source-二次/storm-hdfs-plus/src/main/java/cn/gitv/bi/external/storm2hdfs/trident/HdfsState.java:279-285 | the current file grows by the joined tuples, or by as much of them as fits, and only then the counter by their length; nothing else changes |
| `HdfsStateClass.HdfsState.DoCommit` | source-二次/storm-hdfs-plus/src/main/java/cn/gitv/bi/external/storm2hdfs/trident/HdfsState.java:235-247 | with rotation a new empty file becomes current and the counter 0; without it nothing changes; index and record stay either way |
| `TxnIndex.ReplacementIsAtomicIff` | source-二次/storm-hdfs-plus/src/main/java/cn/gitv/bi/external/storm2hdfs/trident/HdfsState.java:437-517 | after a death at any point of `updateIndex` the old or the new record is read, iff the index file was there when the update began |
| `TxnIndex.FinishedUpdateIsRead` | source-二次/storm-hdfs-plus/src/main/java/cn/gitv/bi/external/storm2hdfs/trident/HdfsState.java:469-517 | after the delete, and after the rename, the new record is read, whatever was there before |
| `TxnIndex.RecordRoundTrip` | source-二次/storm-hdfs-plus/src/main/java/cn/gitv/bi/external/storm2hdfs/trident/HdfsState.java:416-453 | a written record is read back, for paths without comma and line break |
| `TxnIndex.TornRecordUnreadable` | source-二次/storm-hdfs-plus/src/main/java/cn/gitv/bi/external/storm2hdfs/trident/HdfsState.java:441-445 | one written character of a record makes the read fail with an exception, it is not taken for the default record |
| `TxnIndex.TornOutcome` | source-二次/storm-hdfs-plus/src/main/java/cn/gitv/bi/external/storm2hdfs/trident/HdfsState.java:437-453 | what the first n characters of a record line are taken for, for every n: no record, an exception, or a record whose offset is the digits written so far |
| `TxnIndex.CutOffsetIff` | source-二次/storm-hdfs-plus/src/main/java/cn/gitv/bi/external/storm2hdfs/trident/HdfsState.java:444-445 | the offset of an accepted line is right iff the line is complete, and otherwise too small but not zero |
| `TxnIndex.IndexFiles.UpdateIndex` | source-二次/storm-hdfs-plus/src/main/java/cn/gitv/bi/external/storm2hdfs/trident/HdfsState.java:492-517 | character by character, delete and rename: the pair of files after each single write is exactly the point of that write, and every one of them is listed |
| `TridentCrashes.ExactlyOnceWithCrashes` | source-二次/storm-hdfs-plus/src/main/java/cn/gitv/bi/external/storm2hdfs/trident/HdfsState.java:437-528 | the same over runs in which a worker may also die at any point of the index replacement, each death survivable: the output is exact and the next worker can always read a record |
| `TridentCrashes.SurvivableIff` | source-二次/storm-hdfs-plus/src/main/java/cn/gitv/bi/external/storm2hdfs/trident/HdfsState.java:437-528 | for every point of the update and every number of characters written: the next worker starts and its `beginCommit` leaves exactly the closed batches iff the death left neither part of a line as the only record nor the old record in force after bytes were recovered |
| `TridentCrashes.HappeningFine` | source-二次/storm-hdfs-plus/src/main/java/cn/gitv/bi/external/storm2hdfs/trident/HdfsState.java:492-528 | one step, or one `beginCommit` cut short and the restart after it, keeps the relation to the ledger and the agreement of the index files with the record, also where the record was lost before anything was written |
| `TridentCrashes.DeathInsideOffset` | source-二次/storm-hdfs-plus/src/main/java/cn/gitv/bi/external/storm2hdfs/trident/HdfsState.java:496-510 | after a death inside the offset digits with no other line to read, the worker starts without complaint and the output is shorter by exactly what the offset lost |
| `TridentCrashes.CommittedBytesLost` | source-二次/storm-hdfs-plus/src/main/java/cn/gitv/bi/external/storm2hdfs/trident/HdfsState.java:437-528 | a run from the start, for any batch of ten bytes or more: a death after the delete, one before the last digit, and nine tenths of the committed bytes are gone |
| `TridentCrashes.RecoveredFileMissedReached` | source-二次/storm-hdfs-plus/src/main/java/cn/gitv/bi/external/storm2hdfs/trident/HdfsState.java:520-528 | a run from the start after which a death between `recover` and the index update makes every further attempt fail |
| `StringHandle.PairRoundTripIff` | realtime-根/realtime-user-count-liv/src/main/java/cn/gitv/bi/rtliv/usercount/utils/StringHandle.java:14-37 | splitting a joined `channel, partner` gives the pair back iff neither part contains the separator |
| `Sessions.NamesInjective` | realtime-根/realtime-user-count-liv/src/main/java/cn/gitv/bi/rtliv/usercount/bolts/UserCount.java:66-87 | different counters have different Redis keys, for partners without separator |
| `Sessions.StoreFromHistory` | realtime-根/realtime-user-count-liv/src/main/java/cn/gitv/bi/rtliv/usercount/bolts/Mac2Redis.java:65-172 | what the two keys of a viewer hold after any sequence of events, expiries and expiry tasks, told by that sequence alone: the last word on the viewer decides, and a heartbeat opens a session only for a viewer without one; an expiry task takes off what was watched |
| `Sessions.EmittedFromHistory` | realtime-根/realtime-user-count-liv/src/main/java/cn/gitv/bi/rtliv/usercount/bolts/Mac2Redis.java:91-166 | a delta is emitted iff the viewer comes (0, or 5 without a session), moves (0) or leaves (1, 2) by the history before the event, with the new pair as ADD and the channel watched so far as DEC |
| `Sessions.EffectMeans` | realtime-根/realtime-user-count-liv/src/main/java/cn/gitv/bi/rtliv/usercount/bolts/UserCount.java:66-87 | a delta moves exactly the total of its channel and the share of its partner |
| `Sessions.TotalsExact` | realtime-根/realtime-user-count-liv/src/main/java/cn/gitv/bi/rtliv/usercount/bolts/Mac2Redis.java:65-172 | after any sequence of atomic events, expiries and expiry tasks `total` of a channel is the number of viewers whose `mac/cp` names it |
| `Sessions.OneStep` | realtime-根/realtime-user-count-liv/src/main/java/cn/gitv/bi/rtliv/usercount/bolts/Mac2Redis.java:65-172 | one atomic step moves a counter by exactly the change in the viewers it counts |
| `Sessions.PartnerStepExactIff` | realtime-根/realtime-user-count-liv/src/main/java/cn/gitv/bi/rtliv/usercount/bolts/Mac2Redis.java:96-98 | one step moves every partner counter by the change in that partner's viewers iff the event carries the stored partner (the DEC is booked on the event's partner) |
| `Sessions.PartnerMisbooked` | realtime-根/realtime-user-count-liv/src/main/java/cn/gitv/bi/rtliv/usercount/bolts/Mac2Redis.java:138-139 | two events after which nobody watches, one partner counter stands at 1 and another at -1 |
| `Sessions.PartnersExact` | realtime-根/realtime-user-count-liv/src/main/java/cn/gitv/bi/rtliv/usercount/bolts/Mac2Redis.java:65-172 | every counter, partner counters included, is exact when viewers keep their partner |
| `Sessions.PartnerBreakdown` | realtime-根/realtime-user-count-liv/src/main/java/cn/gitv/bi/rtliv/usercount/bolts/UserCount.java:66-111 | `total` of a channel is the sum of its partner counters, whichever partner a DEC was booked on |
| `CounterRuns.RunsRefineAtomicSteps` | realtime-根/realtime-user-count-vod/src/main/java/cn/gitv/bi/rtvod/usercount/bolts/Mac2Redis.java:76-149 | every interleaving of WATCH, GET, EXEC, expiry, tasks, deliveries and flushes ends with the store of an atomic run, with every counter, in-flight parts included, at its value there, and with every delta emitted exactly as often as there, except where a thread is just about to emit it |
| `CounterRuns.RunEmits` | realtime-根/realtime-user-count-liv/src/main/java/cn/gitv/bi/rtliv/usercount/bolts/Mac2Redis.java:91-113 | in every run each delta is emitted as often as the atomic run emits it, up to the emissions a thread is about to make |
| `CounterRuns.SilentEmissions` | realtime-根/realtime-user-count-liv/src/main/java/cn/gitv/bi/rtliv/usercount/bolts/Mac2Redis.java:91-95 | a step without effect emits only what an earlier transaction left to emit; an aborted attempt emits nothing and leaves nothing to emit |
| `CounterRuns.EffectiveEmissions` | realtime-根/realtime-user-count-liv/src/main/java/cn/gitv/bi/rtliv/usercount/bolts/Mac2Redis.java:96-118 | a transaction that goes through leaves exactly the delta of its atomic step to be emitted, an expiry or expiry task nothing |
| `CounterRuns.SilentStep` | realtime-根/realtime-user-count-liv/src/main/java/cn/gitv/bi/rtliv/usercount/bolts/Mac2Redis.java:91-95 | a step without effect, an aborted transaction above all, changes neither the viewers' keys nor any balance |
| `CounterRuns.EffectiveStep` | realtime-根/realtime-user-count-liv/src/main/java/cn/gitv/bi/rtliv/usercount/bolts/Mac2Redis.java:84-118 | a transaction that goes through, or an expiry, is the atomic step, and moves every balance by its delta |
| `CounterRuns.SyncKept` | realtime-根/realtime-user-count-liv/src/main/java/cn/gitv/bi/rtliv/usercount/bolts/Mac2Redis.java:74-91 | whoever has not been told of a write still holds what the store holds, in every state (optimistic locking is sound) |
| `CounterRuns.TotalsConserved` | realtime-根/realtime-ttl-trigger/src/main/java/cn/gitv/bi/realtime/ttl/thread/TriggerTask.java:28-66 | in every reachable state the stored total plus caches, undelivered deltas and owed decrements is the number of viewers of the channel |
| `CounterRuns.PartnersConserved` | realtime-根/realtime-ttl-trigger/src/main/java/cn/gitv/bi/realtime/ttl/thread/TriggerTask.java:45-53 | the same for a partner's counter when viewers keep their partner |
| `CounterRuns.PartnersAddUp` | realtime-根/realtime-user-count-liv/src/main/java/cn/gitv/bi/rtliv/usercount/bolts/UserCount.java:66-136 | in every reachable state the partner counters of a channel add up to its total |
| `CounterRuns.QuietTotalsExact` | realtime-根/realtime-user-count-liv/src/main/java/cn/gitv/bi/rtliv/usercount/bolts/UserCount.java:124-134 | at rest every stored total is exact and not negative |
| `LiveCounts.StepFaithfulIff` | realtime-根/realtime-ttl-trigger/src/main/java/cn/gitv/bi/realtime/ttl/thread/TriggerTask.java:28-44 | a step keeps live viewers, sessions and pending expiry tasks in agreement iff it is neither a `TriggerTask` started after the viewer came back nor a refused transaction of the last one that knew of the session |
| `LiveCounts.LateReached` | realtime-根/realtime-ttl-trigger/src/main/java/cn/gitv/bi/realtime/ttl/thread/TriggerTask.java:28-44 | a run from the start, for any viewer, in which the handler begins after the viewer has come back |
| `LiveCounts.ForgetsReached` | realtime-根/realtime-ttl-trigger/src/main/java/cn/gitv/bi/realtime/ttl/thread/TriggerTask.java:40-44 | a run from the start in which the only handler of an expired session has its transaction refused |
| `LiveCounts.QuietTotalsCountLive` | realtime-根/realtime-ttl-trigger/src/main/java/cn/gitv/bi/realtime/ttl/thread/TriggerTask.java:28-66 | at rest, after a run without such steps, every stored total is the number of viewers whose key is alive |
| `CountingBolts.Mac2Redis.CheckMacAndHandle` | realtime-根/realtime-user-count-liv/src/main/java/cn/gitv/bi/rtliv/usercount/bolts/Mac2Redis.java:65-172 | case by case of `pt`: what both keys hold afterwards, the deadline of 660 seconds included, and what is emitted to the viewer and album counters; a disturbed transaction changes and emits nothing; all of it the atomic transition |
| `CountingBolts.TriggerTask.Run` | realtime-根/realtime-ttl-trigger/src/main/java/cn/gitv/bi/realtime/ttl/thread/TriggerTask.java:28-66 | `mac/cp` goes and both counters of the stored pair fall by one, or, disturbed, nothing happens; the expiring key is not touched |
| `CountingBolts.UserCount.CacheInMap` | realtime-根/realtime-user-count-liv/src/main/java/cn/gitv/bi/rtliv/usercount/bolts/UserCount.java:93-111 | one cached count changes by one, starting from nothing |
| `CountingBolts.UserCount.MainTain` | realtime-根/realtime-user-count-liv/src/main/java/cn/gitv/bi/rtliv/usercount/bolts/UserCount.java:66-87 | every cached count moves by the effect of the delta |
| `CountingBolts.UserCount.SecondsToRedis` | realtime-根/realtime-user-count-liv/src/main/java/cn/gitv/bi/rtliv/usercount/bolts/UserCount.java:124-134 | in any order of the entries every stored counter grows by its cached count, and the cache is empty |
| `TextReader.ParsePrint` | source-二次/storm-hdfs-plus/src/main/java/cn/gitv/bi/external/storm2hdfs/spout/TextFileReader.java:118-144 | a printed position parses back to itself |
| `TextReader.ReaderResume` | source-二次/storm-hdfs-plus/src/main/java/cn/gitv/bi/external/storm2hdfs/spout/TextFileReader.java:54-98 | for every text and k, the first k lines and the lines read after printing, parsing and resuming at the k-th position are the whole read, positions included |
| `TextReader.ResumeReads` | source-二次/storm-hdfs-plus/src/main/java/cn/gitv/bi/external/storm2hdfs/spout/TextFileReader.java:54-98 | resuming after k lines from any position reads the remaining records |
| `TextReader.LinesGiveText` | source-二次/storm-hdfs-plus/src/main/java/cn/gitv/bi/external/storm2hdfs/spout/TextFileReader.java:81-98 | the lines joined by newlines are the text without carriage returns, up to a missing final newline |
| `TextReader.PlainTextGivenBack` | source-二次/storm-hdfs-plus/src/main/java/cn/gitv/bi/external/storm2hdfs/spout/TextFileReader.java:81-98 | a text without carriage returns is given back unchanged, up to a missing final newline |
| `TextReader.LinesAreLines` | source-二次/storm-hdfs-plus/src/main/java/cn/gitv/bi/external/storm2hdfs/spout/TextFileReader.java:81-98 | no line holds a line break or a carriage return |
| `TextReader.OnlyCRsDropped` | source-二次/storm-hdfs-plus/src/main/java/cn/gitv/bi/external/storm2hdfs/spout/TextFileReader.java:86-92 | of the characters of a line exactly the carriage returns are left out |
| `TextReader.PrintedText` | source-二次/storm-hdfs-plus/src/main/java/cn/gitv/bi/external/storm2hdfs/spout/TextFileReader.java:140-143 | how a position reads in a lock file |
| `TextReader.LinesNumberedIff` | source-二次/storm-hdfs-plus/src/main/java/cn/gitv/bi/external/storm2hdfs/spout/TextFileReader.java:81-98 | line numbers count the lines iff the text ends in a newline |
| `TextReader.PositionsAscend` | source-二次/storm-hdfs-plus/src/main/java/cn/gitv/bi/external/storm2hdfs/spout/TextFileReader.java:81-98 | character positions strictly increase |
| `TextReader.TextFileReader.constructor` | source-二次/storm-hdfs-plus/src/main/java/cn/gitv/bi/external/storm2hdfs/spout/TextFileReader.java:54-67 | the stream stands at the start offset, or at the end of a shorter text |
| `TextReader.TextFileReader.Next` | source-二次/storm-hdfs-plus/src/main/java/cn/gitv/bi/external/storm2hdfs/spout/TextFileReader.java:73-98 | the character loop returns what lies before the next line break (unchanged if free of carriage returns) and moves the position behind it, or reports the end and moves nothing |
| `Tracker.RecordExactIff` | source-二次/storm-hdfs-plus/src/main/java/cn/gitv/bi/external/storm2hdfs/spout/ProgressTracker.java:28-39 | one acknowledgement keeps the tracker equal to the end of the contiguous run plus everything above it iff its line is above the smallest so far, or below it with a gap and nothing trimmed yet |
| `Tracker.TrackerExact` | source-二次/storm-hdfs-plus/src/main/java/cn/gitv/bi/external/storm2hdfs/spout/ProgressTracker.java:28-54 | with the smallest line first the tracker is exact after any order of the others |
| `Tracker.OrderIndependent` | source-二次/storm-hdfs-plus/src/main/java/cn/gitv/bi/external/storm2hdfs/spout/ProgressTracker.java:28-54 | two such orders of the same positions leave the same tracker |
| `Tracker.HeadNeverDecreases` | source-二次/storm-hdfs-plus/src/main/java/cn/gitv/bi/external/storm2hdfs/spout/ProgressTracker.java:56-61 | the commit position never moves back |
| `Tracker.CommitPositionSafeIff` | source-二次/storm-hdfs-plus/src/main/java/cn/gitv/bi/external/storm2hdfs/spout/ProgressTracker.java:56-61 | for every order of acknowledgements everything up to the commit position was acknowledged iff the first line of the session was |
| `Tracker.SafeStep` | source-二次/storm-hdfs-plus/src/main/java/cn/gitv/bi/external/storm2hdfs/spout/ProgressTracker.java:28-39 | once the first line is acknowledged the head is safe and stays so, one acknowledgement at a time |
| `Tracker.TrimDropsRun` | source-二次/storm-hdfs-plus/src/main/java/cn/gitv/bi/external/storm2hdfs/spout/ProgressTracker.java:43-54 | trimming drops a front part of consecutive lines and stops where the next line is missing |
| `Tracker.InsertExisting` | source-二次/storm-hdfs-plus/src/main/java/cn/gitv/bi/external/storm2hdfs/spout/ProgressTracker.java:28-35 | a position whose line is already there is not added and replaces nothing |
| `Tracker.StuckHead` | source-二次/storm-hdfs-plus/src/main/java/cn/gitv/bi/external/storm2hdfs/spout/ProgressTracker.java:36-38 | lines 1 and 2 acknowledged in the wrong order leave the head at 1 |
| `Tracker.ProgressTracker.RecordAckedOffset` | source-二次/storm-hdfs-plus/src/main/java/cn/gitv/bi/external/storm2hdfs/spout/ProgressTracker.java:28-39 | the sorted set after one acknowledgement, trimmed only when the new position follows the head |
| `Tracker.ProgressTracker.TrimHead` | source-二次/storm-hdfs-plus/src/main/java/cn/gitv/bi/external/storm2hdfs/spout/ProgressTracker.java:43-54 | the recursive poll equals the trimming the lemmas speak of |
| `Tracker.ProgressTracker.GetCommitPosition` | source-二次/storm-hdfs-plus/src/main/java/cn/gitv/bi/external/storm2hdfs/spout/ProgressTracker.java:56-61 | the position with the smallest line, or none |
| `SpoutRuns.StepConserved` | source-二次/storm-hdfs-plus/src/main/java/cn/gitv/bi/external/storm2hdfs/spout/HdfsSpout.java:191-259 | while the file is open every emitted message is in exactly one of inflight, retry list and acknowledged, after every call |
| `SpoutRuns.RunConserved` | source-二次/storm-hdfs-plus/src/main/java/cn/gitv/bi/external/storm2hdfs/spout/HdfsSpout.java:191-259 | the same over every run of a session, whatever is acknowledged, failed or logged and in whatever order, until the file is closed |
| `SpoutRuns.EmittedComesIntoFlight` | source-二次/storm-hdfs-plus/src/main/java/cn/gitv/bi/external/storm2hdfs/spout/HdfsSpout.java:346-350 | what is handed to the collector is exactly what joins the messages in flight |
| `SpoutProgress.NewLineIff` | source-二次/storm-hdfs-plus/src/main/java/cn/gitv/bi/external/storm2hdfs/spout/HdfsSpout.java:191-259 | a new line goes out iff nothing is to be retried, the tracker has room, and the open file has text left; with nothing left the end of the file is noticed |
| `SpoutProgress.ProgressIsLogged` | source-二次/storm-hdfs-plus/src/main/java/cn/gitv/bi/external/storm2hdfs/spout/HdfsSpout.java:262-273 | within any `commitCount` acknowledgements, and by the first acknowledgement after the timer has run, the lock file comes to hold the commit position, in every run of a session |
| `SpoutProgress.FewUnlogged` | source-二次/storm-hdfs-plus/src/main/java/cn/gitv/bi/external/storm2hdfs/spout/HdfsSpout.java:550-556 | with a commit count set, fewer acknowledgements than that are unlogged at every point of every run while the file is open |
| `SpoutRuns.ArchiveCompleteIff` | source-二次/storm-hdfs-plus/src/main/java/cn/gitv/bi/external/storm2hdfs/spout/HdfsSpout.java:533-548 | when an acknowledgement archives the file, every line of the present session has been emitted and acknowledged iff the retry list was empty |
| `SpoutRuns.ArchivedFileComplete` | source-二次/storm-hdfs-plus/src/main/java/cn/gitv/bi/external/storm2hdfs/spout/HdfsSpout.java:533-548 | after every guarded run, across sessions and takeovers, an acknowledgement that archives the file with an empty retry list leaves every line of the whole file acknowledged |
| `SpoutRuns.UnfinishedFileArchived` | source-二次/storm-hdfs-plus/src/main/java/cn/gitv/bi/external/storm2hdfs/spout/HdfsSpout.java:543-546 | from the start, in any two-line file: line 1 fails, line 2 is acknowledged, and the file is archived without line 1 |
| `SpoutRuns.StepSafeIff` | source-二次/storm-hdfs-plus/src/main/java/cn/gitv/bi/external/storm2hdfs/spout/HdfsSpout.java:261-278 | a step leaves a log position before which everything was acknowledged iff, should it write one, the first line of the session had been |
| `SpoutRuns.FirstAckFirstGuards` | source-二次/storm-hdfs-plus/src/main/java/cn/gitv/bi/external/storm2hdfs/spout/HdfsSpout.java:533-548 | acknowledging the first line emitted before any other is enough for that, whatever comes after |
| `SpoutRuns.OrderlyIsLegal` | source-二次/storm-hdfs-plus/src/main/java/cn/gitv/bi/external/storm2hdfs/spout/HdfsSpout.java:533-548 | runs in which every session's first acknowledgement is for its first line are among those the resume result covers |
| `SpoutRuns.EndToEndResume` | source-二次/storm-hdfs-plus/src/main/java/cn/gitv/bi/external/storm2hdfs/spout/HdfsSpout.java:191-278 | at every point of every guarded run of sessions, crashes and takeovers, whoever resumes at the logged position reads a suffix of the file that contains every line not yet acknowledged, and all lines before it were acknowledged |
| `HdfsSpoutClass.HdfsSpout.constructor` | source-二次/storm-hdfs-plus/src/main/java/cn/gitv/bi/external/storm2hdfs/spout/HdfsSpout.java:705-712 | a spout whose reader was created at an offset holds the lock and has nothing in flight, to retry or tracked |
| `HdfsSpoutClass.HdfsSpout.CommitProgress` | source-二次/storm-hdfs-plus/src/main/java/cn/gitv/bi/external/storm2hdfs/spout/HdfsSpout.java:262-278 | with the lock held and a position given, an elapsed timer or enough acknowledgements write the position to the lock file and clear both triggers; otherwise nothing changes |
| `HdfsSpoutClass.HdfsSpout.EmitData` | source-二次/storm-hdfs-plus/src/main/java/cn/gitv/bi/external/storm2hdfs/spout/HdfsSpout.java:346-350 | the message goes to the collector and joins those in flight |
| `HdfsSpoutClass.HdfsSpout.EmitNextLine` | source-二次/storm-hdfs-plus/src/main/java/cn/gitv/bi/external/storm2hdfs/spout/HdfsSpout.java:225-241 | the text up to the next line break goes out under the next number with the position behind it, or, with no text left, the end of the file is noticed |
| `HdfsSpoutClass.HdfsSpout.NextTuple` | source-二次/storm-hdfs-plus/src/main/java/cn/gitv/bi/external/storm2hdfs/spout/HdfsSpout.java:191-259 | the oldest message to retry first; nothing at the limit, without a file or at its end; else one line or the end of the file |
| `HdfsSpoutClass.HdfsSpout.CloseReaderAndResetTrackers` | source-二次/storm-hdfs-plus/src/main/java/cn/gitv/bi/external/storm2hdfs/spout/HdfsSpout.java:324-333 | everything kept about the file is dropped and the lock released |
| `HdfsSpoutClass.HdfsSpout.Ack` | source-二次/storm-hdfs-plus/src/main/java/cn/gitv/bi/external/storm2hdfs/spout/HdfsSpout.java:533-548 | the message leaves inflight, its position enters the tracker, the new head is logged when due, and the file is archived iff it was read completely and nothing else is in flight |
| `HdfsSpoutClass.HdfsSpout.Fail` | source-二次/storm-hdfs-plus/src/main/java/cn/gitv/bi/external/storm2hdfs/spout/HdfsSpout.java:559-566 | the message moves from in flight to the end of the retry list |
| `LockLog.EntryRoundTrip` | source-二次/storm-hdfs-plus/src/main/java/cn/gitv/bi/external/storm2hdfs/spout/FileLock.java:304-310 | a printed entry is parsed back, commas in the offset included |
| `LockLog.EntryLineIff` | source-二次/storm-hdfs-plus/src/main/java/cn/gitv/bi/external/storm2hdfs/spout/FileLock.java:304-310 | a line is taken for an entry iff its first two commas part a number, a component without commas, and the rest |
| `LockLog.LastEntryIsRead` | source-二次/storm-hdfs-plus/src/main/java/cn/gitv/bi/external/storm2hdfs/spout/FileLock.java:171-180 | over any history of creation, heartbeats and takeovers the entry logged last is read back, however many earlier owners left a torn line |
| `LockLog.LastLineAfterBreak` | source-二次/storm-hdfs-plus/src/main/java/cn/gitv/bi/external/storm2hdfs/spout/FileLock.java:77-93 | a line written after a line break is the last line whatever stands before it |
| `LockLog.TornWriteReadIff` | source-二次/storm-hdfs-plus/src/main/java/cn/gitv/bi/external/storm2hdfs/spout/FileLock.java:77-93 | an entry cut off in its text is read back iff none of it is missing |
| `LockLog.BreakAloneKeepsEntry` | source-二次/storm-hdfs-plus/src/main/java/cn/gitv/bi/external/storm2hdfs/spout/FileLock.java:83-86 | a write that ended within its leading line break leaves the entry before it in force |
| `LockLog.StaleIff` | source-二次/storm-hdfs-plus/src/main/java/cn/gitv/bi/external/storm2hdfs/spout/FileLock.java:142-162 | after any history of complete and torn entries the lock is stale iff the time of its last entry plus the timeout is not above the present |
| `LockLog.LockDirectory.TryLock` | source-二次/storm-hdfs-plus/src/main/java/cn/gitv/bi/external/storm2hdfs/spout/FileLock.java:113-130 | the lock is had iff its file did not exist, and the file then holds the first entry |
| `LockLog.LockDirectory.LogProgress` | source-二次/storm-hdfs-plus/src/main/java/cn/gitv/bi/external/storm2hdfs/spout/FileLock.java:79-93 | one more line at the end of the lock file, nothing else changed |
| `LockLog.LockDirectory.Release` | source-二次/storm-hdfs-plus/src/main/java/cn/gitv/bi/external/storm2hdfs/spout/FileLock.java:98-105 | the lock file is gone; an absent one is reported |
| `LockLog.LockDirectory.GetLastEntry` | source-二次/storm-hdfs-plus/src/main/java/cn/gitv/bi/external/storm2hdfs/spout/FileLock.java:171-180 | the scan over the lines gives the last entry, or fails on a line that is none |
| `LockLog.LockDirectory.AcquireOldestExpiredLock` | source-二次/storm-hdfs-plus/src/main/java/cn/gitv/bi/external/storm2hdfs/spout/FileLock.java:225-249 | the first unleased lock of the listing whose last entry satisfies time + timeout <= now is taken over with the offset found in it; without one, every lock that could be had has a younger entry and nothing changes; an unreadable lock ends the scan |
| `LockLog.LockDirectory.TryLockDir` | source-二次/storm-hdfs-plus/src/main/java/cn/gitv/bi/external/storm2hdfs/spout/DirLock.java:55-72 | the directory lock is had iff its file did not exist |
| `LockLog.LockDirectory.TakeDirIfStale` | source-二次/storm-hdfs-plus/src/main/java/cn/gitv/bi/external/storm2hdfs/spout/DirLock.java:94-128 | with nobody in between, a stale directory lock is replaced by a fresh one |
| `LockLog.LockDirectory.ReleaseDir` | source-二次/storm-hdfs-plus/src/main/java/cn/gitv/bi/external/storm2hdfs/spout/DirLock.java:84-91 | the directory lock is gone |
| `LockResume.ResumesWhereLogged` | source-二次/storm-hdfs-plus/src/main/java/cn/gitv/bi/external/storm2hdfs/spout/HdfsSpout.java:572-577 | whatever whole entry was logged last, by a heartbeat, by the creator or by a takeover that repeats what it found, is where the next owner starts |
| `LockResume.ResumesAtOrigin` | source-二次/storm-hdfs-plus/src/main/java/cn/gitv/bi/external/storm2hdfs/spout/FileLock.java:54-61 | a lock never written to again sends its next owner to the beginning of the file |
| `LockResume.TornWriteResumes` | source-二次/storm-hdfs-plus/src/main/java/cn/gitv/bi/external/storm2hdfs/spout/FileLock.java:77-93 | an owner that dies anywhere inside a heartbeat leaves a lock that sends the next owner to the character being logged, to the one before if not a character of the entry was written, or to none |
| `LockResume.TornWriteReadsOn` | source-二次/storm-hdfs-plus/src/main/java/cn/gitv/bi/external/storm2hdfs/spout/TextFileReader.java:54-98 | so that owner, if it can start, reads exactly the lines behind one of the two positions, although the line number may be cut short |
| `SpoutTorn.TornRunResume` | source-二次/storm-hdfs-plus/src/main/java/cn/gitv/bi/external/storm2hdfs/spout/HdfsSpout.java:191-278 | over whole runs from the creation of the lock file, with heartbeats, takeovers that log what they found, and owners that die inside a heartbeat: the text of the lock file gives a position from which the file is read from some line on, every line before was acknowledged, and every line that was not is read |
| `SpoutTorn.LockFileGivesStart` | source-二次/storm-hdfs-plus/src/main/java/cn/gitv/bi/external/storm2hdfs/spout/FileLock.java:63-93 | in every such run the session after a death starts exactly where the lock file says |
| `SpoutTorn.DeedGood` | source-二次/storm-hdfs-plus/src/main/java/cn/gitv/bi/external/storm2hdfs/spout/FileLock.java:63-93 | every call, death and torn death keeps the last entry whole and in agreement with what the session has logged |
| `UnterminatedLog.HeadSkipsIff` | source-二次/storm-hdfs-plus/src/main/java/cn/gitv/bi/external/storm2hdfs/spout/ProgressTracker.java:28-61 | without a final newline the tracker's head may be written down iff the first line was acknowledged and the head does not stand for a last line acknowledged before the line whose number it reuses |
| `SpoutUnterminated.StepSkipsIff` | source-二次/storm-hdfs-plus/src/main/java/cn/gitv/bi/external/storm2hdfs/spout/HdfsSpout.java:191-278 | at any point of any session over such a text one step leaves a log that skips acknowledged lines only iff what it writes is such a head |
| `SpoutUnterminated.LineBeforeLastLost` | source-二次/storm-hdfs-plus/src/main/java/cn/gitv/bi/external/storm2hdfs/spout/TextFileReader.java:81-98 | a run from the start over any three-line file without a final newline after which line 2 is skipped although nobody acknowledged it |
| `Locks.MutualExclusion` | source-二次/storm-hdfs-plus/src/main/java/cn/gitv/bi/external/storm2hdfs/spout/FileLock.java:98-249 | at every step of every timely run of joins, deaths, heartbeats, scans, takeovers and releases no lock file and not the directory has two live owners |
| `Locks.TakenOverIff` | source-二次/storm-hdfs-plus/src/main/java/cn/gitv/bi/external/storm2hdfs/spout/FileLock.java:225-249 | in every state a timely run reaches with the directory free, an idle live spout can take a lock over iff its last entry is at least the timeout old; no live spout then owned it |
| `Locks.HeartbeatRenews` | source-二次/storm-hdfs-plus/src/main/java/cn/gitv/bi/external/storm2hdfs/spout/FileLock.java:73-93 | a heartbeat keeps every scan away from the lock until the timeout has passed again |
| `Locks.ReleasedIsFree` | source-二次/storm-hdfs-plus/src/main/java/cn/gitv/bi/external/storm2hdfs/spout/FileLock.java:95-118 | a released lock can be had by anybody at once |
| `Locks.StepKeeps` | source-二次/storm-hdfs-plus/src/main/java/cn/gitv/bi/external/storm2hdfs/spout/DirLock.java:55-128 | one timely step keeps the invariant that live owners wrote the last entry recently and live directory holders made the present file |
| `Locks.CreateSafeIff` | source-二次/storm-hdfs-plus/src/main/java/cn/gitv/bi/external/storm2hdfs/spout/DirLock.java:111-128 | the last step of a directory takeover keeps the directory lock sound iff it wins the creation |
| `Locks.DeleteSafeIff` | source-二次/storm-hdfs-plus/src/main/java/cn/gitv/bi/external/storm2hdfs/spout/DirLock.java:119-127 | its delete keeps it sound iff the file is the one examined or a newer one whose maker no longer holds it; an examined file has no live holder |
| `Locks.RaceReached` | source-二次/storm-hdfs-plus/src/main/java/cn/gitv/bi/external/storm2hdfs/spout/DirLock.java:94-128 | for every timeout a timely run from the start that ends in a state open to the race |
| `Locks.RacingTakeovers` | source-二次/storm-hdfs-plus/src/main/java/cn/gitv/bi/external/storm2hdfs/spout/DirLock.java:94-128 | from any state with an old directory lock, two idle spouts and an old lock file, an interleaving after which both own the directory and then both own the file |
| `BoltRuns.RunAccounts` | source-二次/storm-hdfs-plus/src/main/java/cn/gitv/bi/external/storm2hdfs/bolt/AbstractHdfsBolt.java:122-192 | in every run each tuple is pending, acknowledged or failed exactly as often as it was handed in |
| `BoltRuns.ExecuteAccounts` | source-二次/storm-hdfs-plus/src/main/java/cn/gitv/bi/external/storm2hdfs/bolt/AbstractHdfsBolt.java:122-192 | one call settles or keeps exactly the tuples pending before and the one it is given |
| `BoltRuns.ExecuteSettles` | source-二次/storm-hdfs-plus/src/main/java/cn/gitv/bi/external/storm2hdfs/bolt/AbstractHdfsBolt.java:122-192 | which tuples are pending, acknowledged or failed after a call: a written tuple waits until the sync policy says so, a tick or a tuple that could not be written forces out what is pending, and that is acknowledged as a whole iff some attempt reaches every open writer |
| `BoltRuns.SyncSettles` | source-二次/storm-hdfs-plus/src/main/java/cn/gitv/bi/external/storm2hdfs/bolt/AbstractHdfsBolt.java:150-185 | pending tuples are acknowledged iff one of the configured number of attempts reaches every writer; otherwise they fail and the bolt dies |
| `BoltRuns.AckedIsDurable` | source-二次/storm-hdfs-plus/src/main/java/cn/gitv/bi/external/storm2hdfs/bolt/AbstractHdfsBolt.java:122-206 | with no more keys than open files and closes that succeed, every acknowledged tuple was synced or closed after its write, and `writers` and `writersTtl` hold the same keys |
| `BoltRuns.ExecuteKeeps` | source-二次/storm-hdfs-plus/src/main/java/cn/gitv/bi/external/storm2hdfs/bolt/AbstractHdfsBolt.java:122-192 | one call without eviction and failing close keeps that invariant |
| `BoltLosses.ExecuteSafeIff` | source-二次/storm-hdfs-plus/src/main/java/cn/gitv/bi/external/storm2hdfs/bolt/AbstractHdfsBolt.java:122-192 | one call keeps acknowledged tuples durable and pending ones within reach of a sync iff it neither pushes out a writer some pending tuple needs (unless the whole batch fails) nor loses the tuple just written to a failing close |
| `BoltLosses.AcceptSafeIff` | source-二次/storm-hdfs-plus/src/main/java/cn/gitv/bi/external/storm2hdfs/bolt/AbstractHdfsBolt.java:194-206 | taking a tuple in leaves every pending tuple covered iff it pushes out no writer that a pending tuple needs |
| `BoltLosses.RotateSafeIff` | source-二次/storm-hdfs-plus/src/main/java/cn/gitv/bi/external/storm2hdfs/bolt/AbstractHdfsBolt.java:252-266 | dropping a writer is safe iff its close succeeded or no pending tuple depends on it |
| `BoltLosses.SyncSafeIff` | source-二次/storm-hdfs-plus/src/main/java/cn/gitv/bi/external/storm2hdfs/bolt/AbstractHdfsBolt.java:150-185 | a sync ends safely iff every pending tuple was covered or all attempts fail |
| `BoltLosses.LosslessRunSafe` | source-二次/storm-hdfs-plus/src/main/java/cn/gitv/bi/external/storm2hdfs/bolt/AbstractHdfsBolt.java:122-206 | over every run of such calls, with any number of keys, every acknowledged tuple was synced or closed after its write |
| `BoltLosses.EvictionReached` | source-二次/storm-hdfs-plus/src/main/java/cn/gitv/bi/external/storm2hdfs/bolt/AbstractHdfsBolt.java:340-352 | a run from the start with one open file and two keys that acknowledges a tuple never synced |
| `BoltLosses.FailedCloseReached` | source-二次/storm-hdfs-plus/src/main/java/cn/gitv/bi/external/storm2hdfs/bolt/AbstractHdfsBolt.java:252-266 | a run from the start in which a rotation whose close fails is followed by the acknowledgement of the tuple |
| `BoltLosses.SameKeysIff` | source-二次/storm-hdfs-plus/src/main/java/cn/gitv/bi/external/storm2hdfs/bolt/AbstractHdfsBolt.java:194-206 | fetching a writer keeps both maps on the same keys iff none is pushed out |
| `BoltLosses.EvictedTupleAckedUnsynced` | source-二次/storm-hdfs-plus/src/main/java/cn/gitv/bi/external/storm2hdfs/bolt/AbstractHdfsBolt.java:340-352 | a full cache and a new key: a pending tuple of the eldest writer is acknowledged by the next sync without ever having been synced |
| `HdfsBoltClass.AbstractHdfsBolt.GetOrCreateWriter` | source-二次/storm-hdfs-plus/src/main/java/cn/gitv/bi/external/storm2hdfs/bolt/AbstractHdfsBolt.java:194-206 | the writer moves to the end of the access order, or a new one joins and may push out the eldest |
| `HdfsBoltClass.AbstractHdfsBolt.SyncAllWriters` | source-二次/storm-hdfs-plus/src/main/java/cn/gitv/bi/external/storm2hdfs/bolt/AbstractHdfsBolt.java:298-302 | one pass makes durable what the writers it reached held, and succeeds iff it reached all |
| `HdfsBoltClass.AbstractHdfsBolt.DoRotationAndRemoveWriter` | source-二次/storm-hdfs-plus/src/main/java/cn/gitv/bi/external/storm2hdfs/bolt/AbstractHdfsBolt.java:252-266 | the writer leaves both maps whether or not its close succeeded |
| `HdfsBoltClass.AbstractHdfsBolt.SyncAndSettle` | source-二次/storm-hdfs-plus/src/main/java/cn/gitv/bi/external/storm2hdfs/bolt/AbstractHdfsBolt.java:150-185 | passes until one succeeds, then all pending tuples are acknowledged; after the last failure they are failed and the bolt is dead |
| `HdfsBoltClass.AbstractHdfsBolt.AcceptTuple` | source-二次/storm-hdfs-plus/src/main/java/cn/gitv/bi/external/storm2hdfs/bolt/AbstractHdfsBolt.java:133-148 | the tuple is written and pending, or failed at once |
| `HdfsBoltClass.AbstractHdfsBolt.Execute` | source-二次/storm-hdfs-plus/src/main/java/cn/gitv/bi/external/storm2hdfs/bolt/AbstractHdfsBolt.java:122-192 | the whole call equals the transition the run results are about |
| `Framing.AnyFragmentation` | source-二次/netty-rpc-imp/src/main/java/cn/gitv/bi/external/netty4rpc/serialize/MessageDecoder.java:43-69 | whole frames followed by any proper part of another, chopped up in any way, yield exactly the whole frames' bodies in order and keep the rest untouched |
| `Framing.FragmentationIrrelevant` | source-二次/netty-rpc-imp/src/main/java/cn/gitv/bi/external/netty4rpc/serialize/MessageDecoder.java:43-69 | on any bytes at all, every fragmentation yields the same messages, the same verdict and the same remainder as the bytes in one piece |
| `Framing.NothingInvented` | source-二次/netty-rpc-imp/src/main/java/cn/gitv/bi/external/netty4rpc/serialize/MessageDecoder.java:43-69 | whatever was decoded, encoded again and put before the remainder, is the input; the remainder is too short or has a negative length |
| `Framing.IntRoundTrip` | source-二次/netty-rpc-imp/src/main/java/cn/gitv/bi/external/netty4rpc/serialize/kryo/KryoCodecUtil.java:53 | a signed 32-bit length written and read back is the same |
| `Framing.WrittenBytes` | source-二次/netty-rpc-imp/src/main/java/cn/gitv/bi/external/netty4rpc/serialize/kryo/KryoCodecUtil.java:53 | the four bytes written spell the number, most significant byte first, modulo 2^32 |
| `Framing.DecodeCases` | source-二次/netty-rpc-imp/src/main/java/cn/gitv/bi/external/netty4rpc/serialize/MessageDecoder.java:43-69 | from the bytes alone: when the decoder waits, when the length is negative, and what a frame is made of otherwise |
| `Framing.DecodeEncoded` | source-二次/netty-rpc-imp/src/main/java/cn/gitv/bi/external/netty4rpc/serialize/kryo/KryoCodecUtil.java:45-58 | an encoded body in front of anything is decoded and exactly its bytes are consumed |
| `Framing.IncompleteFrameWaits` | source-二次/netty-rpc-imp/src/main/java/cn/gitv/bi/external/netty4rpc/serialize/MessageDecoder.java:44-60 | on any proper prefix of a frame nothing is decoded and nothing consumed |
| `Framing.FrameWriter.WriteFrame` | source-二次/netty-rpc-imp/src/main/java/cn/gitv/bi/external/netty4rpc/serialize/kryo/KryoCodecUtil.java:45-58 | length and body are appended to the buffer |
| `Framing.MessageDecoder.DecodeOnce` | source-二次/netty-rpc-imp/src/main/java/cn/gitv/bi/external/netty4rpc/serialize/MessageDecoder.java:43-69 | one call yields one body and moves past it, or resets the reader index, or raises on a negative length |
| `Framing.MessageDecoder.ChannelRead` | source-二次/netty-rpc-imp/src/main/java/cn/gitv/bi/external/netty4rpc/serialize/MessageDecoder.java:43-69 | calling it as long as it makes progress is one step of the stream the results speak of |
| `KafkaOffsets.ConsecutiveJobs` | source-二次/kafka-hadoop-loader/src/main/java/cn/gitv/bi/external/khloader/overwrite/KafkaInputRecordReader.java:78-193 | over any sequence of jobs, empty, stopped in the middle of a fetch, or failed before the reader closed or with nothing read, the successful ones together deliver the log up to the checkpoint, each offset once |
| `KafkaOffsets.JobExactIff` | source-二次/kafka-hadoop-loader/src/main/java/cn/gitv/bi/external/khloader/overwrite/KafkaInputRecordReader.java:180-193 | a job in watermark mode keeps the delivered offsets exact iff it never closed the reader, or read nothing, or kept its output with no unread message removed by retention |
| `KafkaOffsets.EveryModeReads` | source-二次/kafka-hadoop-loader/src/main/java/cn/gitv/bi/external/khloader/overwrite/KafkaInputRecordReader.java:78-102 | in every reset mode a job with aligned fetches delivers the log without gaps from the offset that mode asks for: earliest, latest (earliest in place of 0), or the watermark unless it has been deleted |
| `KafkaOffsets.BelowPosition` | source-二次/kafka-hadoop-loader/src/main/java/cn/gitv/bi/external/khloader/overwrite/KafkaInputRecordReader.java:115-169 | that is, from the first message at or above that offset on |
| `KafkaOffsets.ClosedThenFailedLoses` | source-二次/kafka-hadoop-loader/src/main/java/cn/gitv/bi/external/khloader/overwrite/KafkaInputRecordReader.java:180-193 | a run of two jobs in which the first closes its reader and then fails, and the only message is never delivered |
| `KafkaOffsets.FetchContiguousIff` | source-二次/kafka-hadoop-loader/src/main/java/cn/gitv/bi/external/khloader/overwrite/KafkaInputRecordReader.java:115-169 | a call goes on without gap or repetition iff a fetch it needs begins at the offset asked for |
| `KafkaOffsets.MisalignedRepeats` | source-二次/kafka-hadoop-loader/src/main/java/cn/gitv/bi/external/khloader/overwrite/KafkaInputRecordReader.java:115-169 | two jobs over one compressed set that deliver its first message twice |
| `KafkaOffsets.CheckpointManager.GetNextOffsetToConsume` | source-二次/kafka-hadoop-loader/src/main/java/cn/gitv/bi/external/khloader/utils/CheckpointManager.java:33-36 | the offset after the one stored, 0 when none is stored |
| `KafkaOffsets.CheckpointManager.CommitOffsets` | source-二次/kafka-hadoop-loader/src/main/java/cn/gitv/bi/external/khloader/utils/CheckpointManager.java:61-64 | the stored offset is the given one |
| `KafkaOffsets.KafkaInputRecordReader.Initialize` | source-二次/kafka-hadoop-loader/src/main/java/cn/gitv/bi/external/khloader/overwrite/KafkaInputRecordReader.java:78-102 | the start offset under each reset mode, moved to the earliest one when data was lost |
| `KafkaOffsets.KafkaInputRecordReader.ResetWatermark` | source-二次/kafka-hadoop-loader/src/main/java/cn/gitv/bi/external/khloader/overwrite/KafkaInputRecordReader.java:221-240 | the offset given, or the earliest in place of 0 |
| `KafkaOffsets.KafkaInputRecordReader.NextKeyValue` | source-二次/kafka-hadoop-loader/src/main/java/cn/gitv/bi/external/khloader/overwrite/KafkaInputRecordReader.java:115-169 | one message is delivered and the next offset follows it, or reading ends |
| `KafkaOffsets.KafkaInputRecordReader.Close` | source-二次/kafka-hadoop-loader/src/main/java/cn/gitv/bi/external/khloader/overwrite/KafkaInputRecordReader.java:180-193 | the last delivered offset is committed iff anything was delivered |
| `BlobKeys.EveryKeyOnce` | source-二次/storm-hdfs-plus/src/main/java/cn/gitv/bi/external/storm2hdfs/blobstore/HdfsBlobStoreImpl.java:51-110 | the concatenation of the 1024 bucket listings holds every key of the store exactly once |
| `BlobKeys.MetIffListed` | source-二次/storm-hdfs-plus/src/main/java/cn/gitv/bi/external/storm2hdfs/blobstore/HdfsBlobStoreImpl.java:221-228 | a key is met iff the bucket named by its hash lists it |
| `BlobKeys.HasNextExact` | source-二次/storm-hdfs-plus/src/main/java/cn/gitv/bi/external/storm2hdfs/blobstore/HdfsBlobStoreImpl.java:78-81 | `hasNext` is false exactly when nothing is left |
| `BlobKeys.KeyInHashDirIterator.constructor` | source-二次/storm-hdfs-plus/src/main/java/cn/gitv/bi/external/storm2hdfs/blobstore/HdfsBlobStoreImpl.java:56-58 | a new iterator has all the keys of all buckets ahead |
| `BlobKeys.KeyInHashDirIterator.PrimeNext` | source-二次/storm-hdfs-plus/src/main/java/cn/gitv/bi/external/storm2hdfs/blobstore/HdfsBlobStoreImpl.java:60-76 | empty and missing buckets are skipped and nothing else is; the loop terminates |
| `BlobKeys.KeyInHashDirIterator.Next` | source-二次/storm-hdfs-plus/src/main/java/cn/gitv/bi/external/storm2hdfs/blobstore/HdfsBlobStoreImpl.java:83-104 | the first of the remaining keys is handed out and the others remain |
| `BlobKeys.Bucket` | source-二次/storm-hdfs-plus/src/main/java/cn/gitv/bi/external/storm2hdfs/blobstore/HdfsBlobStoreImpl.java:221-228 | every key, whatever its 32-bit hash, has a bucket below 1024 |
| `BlobKeys.BucketIs` | source-二次/storm-hdfs-plus/src/main/java/cn/gitv/bi/external/storm2hdfs/blobstore/HdfsBlobStoreImpl.java:221-228 | the bucket is the absolute value, modulo 1024, of the 32-bit number that equals the polynomial s[0]*31^(n-1) + ... + s[n-1] modulo 2^32 |
| `BlobKeys.CleanupSpares` | source-二次/storm-hdfs-plus/src/main/java/cn/gitv/bi/external/storm2hdfs/blobstore/HdfsBlobStoreImpl.java:230-254 | cleanup keeps committed data, temporaries newer than the cutoff, and unrecognised files beside recognised ones, with their directories |
| `BlobKeys.CleanupOnlyRemoves` | source-二次/storm-hdfs-plus/src/main/java/cn/gitv/bi/external/storm2hdfs/blobstore/HdfsBlobStoreImpl.java:230-254 | what is there afterwards was there before, and no old temporary remains |
| `BlobKeys.KeyRemovedIff` | source-二次/storm-hdfs-plus/src/main/java/cn/gitv/bi/external/storm2hdfs/blobstore/HdfsBlobStoreImpl.java:237-244 | a key disappears iff its directory held nothing but unrecognised files |
| `BlobKeys.OnePassSettlesIff` | source-二次/storm-hdfs-plus/src/main/java/cn/gitv/bi/external/storm2hdfs/blobstore/HdfsBlobStoreImpl.java:237-252 | a second pass changes nothing iff no directory held recognised files that all were old temporaries |
| `BlobKeys.TwoPassesSettle` | source-二次/storm-hdfs-plus/src/main/java/cn/gitv/bi/external/storm2hdfs/blobstore/HdfsBlobStoreImpl.java:237-252 | a third pass never changes anything |
| `BlobKeys.HdfsBlobStoreImpl.CleanKey` | source-二次/storm-hdfs-plus/src/main/java/cn/gitv/bi/external/storm2hdfs/blobstore/HdfsBlobStoreImpl.java:234-252 | one directory is removed when it holds no recognised file, and loses its old temporaries otherwise |
| `BlobKeys.HdfsBlobStoreImpl.FullCleanup` | source-二次/storm-hdfs-plus/src/main/java/cn/gitv/bi/external/storm2hdfs/blobstore/HdfsBlobStoreImpl.java:230-254 | driven by the iterator, the pass cleans every key of the store and no key twice |

## Left out

Scope of the rows above:

- TridentExactlyOnce.ExactlyOnce: with `HdfsFileOptions` a legal run never recovers zero bytes while the byte counter is positive (`CounterFresh`; `SecondReplayCleanIff` shows that this is exact); bytes accepted by the file system survive the worker's death (no difference between written and synced), `recover` is one step; deaths inside `updateIndex` are in `TridentCrashes`, file names are fresh, and rotation actions leave files in place.
- HdfsStateClass.HdfsState.UpdateIndex: the record is replaced in one assignment; the temporary file, delete and rename are in `TxnIndex.IndexFiles.UpdateIndex` and, over runs, in `TridentCrashes`.
- HdfsStateClass.HdfsState.DoCommit: the `hsync` of the branch without rotation has no effect here, because written bytes survive anyway.
- TridentCrashes.ExactlyOnceWithCrashes: a data file is named by its number in the index line; the format's own names are not modelled.
- TridentExactlyOnce.SequenceFilesNeedNoGuard: a sequence file is the bytes appended to it; headers, sync marks and compression are not modelled.
- TxnIndex.RecordRoundTrip: `Long` numbers are unbounded; negative and oversized ones are never printed.
- CounterRuns.TotalsConserved: no Storm replays of a tuple and no failure in the middle of a flush; what becomes of the album stream (`AN_RECORD`) and the choice among several Redis instances are not modelled.
- LiveCounts.QuietTotalsCountLive: an expiry notice is never lost; Redis publish/subscribe, by which it reaches `TriggerTask`, may lose one, and the session then stays counted like a forgotten one.
- CountingBolts.Mac2Redis.CheckMacAndHandle: the deadline it sets plays no part in `CounterRuns` and `LiveCounts`, where a key may expire at any moment.
- SpoutRuns.EndToEndResume: one file in acknowledging mode; owners that die inside a heartbeat are in `SpoutTorn`; a log write that fails with an exception and is retried later, parse errors and late acknowledgements for a closed file are not modelled, and the acknowledgement count carried over from an earlier file is covered by the elapse event, which also makes a commit due at any moment.
- SpoutTorn.TornRunResume: a torn entry that cannot be taken apart stops every later owner from starting, so it is no step of these runs; an owner that dies inside the entry of its own takeover is not modelled.
- HdfsSpoutClass.HdfsSpout.constructor: picking, locking and renaming the file come before it and are not part of it.
- LockLog.LockDirectory.TakeDirIfStale: one step here; the interleaving of its three steps is in `Locks`.
- LockLog.LockDirectory.AcquireOldestExpiredLock: the listing is given (no order is established by the code's comparator) and holds the files with an old modification time; lease recovery is a parameter.
- Locks.MutualExclusion: clocks are synchronised, and the conditions the code does not enforce (heartbeats and directory releases within the timeout, a takeover that deletes the file it examined and wins the creation) are the guard `Timely`.
- BoltLosses.ExecuteSafeIff: at least one open file is allowed (`maxOpenFiles` above 0).
- BoltRuns.AckedIsDurable: a tuple stands for one delivery; the timer that closes old writers (`doTtlClose`) iterates outside the lock and is not modelled.
- Framing.FragmentationIrrelevant: reading ends at a negative length; that closing the channel makes Netty call the decoder once more on what is left of the chunk, so that messages behind it can depend on the chunks, is not modelled.
- Framing.AnyFragmentation: the body serializer is abstract; a body it rejects is dropped by the decoder and does not count as a message here.
- KafkaOffsets.ConsecutiveJobs: offsets in ZooKeeper; one attempt a job (a second attempt starts over from the offset of its split); the branch that keeps checkpoints in HDFS depends on rename over an existing file.
- BlobKeys.Bucket: strings are sequences of UTF-16 units.
- BlobKeys.HdfsBlobStoreImpl.FullCleanup: no writer works on the store during the pass, and deletions succeed; the naming pattern of temporary files belongs to a Storm class that is not part of this model.

Not modelled at all:

- Picking files, oldest first, renaming to in-progress, archiving and bad-file directories: no order is established by the code, and the rest is renaming.
- The path for unsynchronised clocks in `getOldestExpiredLock`: it remembers a lock entry and when it saw it (`lastExpiredLock`, `lastExpiredLockTime`) and takes over if the entry is unchanged later; mutual exclusion is stated for synchronised clocks only.
- `SequenceFileReader` as a spout reader: it hands out its mutable offset, so tracker claims do not carry over.
- The daily user, viscosity, launcher, cube and MapReduce jobs: mostly field lists and counting without protocol state.
- The top-100 reduce: its comparison keeps the wrong end of the set.
- Configuration, topologies, logging, Kerberos, Spring wiring and web pages.
- `Mac2Redisd`, the commented-out Redis sharding and the older `ttl.py`: duplicates of what is modelled.
