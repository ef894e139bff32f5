# Model of the append only file, the ACL engine, the event loop, background jobs and VLAN ranges

This project models the parts of the repository that carry protocols and algorithms: the
vendored Redis 6.0.8 sources `aof.c`, `acl.c`, `ae.c`, `ae_epoll.c`, `bio.c` and `adlist.c`, and
the VLAN range library `app/lib/dbcollect.py` of the web application. It proves properties of the
model that hold for every input, every run or every reachable state. `dafny verify dfyconfig.toml`
checks everything.

## The files

| file | content |
|---|---|
| `Text.dfy`, `Decimal.dfy` | C strings, splitting and joining, decimal printing and the two parsers of Redis |
| `Resp.dfy` | the printer and the reader of commands |
| `Store.dfy`, `StoreMeaning.dfy` | dataset, the commands the log depends on, the loader's client; what SET, EXPIRE and DEL mean |
| `AofFeed.dfy` | translation of commands for the log |
| `AofSkew.dfy` | how far expires are off in a replay when the feeder reads another clock |
| `AofRewrite.dfy` | the snapshot as commands, in batches |
| `AofDump.dfy` | which datasets have a dump, and that commands keep them |
| `AofLoad.dfy` | loading, and recovery of truncated files |
| `AofFlush.dfy` | writing the buffer under failing system calls |
| `AofBuffer.dfy` | the block list of the rewrite buffer |
| `AofProtocol.dfy` | all of it as a state machine, with the main theorem |
| `AofLife.dfy` | how the log gets on and off, that a rewrite can be completed, that commands are logged |
| `AofLoss.dfy` | a run of that machine in which data is lost |
| `AclRules.dfy`, `AclDescribe.dfy` | rule interpreter; describer and permission check |
| `AclMeaning.dfy` | what rules and verdicts mean: commands, keys and passwords of a user |
| `AclFile.dfy`, `AclSystem.dfy` | the ACL file and its round trip; the server side |
| `FileEvents.dfy`, `Timers.dfy`, `TimerFiring.dfy`, `TimerList.dfy` | epoll table, timer passes, which timers fire, linked timer list |
| `Bio.dfy`, `AdList.dfy` | background jobs as interleaved steps, doubly linked list |
| `Vlan.dfy` | sort, range compressor, range expander |

## The main results

- `AofProtocol.FileTracksDataset`: over any interleaving of commands, flushes, forks, transfers,
  acks, kills, child exits, stops and starts, with any outcome of the system calls and any clock
  readings, file plus buffer load to the current dataset whenever the log is on and no transaction
  is open: the same keys and values, and every expire off by exactly the distance of the two clock
  readings of the command that set it (`AofProtocol.SkewAfterCall`), which is nothing at all if no
  time to live was fed at another millisecond. The one exception is a short write undone with a wrong
  size since the last switch of files (`AofFlush.UndoNeedsTrueSize`).
- `AofProtocol.CrashKeepsPrefix`: at any moment, and also after exit(1) under the ALWAYS policy or
  the feeder's assertion, the file alone, without the buffer, loads to what a prefix of that log
  does.
- `AofLife.StateLife`, `AofLife.RewrittenLogIsUsed`, `AofLife.LogCanBeTurnedOn`: the log is on exactly
  from a successful rewrite to the next stop, from then on every propagated command adds exactly its
  bytes, and from every reachable live state it can be brought on.
- `AofFlush.CompleteFlushCatchesUp`: whatever write(2) and ftruncate(2) did before, a write that the
  kernel takes wholly leaves everything ever fed in the file.
- `AofProtocol.DiffIsConserved` and `AofProtocol.RewriteFileIsSnapshotPlusFed`: nothing fed since
  the fork is lost, doubled or reordered.
- `AofLoad.LoadPrefix`: every non-empty byte prefix of a well-formed file loads when truncated
  files are accepted.
- `AofRewrite.RewriteRebuilds`: a rewritten dataset replays to itself, for every iteration order
  and batch size; `AofProtocol.ForkIsPossible`: there always is one to rewrite.
- `AofFeed.TranslateSound`, `AofSkew.TranslateShifts`: what is fed has the effect of the original, at
  any later load time; with two clock readings, up to their distance in the expire it sets.
- `AclDescribe.PanicIsUnreachable`: the "No bitmap match" panic cannot be reached by any sequence
  of rules while commands are only added, by modules under any name, in whatever order the table
  lists them, and the description always rebuilds the user.
- `AclMeaning.PermissionMeans`, `AclMeaning.LastRuleWins`, `AclMeaning.KeysAfter`,
  `AclMeaning.PasswordsAfter`: what the permission check answers, and which commands, keys and
  passwords a user has after any rule.
- `AclFile.SaveLoadIff`: when ACL LOAD undoes ACL SAVE, exactly.
- `AclSystem.AclServer.LoadFromFile`: ACL LOAD is all or nothing.
- `Bio.EveryRun`, `Bio.ReturnedValue`, `Bio.SomebodyCanMove`, `Bio.JobsCanBeFinished`: order, counting,
  absence of lost wake-ups and progress over every interleaving.
- `Timers.EveryRun`, `Timers.DeletedNeverFires`, `Timers.NoFreedNodeIff`, `Timers.SleepBoundOverRuns`:
  timer passes that nest, in callbacks and in finalizers, and the length of the sleep.
- `TimerFiring.NeverFiresEarly`, `TimerFiring.PassFiresAllDue`: in every run no timer fires before its
  instant, and a pass fires every timer whose instant has come when its turn comes.
- `FileEvents.RunKeepsGoodIff`, `FileEvents.RunRefines`, the contracts of `AdList`, and `Vlan.CompressExpandIff`.

## Where the code does not do what it is documented or expected to do

Each of these is a lemma that says exactly when it happens, or shows a case of it.

- A file that ends inside a command of an open transaction is cut behind the last complete
  command, inside the transaction (`AofLoad.RecoveredFileIsClean`). Writes appended later without an
  EXEC are lost at the next start (`AofLoad.TornTransactionSwallowsWrites`); once an EXEC is among
  them, the next start executes the half transaction that recovery had dropped, together with them
  (`AofLoad.TornTransactionIsExecuted`). A file that ends between two commands of the transaction is
  cut before its MULTI, as documented.
- `SET k v EX px EX 10` is accepted by SET but trips the feeder's assertion that a SET does not have
  both EX and PX (`AofFeed.AssertionFailsIff`, `AofFeed.RepeatedTtlTripsAssertion`).
- The feeder reads the clock again, so a relative time to live, of EXPIRE, PEXPIRE, SETEX, PSETEX or
  SET with EX or PX, is logged exactly only if the two readings agree
  (`AofFeed.RelativeNeedsSameClock`), and else off by their distance (`AofSkew.TranslateShifts`).
- After a switch of files whose fstat failed, the recorded size is stale and a short write taken
  back with ftruncate damages the file (`AofFlush.UndoNeedsTrueSize`); `AofLoss.FailedStatLosesData`
  is a run from an empty server that loses a key this way.
- An empty list, set, sorted set or hash is not written by a rewrite (`AofRewrite.RewriteRebuilds`).
- A subcommand that holds a blank or a newline, or ends in a tab or carriage return, is accepted by
  SETUSER but does not come back from the saved file (`AclFile.SaveLoadIff`,
  `AclFile.AcceptedButNotRestored`, `AclFile.NewlineIsLost`). The same goes for a command that a
  module registered under such a name (`AclFile.OddNameNotRestored`).
- Registering an empty event mask leaves the descriptor in the kernel table for good and blocks
  later registrations (`FileEvents.RunKeepsGoodIff`, `FileEvents.EmptyMaskBlocks`). The comment of
  `aeResizeSetSize` says it refuses from the set size minus one on; the code refuses from the set
  size on, and the model follows the code.
- `bioWaitStepOfType` waits once, so it returns without a job processed exactly when none was deleted
  between falling asleep and getting the mutex again, which takes a spurious wake-up
  (`Bio.EarlyReturnIff`); `Bio.SpuriousWakeupReturnsEarly` is a run.
- A timer finalizer that runs a pass can leave the outer pass with a freed node: exactly when that
  pass frees the timer the outer one saved as its next (`Timers.NoFreedNodeIff`), which for a pass
  that fires nothing is when that timer was deleted and idle (`Timers.FinalizerPassIff`);
  `Timers.FinalizerPassIsFatal` is a run. A negative delay gives negative milliseconds; this is
  harmless unless the clock also goes back (`Timers.DueExactIff`, `Timers.SleepBoundOverRuns`), and
  then exactly when a timer with negative milliseconds reaches back behind the nearest one while that
  lies ahead (`Timers.SleepBoundIff`); `Timers.ClockSetBackOversleeps` is a run.
- The VLAN round trip fails exactly for the empty list, for the single id 1 and for negative ids
  (`Vlan.CompressExpandIff`).
- Deleting the node a list iterator points to leaves it with a freed node; deleting any other node,
  not only the one just returned, is safe (`AdList.ListIter.DeletePending`).

## Model

| member | source | states |
|---|---|---|
| `Resp.CatGenericCommand` | redis-stable/src/aof.c:522-545 | appends exactly the printed array of bulk strings, argument by argument |
| `Resp.ReadComplete` | redis-stable/src/aof.c:779-825 | a printed command with at least one argument and arbitrary bytes is read back exactly, and reading stops right behind it |
| `Resp.ReadCut` | redis-stable/src/aof.c:779-825 | a printed command cut anywhere inside is a short read, never a format error |
| `Resp.ReadBad` | redis-stable/src/aof.c:785-804 | a byte other than the star or the dollar that is due, after any arguments, or a count below one, makes a command badly formed |
| `Resp.ReadAllPrinted` | redis-stable/src/aof.c:779-825 | the reader recovers exactly the printed list of commands |
| `Resp.EncodeAllInjective` | redis-stable/src/aof.c:522-545 | equal bytes mean equal command lists |
| `Resp.HeaderFitsLineBuffer` | redis-stable/src/aof.c:768-807 | no header of a 64 bit number is longer than 22 bytes, so the 128 byte line buffer never splits one |
| `Decimal.ScanPrint` | redis-stable/src/util.c:292-344 | scanning a printed number gives it back |
| `Decimal.StrtolPrint` | redis-stable/src/aof.c:787-807 | atoi and strtol read a printed number whatever follows it |
| `Decimal.StrtolMeans` | redis-stable/src/aof.c:787-807 | white space, one sign and the digits up to the first other character count; any other text is zero |
| `Decimal.StrictPrintInt` | redis-stable/src/util.c:358-422 | string2ll reads every printed 64 bit number back |
| `Decimal.StrictIff` | redis-stable/src/util.c:358-422 | string2ll accepts exactly the canonical text of 64 bit numbers |
| `Decimal.StrictAgreesWithStrtol` | redis-stable/src/aof.c:558-560 | whatever string2ll accepts, strtoll reads as the same number |
| `Store.SettleStep` | redis-stable/src/aof.c:836-846 | queueing inside MULTI only delays: settling afterwards equals running at once |
| `StoreMeaning.SetMeans` | redis-stable/src/t_string.c:68-146 | SET takes effect exactly if its options are consistent, a time to live is a positive number, NX finds no key and XX finds one; the key then has the value and expires after the time to live, as before under KEEPTTL, or never; nothing else changes |
| `StoreMeaning.ParseItems` | redis-stable/src/t_string.c:97-137 | options spelled in any case and order are accepted exactly if none excludes another |
| `StoreMeaning.AcceptedIsSpelled` | redis-stable/src/t_string.c:97-137 | whatever is accepted spells options |
| `StoreMeaning.ExpireMeans` | redis-stable/src/expire.c:499-538 | the four expiry commands take effect exactly on an existing key with a number; a past deadline deletes and propagates the deletion unless loading, else the key gets the deadline |
| `StoreMeaning.DelMeans` | redis-stable/src/db.c:562-578 | DEL removes exactly the named keys of its database and is propagated exactly if it removed one or is told to |
| `StoreMeaning.WrongType` | redis-stable/src/t_list.c:197-224 | an aggregate command on a key of another type changes nothing and is not propagated |
| `AofFeed.ScanMatchesParse` | redis-stable/src/aof.c:611-618 | the feeder's scan for EX and PX finds the option the SET parser used |
| `AofFeed.TranslateSound` | redis-stable/src/aof.c:599-637 | with one clock reading, replaying the translation at any time has exactly the effect the command had, value, expire and deletion |
| `AofFeed.AssertionFailsIff` | redis-stable/src/aof.c:611-618 | the EX and PX assertion fails exactly when both words occur with an argument behind them |
| `AofFeed.RepeatedTtlTripsAssertion` | redis-stable/src/aof.c:611-618 | a SET that takes effect and trips the assertion |
| `AofFeed.RelativeNeedsSameClock` | redis-stable/src/aof.c:554-637 | what is fed replays to exactly what the command did if and only if it carries no relative time to live or feeding saw the clock of the command, modulo 64 bits; for EXPIRE, PEXPIRE, SETEX, PSETEX and SET with EX or PX |
| `AofFeed.FedSound` | redis-stable/src/aof.c:584-653 | with the SELECT in front, a replayed session moves as the dataset did, in the database the command ran in, whatever was selected before, if and only if the second clock reading shifts no time to live |
| `AofSkew.TranslateShifts` | redis-stable/src/aof.c:554-637 | for any two clock readings, replaying what was fed on a dataset whose expires are off gives what the command made of the right one, with the same expires off, except that the one it set relative to the clock is off by the distance of its own two readings |
| `AofSkew.FedShifts` | redis-stable/src/aof.c:584-653 | the same with the SELECT in front, whatever was selected before |
| `AofFeed.SelectText` | redis-stable/src/aof.c:588-598 | the text printed for SELECT is the printed command |
| `AofFeed.CatExpireAt` | redis-stable/src/aof.c:554-582 | appends PEXPIREAT with the absolute time of the given command kind |
| `AofFeed.ScanSet` | redis-stable/src/aof.c:611-617 | the loop finds the last EX and the last PX that have an argument |
| `AofFeed.TranslateText` | redis-stable/src/aof.c:599-637 | the text is the printed translation, or the assertion failed |
| `AofFeed.FeedText` | redis-stable/src/aof.c:584-653 | the bytes appended are the printed SELECT, if needed, and translation |
| `AofRewrite.RewriteRebuilds` | redis-stable/src/aof.c:1325-1398 | replaying a rewrite on an empty server rebuilds values, expires and databases for every iteration order and batch size, if and only if no aggregate is empty |
| `AofDump.DumpExists` | redis-stable/src/aof.c:1325-1398 | every dataset without empty aggregates, with canonical scores and 64 bit expires, has a dump |
| `AofDump.ExecuteKeeps` | redis-stable/src/t_string.c:68-146 | the modelled commands keep datasets that way |
| `AofRewrite.BatchBound` | redis-stable/src/aof.c:950-1150 | every command carries at least one and at most n items |
| `AofRewrite.BatchesAreFull` | redis-stable/src/aof.c:950-1150 | all commands of an aggregate but the last are full, so there are as few as possible |
| `AofRewrite.RewriteAggregate` | redis-stable/src/aof.c:950-1150 | the header written before the items always announces the right number, for all four aggregate types |
| `AofRewrite.RewriteEntry` | redis-stable/src/aof.c:1348-1383 | one key: its value commands, then its PEXPIREAT |
| `AofRewrite.RewriteDb` | redis-stable/src/aof.c:1336-1390 | one database that is not skipped: SELECT, then its keys |
| `AofRewrite.RewriteAppendOnlyFileRio` | redis-stable/src/aof.c:1325-1398 | the text of the whole snapshot is the printed command list |
| `AofLoad.ReadArguments` | redis-stable/src/aof.c:796-825 | the argument loop computes what the recursive reader does |
| `AofLoad.CompleteIsPrefix` | redis-stable/src/aof.c:764-862 | the commands counted as complete lie wholly in the prefix, and one more does not |
| `AofLoad.LoadAppendOnlyFile` | redis-stable/src/aof.c:710-928 | the loading loop with its offsets computes the specified result: empty file, preamble, success, refused, format error and failed truncation |
| `AofLoad.LoadPrefix` | redis-stable/src/aof.c:764-917 | every non-empty prefix of a well-formed file loads: complete commands run, an open MULTI does not, and the file is cut behind the last complete command or before the MULTI |
| `AofLoad.LoadPrefixStrict` | redis-stable/src/aof.c:859-917 | without aof-load-truncated, or if truncation fails, a prefix is refused exactly when it ends inside a command or a transaction; any other loads as with it |
| `AofLoad.BadTail` | redis-stable/src/aof.c:785-804 | badly formed bytes behind complete commands make the file a format error, which no option repairs |
| `AofLoad.WrongMark` | redis-stable/src/aof.c:785-804 | in particular a byte other than the star or the dollar that is due |
| `AofLoad.LoadWhole` | redis-stable/src/aof.c:764-884 | a whole file replays to what its commands do and is not cut unless a transaction is open |
| `AofLoad.CutBeforeTransaction` | redis-stable/src/aof.c:836-873 | the cut before the MULTI leaves exactly the commands before the transaction, with the same dataset |
| `AofLoad.RecoveredFileIsClean` | redis-stable/src/aof.c:859-917 | the file left after recovery replays to the recovered dataset with no transaction open if and only if the tear was not inside a command of an open transaction |
| `AofLoad.TornTransactionSwallowsWrites` | redis-stable/src/aof.c:859-917 | after such a tear, as long as no EXEC is appended, all commands appended are lost at the next load, which cuts before the MULTI |
| `AofLoad.TornTransactionIsExecuted` | redis-stable/src/aof.c:859-917 | after such a tear, once the appended commands close the transaction, the next load runs the half transaction that was dropped together with all of them, and cuts nothing |
| `AofFlush.AofWrite` | redis-stable/src/aof.c:300-317 | the write loop returns the number of bytes taken, -1 if the first write fails, and appends exactly those |
| `AofFlush.WriteAllTakes` | redis-stable/src/aof.c:300-317 | interruptions and short writes are retried until an error; the count is what was taken, -1 only if that is nothing |
| `AofFlush.FlushPreserves` | redis-stable/src/aof.c:338-520 | file plus buffer is preserved and the recorded size stays exact for every outcome; only the ALWAYS policy exits |
| `AofFlush.CompleteFlush` | redis-stable/src/aof.c:338-494 | a call that may write, when the kernel takes everything, moves the whole buffer to the file, adds its length to the size and clears the error |
| `AofFlush.ShortFlush` | redis-stable/src/aof.c:393-481 | a write that stops after k bytes exits under ALWAYS; else exactly these k bytes move, or none if they could be taken back, and the error is remembered |
| `AofFlush.NoWrite` | redis-stable/src/aof.c:338-382 | a call that has nothing to write or waits for an fsync leaves file and buffer alone and notes when the waiting began |
| `AofFlush.FlushOnlyAppends` | redis-stable/src/aof.c:338-520 | unless a short write is undone with a wrong size, only a prefix of the pending bytes reaches the file, also when the flush ends in exit(1) |
| `AofFlush.UndoNeedsTrueSize` | redis-stable/src/aof.c:338-520 | a flush that does not exit preserves file plus buffer if and only if it does not undo a short write while the recorded size is not the size of the file |
| `AofFlush.NeverTwoFsyncs` | redis-stable/src/aof.c:496-520 | a background fsync is queued only when none is pending |
| `AofFlush.QueuesFsyncIff` | redis-stable/src/aof.c:343-520 | a background fsync is queued exactly under EVERYSEC, in a new second, with none pending or suspended, when everything is written and something is not synced |
| `AofFlush.SyncCovers` | redis-stable/src/aof.c:496-520 | a queued fsync, and under ALWAYS every completed write unless suspended, covers the whole file with an empty buffer |
| `AofFlush.NoSync` | redis-stable/src/aof.c:496-520 | otherwise the synced offset stays, and writes that did not wait for a pending fsync are counted |
| `AofFlush.PostponedIsWritten` | redis-stable/src/aof.c:359-382 | a postponed buffer is attempted by the first call two or more seconds later, whatever calls come between and whatever is fed meanwhile |
| `AofFlush.PostponedOnceIsWritten` | redis-stable/src/aof.c:359-382 | from the first call that had to wait: at the latest the first call two seconds later writes |
| `AofFlush.TurnsConserve` | redis-stable/src/aof.c:338-520 | after any feeds and flushes that do not exit, file and buffer hold what they held and everything fed, in order |
| `AofFlush.CompleteFlushCatchesUp` | redis-stable/src/aof.c:338-520 | and one completed write then leaves all of it in the file |
| `AofFlush.AofFile.constructor` | redis-stable/src/aof.c:251-270 | an opened file starts with its content, an empty buffer and its true size |
| `AofFlush.AofFile.FlushAppendOnlyFile` | redis-stable/src/aof.c:338-520 | the whole new state, exit and fsync request are those of the specification |
| `AofFlush.AofFile.DoWrite` | redis-stable/src/aof.c:393-520 | the same for the writing part |
| `AofFlush.AofFile.DoFsync` | redis-stable/src/aof.c:496-520 | the same for the fsync part |
| `AofBuffer.Block.constructor` | redis-stable/src/aof.c:146-149 | a new block is empty and wholly free |
| `AofBuffer.Block.Fill` | redis-stable/src/aof.c:133-142 | memcpy takes as much as fits, behind the bytes already there |
| `AofBuffer.Block.Drop` | redis-stable/src/aof.c:116-118 | memmove keeps exactly the bytes not sent |
| `AofBuffer.RewriteBuffer.constructor` | redis-stable/src/aof.c:70-76 | a reset buffer holds nothing |
| `AofBuffer.RewriteBuffer.Append` | redis-stable/src/aof.c:125-169 | across any number of blocks the content grows by exactly the data |
| `AofBuffer.RewriteBuffer.AppendSome` | redis-stable/src/aof.c:129-161 | one turn of the loop moves a prefix of the data, or gets a block with room |
| `AofBuffer.RewriteBuffer.SendToChild` | redis-stable/src/aof.c:95-122 | what is sent and what is left are together the old content, the amount is what the writes took, and nothing is sent after the stop |
| `AofBuffer.RewriteBuffer.SendPiece` | redis-stable/src/aof.c:112-119 | one partial write takes n bytes from the first block only |
| `AofBuffer.RewriteBuffer.WriteTo` | redis-stable/src/aof.c:174-194 | the count is the whole content, all of it in the file, exactly when every write is complete, else -1 |
| `AofProtocol.NextKeepsInv` | redis-stable/src/aof.c:213-1839 | every event keeps: unless damaged, file plus buffer tracks the dataset with its expires shifted by the skew, and so does the file being rewritten with its own skew; the skew is empty while nothing drifted; the size is known unless fstat failed; the diff is conserved |
| `AofProtocol.CallTracks` | redis-stable/src/aof.c:584-653 | bytes that track the dataset under a skew track the new one under the new skew after a propagated command and what was fed for it, at any two clock readings |
| `AofProtocol.FileTracksDataset` | redis-stable/src/aof.c:213-1839 | in every reachable state with the log on and no transaction open, loading file plus buffer gives exactly the current dataset with each expire off by its skew, unless since the last switch a short write was undone with a wrong size; the skew is empty while no time to live was fed at another reading; without a failed fstat the size is right and nothing is damaged |
| `AofProtocol.SkewAfterCall` | redis-stable/src/aof.c:554-653 | a propagated command leaves the expire it set relative to the clock off by the distance of its two readings, any other it set exact, and the rest as they were |
| `AofProtocol.CrashKeepsPrefix` | redis-stable/src/aof.c:338-520 | in every run, also one that ends in exit(1) or in the assertion, the file alone loads to what the first m commands of a log do, where the log is what file and buffer held in the last live state, replays to its dataset up to the skew, and m is the number of its commands complete in the file |
| `AofProtocol.DiffIsConserved` | redis-stable/src/aof.c:1517-1538 | from either start, the bytes fed since the fork are what the child has, the pipe and the blocks, in this order; a finished child has drained the pipe |
| `AofProtocol.RewriteFileIsSnapshotPlusFed` | redis-stable/src/aof.c:1690-1839 | a successful switch leaves the snapshot followed by exactly the fed bytes, from any reachable state, and unless the log is off it is on with an empty buffer |
| `AofProtocol.LastReadMustDrain` | redis-stable/src/aof.c:1464-1483 | if the last read took k bytes, the file is snapshot and fed bytes exactly when k is all of the pipe |
| `AofProtocol.NothingSentAfterStop` | redis-stable/src/aof.c:1517-1538 | after the parent agreed to stop, what is in the pipe after any event is the end of what was in it |
| `AofProtocol.TrackedBytesLoad` | redis-stable/src/aof.c:710-928 | bytes that track a dataset load to it, at any time, without being cut |
| `AofProtocol.ForkTracks` | redis-stable/src/aof.c:1600-1643 | the child's snapshot tracks the dataset at the fork, with no database selected |
| `AofProtocol.ForkIsPossible` | redis-stable/src/aof.c:1600-1643 | in every reachable state the dataset has a dump without empty aggregates, if the commands outside the model leave none either |
| `AofLife.StateLife` | redis-stable/src/aof.c:236-287 | the log leaves Off exactly by a start that succeeds and then waits; it becomes On exactly when the rewrite succeeds; it becomes Off exactly by a stop that does not exit |
| `AofLife.OnLasts` | redis-stable/src/aof.c:236-287 | over any events but a stop the log stays on |
| `AofLife.OffLasts` | redis-stable/src/aof.c:236-287 | over any events but a start it stays off |
| `AofLife.CallIsLogged` | redis-stable/src/aof.c:584-653 | a propagated command adds exactly its bytes to the buffer while the log is on, and to the rewrite buffer while there is a child and the log is not off |
| `AofLife.CleanCallDoesNothing` | redis-stable/src/aof.c:584-653 | a command that changed nothing and asks for no propagation leaves the whole server alone |
| `AofLife.SelectsOnce` | redis-stable/src/aof.c:588-598 | a second command in the same database is logged without SELECT, one in another database with it |
| `AofLife.MarkerIsLogged` | redis-stable/src/aof.c:584-653 | MULTI and EXEC are logged in the same way |
| `AofLife.FlushAndStopWrite` | redis-stable/src/aof.c:236-248 | a flush that may write, and any stop, leave the whole log in the file if the kernel takes it |
| `AofLife.StartDropsOldChild` | redis-stable/src/aof.c:252-287 | a start that could open the file leaves no rewrite behind that has not seen the log |
| `AofLife.RewrittenLogIsUsed` | redis-stable/src/aof.c:1690-1839 | in any run a rewrite that succeeds while the log is not off leaves it on, with snapshot and fed bytes in the file; until a stop every propagated command then makes file and buffer longer by exactly its bytes |
| `AofLife.RewriteCompletes` | redis-stable/src/aof.c:1421-1538 | a child that still works can be brought to its end by transfers, agreement and exit, with everything fed in the new file |
| `AofLife.LogCanBeTurnedOn` | redis-stable/src/aof.c:252-287 | from every reachable live state the log can be brought on, with the snapshot of the current dataset as the file |
| `AofLife.NoAckNoRewrite` | redis-stable/src/aof.c:1464-1483 | as long as no ack reaches the child, no rewrite ever succeeds |
| `AofLife.FailedRewriteKeepsLog` | redis-stable/src/aof.c:1690-1839 | a rewrite that fails or is killed leaves log, buffer and dataset alone |
| `AofLoss.FailedStatLosesData` | redis-stable/src/aof.c:1673-1686 | a run from an empty server: a switch whose fstat fails, then an undone short write; two keys are in memory and loading gives one |
| `AclRules.SetUserKeepsOk` | redis-stable/src/acl.c:737-901 | every rule keeps the user's invariant: a set bit has no subcommands, bits outside the table equal the reserved bit, and a command of a module whose name no rule can mean follows the reserved bit |
| `AclRules.GrowthKeepsOk` | redis-stable/src/acl.c:1014-1042 | adding commands, in any new order of the table, keeps it for users made before |
| `AclDescribe.PanicIff` | redis-stable/src/acl.c:525-533 | for every table, whatever its names and ids, the final comparison panics exactly when some bit outside the table differs from the reserved bit |
| `AclDescribe.CommandsRebuilt` | redis-stable/src/acl.c:443-535 | the described rules applied to any user rebuild bits and subcommands, and set ALLCOMMANDS when all bits are set |
| `AclDescribe.CommandTokensRebuild` | redis-stable/src/acl.c:443-535 | the printed tokens all succeed on a zeroed user and rebuild bitmap and subcommands, without a panic |
| `AclDescribe.DescriptionRebuildsUser` | redis-stable/src/acl.c:543-587 | the tokens of the whole description rebuild the user; only ALLCOMMANDS may differ, and only to "all bits set" |
| `AclDescribe.DescriptionKeepsPermissions` | redis-stable/src/acl.c:1060-1131 | the rebuilt user answers every request as the original |
| `AclDescribe.PanicIsUnreachable` | redis-stable/src/acl.c:443-535 | after any rules and any growth and reordering of the table, with module commands of any name: no panic, and the description rebuilds the user |
| `AclMeaning.PermissionMeans` | redis-stable/src/acl.c:1060-1131 | the command is denied exactly when the user may not run it; else the key named is the first one it may not touch; else all is allowed |
| `AclMeaning.PermittedIff` | redis-stable/src/acl.c:1060-1131 | a request passes if and only if the command is allowed, by ALLCOMMANDS, AUTH, bit or listed subcommand, and every key by ALLKEYS or a pattern |
| `AclMeaning.RefusedIff` | redis-stable/src/acl.c:737-901 | exactly which rules fail, and with which error |
| `AclMeaning.KeysAfter` | redis-stable/src/acl.c:746-826 | the keys a user may touch after each rule: all, none, or one pattern more |
| `AclMeaning.PasswordsAfter` | redis-stable/src/acl.c:766-809 | the hashes a user has after each rule: one more, exactly that one less, or none |
| `AclMeaning.FlagsAfter` | redis-stable/src/acl.c:740-809 | on, off and NOPASS after each rule |
| `AclMeaning.BitAfter` | redis-stable/src/acl.c:827-890 | the bit of a command after each rule, by name, category, all or none |
| `AclMeaning.LastRuleWins` | redis-stable/src/acl.c:827-890 | after any accepted rules the bit is what the last rule about the command says |
| `AclMeaning.SubsAfter` | redis-stable/src/acl.c:827-890 | the subcommands listed after each rule |
| `AclMeaning.RuleWords` | redis-stable/src/acl.c:740-771 | the words of the language and their rules, in any case |
| `AclMeaning.PasswordText` | redis-stable/src/acl.c:772-809 | everything behind the mark of a password rule is its text |
| `AclMeaning.UnknownText` | redis-stable/src/acl.c:896-899 | a text without mark that is no word is unknown |
| `AclMeaning.ResetIsFourRules` | redis-stable/src/acl.c:891-895 | reset does what resetpass, resetkeys, off and -@all do one after the other |
| `AclMeaning.RemovedIsDenied` | redis-stable/src/acl.c:883-890 | after -name the command is denied whatever the arguments |
| `AclMeaning.AddedIsAllowed` | redis-stable/src/acl.c:827-835 | after +name it is allowed |
| `AclMeaning.SubcommandIsAllowed` | redis-stable/src/acl.c:836-882 | after +name with a subcommand it is allowed with that subcommand and with no new one |
| `AclMeaning.KeyWords` | redis-stable/src/acl.c:746-753 | after resetkeys no request with a key passes; after allkeys no key is denied |
| `AclMeaning.PasswordAdded` | redis-stable/src/acl.c:772-791 | >p lets p in, and from then on only listed passwords |
| `AclMeaning.PasswordRemoved` | redis-stable/src/acl.c:792-809 | <p is accepted exactly for a password of the user, and keeps out exactly those who know no other |
| `AclMeaning.PasswordWords` | redis-stable/src/acl.c:766-771 | resetpass keeps everybody out, nopass lets everybody in |
| `AclMeaning.CategoryNamedIff` | redis-stable/src/acl.c:410-487 | the describer names a category exactly if most of its commands differ from the reserved bit |
| `AclFile.ReadsAll` | redis-stable/src/acl.c:1266-1275 | the fgets loop keeps a text without NUL |
| `AclFile.SaveLoadIff` | redis-stable/src/acl.c:1253-1464 | loading what was saved gives the same users, up to ALLCOMMANDS, if and only if no allowed subcommand holds a blank or a newline or ends in a tab or carriage return, and every command whose name does has its bit equal to the reserved one, and no subcommands if it holds a blank or newline |
| `AclFile.LoadedIsClean` | redis-stable/src/acl.c:1290-1374 | whatever text is loaded, no user gets such a subcommand or such a command |
| `AclFile.LinesLoadIff` | redis-stable/src/acl.c:1281-1374 | a text loads exactly if every line is blank or has the keyword, a name without blanks and accepted rules |
| `AclFile.LinesLoadTo` | redis-stable/src/acl.c:1281-1374 | and then every user is what the last line about it makes of a new user, the others are as before |
| `AclFile.AcceptedButNotRestored` | redis-stable/src/acl.c:827-884 | every such subcommand is accepted for every command a rule can name, and then saving and loading does not give the user back |
| `AclFile.OddNameNotRestored` | redis-stable/src/acl.c:827-884 | giving a user a command with such a name is accepted, and then saving and loading does not give the user back |
| `AclFile.NewlineIsLost` | redis-stable/src/acl.c:827-884 | the case of +debug with a newline |
| `AclSystem.CommandIds.constructor` | redis-stable/src/acl.c:1014-1020 | no name has an id at first |
| `AclSystem.CommandIds.GetCommandID` | redis-stable/src/acl.c:1014-1042 | an id never changes, ids of different names differ, and the reserved bit is never given out |
| `AclSystem.UserCell.constructor` | redis-stable/src/acl.c:236-253 | a new user equals a reset one |
| `AclSystem.UserCell.CopyFrom` | redis-stable/src/acl.c:309-330 | the copy has all rules of the source, whatever it had before |
| `AclSystem.ReaddingCopies` | redis-stable/src/acl.c:319-329 | adding the subcommands again one by one gives the same list |
| `AclSystem.UserCell.SetCommandBit` | redis-stable/src/acl.c:376-385 | sets or clears the bit, clearing one drops ALLCOMMANDS, and an id past the bitmap changes nothing |
| `AclSystem.UserCell.SetCommandBitsForCategory` | redis-stable/src/acl.c:393-408 | the walk over the table changes exactly the bits of the category |
| `AclSystem.UserCell.AddAllowedSubcommand` | redis-stable/src/acl.c:630-657 | adds a subcommand once, at the end |
| `AclSystem.UserCell.SetPassword` | redis-stable/src/acl.c:772-809 | the password rules: new state or error, nothing changed on error |
| `AclSystem.UserCell.SetCommands` | redis-stable/src/acl.c:827-890 | the command and category rules: new state or error, nothing changed on error |
| `AclSystem.UserCell.Set` | redis-stable/src/acl.c:737-901 | one rule: the specified new state, or the specified error and nothing changed |
| `AclSystem.UserCell.SetRules` | redis-stable/src/acl.c:1661-1671 | rules up to the first error |
| `AclSystem.CountCategoryBits` | redis-stable/src/acl.c:414-434 | counts the set and unset bits of a category |
| `AclSystem.DescribeCategories` | redis-stable/src/acl.c:472-487 | tokens and fake user follow the specification category by category |
| `AclSystem.DescribeRemaining` | redis-stable/src/acl.c:489-516 | the final pass emits exactly the rules for the bits still wrong and for subcommands |
| `AclSystem.DescribeUserCommandRules` | redis-stable/src/acl.c:443-535 | tokens and panic are those of the specification |
| `AclSystem.DescribeUser` | redis-stable/src/acl.c:543-587 | flags, passwords, patterns and command rules in this order, and the panic |
| `AclSystem.CheckCommandPerm` | redis-stable/src/acl.c:1060-1131 | the loops over subcommands, keys and patterns compute the verdict; without a user everything passes |
| `AclSystem.ReadAcls` | redis-stable/src/acl.c:1266-1275 | the loop reads what the specification says, up to a NUL in each chunk |
| `AclSystem.AclServer.constructor` | redis-stable/src/acl.c:931-946 | one user, the default one, with every permission |
| `AclSystem.AclServer.CheckUserCredentials` | redis-stable/src/acl.c:954-987 | ENOENT without the user, EINVAL unless it is on and has no password or this one, else fine |
| `AclSystem.AclServer.AuthenticateUser` | redis-stable/src/acl.c:995-1006 | a client is authenticated as the user exactly on success, else unchanged |
| `AclSystem.AclServer.KillClients` | redis-stable/src/acl.c:285-304 | exactly the clients of the user get the default user and lose authentication |
| `AclSystem.AclServer.RemoveUser` | redis-stable/src/acl.c:1690-1697 | one user goes, its clients follow, no other changes |
| `AclSystem.AclServer.DelUser` | redis-stable/src/acl.c:1679-1700 | refused as a whole if "default", up to a NUL, is among the names; else removes exactly the named users, counts them, and every client ends up with a user that exists |
| `AclSystem.FindDefault` | redis-stable/src/acl.c:1681-1688 | the refusing loop finds a name that strcmp takes for "default" |
| `AclSystem.AclServer.RemoveUsers` | redis-stable/src/acl.c:1690-1700 | the loop removes exactly the named users and counts them |
| `AclSystem.AclServer.SetUserCommand` | redis-stable/src/acl.c:1644-1678 | all rules together or none, with the error of the first failing rule; no other user changes |
| `AclSystem.AclServer.TryRules` | redis-stable/src/acl.c:1334-1349 | the validation that goes on after an error fails exactly when the rules up to the first error fail |
| `AclSystem.AclServer.Replay` | redis-stable/src/acl.c:1359-1371 | rules that succeeded on the fake user succeed on the new user, reset or fresh |
| `AclSystem.AclServer.LoadLine` | redis-stable/src/acl.c:1290-1374 | a line is bad exactly by the specification, and a bad one changes nothing |
| `AclSystem.AclServer.BuildUsers` | redis-stable/src/acl.c:1281-1374 | the new set holds exactly the users of the file and the default user |
| `AclSystem.AclServer.InitDefaultUser` | redis-stable/src/acl.c:931-937 | an empty set gets the default user |
| `AclSystem.AclServer.AdoptUsers` | redis-stable/src/acl.c:1378-1389 | the rules of the new default user move into the old object |
| `AclSystem.AclServer.ReleaseOld` | redis-stable/src/acl.c:1390-1391 | every client of an old user other than the default one gets the default user and loses authentication, the others are left alone |
| `AclSystem.AclServer.SaveToFile` | redis-stable/src/acl.c:1405-1427 | the text is one line per user in the order walked, unless the describer panics for one |
| `AclSystem.AclServer.LoadFromFile` | redis-stable/src/acl.c:1253-1400 | any error leaves users, rules and clients, with their authentication, as they were; success gives exactly the users of the text, with the same default object, and no client keeps a user that is gone |
| `FileEvents.RightCall` | redis-stable/src/ae_epoll.c:73-106 | in a good loop ADD, MOD and DEL are issued only in the right registration state |
| `FileEvents.CreateFailsIff` | redis-stable/src/ae.c:153-171 | creation fails exactly for a descriptor out of range or when the kernel refuses |
| `FileEvents.CreateKeepsGoodIff` | redis-stable/src/ae.c:153-171 | maxfd and kernel table stay exact if and only if the descriptor ends up with a mask |
| `FileEvents.EmptyMaskBlocks` | redis-stable/src/ae.c:153-171 | after an empty mask and any further operations, the descriptor is in the kernel table, every registration of it fails and deletion does nothing |
| `FileEvents.DeleteKeepsGood` | redis-stable/src/ae.c:173-193 | deletion keeps maxfd and kernel table exact, for every mask |
| `FileEvents.ResizeKeepsGood` | redis-stable/src/ae.c:116-132 | fails exactly when a registered descriptor would not fit; else keeps every registration |
| `FileEvents.CreateThenDelete` | redis-stable/src/ae.c:153-193 | deleting what was created restores maxfd and kernel table |
| `FileEvents.SameMasks` | redis-stable/src/ae.c:116-193 | the masks alone determine maxfd and the kernel table |
| `FileEvents.RunKeepsGoodIff` | redis-stable/src/ae.c:116-193 | after any sequence of operations maxfd and kernel table are exact if and only if none registered an empty mask for a descriptor without one |
| `FileEvents.RunKeepsGood` | redis-stable/src/ae.c:116-193 | from a new loop, after any sequence of creations with a mask, deletions and resizes, maxfd is the greatest descriptor in use and the kernel table is exact |
| `FileEvents.RunRefines` | redis-stable/src/ae.c:116-193 | after any operations without an empty mask each descriptor has the reader, writer, barrier and data of the registrations not deleted since, like a plain dictionary |
| `FileEvents.EventLoop.constructor` | redis-stable/src/ae.c:63-94 | a new loop is empty and good |
| `FileEvents.EventLoop.ApiAddEvent` | redis-stable/src/ae_epoll.c:73-88 | the kernel table after merging the old events, or failure |
| `FileEvents.EventLoop.CreateFileEvent` | redis-stable/src/ae.c:153-171 | the whole new state, or an error and no change |
| `FileEvents.EventLoop.ApiDelEvent` | redis-stable/src/ae_epoll.c:90-106 | the kernel table after removing events |
| `FileEvents.EventLoop.DeleteFileEvent` | redis-stable/src/ae.c:173-193 | the whole new state, with the loop that finds the next greatest descriptor |
| `FileEvents.EventLoop.ResizeSetSize` | redis-stable/src/ae.c:116-132 | the whole new state, with the loop that clears new slots |
| `Timers.AddMsExact` | redis-stable/src/ae.c:211-223 | the sum is the right instant for every delay, and is normal exactly when the remainder does not reach below zero |
| `Timers.NextKeepsInv` | redis-stable/src/ae.c:288-369 | every event, with passes started from callbacks and finalizers, keeps list order, reference counts, the timers being called and the firing history |
| `Timers.EveryRun` | redis-stable/src/ae.c:288-369 | in every run a pass fires a timer at most once and none created during it, and a timer is still there when its callback returns |
| `Timers.DeletedNeverFires` | redis-stable/src/ae.c:248-260 | a deleted timer never fires again, whoever deleted it |
| `Timers.DeleteMarks` | redis-stable/src/ae.c:248-260 | deleting a listed timer marks exactly that one |
| `Timers.HeldStaysLinked` | redis-stable/src/ae.c:317-338 | a node with a reference count above zero is never unlinked |
| `Timers.PointersIff` | redis-stable/src/ae.c:317-338 | from valid pointers, after any events all pointers are valid if and only if no step freed the node that a pass inside a finalizer had saved as next |
| `Timers.NoFreedNodeIff` | redis-stable/src/ae.c:317-338 | the same over runs from the start; and then a pass can always go on |
| `Timers.QuietRunIsSafe` | redis-stable/src/ae.c:317-338 | without passes in finalizers no pass follows a freed node |
| `Timers.NestedPassSweeps` | redis-stable/src/ae.c:313-338 | a pass in which nothing fires removes exactly the deleted timers nobody is inside, and leaves the passes around it as they were |
| `Timers.FinalizerPassIff` | redis-stable/src/ae.c:318-338 | such a pass from a finalizer leaves the outer pass with a freed node if and only if its saved next timer was deleted and idle |
| `Timers.FinalizerPassIsFatal` | redis-stable/src/ae.c:318-338 | a run from the start after which the outer pass cannot go on |
| `Timers.AddMsFits` | redis-stable/src/ae.c:211-223 | every computed due time is comparable with any later clock, negative delays included |
| `Timers.DueExactIff` | redis-stable/src/ae.c:349-352 | a timer is found due exactly when it is, from now on, if and only if negative milliseconds lie in a second already reached |
| `Timers.SleepBound` | redis-stable/src/ae.c:403-437 | the timeout is at most the remaining delay of every timer, and is the smallest one unless told not to wait |
| `Timers.WaitsForeverIff` | redis-stable/src/ae.c:403-437 | without timers the loop waits forever exactly if nobody told it not to wait |
| `Timers.RunKeepsFit` | redis-stable/src/ae.c:211-369 | while the clock does not go back, all due times stay comparable in every run, for all delays |
| `Timers.SleepBoundOverRuns` | redis-stable/src/ae.c:211-437 | in every state of every run the timeout is at most the remaining delay of every timer, if no delay is negative or the clock does not go back |
| `Timers.SleepBoundIff` | redis-stable/src/ae.c:272-437 | whatever the clock and the delays were, the sleep is at most the remaining delay of every timer if and only if no timer with negative milliseconds reaches back behind the nearest one while that lies ahead |
| `Timers.RunKeepsSmall` | redis-stable/src/ae.c:211-246 | in every run the milliseconds of a due time stay below a second in size, so that this applies |
| `Timers.ClockSetBackOversleeps` | redis-stable/src/ae.c:272-286 | a run with a negative delay and a clock set back in which a timer is overslept |
| `TimerFiring.NeverFiresEarly` | redis-stable/src/ae.c:317-369 | in every run a firing is a step at a timer that is listed, not deleted and not new, at a clock reading at or after its due instant |
| `TimerFiring.PassFiresAllDue` | redis-stable/src/ae.c:288-369 | in every run a pass that is over has fired every timer that existed when it began, unless it was deleted before its turn or its instant was still to come at its turn |
| `TimerFiring.CreateMeans` | redis-stable/src/ae.c:225-246 | a new timer is listed first under an unused name, due after its delay; nothing else changes |
| `TimerFiring.DeleteMeans` | redis-stable/src/ae.c:248-260 | deletion succeeds exactly for a listed timer that is not deleted, marks it and changes nothing else |
| `TimerFiring.ReturnMeans` | redis-stable/src/ae.c:353-363 | the next due instant is the clock plus the result; AE_NOMORE deletes; no other timer changes |
| `TimerFiring.StartMeans` | redis-stable/src/ae.c:292-313 | a pass that finds the clock set back makes every timer due, any other leaves them alone |
| `TimerList.TimeEvents.constructor` | redis-stable/src/ae.c:63-76 | an empty list |
| `TimerList.TimeEvents.CreateTimeEvent` | redis-stable/src/ae.c:225-246 | a new node at the head, links consistent, identifiers in sequence |
| `TimerList.TimeEvents.DeleteTimeEvent` | redis-stable/src/ae.c:248-260 | marks the first node with the identifier, or reports that there is none |
| `TimerList.TimeEvents.SearchNearestTimer` | redis-stable/src/ae.c:272-286 | the first node that no other is before, null only for an empty list |
| `TimerList.TimeEvents.MakeAllDue` | redis-stable/src/ae.c:302-308 | every timer becomes due when the clock went back |
| `TimerList.TimeEvents.UnlinkEvent` | redis-stable/src/ae.c:327-332 | unlinks exactly one node and keeps prev, next and head consistent |
| `Bio.NextKeepsInv` | redis-stable/src/bio.c:131-261 | every step of every thread keeps exclusion, the queue as a suffix of creation order, the counter, the running head and the absence of lost wake-ups |
| `Bio.EveryRun` | redis-stable/src/bio.c:131-231 | with the mutex free the counter is the queue length; the running job is the head until deleted; jobs run in creation order; zero means all were run |
| `Bio.CreatedIff` | redis-stable/src/bio.c:131-143 | jobs are created exactly by clients that hold the mutex for it, one each, behind all others |
| `Bio.ReturnedValue` | redis-stable/src/bio.c:233-261 | what a returned count says about the jobs created and run, how many jobs were finished after the caller fell asleep, and that a broadcast means at least one |
| `Bio.EarlyReturnIff` | redis-stable/src/bio.c:251-261 | a waiter returns without a job processed if and only if none was deleted since it fell asleep, and then no broadcast woke it |
| `Bio.WaitsIff` | redis-stable/src/bio.c:251-261 | a waiter sleeps exactly if a job is queued, and else gets zero with every job run |
| `Bio.SomebodyCanMove` | redis-stable/src/bio.c:131-261 | no deadlock and no lost wake-up in any interleaving |
| `Bio.JobsCanBeFinished` | redis-stable/src/bio.c:145-231 | from every reachable state the threads can go on so that every job is run and no waiter sleeps |
| `Bio.SpuriousWakeupReturnsEarly` | redis-stable/src/bio.c:251-261 | a run from the start in which a waiter returns although nothing was processed |
| `AdList.List.constructor` | redis-stable/src/adlist.c:41-53 | an empty valid list |
| `AdList.List.Empty` | redis-stable/src/adlist.c:56-71 | the walk stays on the list, which is empty afterwards |
| `AdList.List.AddNodeHead` | redis-stable/src/adlist.c:88-107 | a new node in front of all others, links and length consistent |
| `AdList.List.AddNodeTail` | redis-stable/src/adlist.c:114-132 | a new node behind all others |
| `AdList.List.InsertNode` | redis-stable/src/adlist.c:134-161 | a new node right behind or before the given one |
| `AdList.List.DelNode` | redis-stable/src/adlist.c:167-180 | exactly this node is gone, links and length consistent |
| `AdList.ListIter.FromHead` | redis-stable/src/adlist.c:205-208 | all nodes are ahead, first to last |
| `AdList.ListIter.FromTail` | redis-stable/src/adlist.c:210-213 | all nodes are ahead, last to first |
| `AdList.ListIter.Next` | redis-stable/src/adlist.c:229-240 | returns the nodes ahead one by one in its direction, then null |
| `AdList.ListIter.DeletePassed` | redis-stable/src/adlist.c:215-240 | deleting a node already returned does not disturb the iteration |
| `AdList.ListIter.DeletePending` | redis-stable/src/adlist.c:215-240 | nor does deleting one still to come, unless it is the next one, which leaves the iterator outside the list |
| `AdList.PurgeFromHead` | redis-stable/src/adlist.c:215-240 | the documented loop with deletions visits every node once in order and leaves exactly the others |
| `AdList.PurgeFromTail` | redis-stable/src/adlist.c:215-240 | the same from the tail |
| `AdList.List.Dup` | redis-stable/src/adlist.c:250-280 | a copy with fresh nodes and copied values, null exactly when the dup method fails, the original untouched |
| `AdList.List.SearchKey` | redis-stable/src/adlist.c:290-308 | the first node that matches, by method or equality |
| `AdList.List.Index` | redis-stable/src/adlist.c:315-327 | the node at a position, negative ones from the tail, null out of range |
| `AdList.List.RotateTailToHead` | redis-stable/src/adlist.c:330-342 | the last node comes first |
| `AdList.List.RotateHeadToTail` | redis-stable/src/adlist.c:345-357 | the first node comes last |
| `AdList.RotationsUndo` | redis-stable/src/adlist.c:330-357 | the two rotations undo each other |
| `AdList.RotationCycle` | redis-stable/src/adlist.c:345-357 | as many rotations as nodes bring every node back |
| `AdList.List.Join` | redis-stable/src/adlist.c:361-376 | the other list's nodes follow this one's, and the other is empty and valid |
| `Vlan.BubbleSort` | app/lib/dbcollect.py:14-25 | the same list object ends as an ascending permutation of its input |
| `Vlan.Round` | app/lib/dbcollect.py:18-22 | one round sorts one more place and puts the maximum there |
| `Vlan.ConventInt` | app/lib/dbcollect.py:7-12 | all ids as integers, or the ValueError |
| `Vlan.PyIntMeans` | app/lib/dbcollect.py:7-12 | int() takes white space on both sides and one sign, and refuses blanks |
| `Vlan.CombineRanges` | app/lib/dbcollect.py:26-41 | the text of the ranges of all ids in ascending order, or the ValueError |
| `Vlan.SortedUnique` | app/lib/dbcollect.py:14-25 | there is only one ascending arrangement, so the sort is determined |
| `Vlan.RangeList` | app/lib/dbcollect.py:29-38 | grouping by value minus index gives the runs |
| `Vlan.RangesAreMaximal` | app/lib/dbcollect.py:29-38 | for distinct ids no two neighbouring ranges could be merged |
| `Vlan.SplitRanges` | app/lib/dbcollect.py:44-65 | the loops compute the specified expansion or ValueError |
| `Vlan.ExpandMeans` | app/lib/dbcollect.py:47-56 | several parts fail exactly if one is no interval, and else give exactly the numbers of the intervals |
| `Vlan.PlainTextIsKept` | app/lib/dbcollect.py:44-64 | a text without comma and dash is taken over unread, except the two that mean none |
| `Vlan.ExpandAll` | app/lib/dbcollect.py:44-65 | expanding the ranges of a list of ids gives its decimals back, duplicates included |
| `Vlan.RoundTrip` | app/lib/dbcollect.py:26-65 | expanding what was compressed gives the ascending decimals |
| `Vlan.RoundTripIff` | app/lib/dbcollect.py:26-65 | and it does so exactly for non-negative ids, unless there are none or only the id 1 |
| `Vlan.CompressExpandIff` | app/lib/dbcollect.py:26-65 | the same stated on the ids in the order given |

## Left out

- The Flask application apart from the VLAN library: views, forms, mail, LDAP, consoles, MongoDB.
- The RDB preamble, streams and module values in a rewrite, and the RDB part of loading: they rest on other files; a file that starts with a preamble is a separate result of the loader.
- AofLoad.LoadAppendOnlyFile: the exit of the loader on an unknown command name is not modelled: every command name is accepted and commands outside the modelled ones are a function parameter (`Engine.other`), whose effect depends neither on the clock nor on loading.
- AofProtocol.FileTracksDataset: once a time to live drifted it asks of the commands outside the model that they do not look at expires but only move them along, naming the key each comes from (`Engine.origin`); while nothing drifted it asks nothing.
- Object encodings: values are sequences, sets and maps, and a dump may list them in any order; the canonical text of a score is a parameter.
- A load reads the clock once; expiry during a load or between commands by the active expire cycle appears only as the DEL or UNLINK that it propagates.
- Between MULTI and EXEC it is the replayed log with the open transaction that tracks the dataset, not the loaded one; a fork is modelled for datasets without empty aggregates (AofProtocol.ForkIsPossible).
- The final read of the child takes the whole pipe: the code stops reading when the non-blocking pipe is empty, and after the ack nobody writes to it.
- The scan for EX and PX reads one place past the argument vector when the last word is EX or PX; SET refuses such a command, so it is never fed.
- When a rewrite starts is an event like any other: its scheduling by the server's cron and by growth limits is not modelled.
- Durability of fsync, signals, logging, latency samples, process exit codes, temporary file names.
- Width of C integers: 64 bit wrap-around is modelled for expire times; lengths, counts, identifiers and clocks are unbounded.
- SHA-256, constant time comparison and glob matching are parameters of the ACL model; the bitmap is a set of ids below a parameter; logging of denied commands and the temporary file of ACL SAVE are not modelled.
- Module unloading, which removes commands from the table: AclDescribe.PanicIff says exactly when a panic would follow.
- AclSystem.UserCell.CopyFrom: copies the subcommand table at once instead of adding entry by entry; AclSystem.ReaddingCopies shows that the result is the same.
- AclDescribe.PanicIsUnreachable: a table with more commands than the bitmap has bits before the reserved one is left out, here and in the other theorems about users (AclDescribe.PanicIff covers it): the source gives a command past the bitmap an id whose bit is always clear. The names of commands that are not a module's, and of categories, are plain words as in the tables of the source.
- AclSystem.AclServer.KillClients: models the user and the authentication of a client, not the closing of its connection.
- Dispatch of fired file events, aeApiPoll's translation of event bits, beforesleep and aftersleep hooks, the evport, kqueue and select backends: easy to add and without new state.
- Closing a descriptor that is still registered, by which the kernel drops it silently.
- Callbacks of timers are arbitrary events of a state machine; the callback pointers, client data and finalizers themselves are not modelled. Address reuse after free is not modelled: a timer is named by its identifier at creation.
- The three job types of bio.c share no state, so one is modelled; what a job does when it runs is only recorded, and killing the threads is not modelled.
- Out of memory results of list functions, and the free method of a list.
- Vlan.ConventInt: Python's int() is modelled for blanks, sign and ASCII digits, not for underscores or other digit characters.
