# mini-redis-go: a verified model

A Dafny model of the Redis-like server mini-redis-go and proofs of what its design promises: a
replay of the append-only log shows clients what the running server showed them, compaction does
not change what the log means, a power loss at any byte takes the server back to a state it really
was in, expiry cannot be observed, replicas receive writes in store order, and pub/sub teardown
never sends to a closed mailbox. Where a promise is false of the code, an input shows it and the
exact condition is proved.

## How it is organised

| file | part of the server |
|---|---|
| `Bytes.dfy`, `Resp.dfy`, `RespIO.dfy` | integers as text; the RESP2 codec as functions with its round-trip laws; the reader and writer the server really uses, as methods over a stream |
| `Keyspace.dfy`, `KeyspaceLaws.dfy` | what each data command does to the entry of one key, and laws of the list, hash, set and expiry commands |
| `Commands.dfy` | command names, arities, argument parsing, the write table, dispatch |
| `Store.dfy` | class `DB`: 32 shards behind a hash, one method per store operation, and the dispatcher as a method |
| `Expiry.dfy`, `Snapshots.dfy` | lazy and active expiry; the shard-by-shard snapshot taken while keys expire |
| `Rewrite.dfy`, `Log.dfy`, `Aof.dfy` | snapshot to commands; replay and torn tails; the fsync policy and the growth trigger |
| `Images.dfy` | *images*: the keyspace with each deadline reduced to "has a deadline" |
| `System.dfy`, `LogSafety.dfy`, `FeedSafety.dfy` | the whole server as a state machine, and its invariants over all runs |
| `AofFile.dfy`, `Compactor.dfy` | the log file, its handle and the temporary file, and the copying of a shard, each operation tied to a step of the machine |
| `ExpiryGap.dfy`, `Tears.dfy` | inputs on which log and store part company; appending behind a torn frame |
| `Replication.dfy`, `PubSub.dfy` | replica queues and the replica's loop; broker, connections and teardown |

Time is an integer number of nanoseconds. Every operation takes the instant it reads from the
clock as an argument. A loop that reads the clock repeatedly takes `clock: nat -> Time`. The hash
that picks a shard is an arbitrary function `route`, so nothing depends on which one it is.

The state machine in `System.dfy` has one step for each thing that is atomic in the server: a write
takes the lock, touches one key, finishes, is appended (or the append fails part-way, or only its
fsync fails), is propagated; a read; an eviction; the clock moving; a background fsync, or one that
fails; the start of a compaction, one shard copied, the temporary file written, the rename, a
rename whose reopen fails, a failed compaction; a replica joining, leaving, being closed, being
sent a heartbeat, or being delivered a frame. A run is any interleaving of enabled steps. The
fields at the end of `State` record history (which keys have reached a deadline, which writes are
synced); they serve the theorems and decide nothing the server does.

A replay is *calm* on a key when, at the instant each logged command is replayed, any deadline the
replay has set on that key is still ahead; commands before some reset of the key (a SET, a DEL, an
EXPIRE with a non-positive time) are exempt. The server replays against the clock, so every theorem
about replay names this condition. `Images.SwiftIsQuiet` gives a check that needs only the log and
the clock: no time that a logged EXPIRE gives the key runs out while later commands are replayed.

## Where the documentation promises more than the code does

- The comments on the log and its compaction say that replay reproduces the live state. Two inputs
  break this. After SET, PEXPIRE, the deadline and RPUSH the running server holds a list, while an
  immediate replay holds the string, since expiry is never logged (`ExpiryGap.ExpiryIsNotLogged`).
  And after SET, PEXPIRE of a millisecond and PERSIST in quick succession the running server keeps
  the key for good, while a replay that takes a millisecond before the last command loses it
  (`ExpiryGap.SlowReplayLoses`). For the first, `LogSafety.TickBreaksIff` says exactly which clock
  step breaks agreement for calm replays: the one that passes the key's deadline. A later SET, DEL
  or EXPIRE with a non-positive time on the key, or a compaction, restores it. For the second,
  `Images.ReplayOnTrackIff` is exact: from the start of the log, or from any reset of the key on, the
  replay shows what the log says at every instant it runs a command if and only if no deadline on the
  key has passed at any of those instants. A log that has just been compacted is immune
  (`LogSafety.SwapHeals`).
- A rewrite that fails is said to leave the original log untouched and never to cost durability.
  That holds exactly when it fails no later than the rename (`AofFile.File.Rewrite`). If the new log
  cannot be reopened, the handle stays on the unlinked old file, and every later write is
  acknowledged and lost, until a compaction succeeds (`LogSafety.MissedUntilSwap`).
- A frame torn by a crash is said to be discarded. Replay does stop before it, but the file is then
  opened for appending as it is. Appending is safe exactly when nothing was torn
  (`Tears.AppendAfterTearSafeIff`): a tear inside the header line makes the log corrupt whatever is
  appended, and a later one misreads commands of another length. Theorems about runs therefore
  start from a log of whole frames.
- EXPIRE with a positive count should keep the key. Seconds are multiplied by 10^9 in 64 bits, so
  large counts wrap and may delete it or shorten its time. `Commands.PositiveExpireKeepsIff` gives
  both exact conditions.
- TTL and PTTL should round to the nearest unit. Within half a unit of 2^63 ns the addition wraps and
  the reply is negative; `KeyspaceLaws.PersistUndoesExpire` gives the exact condition.
- The comment on `expireAt` in `internal/db/entry.go` says it is always zero; EXPIRE sets it, as
  `KeyspaceLaws.PersistUndoesExpire` uses.

## Model

| member | source | states |
|---|---|---|
| `LogSafety.LogEqualsStore` | internal/server/server.go:402-465 | At every point of every run the file reads back without error. With appends reaching the file, for every key that is not stale and every replay that is calm on it from the start or from some reset of the key on: clients of the restarted server see at any later instant what clients of the running one see now, if and only if the restored deadline is still ahead. Between the mutation and the append, the same holds of the file with the pending frame |
| `LogSafety.LogEqualsStoreQuiet` | internal/server/server.go:367-400 | When no key is stale and the replay is calm on all of them, the recovered keyspace shows exactly what the live one shows, as a whole |
| `LogSafety.ReachableInv` | internal/server/server.go:440-465 | Every state of every run satisfies the log invariant, whatever keys met a deadline while the server booted: those count as stale |
| `LogSafety.StepKeeps` | internal/server/server.go:353-465 | Each of the twenty-three kinds of step, interleaved in any order, keeps the log invariant |
| `LogSafety.BootInv` | internal/server/server.go:375-400 | A server that has replayed a log of whole frames starts in the invariant, with the keys that met a deadline on the way, and were not reset after it, as its stale ones |
| `LogSafety.TickBreaksIff` | internal/db/expiry.go:31-50 | For a calm replay whose restored deadline is ahead: moving the running server's clock to t separates the two on a key if and only if its deadline lies between now and t |
| `LogSafety.SwapPreservesMeaning` | internal/persistence/rewrite.go:43-104 | For every key that is not stale, every calm replay of the old log and every replay of the compacted one, however slow, rebuild the same value and deadline flag |
| `LogSafety.SwapHeals` | internal/persistence/rewrite.go:43-104 | After the rename, every replay, however slow, rebuilds the live value and deadline flag of every key, stale or damaged by a failed append before, unless its deadline passed during the compaction itself |
| `LogSafety.MissedUntilSwap` | internal/persistence/rewrite.go:84-96 | In every run, once appends miss the file, because one failed or the reopen did, the file stays exactly as it is until a compaction succeeds, while the write history goes on growing |
| `LogSafety.PowerLossRollsBack` | internal/persistence/aof.go:186-207 | Cut the file anywhere at or after its synced part, at any point of any run: what is left stands for a prefix of the writes with every synced one in it, and on every key that never reached a deadline clients see after any calm replay what an earlier moment of that run showed, or, if the cut goes back before the run, what the boot replay showed at that command; with fsync on every write, none failed and no append missed, no write is lost |
| `LogSafety.SurvivingPrefix` | internal/persistence/aof.go:186-207 | What such a cut leaves reads back as whole commands that stand for a prefix of the write history, across compactions and failed appends, every synced write included |
| `LogSafety.SurvivingEffect` | internal/persistence/rewrite.go:10-14 | On a key that never reached a deadline, the compacted log with its tail and the full write history have the same effect |
| `LogSafety.FileScans` | internal/persistence/replay.go:33-64 | Whatever a failed append left at the end, replay reads exactly the commands that were appended whole and reports no corruption |
| `LogSafety.AppendFailsKeeps` | internal/server/server.go:452-459 | An append that writes only part of its frame, and every later one on the broken writer, keeps the invariant |
| `LogSafety.EvictKeeps` | internal/db/expiry.go:40-50 | Deleting an expired key without the write lock, at any moment of a write or a compaction, keeps the invariant |
| `LogSafety.CopyKeeps` | internal/db/snapshot.go:63-102 | Copying one shard while keys expire keeps the partial snapshot equal to the store on the shards copied, except on keys whose deadline passes meanwhile |
| `ExpiryGap.ExpiryIsNotLogged` | internal/db/expiry.go:31-50 | One log of three commands that leaves a list when the deadline passes before the last and a string with a deadline when all three run at once |
| `ExpiryGap.SlowReplayLoses` | internal/server/server.go:375-400 | One log of three commands after which a server that ran them at once shows the key for ever, and a replay that pauses for a millisecond has lost it |
| `FeedSafety.FeedsInOrder` | internal/replication/primary.go:107-139 | In every state of every run: no send has met a closed queue; what a feed was given, heartbeats removed, is a subsequence of the writes in store order from its registration on; as long as nothing was dropped it is an unbroken run of them from the first, and all of them while the feed is registered |
| `FeedSafety.StepKeeps` | internal/server/replication.go:17-48 | Registering, unregistering then closing, heartbeats, drops on a full queue and deliveries keep that invariant, interleaved with any other step |
| `FeedSafety.ReplicaConverges` | internal/replication/replica.go:84-102 | A replica that lost nothing and has drained its feed agrees with the primary on a key that never reached a deadline, whenever it started equal on that key or a command resetting the key was streamed |
| `Log.PowerLossRecovery` | internal/persistence/replay.go:12-64 | Any cut of the log at or after its synced part reads back as a whole prefix of history holding the synced commands, and every replay that is calm on a key rebuilds it as that prefix leaves it |
| `Log.TornTail` | internal/persistence/replay.go:45-56 | For every prefix of an encoded log, cut at any byte, replay yields exactly the commands that lie wholly inside it, and no error |
| `Log.ScanEncoded` | internal/persistence/replay.go:33-64 | Replaying what was appended yields the same commands in the same order |
| `Log.Replay` | internal/persistence/replay.go:33-64 | The replay loop: no file is an empty store; otherwise the store after the frames of the file, their number, and whether a malformed frame (not a short one) ended it |
| `Log.CalmView` | internal/server/server.go:375-400 | After a calm replay clients see of a key what the log says without a clock, until the restored deadline, and nothing from then on |
| `Images.ReplayOnTrackIff` | internal/server/server.go:375-400 | For every log, every schedule of its replay and every key, from the start or any reset of the key on: clients would see what the log says at each instant a command is replayed, if and only if no deadline on the key has passed at any of those instants |
| `Images.CalmUntimed` | internal/server/server.go:375-400 | A replay that is calm on a key from some reset on rebuilds it as the log says, whatever became of it before that reset |
| `Images.ResetRestores` | internal/db/db.go:125-162 | A reset leaves its key as the log says, whatever the replay had made of the key before |
| `Images.SwiftIsQuiet` | internal/server/server.go:375-400 | If no time that a logged EXPIRE gives a key runs out before the later commands are replayed, the replay is calm on that key |
| `Tears.AppendAfterTearSafeIff` | internal/persistence/aof.go:137-162 | Behind any whole frames and any torn command: every write appended is read back on its own if and only if nothing was torn |
| `Tears.TearSpoils` | internal/persistence/aof.go:137-162 | A tear at any byte spoils every appended command whose length differs from the torn one's |
| `Tears.TornHeaderCorrupts` | internal/persistence/replay.go:45-57 | A tear inside the header line makes the next replay fail behind the whole frames, whatever command is appended |
| `Tears.AppendAfterTearIsSwallowed` | internal/persistence/aof.go:137-162 | If the tear removed exactly the last argument, the next command appended is read as that argument, with no error, and never runs |
| `Resp.DecodeEncode` | internal/protocol/decoder.go:20-97 | Decoding an encoded value followed by anything gives back the value and exactly the rest, for every nesting |
| `Resp.DecodePrefix` | internal/protocol/decoder.go:20-132 | Every proper prefix of an encoded value is reported as a clean end if empty and as an unexpected end otherwise; never as a value, never as malformed |
| `Resp.DecodedIsWellFormed` | internal/protocol/decoder.go:20-110 | Whatever the decoder accepts can be encoded again, and what it leaves is a suffix of the input |
| `Resp.DecodeEncodeDecode` | internal/protocol/decoder.go:20-57 | Decoding, encoding and decoding again is decoding once, for every input the decoder accepts, canonical or not |
| `Resp.ReadLine` | internal/protocol/decoder.go:101-110 | A line that is read is the bytes up to the first LF, which must follow a CR |
| `Bytes.ParseFormat` | internal/protocol/encoder.go:12-52 | Every 64-bit integer survives formatting and parsing |
| `RespIO.Next` | internal/protocol/decoder.go:20-57 | The stream decoder returns what the codec's function returns on the unread bytes and, on success, leaves the reader just after the frame |
| `RespIO.NextBulk` | internal/protocol/decoder.go:59-77 | The same for a bulk body: null, negative length, short body, missing terminator |
| `RespIO.NextArray` | internal/protocol/decoder.go:79-97 | The same for an array: null, negative length, an end inside an element |
| `RespIO.NextLine` | internal/protocol/decoder.go:101-110 | The same for a line |
| `RespIO.NextInt` | internal/protocol/decoder.go:113-123 | The same for a length or integer |
| `RespIO.Write` | internal/protocol/encoder.go:12-52 | The stream encoder appends exactly the encoding of the value, after any bytes already written |
| `Rewrite.SnapshotReplays` | internal/persistence/rewrite.go:109-182 | However slowly the commands written for a snapshot are replayed, from an empty store, they rebuild every record and nothing else: contents, list order, and a deadline that counts the written remainder from the instant its own PEXPIRE is replayed |
| `Rewrite.RecordReplays` | internal/persistence/rewrite.go:120-160 | The one or two commands of a record, replayed at any instants behind others that did not touch its key, add exactly that key |
| `Rewrite.SnapshotPlansOf` | internal/persistence/rewrite.go:109-160 | The dispatcher takes every command the compactor writes as the operation that was meant |
| `Rewrite.RestoredWithinAMillisecond` | internal/persistence/rewrite.go:170-182 | The deadline a rewritten PEXPIRE restores is positive and less than a millisecond off the remaining time, for every remaining time that fits |
| `Rewrite.ValuePlan` | internal/persistence/rewrite.go:120-160 | What the compactor writes for a record is parsed by the dispatcher as the operation that was meant |
| `Rewrite.ExpirePlanOf` | internal/persistence/rewrite.go:170-182 | The same for its PEXPIRE |
| `Rewrite.PairsInterleave` | internal/persistence/rewrite.go:134-144 | Flattening fields and values and pairing them up again is the identity |
| `Rewrite.SnapshotCmdsWellFormed` | internal/persistence/rewrite.go:187-202 | Everything the compactor writes can be decoded again |
| `Rewrite.WriteRecord` | internal/persistence/rewrite.go:120-160 | The bytes written for a record are the encodings of its commands |
| `Rewrite.WriteSnapshot` | internal/persistence/rewrite.go:109-116 | The bytes written for a snapshot are the encodings of all its commands, record by record |
| `Snapshots.Snapshot` | internal/db/snapshot.go:63-102 | With any keys expiring between shards: no key twice, every record an exact copy of the entry at the start, no record of a key expired at the start, a record for every key still alive at the end |
| `Snapshots.CopyShard` | internal/db/snapshot.go:68-99 | A shard's records are its unexpired keys, each once and exactly |
| `Snapshots.CopyEntry` | internal/db/snapshot.go:74-97 | A record holds its entry's contents for each of the four kinds, and its deadline |
| `Snapshots.Evictions` | internal/db/expiry.go:40-50 | Any batch of evictions changes nothing but expired keys, which it removes |
| `Compactor.CopiedShard` | internal/db/snapshot.go:63-102 | What the loop takes from one shard of a sharded store is what the machine's copying step takes from the union: each unexpired key routed there, once and exactly |
| `Compactor.CopyOne` | internal/db/snapshot.go:68-99 | One turn of the snapshot loop on a store whose contents are the machine's is an enabled copying step, if the lengths fit a frame |
| `AofFile.OpenCarries` | internal/persistence/aof.go:144-162 | A file just opened is the log of the machine state the server starts in |
| `AofFile.AppendCarries` | internal/persistence/aof.go:193-207 | An append with any fault carries out a step of the machine on the log it matches: the append, the one whose fsync failed, or the failed one, which reaches the log not at all when the writer is broken or the handle stale |
| `AofFile.SyncCarries` | internal/persistence/aof.go:167-184 | A tick carries out the fsync step, or the failing one: afterwards every whole command in the log is durable, also behind a failed append and on a stale handle, unless an fsync of this file has failed |
| `AofFile.RewriteCarries` | internal/persistence/rewrite.go:43-104 | Success is the swap step, a failed reopen the swap with a stale handle, an error up to the rename the abandon step |
| `AofFile.File.Append` | internal/persistence/aof.go:193-207 | The file's new state, for every fault; an error is returned exactly for a write or fsync that failed now or a writer broken earlier, not for a stale handle; the handle's own file grows by exactly what got out |
| `AofFile.File.SyncEverySec` | internal/persistence/aof.go:167-184 | A tick changes no byte of any file and not the trigger; it makes all of the log synced unless the handle is stale, this fsync fails, or one did before |
| `AofFile.File.AutoRewrite` | internal/server/server.go:322-339 | A tick below the trigger changes nothing; above it the log is rewritten, and any failure, a failed reopen included, leaves the trigger armed; the size and base the trigger compares stay those of the tally of appends and rewrites |
| `AofFile.File.WriteTmp` | internal/persistence/rewrite.go:47-74 | Whatever stage fails, the file at the path is never touched; success leaves the whole snapshot in the temporary file and on disk, failure no temporary file |
| `AofFile.File.Rewrite` | internal/persistence/rewrite.go:43-104 | A crash between any two actions finds the whole old log with its synced part or the whole new one, all synced; an error up to the rename leaves log, handle and trigger as they were, a failed reopen leaves the handle on the old file |
| `AofFile.FileIsAmortised` | internal/persistence/aof.go:123-135 | At any time the snapshots a log file has been rewritten to, all but the latest, and its growth since that one, are together no larger than what was appended since the first rewrite |
| `AofFile.SyncedSurvives` | internal/persistence/aof.go:186-207 | Whatever a power loss leaves beyond the file's synced bytes is covered by the theorems on power loss |
| `Aof.CompactionIsAmortised` | internal/persistence/aof.go:123-135 | Over any history of appends and triggered compactions, the bytes written by all compactions but the last are bounded by the bytes appended since the first |
| `Aof.RewritesAreSpaced` | internal/persistence/aof.go:123-135 | Before each compaction at least 32 KiB were appended since the one before, or since the log was opened |
| `Expiry.ExpiryUnobservable` | internal/db/expiry.go:9-50 | For every history of commands and evictions, where commands read the clock in order and an eviction may carry an instant before that of an earlier command, all replies equal those of a store that never evicts and only hides expired keys, and the visible contents agree at the end |
| `Expiry.EvictSparesLive` | internal/db/expiry.go:40-50 | An eviction, whatever key a stale observation named, leaves every unexpired entry exactly as it is |
| `Expiry.ReapShard` | internal/db/expiry.go:167-192 | Sampling a shard removes exactly the expired keys among those sampled, samples only keys with a deadline and no more than the budget; with budget left over no expired key remains |
| `Expiry.Pass` | internal/db/expiry.go:167-192 | Over all shards from any starting one: the keys removed are exactly the expired ones sampled; another pass is asked for exactly when more than a quarter of the sample was expired; a pass that does not ask leaves either no expired key or at most a quarter of a full sample expired |
| `Expiry.Drain` | internal/db/expiry.go:135-151 | The repeat-while-hot loop terminates, ends in one of those two situations, and changes nothing a client can see |
| `Keyspace.ActOnLive` | internal/db/shard.go:64-92 | A command commutes with removing all expired keys: same reply, same remaining contents |
| `Keyspace.RunKeeps` | internal/db/db.go:192-206 | A read, or a command refused for the wrong type, changes nothing; no command leaves an expired entry |
| `Keyspace.RunFills` | internal/db/db.go:253-297 | No command leaves an empty list, hash or set behind |
| `Keyspace.ActAllFills` | internal/db/db.go:148-162 | The same over a list of keys |
| `KeyspaceLaws.DelRemoves` | internal/db/db.go:148-162 | DEL removes the named keys and no other |
| `KeyspaceLaws.DelCounts` | internal/cmd/keys.go:14-27 | DEL replies with the number of distinct named keys that were live |
| `KeyspaceLaws.ExistsCounts` | internal/cmd/keys.go:35-46 | EXISTS replies with the number of argument positions naming a live key, repeats counted, and changes nothing |
| `KeyspaceLaws.ListIsDeque` | internal/db/db.go:212-346 | After any pushes and pops a list key is a plain double-ended sequence, absent exactly when that is empty; the next push or pop answers with its length or element, and LRANGE selects from it |
| `KeyspaceLaws.PushFrontReverses` | internal/db/db.go:208-228 | Pushing values one at a time on the left puts them in front in reverse |
| `KeyspaceLaws.PushOneByOne` | internal/db/db.go:212-247 | A push of many values is the pushes of each in turn, in result and in reply |
| `KeyspaceLaws.PopUndoesPush` | internal/db/db.go:253-297 | A pop on the side of a push returns the value and restores the key, deadline included, or its absence |
| `KeyspaceLaws.SliceSelects` | internal/db/db.go:323-369 | LRANGE returns, in order, exactly the positions between its bounds, for all bounds, negative and out of range included |
| `KeyspaceLaws.SRemUndoesSAdd` | internal/db/db.go:598-648 | Removing newly added members restores the set, or the key's absence; both replies count distinct members |
| `KeyspaceLaws.HDelUndoesHSet` | internal/db/db.go:406-477 | Deleting newly set fields restores the hash, or the key's absence; both replies count distinct fields |
| `KeyspaceLaws.PersistUndoesExpire` | internal/db/expiry.go:56-107 | After a positive EXPIRE, PERSIST gives back the value without a deadline, and TTL and PTTL show the time rounded to the nearest unit if and only if half a unit more fits in 64 bits |
| `Commands.PositiveExpireKeepsIff` | internal/cmd/expire.go:16-40 | A positive EXPIRE or PEXPIRE keeps a live key if and only if its count times the unit, modulo 2^64, lies between 1 and the largest 64-bit integer, and gives it the time asked for if and only if the product itself fits; 9223372037 seconds deletes it |
| `Commands.PlanFor` | internal/cmd/registry.go:38-92 | The write table is right: a command that reaches the store may change it exactly when its name is in the table; every accepted command names a key, and only DEL and EXISTS name several |
| `Commands.UnloggedChangesNothing` | internal/server/server.go:416-417 | A request that is not a write, or whose reply is an error, changes nothing a client can see |
| `Commands.DispatchFills` | internal/cmd/registry.go:118-137 | No request leaves an empty collection behind |
| `Commands.SplitPairs` | internal/cmd/hash.go:15-35 | HSET's argument loop pairs each field with the value after it |
| `Images.DispatchView` | internal/cmd/registry.go:118-137 | What a request does to the visible value of a key depends on visible values alone, not on the clock or on expired leftovers |
| `Images.RunAtUntimed` | internal/server/server.go:375-400 | A key whose deadline no replayed command meets ends the same whatever instants replay reads from the clock |
| `Images.UntimedLocal` | internal/cmd/registry.go:118-137 | What a request does to a key depends on that key alone |
| `Images.UntimedRunForgets` | internal/db/db.go:119-162 | Once a log resets a key, what preceded it no longer matters to that key |
| `Store.FlattenAt` | internal/db/shard.go:45-62 | Looking a key up in its own shard is looking it up in the union of all shards |
| `Store.FlattenPut` | internal/db/shard.go:45-62 | Changing a key in its own shard is changing it in the union, and keeps every key in its own shard |
| `Store.FlattenSize` | internal/db/db.go:62-71 | The shard sizes add up to the number of keys |
| `Store.Execute` | internal/cmd/registry.go:118-137 | The dispatcher over the sharded store does and answers what the specification of the request says of the union of the shards, map order aside; only GET may change more, and only by evicting keys expired when it looks again |
| `Store.DB.constructor` | internal/db/db.go:45-51 | A new store is empty, whatever the hash |
| `Store.DB.ShardFor` | internal/db/shard.go:45-62 | The shard returned is the one that holds the key, if any does |
| `Store.DB.Peek` | internal/db/shard.go:70-76 | The entry if it is present and unexpired, changing nothing |
| `Store.DB.LiveEntry` | internal/db/shard.go:82-92 | The same, and an expired entry is gone afterwards, nothing else |
| `Store.DB.Get` | internal/db/db.go:95-117 | GET's reply, and whether it met an expired entry, without changing the store |
| `Store.DB.ExpireIfNeeded` | internal/db/expiry.go:40-50 | Deletes the key exactly when it is expired at the second look |
| `Store.DB.Set` | internal/db/db.go:125-133 | Refines SET: any earlier value and deadline of the key are gone |
| `Store.DB.Del` | internal/db/db.go:148-162 | Refines DEL key by key, each at its own reading of the clock; the number removed leaves out keys expired at that reading |
| `Store.DB.Exists` | internal/db/db.go:167-178 | Refines EXISTS, each key at its own reading of the clock, and changes nothing |
| `Store.DB.KeyCount` | internal/db/db.go:62-71 | The number of keys held, expired ones included |
| `Store.DB.LLen` | internal/db/db.go:301-314 | Answers LLEN and changes nothing |
| `Store.DB.LRange` | internal/db/db.go:323-346 | The copying loop answers LRANGE |
| `Store.DB.HGet` | internal/db/db.go:430-447 | Answers HGET, a missing field like a missing key |
| `Store.DB.HGetAll` | internal/db/db.go:483-503 | Whatever order the hash is ranged over, the flat array pairs every field, once, with its value |
| `Store.DB.HKeys` | internal/db/db.go:507-524 | Every field once, in some order |
| `Store.DB.HVals` | internal/db/db.go:530-547 | The values of the fields in some order of the fields, repeats kept |
| `Store.DB.HLen` | internal/db/db.go:551-564 | Answers HLEN |
| `Store.DB.SIsMember` | internal/db/db.go:652-666 | Answers SISMEMBER |
| `Store.DB.SMembers` | internal/db/db.go:670-687 | Every member once, in some order |
| `Store.DB.SCard` | internal/db/db.go:691-704 | Answers SCARD |
| `Store.DB.Ttl` | internal/db/expiry.go:94-107 | Answers TTL and PTTL, sentinels included, in 64-bit arithmetic, with one reading of the clock for the lookup and a second for the time left |
| `Store.ListHash` | internal/db/db.go:496-502 | Ranging over a hash in any order lists every field once, each with its value |
| `Store.Alternate` | internal/cmd/hash.go:90-93 | The flattened array pairs up again into the same fields and values |
| `Store.DB.LPush` | internal/db/db.go:212-228 | Refines LPUSH, with its prepending loop, on one shard |
| `Store.DB.RPush` | internal/db/db.go:233-247 | Refines RPUSH |
| `Store.DB.LPop` | internal/db/db.go:253-272 | Refines LPOP, dropping an emptied list |
| `Store.DB.RPop` | internal/db/db.go:277-297 | Refines RPOP, dropping an emptied list |
| `Store.DB.HSet` | internal/db/db.go:406-425 | Refines HSET |
| `Store.DB.HDel` | internal/db/db.go:453-477 | Refines HDEL, dropping an emptied hash |
| `Store.DB.SAdd` | internal/db/db.go:598-617 | Refines SADD |
| `Store.DB.SRem` | internal/db/db.go:623-648 | Refines SREM, dropping an emptied set |
| `Store.DB.Expire` | internal/db/expiry.go:56-71 | Refines EXPIRE; a non-positive duration deletes |
| `Store.DB.Persist` | internal/db/expiry.go:76-87 | Refines PERSIST |
| `Store.SetFields` | internal/db/db.go:416-424 | The loop leaves the last value given to each field, and counts distinct new fields |
| `Store.RemoveFields` | internal/db/db.go:466-476 | The loop removes the named fields, and counts those that were there, once each |
| `Store.AddMembers` | internal/db/db.go:608-616 | The loop adds the named members, and counts the new ones once each |
| `Store.RemoveMembers` | internal/db/db.go:636-647 | The loop removes the named members, and counts those that were there, once each |
| `Replication.Replicas.Add` | internal/replication/primary.go:77-85 | A fresh, empty feed under an id never used before |
| `Replication.Replicas.Remove` | internal/replication/primary.go:92-97 | The feed can no longer be found and is closed, with what it held still to be drained; the other feeds are untouched |
| `Replication.Replicas.Propagate` | internal/replication/primary.go:122-139 | Every registered feed with room gets the encoded frame at its end; a full one is unchanged; no send meets a closed queue |
| `Replication.Frame` | internal/replication/primary.go:122-128 | The frame is the command's encoding |
| `Replication.WriteIsNoHeartbeat` | internal/replication/replica.go:107-110 | No write is mistaken for a heartbeat, so none is skipped by a replica |
| `Replication.Follow` | internal/replication/replica.go:84-102 | Over any byte stream the replica applies exactly the whole frames that are not heartbeats, in order, and acknowledges exactly the others |
| `PubSub.SwapRemoveKeepsOthers` | internal/db/pubsub.go:88-105 | Swap-with-last removal takes out one occurrence and nothing else |
| `PubSub.SwapRemoveDistinct` | internal/db/pubsub.go:88-105 | On a list without repeats the subscriber is gone, the others stay, and there are still no repeats |
| `PubSub.Broker.Subscribe` | internal/db/pubsub.go:80-84 | The subscriber is appended on that channel and no other |
| `PubSub.Broker.Unsubscribe` | internal/db/pubsub.go:88-105 | The removal loop is swap-with-last removal on that channel alone; a channel left empty is dropped |
| `PubSub.Broker.Publish` | internal/db/pubsub.go:121-137 | Each listener is offered the message once for every time it is listed, and the count is the number of those offers that found room |
| `PubSub.Broker.PublishOnce` | internal/db/pubsub.go:121-137 | Where nobody is listed twice, each listener with room gets the message at its mailbox's end, a full one is unchanged, and the count is the number that had room |
| `PubSub.Hub.Connect` | internal/server/connection.go:103-108 | A connection starts with no mailbox and no channel |
| `PubSub.Hub.EnsureMailbox` | internal/server/pubsub.go:88-92 | A connection's first subscription gives it a mailbox of its own; later ones keep it |
| `PubSub.Hub.Subscribe` | internal/server/pubsub.go:83-105 | The connection ends subscribed to the union, each acknowledgement carries the running number of distinct channels, and the broker and all connections still agree, also when a write to the client fails half-way |
| `PubSub.Hub.Unsubscribe` | internal/server/pubsub.go:110-138 | The named channels, or all when none is named, are left, and the acknowledgements count down; holding and naming nothing gives one acknowledgement of zero; agreement is kept, also when a write fails half-way |
| `PubSub.Hub.Disconnect` | internal/server/pubsub.go:156-164 | The mailbox is closed only once no channel lists it; other connections and mailboxes are untouched; every mailbox the broker lists is open, before and after |
| `PubSub.Hub.Publish` | internal/db/pubsub.go:121-137 | A message reaches exactly the connections subscribed to the channel whose mailbox has room, once each, and never a closed mailbox; the count is the number of those |
| `PubSub.Hub.Deliver` | internal/server/pubsub.go:143-149 | The delivery goroutine writes messages to the socket in the order they were accepted, none twice and none skipped |

## Left out

- Sockets, the accept loop, shutdown, configuration, metrics, logging: no decision the theorems depend on is made there.
- The file system below files with a synced prefix: directory fsync; and what an fsync still does after one on the same file failed: the model trusts none of them until the next compaction.
- Runs of a server without a log and without replicas, where writes skip the lock.
- Runs that start from a log with a torn last frame: `Tears.AppendAfterTearSafeIff` shows why they are different.
- LogSafety.LogEqualsStore: says nothing of keys in `stale` or of replays that are not calm, because for them the property is false. The condition on replays is exact for agreement at every instant of the replay (`Images.ReplayOnTrackIff`); a replay that left the track can still end up right by coincidence, which is not characterised.
- LogSafety.PowerLossRollsBack: speaks of keys that never reached a deadline.
- FeedSafety.ReplicaConverges: needs the replica to start equal on the key or to receive a reset of it, since the protocol sends no snapshot.
- The log, the feed and the store are compared through values and deadline flags. How far a restored deadline is off is bounded for one compaction by `Rewrite.SnapshotReplays` with `Rewrite.RestoredWithinAMillisecond`, not summed over a run; a replayed EXPIRE counts from its replay.
- The replica's own log and its own clients; dialling, reconnecting, staleness and lag reporting.
- A second REPLICAOF on one connection, which replaces the first feed without removing it.
- Snapshots of values longer than a 64-bit length can say; allocation limits of the decoder.
- The hash function (FNV-1a): an arbitrary function stands for it.
- Upper-casing of command names beyond ASCII.
- Error texts, and the encoding of replies as frames.
- PING, ECHO and PUBLISH as commands reach no store operation and only their effect on the store (none) is modelled; PUBLISH is modelled at the broker.
- The list of commands allowed in subscribe mode.
- Entries and byte slices are values: aliasing of entries and of buffers is not modelled, nor are data races.
- Store.Execute: gives all keys of a DEL or EXISTS, and both readings of a TTL, one instant; `Store.DB.Del`, `Store.DB.Exists` and `Store.DB.Ttl` are proved without that, and in `System.dfy` the keys of a write are separate steps with anything in between.
- Expiry.Drain: no client writes between passes, so the termination argument in the source's comment is proved for a store that only the reaper changes.
