# Verified models of the Redis core and the Kinesis client protocol

The repository vendors Redis 3.2.1 and the Kinesis client that feeds it. This project models the
parts of them that are hardest to get right and proves what they are for. All proofs are over
every input, every run or every reachable state; sizes, hash functions, interleavings and I/O
results are arbitrary unless a row says otherwise. `dafny verify dfyconfig.toml` checks all of it.

| files | component |
|---|---|
| `DictModel`, `DictTable`, `DictLoad` | the hash table with incremental rehashing: a value model, the code on its fields, sizes and load |
| `DictIteration` | safe iterators |
| `ReverseBits`, `ScanCursor`, `DictScan` | `dictScan` and its reverse-binary cursor |
| `Election`, `ElectionNode` | failover elections as a distributed protocol, and the handlers of one node |
| `EpochCollision` | repair of colliding configuration epochs |
| `SlotTable` | slot ownership, its bitmaps and counters, and slot claims |
| `Resharding`, `SlotMigration` | query routing, `CLUSTER SETSLOT`, and a slot moving between two nodes |
| `AofRewrite` | the two-process rewrite of the append-only file |
| `AofCodec`, `AofLog` | its printer and loader, and the buffered log of a running server |
| `Keyspace`, `Recovery` | what commands do to keys and deadlines, and what a restart restores of them |
| `WordArith`, `Bitfield`, `Bitpos`, `Popcount` | the bit operations against bit-by-bit specifications |
| `Crc64`, `DumpPayload` | CRC64 and the check of `DUMP` payloads |
| `KclProtocol`, `KclManager` | the MultiLangDaemon protocol automaton, its manager and checkpointer |
| `Prelude` | shared definitions |

Code that updates fields or buffers is modelled by classes and methods with the same loops, each
proved equal to a function on values; protocols are state machines over their atomic handlers, and
the theorems about whole runs are lemmas about those functions and steps. I/O, clocks, randomness
and the network appear as parameters: how many bytes a write takes, which message arrives when,
what time it is, whether a truncation succeeds.

## What the code does not do as its comments say

- `dictScan` (dict.c:768-850) promises that every element present throughout a scan is returned.
  The loop at dict.c:896-908 counts up the cursor's own high bits in plain order, so a call made
  while the table shrinks may pass over buckets. `ScanCursor.CallCoversExactly` gives the exact
  condition, `DictScan.ScanComplete` the promise under it, `DictScan.ShrinkingScanMisses` a scan
  that fails.
- An election resets its vote count at cluster.c:2777 but moves its epoch only at cluster.c:2837, and
  cluster.c:1932-1934 counts a vote of any epoch that is not below the old one. A late vote of the
  previous election can so be counted towards the next one, and two slaves can win the same epoch:
  `Election.TwoWinnersWithoutGuard`. What is missing is a test of `failover_auth_sent` before a vote is
  counted: counts are exact in exactly the runs that obey it (`Election.ExactCountsExactly`), and
  then elections are safe; without it two winners need stale votes
  (`Election.TwoWinnersNeedStaleVotes`). The waiting that `auth_retry_time` stands for suffices, but no
  node can check it: `Election.TimedElectionsAreSafe`. The comment at cluster.c:2718 says MIN where the
  code takes the maximum; the model takes the maximum.
- A slot may be assigned at its old owner before it is at the new one. Between the two each node
  redirects to the other, and a client that follows is never served:
  `SlotMigration.HeldKeysServedExactly` gives this as the only exception for keys that one node holds,
  `DisownedCanHappen` a run to it.
- The log is to hold only absolute times (aof.c:475-477), but `SET` with EX or PX is printed as it is, so
  that a restart keeps its key longer: `Keyspace.TimedSetDrifts`. Translated times count from the feed,
  which reads the clock again (aof.c:495), not from the execution: `Keyspace.CallRecovers` says by how
  much a deadline is put off. And SETEX becomes two commands, between which a file may end:
  `Recovery.CrashRestoresBeginning`.
- A dictionary that shrinks may become fuller than one entry per bucket before its next growth:
  `DictLoad.ShrinkingRunOverfills`; for the others `DictLoad.LoadIsBounded` holds.
- crc64.c:8 gives an initial value of all ones; the check value of crc64.c:11 holds for the 0 that the code
  is called with: `Crc64.CheckValue`.
- `clusterDelNodeSlots` (cluster.c:3437-3447) is said to return the number of deleted slots and returns
  the number of slots visited.
- The comment at bitops.c:322-324 says that overflowing bounds are never used. With a zero
  increment, which is how `BITFIELD SET` calls it, `max - value` is used when it overflows:
  `Bitfield.SignedSetExactly`.
- `checkUnsignedBitfieldOverflow` is documented to return -1 on underflow; with WRAP it returns 1.
- `Checkpointer.checkpoint` documents its callback as required but accepts a call without one, whose
  response then fails: `KclProtocol.CallbackMayBeNull`.
- `_onAction` calls `_reportError`, which `KCLManager` does not define, so an invalid action throws; the
  model takes it as an event that changes nothing.

## Model

| member | source | states |
|---|---|---|
| `DictModel.RunRefinesMap` | redis_pull/redis-stable/src/dict.c:192-511 | for every sequence of adds, replaces, finds, deletes, expansions, resizes and rehash steps, from any valid pair of tables: each answer is the one a finite map gives (an add fails only on a present key) and the tables still represent that map, so no key is lost or doubled |
| `DictModel.ExecRefines` | redis_pull/redis-stable/src/dict.c:322-511 | one call, whatever the state of the migration: same answer as the map, and the new tables represent the new map |
| `DictModel.ExecInv` | redis_pull/redis-stable/src/dict.c:204-447 | every call keeps the invariant: entries hashed to their bucket, keys distinct within and across the two tables, used counts exact, sizes powers of two, buckets below rehashidx empty, rehashidx in bounds |
| `DictModel.EmptyDictRepresents` | redis_pull/redis-stable/src/dict.c:168-188 | a new dictionary is valid and represents the empty map |
| `DictModel.RehashKeeps` | redis_pull/redis-stable/src/dict.c:245-288 | dictRehash(n) keeps the invariant and every lookup, and for n > 0 advances rehashidx, be it only past empty buckets, or ends the migration |
| `DictModel.MoveBucketKeeps` | redis_pull/redis-stable/src/dict.c:259-277 | relinking one bucket into the second table keeps the invariant, both used counts together, and every lookup |
| `DictModel.ExpandKeeps` | redis_pull/redis-stable/src/dict.c:204-234 | dictExpand keeps the invariant, every lookup, the number of entries and the iterators |
| `DictModel.ExpandSucceedsExactly` | redis_pull/redis-stable/src/dict.c:204-234 | it is refused exactly while rehashing, below the number of entries, or for the size the table has, and then changes nothing; otherwise the new table is empty and its size the least power of two that is not below the request, at least 4 |
| `DictModel.ExpandIfNeededSucceeds` | redis_pull/redis-stable/src/dict.c:926-944 | the automatic expansion never fails, so that an add fails only on a present key |
| `DictModel.AddKeeps` | redis_pull/redis-stable/src/dict.c:322-372 | an add succeeds exactly on an absent key; then the key maps to the value and nothing else changes |
| `DictModel.ReplaceKeeps` | redis_pull/redis-stable/src/dict.c:378-397 | a replace leaves the key mapped to the value and reports whether it was new |
| `DictModel.DeleteKeeps` | redis_pull/redis-stable/src/dict.c:412-447 | a delete succeeds exactly on a present key and removes that key alone |
| `DictModel.MigrationEnds` | redis_pull/redis-stable/src/dict.c:245-288 | with no safe iterator live, a migration ends within as many rehash steps as the first table has buckets left, whatever calls interleave |
| `DictModel.ExecAdvances` | redis_pull/redis-stable/src/dict.c:317-319 | every call that performs a rehash step moves rehashidx forward or ends the migration |
| `DictLoad.AddGrowsExactly` | redis_pull/redis-stable/src/dict.c:926-944 | what an add does to the sizes: after its rehash step it begins a migration to the least power of two not below twice the entries exactly when the dictionary is not migrating and has as many entries as buckets, or without resizing six times as many; a dictionary without a table gets 4 buckets; nothing else changes a size |
| `DictLoad.ResizesExactly` | redis_pull/redis-stable/src/dict.c:192-201 | dictResize is refused exactly when resizing is off, a migration is under way or the size fits already; otherwise the new table has the least power of two, from 4 up, that is not below the entries |
| `DictLoad.RehashIsIncremental` | redis_pull/redis-stable/src/dict.c:239-288 | dictRehash(n) moves exactly n filled buckets, unless fewer are left or it has passed 10 n empty ones first, and stops there |
| `DictLoad.LoadIsBounded` | redis_pull/redis-stable/src/dict.c:926-944 | after every sequence of calls on a new dictionary that never shrinks it, the table that takes new entries has a bucket per entry if all calls allow resizing, and at least one per six entries in any case |
| `DictLoad.AddLeavesRoom` | redis_pull/redis-stable/src/dict.c:926-944 | in any run at all, an add that allows resizing leaves a bucket per entry, unless it finds a migration that its step does not end; then entries and buckets left together do not become more |
| `DictLoad.ShrinkingOverfills` | redis_pull/redis-stable/src/dict.c:192-201 | the bound fails for runs that shrink: after dictResize of a sparse table with a power of two of entries, not all in one bucket, one more entry makes more entries than buckets of the table that takes them |
| `DictLoad.ShrinkingRunOverfills` | redis_pull/redis-stable/src/dict.c:192-201 | and such a table is reached from a new dictionary: eight buckets, four entries, dictResize, one more entry |
| `DictTable.ComputeNextPower` | redis_pull/redis-stable/src/dict.c:948-960 | the loop returns a power of two that is at least 4 and not below the size, and no other such power is smaller |
| `DictTable.HashTable.constructor` | redis_pull/redis-stable/src/dict.c:168-188 | the empty dictionary |
| `DictTable.HashTable.ExpandTo` | redis_pull/redis-stable/src/dict.c:204-234 | updates the fields as the specification of dictExpand says, and reports success as it does |
| `DictTable.HashTable.SkipEmptyBuckets` | redis_pull/redis-stable/src/dict.c:252-258 | the inner loop of dictRehash stops at the first non-empty bucket or when the empty visits run out |
| `DictTable.HashTable.MoveOneBucket` | redis_pull/redis-stable/src/dict.c:259-277 | the relinking loop moves every entry of the bucket, in the order the specification says, and adjusts both counters |
| `DictTable.HashTable.RehashSteps` | redis_pull/redis-stable/src/dict.c:245-288 | dictRehash in place equals its specification, keeps every lookup, and returns whether entries remain |
| `DictTable.HashTable.Step` | redis_pull/redis-stable/src/dict.c:317-319 | one rehash step unless an iterator is live |
| `DictTable.HashTable.Locate` | redis_pull/redis-stable/src/dict.c:492-511 | finds the first entry of the key in its bucket of the first table that has it, and says where |
| `DictTable.HashTable.FindKey` | redis_pull/redis-stable/src/dict.c:492-511 | dictFind: the value the key maps to, and the rehash step it performs |
| `DictTable.HashTable.ExpandWhenNeeded` | redis_pull/redis-stable/src/dict.c:926-944 | _dictExpandIfNeeded: as specified; a table is grown exactly when it has as many entries as buckets and resizing is allowed, or six times as many, and then to the least power of two not below twice the entries |
| `DictTable.HashTable.AddKey` | redis_pull/redis-stable/src/dict.c:322-372 | dictAdd in place equals its specification, and inserts into the second table while rehashing |
| `DictTable.HashTable.ReplaceKey` | redis_pull/redis-stable/src/dict.c:378-397 | dictReplace in place equals its specification |
| `DictTable.HashTable.DeleteKey` | redis_pull/redis-stable/src/dict.c:412-447 | dictGenericDelete in place equals its specification: one entry unlinked from the table that has it |
| `DictIteration.SafeIterationExactlyOnce` | redis_pull/redis-stable/src/dict.c:578-611 | a complete iteration with a safe iterator returns every entry present at its start exactly once, whatever is added, replaced or looked up between calls, also when returned entries are deleted and when adds start a migration half way |
| `DictIteration.NextReturnsPending` | redis_pull/redis-stable/src/dict.c:578-611 | dictNext returns an entry not returned before and takes exactly that one off what is pending, or returns NULL when nothing is pending |
| `DictIteration.CallPending` | redis_pull/redis-stable/src/dict.c:346-372 | any other call leaves what is pending as it was, but for the key it inserts or deletes |
| `DictIteration.SafeIterator.NextKey` | redis_pull/redis-stable/src/dict.c:578-611 | dictNext on the iterator and the live-iterator count equals its specification |
| `DictIteration.SafeIterator.Release` | redis_pull/redis-stable/src/dict.c:613-622 | dictReleaseIterator gives the live-iterator count back once, and only if dictNext had taken it |
| `ReverseBits.ReverseWord` | redis_pull/redis-stable/src/dict.c:758-766 | the word-parallel loop reverses all 64 bits |
| `ReverseBits.ReversedBits` | redis_pull/redis-stable/src/dict.c:758-766 | the reversal as numbers: the word read backwards is Rev of its value, the operation the cursor arithmetic uses |
| `ScanCursor.NextCursorPosition` | redis_pull/redis-stable/src/dict.c:910-921 | the cursor arithmetic moves on by exactly one bucket in the reversed order |
| `ScanCursor.CallCoversExactly` | redis_pull/redis-stable/src/dict.c:896-908 | a call made during a migration visits everything of its bucket that lies at or after the cursor if and only if the cursor bits between the two masks are a low run 0..01..1; a cursor without such bits is the usual case |
| `ScanCursor.CursorCycle` | redis_pull/redis-stable/src/dict.c:852-921 | on an unchanged table of 2^k buckets the cursor is 0 again after exactly 2^k calls and not before |
| `DictScan.EmitsExactly` | redis_pull/redis-stable/src/dict.c:852-921 | which stored keys one call emits: those of its bucket in the smaller table, and of the buckets it expands to in the larger one |
| `DictScan.ScanComplete` | redis_pull/redis-stable/src/dict.c:768-921 | completeness: a scan from 0 back to 0 has emitted every key that each of its calls found, whatever happened in between, provided the calls made during a migration meet the exact condition |
| `DictScan.ScanCompleteWhenGrowing` | redis_pull/redis-stable/src/dict.c:768-921 | in particular when the smaller table never shrinks between calls |
| `DictScan.ScanCompleteOverHistory` | redis_pull/redis-stable/src/dict.c:768-921 | the same for scans interleaved with arbitrary sequences of calls none of which deletes the key |
| `DictScan.ScanLength` | redis_pull/redis-stable/src/dict.c:852-921 | while the smaller table keeps 2^k buckets a scan takes exactly 2^k calls |
| `DictScan.UnsoundCallLoses` | redis_pull/redis-stable/src/dict.c:896-908 | the other half: any call that violates the condition passes over a hash: a key of the larger table with that hash lies at or after the cursor, is not emitted, and lies before the cursor that the call returns, unless that is 0 |
| `DictScan.ShrinkingScanMisses` | redis_pull/redis-stable/src/dict.c:896-908 | one whole scan, 0, 8, 2, 1, 3 and back to 0, of a table that begins to shrink from 16 to 4 buckets after the first call: its key 4 is stored at every call and emitted by none |
| `DictScan.ScanExpansions` | redis_pull/redis-stable/src/dict.c:896-908 | the inner loop emits exactly the expansions of the cursor |
| `DictScan.Scan` | redis_pull/redis-stable/src/dict.c:852-921 | dictScan returns the specified cursor and emits the specified entries |
| `Election.AtMostOneWinner` | redis_pull/redis-stable/src/cluster.c:2466-2530 | election safety: in every run with a fixed set of voting masters, messages lost, delayed and reordered at will and counts reset at any time, no two slaves win the same epoch unless one of them had counted a vote of an earlier election since its last reset |
| `Election.CountIsExact` | redis_pull/redis-stable/src/cluster.c:1928-1940 | in every run, a slave's count is the number of distinct masters whose votes for its present election have reached it and been counted, if and only if it has counted no stale vote |
| `Election.ExactCountsExactly` | redis_pull/redis-stable/src/cluster.c:1932-1934 | the exact condition: all counts are exact throughout a run if and only if every vote that is counted is counted by a slave that has asked for votes since its last reset, which is the test of failover_auth_sent that the code lacks there |
| `Election.TwoWinnersNeedStaleVotes` | redis_pull/redis-stable/src/cluster.c:2837-2861 | two winners of one epoch have counted at least one stale vote between them, and at least two if the number of masters is even |
| `Election.GuardedElectionsAreSafe` | redis_pull/redis-stable/src/cluster.c:1932-1934 | in every run that obeys that test no two slaves win the same epoch |
| `Election.TimedElectionsAreSafe` | redis_pull/redis-stable/src/cluster.c:2773-2793 | a run in which nothing of an old election is in flight whenever a count is reset obeys the test, and so is safe |
| `Election.StepKeeps` | redis_pull/redis-stable/src/cluster.c:1928-1940 | every step of the code keeps: one vote per master and epoch, every vote in flight is a real one, the count of a slave is that of its recorded voters and of its stale votes, winners hold a quorum of both together |
| `Election.TwoWinnersWithoutGuard` | redis_pull/redis-stable/src/cluster.c:1932-1934 | without that test the code elects two slaves: a run with one master in which a late vote of epoch 1 is counted towards epoch 2 and both slaves win epoch 2 |
| `Election.ElectionCanBeWon` | redis_pull/redis-stable/src/cluster.c:2837-2861 | the runs that safety speaks of include won elections: from a start with one master, and with its timing kept, a slave asks, is voted for, counts the vote and wins |
| `Election.WinnersHaveGrounds` | redis_pull/redis-stable/src/cluster.c:2466-2555 | behind every winner that has counted no stale vote stands a majority of the masters, each of which voted for it in this election and for the slots and epoch that it claimed when the election began; and each, at that moment, was a master with slots, took it for a slave of a failed master or was forced, had not voted for a slave of that master for two node timeouts, and knew no claimed slot under a greater configuration epoch |
| `ElectionNode.Voter.OnAuthRequest` | redis_pull/redis-stable/src/cluster.c:2466-2555 | the vote is granted if and only if this is a master with slots, the request is of an epoch that is current and not voted in, the asker is a slave whose master failed (or forces it), the delay has passed and no claimed slot has an owner with a greater configuration epoch; then lastVoteEpoch is the current epoch and the time of the vote is noted for that master |
| `ElectionNode.Candidate.OnAck` | redis_pull/redis-stable/src/cluster.c:1928-1940 | a vote counts exactly if it comes from a voting master and its epoch is not below the election epoch |
| `ElectionNode.Candidate.HandleFailover` | redis_pull/redis-stable/src/cluster.c:2704-2865 | the outcome is scheduling, asking, winning or nothing exactly when the conditions on time, age, rank, votes and quorum say so, which are spelled out; each changes exactly the named fields |
| `ElectionNode.VoteIsStep` | redis_pull/redis-stable/src/cluster.c:2466-2530 | the Vote step of the protocol changes the master as that handler does and no other node, and puts a vote in flight exactly if it was granted |
| `ElectionNode.CountIsStep` | redis_pull/redis-stable/src/cluster.c:1928-1940 | the Count step changes the slave as its handler does and takes that vote out of flight |
| `ElectionNode.FailoverIsStep` | redis_pull/redis-stable/src/cluster.c:2704-2865 | each outcome of that handler makes the Schedule, Ask or Win step possible and changes the slave as the step does |
| `EpochCollision.MovesAreBounded` | redis_pull/redis-stable/src/cluster.c:1035-1050 | repair terminates: in every run, however stale or repeated the packets, the master with the k-th greatest ID moves at most k - 1 times (so at most 2^(k-1) - 1); the greatest never |
| `EpochCollision.SettledExactly` | redis_pull/redis-stable/src/cluster.c:1035-1050 | no master would move on the others' current packets if and only if all configuration epochs are distinct |
| `EpochCollision.RunInv` | redis_pull/redis-stable/src/cluster.c:1602-1612 | in every run: configuration epochs never exceed current epochs, are never overestimated by others, and an epoch given up was held by a greater ID |
| `EpochCollision.ClusterMaster.ProcessPing` | redis_pull/redis-stable/src/cluster.c:1602-1612 | epoch handling of a packet, with the collision handler, as the protocol step says |
| `EpochCollision.ClusterMaster.HandleCollision` | redis_pull/redis-stable/src/cluster.c:1035-1050 | moves to a new greatest epoch exactly on a collision with a greater ID |
| `EpochCollision.MovesPastAllHeard` | redis_pull/redis-stable/src/cluster.c:1602-1612 | in every run, a master that moves takes an epoch greater than every epoch it has ever heard of and than its own |
| `SlotTable.BookkeepingAgrees` | redis_pull/redis-stable/src/cluster.c:3377-3447 | after every sequence of slot and node operations, bit j of node n is set exactly if slot j belongs to n and numslots counts the bits |
| `SlotTable.DelSlotKeeps` | redis_pull/redis-stable/src/cluster.c:3428-3436 | clusterDelSlot keeps the agreement, and the assertion in it holds |
| `SlotTable.ClaimsConverge` | redis_pull/redis-stable/src/cluster.c:1442-1502 | claims converge: from unassigned slots, once every master's claim was heard, in any order and any number of times, each slot belongs to the claimant of the greatest epoch, or to nobody if there is none; but the slots that the node is importing stay as they were, whoever claims them |
| `SlotTable.LosesSlotExactly` | redis_pull/redis-stable/src/cluster.c:1481-1489 | a claim takes a slot from the current master exactly if it claims one of its slots under a greater epoch that is not being imported |
| `SlotTable.PingConverges` | redis_pull/redis-stable/src/cluster.c:1814-1826 | after each ping every slot that is not being imported belongs to the rightful owner among the masters heard so far, and the others are as they were |
| `SlotTable.ClusterView.AddNode` | redis_pull/redis-stable/src/cluster.c:844-850 | a new node owns nothing and the agreement stays |
| `SlotTable.ClusterView.Add` | redis_pull/redis-stable/src/cluster.c:3418-3423 | clusterAddSlot: refused for an owned slot; otherwise owner, bit and counter change together |
| `SlotTable.ClusterView.Del` | redis_pull/redis-stable/src/cluster.c:3428-3436 | clusterDelSlot: owner, bit and counter change together, and its assertion never fires |
| `SlotTable.ClusterView.DelNodeSlots` | redis_pull/redis-stable/src/cluster.c:3439-3447 | releases exactly the slots of the node; the number returned is that of the slots visited |
| `SlotTable.ClusterView.DelNode` | redis_pull/redis-stable/src/cluster.c:863-876 | releases exactly the slots of the node, closes every import from it and migration to it, and forgets it |
| `SlotTable.ClusterView.ReplaceMaster` | redis_pull/redis-stable/src/cluster.c:2666-2682 | exactly the slots of the old master become ours |
| `SlotTable.ClusterView.UpdateSlots` | redis_pull/redis-stable/src/cluster.c:1442-1502 | rebinds exactly the slots that the claim takes (claimed, not ours to import, unassigned or of an older epoch) and reports losses from the current master and dirty slots |
| `Resharding.RoutingNode.GetNodeByQuery` | redis_pull/redis-stable/src/cluster.c:4974-5135 | the two loops with their accumulating flags decide as the declarative rule over all keys does: serve, ASK, MOVED, or the right one of the four errors |
| `Resharding.ServedExactly` | redis_pull/redis-stable/src/cluster.c:5080-5135 | a query with keys is executed where it arrives if and only if all keys lie in one owned slot, the cluster is up, this node is its owner, or importing it and asked with ASKING or MIGRATE, or a slave of the owner and the client only reads; and if the slot is open, all keys are here, or there is but one and the slot is arriving, or the query is MIGRATE |
| `Resharding.RefusedExactly` | redis_pull/redis-stable/src/cluster.c:5015-5117 | each of the four errors with its exact condition on the keys, the slot and the flags; TRYAGAIN for several keys in an importing slot under ASKING of which not all are here |
| `Resharding.RedirectedExactly` | redis_pull/redis-stable/src/cluster.c:5102-5134 | ASK exactly for a leaving slot of which some key is not here, and not for MIGRATE; MOVED exactly to another owner, save for an importing slot with ASKING or MIGRATE and for read-only queries at its slave |
| `Resharding.SetSlotExactly` | redis_pull/redis-stable/src/cluster.c:3991-4065 | SETSLOT is accepted exactly by masters for known nodes, MIGRATING for own slots, IMPORTING for others, NODE unless it gives away a slot with keys; it changes that slot only, and what it gives away is no longer migrating, what it takes no longer importing |
| `Resharding.RoutingNode.SetSlotState` | redis_pull/redis-stable/src/cluster.c:3991-4065 | CLUSTER SETSLOT: all refusals, the three tables after acceptance, and exactly when a new configuration epoch is due |
| `SlotMigration.KeysStayInOnePlace` | redis_pull/redis-stable/src/cluster.c:4974-5135 | while a slot moves, no key exists on both nodes, and a command that is executed, with however many keys, has none of them at the other node |
| `SlotMigration.QueryServedExactly` | redis_pull/redis-stable/src/cluster.c:4974-5135 | in every reachable state with both nodes up, a client that sends any query on the slot to either node and follows at most two redirections is served if and only if the nodes do not disown the slot, A is not migrating it to a B that does not import it yet (or has all the keys), and it is not on its way with several keys of which neither node has all; and where it is served |
| `SlotMigration.HeldKeysServedExactly` | redis_pull/redis-stable/src/cluster.c:4974-5135 | if one node holds all its keys the query is served there, if and only if it is not so that each node takes the other for the owner; else it is never served |
| `SlotMigration.SplitKeysNotServed` | redis_pull/redis-stable/src/cluster.c:5102-5117 | if its keys are split between the nodes it is served by neither: ASK at A, TRYAGAIN at B |
| `SlotMigration.MoveIsRouted` | redis_pull/redis-stable/src/cluster.c:5096-5117 | MIGRATE at A and the RESTORE with ASKING at B are executed where they arrive |
| `SlotMigration.DisownedCanHappen` | redis_pull/redis-stable/src/cluster.c:3991-4065 | the exception is reachable: a run that assigns the slot at A before it does at B leaves the key at B and each node redirecting to the other |
| `SlotMigration.KeysNeverReturn` | redis_pull/redis-stable/src/cluster.c:5098-5103 | once A migrates the slot, a key absent from A never comes back to A |
| `SlotMigration.MigrationCanFinish` | redis_pull/redis-stable/src/cluster.c:3991-4065 | a migration can be carried out: import, migrate, move the key, assign at B, assign at A, with the slot and the key at B at the end |
| `SlotMigration.RoutesAtA` | redis_pull/redis-stable/src/cluster.c:5080-5135 | the routing of any query on the slot at the old owner, as an equation |
| `SlotMigration.RoutesAtB` | redis_pull/redis-stable/src/cluster.c:5080-5135 | and at the new one |
| `AofRewrite.RewriteIsExact` | redis_pull/redis-stable/src/aof.c:1355-1464 | for every interleaving of feeds, partial pipe writes, child reads and the stop handshake, the finished file is the snapshot followed by every byte fed since the fork, once and in order |
| `AofRewrite.StepKeeps` | redis_pull/redis-stable/src/aof.c:1177-1198 | every step keeps: child diff, pipe and blocks together are the bytes fed; an acknowledged stop means that no more is sent |
| `AofRewrite.AppendAdds` | redis_pull/redis-stable/src/aof.c:124-168 | appending adds exactly the bytes at the end and no block outgrows 10 MB |
| `AofRewrite.RewriteBuffer.AppendBytes` | redis_pull/redis-stable/src/aof.c:124-168 | the block loop does that |
| `AofRewrite.RewriteBuffer.SendDiff` | redis_pull/redis-stable/src/aof.c:95-121 | whatever each write takes, the bytes written and the bytes left are the bytes there were; nothing is sent once stopped; otherwise a first write that takes something sends something, and all is sent if no write refuses |
| `AofRewrite.RewriteBuffer.WriteAll` | redis_pull/redis-stable/src/aof.c:173-193 | writes the blocks in order and returns the count, or -1 exactly if not all was written; all is if every write takes what it is given |
| `AofCodec.LoadUndoesPrint` | redis_pull/redis-stable/src/aof.c:610-753 | loading the printed form of any non-empty list of commands with arbitrary byte arguments runs exactly that list if the server knows them all, and exits otherwise |
| `AofCodec.LoadRecoversTruncated` | redis_pull/redis-stable/src/aof.c:610-753 | loading any non-empty beginning with aof-load-truncated runs exactly the commands wholly inside and truncates right behind them, if the server knows those and a truncation that is needed succeeds, and exits otherwise |
| `AofCodec.DamageIsFatal` | redis_pull/redis-stable/src/aof.c:650-753 | a file that is damaged anywhere but by being cut (no star, no argument announced, or something else where an argument should begin) ends in the exit, whatever was loaded before and with or without aof-load-truncated |
| `AofCodec.ReadPrintedCommand` | redis_pull/redis-stable/src/aof.c:647-690 | one printed command is read back, whatever follows |
| `AofCodec.CutCommand` | redis_pull/redis-stable/src/aof.c:647-690 | a printed command cut anywhere is a short read, never a format error or another command |
| `AofCodec.CatGenericCommand` | redis_pull/redis-stable/src/aof.c:446-469 | the printer appends the encoding of the command |
| `AofCodec.ReadArguments` | redis_pull/redis-stable/src/aof.c:661-690 | the argument loop reads as specified, with its three kinds of failure |
| `AofCodec.LoadFile` | redis_pull/redis-stable/src/aof.c:610-753 | the whole loader, with empty file, unknown command, short read with and without truncation, failing truncation, and format error |
| `AofLog.LogConserves` | redis_pull/redis-stable/src/aof.c:284-413 | across every run of feeds, postponed flushes, failed and short writes, succeeded and failed truncations, file and buffer hold exactly the bytes fed and the recorded size is the file length; the file of a server that exited is a beginning of them |
| `AofLog.ReplayMeans` | redis_pull/redis-stable/src/aof.c:508-556 | replay from any selected database executes each command in the database it was meant for, translations included |
| `AofLog.RecoveryExecutesPrefix` | redis_pull/redis-stable/src/aof.c:284-413 | a server stopped at any moment leaves a file that, when a server that knows its commands loads it, executes a beginning of what was meant |
| `AofLog.FlushedLogExecutesAll` | redis_pull/redis-stable/src/aof.c:284-413 | once all is flushed, loading by such a server executes exactly what was meant |
| `AofLog.FlushConserves` | redis_pull/redis-stable/src/aof.c:284-413 | one flush, whatever the write and the truncation did, conserves the bytes |
| `AofLog.FlushExactly` | redis_pull/redis-stable/src/aof.c:284-413 | one flush, exactly: it waits only for a background fsync under everysec, unless forced, and less than two seconds; else it writes, and the buffer is empty afterwards, or the server exits under always, or what the file did not take is kept |
| `AofLog.Server.FlushBuffer` | redis_pull/redis-stable/src/aof.c:284-413 | flushAppendOnlyFile on the fields equals its specification |
| `AofLog.Server.FeedCommand` | redis_pull/redis-stable/src/aof.c:508-556 | feedAppendOnlyFile appends SELECT when the database changed, then the command or its translation, and the same bytes to the rewrite buffer while a child rewrites |
| `AofLog.Server.CatExpireAt` | redis_pull/redis-stable/src/aof.c:478-506 | the PEXPIREAT that replaces an expiry: now + 1000 t for EXPIRE and SETEX, now + t for PEXPIRE and PSETEX, 1000 t for EXPIREAT |
| `Keyspace.CallRecovers` | redis_pull/redis-stable/src/aof.c:478-545 | commands given a meaning of their own on keys, values and deadlines: replaying what a call fed, at any later time, sets every key, value and deadline as the call did, except that a relative time counts from the feed and one that SET takes from the replay |
| `Keyspace.CallRecoversExactly` | redis_pull/redis-stable/src/db.c:943-987 | so the replay restores exactly what the call did if and only if the call set no deadline, or one that was not put off |
| `Keyspace.TimedSetDrifts` | redis_pull/redis-stable/src/t_string.c:67-139 | SET with EX or PX is logged as it is: its replay keeps the key longer, by just the time between |
| `Recovery.RestartRestoresKeys` | redis_pull/redis-stable/src/aof.c:284-413 | once everything is flushed, a restart restores exactly the keys, values and deadlines, whenever it is, for every run of calls, flushes and rewrites in which no SET gave a relative time and the clock did not tick between a relative expiry and its feed |
| `Recovery.CrashRestoresBeginning` | redis_pull/redis-stable/src/aof.c:284-413 | whenever the server stops, whatever became of its writes, a restart restores the keys, values and deadlines after a beginning of its calls, or that and the value of one SETEX without its deadline |
| `Bitfield.GetUnsigned` | redis_pull/redis-stable/src/bitops.c:222-234 | the number whose binary digits are the bits of the field |
| `Bitfield.SetUnsigned` | redis_pull/redis-stable/src/bitops.c:202-215 | the field becomes the low bits of the value and every other bit of the buffer stays |
| `Bitfield.ReplacedValue` | redis_pull/redis-stable/src/bitops.c:202-234 | get after set is the value modulo 2^bits |
| `Bitfield.GetSigned` | redis_pull/redis-stable/src/bitops.c:236-256 | two's complement reading of the field |
| `Bitfield.FittingReadBack` | redis_pull/redis-stable/src/bitops.c:217-256 | a number that fits, signed or not, is read back as stored |
| `Bitfield.CheckUnsignedExact` | redis_pull/redis-stable/src/bitops.c:281-316 | 0 is returned exactly if the exact sum fits, else 1 above and -1 below, or always 1 with WRAP; what is stored is the sum, its congruent value, the nearest bound, or nothing |
| `Bitfield.CheckSignedExact` | redis_pull/redis-stable/src/bitops.c:318-368 | the same for signed fields |
| `Bitfield.SignedSetExactly` | redis_pull/redis-stable/src/bitops.c:318-368 | for a signed SET this holds if and only if the mode is not SAT or max - value does not overflow; otherwise the greatest value is stored for a number below the least |
| `Bitfield.SaturatingSetStoresMaximum` | redis_pull/redis-stable/src/bitops.c:326-335 | a concrete case: SET i8 of the least 64-bit number with SAT stores 127 |
| `Bitfield.CheckedValueStores` | redis_pull/redis-stable/src/bitops.c:1021-1027 | what SET stores, for both signs and all modes, with the exact condition |
| `Bitfield.IncrBy` | redis_pull/redis-stable/src/bitops.c:1010-1069 | INCRBY: the field takes the exact sum, its in-range congruent value, the clamp or nothing; the reply is that value or nil; no other bit changes |
| `Bitfield.SetField` | redis_pull/redis-stable/src/bitops.c:1010-1069 | SET: the field takes the checked value, the reply is the old value, no other bit changes |
| `Bitfield.GetPadded` | redis_pull/redis-stable/src/bitops.c:1072-1103 | GET through the nine-byte copy reads the string as if zeros followed it |
| `Bitpos.FindBit` | redis_pull/redis-stable/src/bitops.c:101-179 | for every string, address and bit: the least position of that bit; -1 for a one in all zeros; 8*count for a zero in all ones |
| `Bitpos.ScanWord` | redis_pull/redis-stable/src/bitops.c:160-178 | the last loop always finds its bit, so the panic behind it is unreachable |
| `Bitpos.SkipWords` | redis_pull/redis-stable/src/bitops.c:126-134 | skips words while they are uniform; comparing a word compares its eight bytes |
| `Bitpos.LoadWord` | redis_pull/redis-stable/src/bitops.c:143-152 | loads up to eight bytes, first one most significant, zero padded |
| `Bitpos.FirstIsUnique` | redis_pull/redis-stable/src/bitops.c:95-100 | the specification of the search determines its answer |
| `Popcount.CountOnes` | redis_pull/redis-stable/src/bitops.c:40-92 | for every string and address: the number of one bits, counted bit by bit |
| `Popcount.CountBlock` | redis_pull/redis-stable/src/bitops.c:54-87 | the 28-byte step adds exactly the ones of the 28 bytes |
| `Popcount.LaneCounts` | redis_pull/redis-stable/src/bitops.c:66-85 | the mask-and-add steps put into every byte of a word the number of ones of that byte, for words of any number of bytes |
| `Popcount.Gather` | redis_pull/redis-stable/src/bitops.c:79-86 | multiplying the sum of seven words by 0x01010101 gathers at most 224 in the top byte, so nothing is carried out |
| `Popcount.TableCounts` | redis_pull/redis-stable/src/bitops.c:44-44 | every entry of the table is the number of ones of its index |
| `Crc64.TableGenerated` | redis_pull/redis-stable/src/crc64.c:42-171 | all 256 entries are those that eight steps of the shift register with the polynomial generate |
| `Crc64.TableDistinct` | redis_pull/redis-stable/src/crc64.c:42-171 | no two entries share their top byte |
| `Crc64.StepInjective` | redis_pull/redis-stable/src/crc64.c:173-181 | for a fixed byte the step is injective in the state |
| `Crc64.BurstDetermined` | redis_pull/redis-stable/src/crc64.c:173-181 | from one state, two strings of k <= 8 bytes whose checksums agree in their top k bytes are equal |
| `Crc64.CrcInjective` | redis_pull/redis-stable/src/crc64.c:173-181 | different states stay different whatever bytes follow |
| `Crc64.CheckValue` | redis_pull/redis-stable/src/crc64.c:1-11 | the checksum of "123456789" is the check value of the variant |
| `Crc64.ComputeCrc` | redis_pull/redis-stable/src/crc64.c:173-181 | the loop computes the checksum |
| `DumpPayload.CreatedVerifies` | redis_pull/redis-stable/src/cluster.c:4396-4446 | every payload that is created verifies |
| `DumpPayload.VersionDecides` | redis_pull/redis-stable/src/cluster.c:4429-4446 | a payload of any version with the right checksum verifies if and only if its version is not newer than 7 |
| `DumpPayload.ByteChangeFails` | redis_pull/redis-stable/src/cluster.c:4429-4446 | changing any single byte of a verifying payload makes it fail |
| `DumpPayload.BurstFails` | redis_pull/redis-stable/src/cluster.c:4429-4446 | so does any change confined to eight consecutive bytes, in value, version, checksum or across them |
| `DumpPayload.CreatePayload` | redis_pull/redis-stable/src/cluster.c:4396-4423 | appends version 7 and the little-endian checksum of all before it |
| `DumpPayload.VerifyPayload` | redis_pull/redis-stable/src/cluster.c:4429-4446 | accepts exactly payloads of at least ten bytes, of a version up to 7, with the right checksum |
| `KclProtocol.ProtocolObeyed` | amazon-kinesis-client-nodejs/lib/kcl/kcl_manager.js:37-149 | in every run of actions, user callbacks in any order and number, failed writes and end of input: each delivery, status, checkpoint and response happens only where the protocol, said without the state machine, allows it |
| `KclProtocol.ClientIsProtocol` | amazon-kinesis-client-nodejs/lib/kcl/kcl_manager.js:37-149 | and the converse: in every run the client accepts an action, a status, a checkpoint or a response exactly when the protocol lets that entry follow the log so far, ends exactly when shutdown is acknowledged, and breaks off otherwise; its log is what the protocol alone makes of the events |
| `KclProtocol.CheckpointsBalance` | amazon-kinesis-client-nodejs/lib/kcl/kcl_manager.js:201-206 | checkpoints sent less responses accepted is 1 exactly in the two checkpointing states and 0 in the others but Error; responses go to the callbacks of their own requests in order; statuses are a beginning, by kind, of the actions delivered |
| `KclProtocol.CallbackStored` | amazon-kinesis-client-nodejs/lib/kcl/checkpointer.js:48-73 | the stored callback is that of the pending checkpoint, and null when none is pending |
| `KclProtocol.CallbackNeverNull` | amazon-kinesis-client-nodejs/lib/kcl/checkpointer.js:48-73 | it is not null while a checkpoint is pending if the user always passes one |
| `KclProtocol.CallbackMayBeNull` | amazon-kinesis-client-nodejs/lib/kcl/checkpointer.js:48-60 | and it is null after a call without one |
| `KclProtocol.RecordsInBetween` | amazon-kinesis-client-nodejs/lib/kcl/kcl_manager.js:241-285 | records are delivered only after initialize was acknowledged and never after shutdown began |
| `KclProtocol.NothingAfterError` | amazon-kinesis-client-nodejs/lib/kcl/kcl_manager.js:334-341 | Error is absorbing: whatever follows, nothing more is sent or delivered |
| `KclProtocol.ExecKeeps` | amazon-kinesis-client-nodejs/lib/kcl/kcl_manager.js:37-149 | every event keeps the invariant that ties the state to the log |
| `KclManager.Manager.HandleStateInput` | amazon-kinesis-client-nodejs/lib/kcl/kcl_manager.js:334-341 | the handlers of all nine states: the transition table, and clean-up with an exception exactly on a refused input |
| `KclManager.Manager.OnRecordProcessorAction` | amazon-kinesis-client-nodejs/lib/kcl/kcl_manager.js:241-281 | an action moves the machine first and reaches the record processor only if that succeeded |
| `KclManager.Manager.RecordProcessorCallback` | amazon-kinesis-client-nodejs/lib/kcl/kcl_manager.js:292-297 | a status is sent only if the machine accepts the finish |
| `KclManager.Checkpointer.Checkpoint` | amazon-kinesis-client-nodejs/lib/kcl/checkpointer.js:48-60 | turned down while a callback is stored; else stored and sent if the machine accepts |
| `KclManager.Checkpointer.OnResponse` | amazon-kinesis-client-nodejs/lib/kcl/checkpointer.js:69-73 | the stored callback is cleared and then called; a null one throws |
| `KclManager.Manager.OnCheckpointAction` | amazon-kinesis-client-nodejs/lib/kcl/kcl_manager.js:304-310 | the response reaches the stored callback, which is cleared first |
| `KclManager.Manager.OnActionEnd` | amazon-kinesis-client-nodejs/lib/kcl/kcl_manager.js:230-234 | the end of the input is an error in every state but End, and stops listening |

## Left out

- Chains of the hash table are sequences: pointer aliasing of entries, allocation and the free
  callbacks of keys and values are not captured.
- The hash is any function to the naturals; the truncation of bucket indexes to 32 bits is not modelled.
- DictTable.ComputeNextPower: the cap at LONG_MAX of `_dictNextPower` is left out, as sizes are unbounded.
- `dictScan` takes the cursor's word size as a parameter not below the table sizes; the mask arithmetic
  of dict.c:896-921 is stated on the bits it selects.
- Unsafe iterators with fingerprints, explicit `dictRehash` and deletion of the entry saved as next while
  a safe iterator is live, `dictGetRandomKey`, `dictGetSomeKeys`, `dictRehashMilliseconds`: the first three
  are outside what the safe iterator promises, the others would add only easier members.
- Cluster restarts, configuration persistence, CLUSTER FAILOVER TAKEOVER, BUMPEPOCH as a consensus
  step, changing sets of voters, replica migration, gossip and failure detection: elections are
  stated for a fixed set of voting masters.
- ElectionNode.Candidate.HandleFailover: on winning, the slots taken over, the broadcasts and the reset
  of the manual failover are left out; taking over the slots is `ClusterView.ReplaceMaster`.
- SlotTable.ClusterView.ReplaceMaster: the change of role, the state update, the configuration file and
  the broadcast are left out.
- SlotTable.ClusterView.UpdateSlots: the change of role and the deletion of the keys of dirty slots are
  only reported as due, and so are the UPDATE messages that follow a claim.
- Resharding.RoutingNode.SetSlotState: taking over an importing slot only reports that a new
  configuration epoch is due; that the bump keeps epochs apart is not part of this model.
- Resharding is proved for one slot and one migration between two masters, MIGRATE being atomic; SETSLOT STABLE during a
  migration and clients that send ASKING without having been told to are excluded, as they break it.
- `AofRewrite` does not model failing writes of the child or of the parent, after which the rewrite is
  discarded, nor the serialization of the data set, which is an arbitrary snapshot. The child's last
  read is taken to drain the pipe.
- MULTI blocks, Lua and renamed commands in the append-only file. `Keyspace` gives EXPIRE, PEXPIRE,
  EXPIREAT, PEXPIREAT, SETEX, PSETEX, SET and DEL their effect on a master; all other commands are one
  arbitrary function that does not look at the clock, so RESTORE with a time to live is not covered. Keys
  that expire are deleted by the DEL that is then fed, which is a call like others. A length that strtol reads as negative, or beyond 64 bits, is taken
  as an unrecoverable error.
- Expire times are taken to fit 64 bits, beyond which the source overflows.
- fsync, latency monitoring and the log messages.
- 64-bit signed bitfields, whose masks shift by the full width, and several operations in one BITFIELD
  command; the check functions are stated for widths up to 63, signed overflow of C taken as
  wrap-around where the source relies on it.
- BITOP, BITCOUNT and BITPOS argument handling, GETBIT and SETBIT.
- The serialization that a DUMP payload wraps; RESTORE and MIGRATE beyond the check.
- The Uninitialized state of the Kinesis client, which defers inputs until `run()`, its JSON lines and
  its readline interface. Handlers call user code only in tail position, so re-entrant calls are
  further events; which callbacks the user holds is not restricted.
- The remaining Redis sources (geo, intset, skip lists, event loop, background I/O, replication) and
  the application scripts, which are network clients or simple grouping and filtering.
