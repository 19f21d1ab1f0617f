# uDepot-ng: a verified model

uDepot-ng is a key-value store that writes records to a log of segments and finds them through a
directory of hopscotch hash tables. This project models its protocols in Dafny and proves what
they keep, over every run and every interleaving of their steps.

* `LogProtocol` is the store as a state machine: puts and deletes that probe, allocate, write and
  commit; segments staged, sealed, freed and reused; garbage collection that relocates records and
  drops tombstones; power loss and recovery. `LogProofs` shows that every step keeps one
  invariant, `LogTheorems` what it means over whole runs, `LogRefinement` that the store behaves
  as a map, `LogWitness` that puts can commit, and `ReadModifyWrite` that version-checked updates
  on top of it lose nothing. A record is ranked once it was held against its key's entry: installed
  by a commit or a relocation, written again because the entry was not older, or found by recovery.
* `LogHistory` follows every record, and every copy of it, back to the operation that wrote it.
  `LogCrash` says from that what a crash can show of a key, and `LogStray` has the run in which it
  undoes an acknowledged operation.
* `Recovery` is the crash-recovery walk as it is run, segment by segment and grain by grain.
  `LogLayout` shows how records lie on the device in every run, and `LogDevice` that the walk over
  such a device ends in the very state the crash step of `LogProtocol` takes.
* `HashEntry`, `HashTables`, `Stripes` and `LockFreeScan` are one hash table: packed entries,
  insertion with displacement, stripe locks, and readers that take none.
* `Directory` and `GrowProtocol` double the tables: the copy itself, and the freeze, grace period
  and publication around it. `ResumedScan` is a reader caught by it in the middle of a scan.
* `Rcu` is the grace period, one load or store at a time (`Rcu.GracePeriod` is what the other
  protocols wait for); `RcuCallbacks` what is deferred past it.
* `IndexFlush`, `IndexCrash` and `RestoreCounts` persist the directory at a clean shutdown and
  restore it, with power lost at any write. `DirectoryIndex` shows that the tables they carry hold
  the directory of `LogProtocol`, in every state of every run and after every clean restart.
* `Versions` packs a record's version into 64 bits.
* `Allocator` and `Capacity` are the grain allocator and the capacity counter.
* `Memcache`, `MemcacheServer` and `MemcacheRoundTrip` frame memcache requests.

Every place where the store suspends is an interleaving point. What it does under a key's stripe
locks is one step, except a relocation, which holds them across its copy. Memory is sequentially
consistent, the device persists writes in the order they are issued, and a checksum is a predicate
that says whether a grain starts a record of its segment's present life. Commits, relocations,
clean closes and crashes are steps of the same machine, so a run may be closed or crash, and be
opened again, any number of times.

Three comments in the source claim more than the code gives:

* `src/udepot/store.cc:1486-1490` says that the stripes held across a relocation keep its copy from
  winning over a later put or delete of the key after a crash. They do if the relocation succeeds.
  If it fails once the copy has reached the device (`src/udepot/store.cc:1565-1569`; a failed
  write may have written everything), the copy stays there with a newer timestamp than the entry
  it was made from. A put or delete of the key acknowledged after that, in a segment older than the
  copy's, is undone by a crash: the key has its earlier value again
  (`LogStray.StrayUndoesAnOperation`). This is the only way: a crash undoes an acknowledged
  operation exactly if the newest record of the key is such a stray copy, of an operation that is
  not the key's last (`LogCrash.RollsBackExactly`), and never in a run in which no relocation failed
  with its copy on the device (`LogCrash.NoCrashRollsBack`). In every other case the key keeps its
  value, or shows the record of an operation that was never acknowledged
  (`LogCrash.CrashKeepsValues`).
* `src/udepot/hash_table.h:38-40` says that a reader scanning upward always sees an entry. One scan
  does (`LockFreeScan.ScanMeetsEveryEntry`). A `get` that resumes its scan at a saved offset after
  a grow has published new tables can miss an entry that is there throughout: in tables of every
  size, after three inserts and a removal (`ResumedScan.ResumedScanMissesAnEntry`). It reads an
  entry exactly if, in the frozen table, the entries of lower slots that go to the same new table
  fill every slot of the bucket below that offset, which can be counted before the copy
  (`ResumedScan.ResumedScanReads`, `ResumedScan.CopyFills`).
* `src/udepot/directory.cc:140` says that the copy fits because a split halves the load. It fits
  because slots are copied in ascending order (`Directory.CopyFits`), whatever the load.

The server does not skip the data block of a storage command line it refuses. Of the protocol's six
storage commands, what follows the line is framed as commands exactly if the command is `cas`,
which the server recognises but does not handle, or the line has fewer than five words, a key of
more than 250 bytes, a number that is not all digits or out of range (such as a negative expiry
time), or announces more than 1 MiB (`MemcacheRoundTrip.RefusedDataIsReadOn`,
`MemcacheRoundTrip.CasDataIsReadOn`, `MemcacheRoundTrip.NegativeTimeIsRefused`).

A capacity request can be refused although it fits, while another one that did not fit has yet to
take its grains off the counter (`Capacity.RefusalCanBeSpurious`); with none in that state a
refusal is exact (`Capacity.RefusalIsExact`).

## Model

| member | source | states |
|---|---|---|
| `LogProofs.NextKeeps` | src/udepot/store.cc:1480-1797 | every step of puts, deletes, GC, segment reuse, clean reopening and crashes keeps the store's invariant: one entry per key, each at least as new as every ranked record of its key, probes that stay true, counts explained by a ledger |
| `LogProofs.CommitStepKeeps` | src/udepot/store.cc:1756-1797 | a successful `commit_put` or `commit_del` keeps the whole invariant |
| `LogProofs.PutJustified` | src/udepot/store.cc:1742-1797 | when `commit_put` decides to install, the entry it replaces is the key's only one and older than the new record, and with no entry to replace the key has none |
| `LogProofs.DelJustified` | src/udepot/store.cc:2131-2156 | the same of `commit_del`, whose tombstone is newer than the value it deletes |
| `LogProofs.MatchIsTheEntry` | src/udepot/store.cc:1716-1753 | once every tag match was verified in this read section, the match is the key's entry, and without a match the key has no entry |
| `LogProofs.DropBuries` | src/udepot/store.cc:1502-1512 | after GC drops a tombstone, every ranked record of the key that is left lies in the oldest recoverable segment at or below that tombstone |
| `LogProofs.GcLockKeeps` | src/udepot/store.cc:1514-1551 | starting a relocation in a segment newer than the victim keeps the invariant |
| `LogProofs.GcRepointKeeps` | src/udepot/store.cc:1575-1581 | repointing an entry to its copy keeps it the newest ranked record of its key and the counts exact |
| `LogProofs.StageKeeps` | src/udepot/store.cc:1660-1687 | reusing a free segment under a new timestamp overwrites no record that an entry, a probe or a tombstone still needs |
| `LogProofs.StageFailKeeps` | src/udepot/store.cc:1676-1686 | a segment whose metadata write failed keeps its previous life and what that needs |
| `LogProofs.Unreferenced` | src/udepot/store.cc:1640-1657 | nothing refers to a free segment: no entry, no allocation, no debt, no open section |
| `LogProofs.CrashKeeps` | src/udepot/store.cc:372-411 | the state recovery builds, directory, counts and next timestamp, meets the invariant again |
| `LogProofs.ReopenKeeps` | src/udepot/store.cc:953-974 | the state a clean close and the restored index give, counts and phases rebuilt, meets the invariant again |
| `LogProofs.RewriteKeeps` | src/udepot/store.cc:1935-1945 | giving up a record because the key's entry is not older, to write it again, keeps the invariant with that record ranked |
| `LogTheorems.EntriesSurviveCrashes` | src/udepot/store.cc:252-261 | after a crash of any run a key with an entry keeps that record or shows a newer one that was never ranked, and a key without one stays absent or shows a tombstone or a record that was never ranked; which those are is said by the rows of `LogCrash` |
| `LogTheorems.CrashIsSafe` | src/udepot/store.cc:252-261 | the same for one crash from any state that meets the invariant |
| `LogHistory.RunTraced` | src/udepot/store.cc:1480-1583 | in every state of every run each record on the device is one its operation began with, entries are of acknowledged operations, and a record that is neither ranked, nor a copy under way, nor a stray copy is of an operation never acknowledged |
| `LogHistory.NextTraced` | src/udepot/store.cc:1555-1581 | every step keeps that account of the records, a failed relocation making a stray of a copy it has written |
| `LogCrash.CrashWinner` | src/udepot/store.cc:1486-1490 | whatever a crash of any run shows of a key is its entry, a tombstone of a key without one, the copy under way of its entry with the same record, the record of an operation never acknowledged, or a stray copy |
| `LogCrash.RollsBackExactly` | src/udepot/store.cc:1565-1569 | a crash brings back an acknowledged operation that a later one had undone exactly if the newest record of the key is a stray copy of an operation that is not the key's last, and the key then has that operation's value |
| `LogCrash.CrashKeepsValues` | src/udepot/store.cc:218-265 | a crash keeps the value of every key whose newest record is neither of an unacknowledged operation nor such a stray copy |
| `LogCrash.NoCrashRollsBack` | src/udepot/store.cc:1486-1490 | in a run in which no relocation failed with its copy on the device, no crash undoes an acknowledged operation: every key keeps its value or shows the record of an unacknowledged one |
| `LogStray.StrayUndoesAnOperation` | src/udepot/store.cc:1565-1569 | a run: a put, a relocation of it that fails after writing its copy, an acknowledged put or delete of the key in a segment older than the copy's, a crash; the key has its first value again |
| `LogTheorems.CrashResurrectsNothing` | src/udepot/store.cc:1502-1512 | a ranked record of a key without an entry is covered by its tombstone, so recovery never shows it |
| `LogTheorems.DirectoryIsNewest` | src/udepot/store.cc:1690-1697 | in every state of every run a key has at most one entry, at least as new by (segment timestamp, grain) as every ranked record of it still on the device |
| `LogTheorems.LaterWriteIsNewer` | src/udepot/store.cc:1593-1600 | after a tombstone is dropped, any later write of the key lands in a segment newer than what is left of the key |
| `LogTheorems.FreedSegmentsAreEmpty` | extern/salsa/src/sto-ctlr/scm-seg-alloc.c:186 | every segment handed back to the free queues has a valid count of zero |
| `LogTheorems.DrainedIsEmpty` | src/udepot/store.cc:1640-1649 | once the grace period that ends a collection is over, no entry, allocation or unpaid invalidation counts in the victim |
| `LogTheorems.ValidNeverNegative` | src/udepot/store.cc:1466-1477 | the valid counts of segments never go below zero |
| `LogRefinement.StoreRefinesMap` | src/udepot/store.cc:1861-1936 | the store is a map: a committed put or delete changes its key alone, every other step but a crash changes no key's value |
| `LogRefinement.PutRefines` | src/udepot/store.cc:1756-1797 | a put that returns 0 makes its value the key's and leaves every other key as it was |
| `LogRefinement.DelRefines` | src/udepot/store.cc:2131-2156 | a delete that returns 0 makes the key absent and leaves every other key as it was |
| `LogRefinement.RepointRefines` | src/udepot/store.cc:1514-1581 | a relocation changes no key's value |
| `LogRefinement.DropRefines` | src/udepot/store.cc:1502-1512 | dropping a tombstone changes no key's value |
| `LogRefinement.QuietRefines` | src/udepot/store.cc:1652-1687 | staging, sealing, draining, freeing and reusing segments change no key's value |
| `LogRefinement.SectionReadsIntact` | src/udepot/store.cc:1640-1657 | whatever the directory held at any moment of an open read section stays readable, with the same record, until the section ends |
| `LogRefinement.GetReadsAValueOfItsTime` | src/udepot/store.cc:2003-2083 | the record a get reads at a location its lookup gave it was the key's value, or its tombstone the key's absence, at some moment since its read section began |
| `LogRefinement.ViewWasIndexed` | src/udepot/store.cc:2010-2018 | every location a section can be given was in the directory at some moment of it |
| `LogRefinement.VersionsNeverRepeat` | src/udepot/store.cc:1699-1713 | within one open store two records of equal version are the same record, across any reuse of segments |
| `LogRefinement.CheckedPutReplacesWhatWasRead` | src/udepot/store.cc:1776-1780 | a put that succeeds on condition of a version replaces exactly the value its client read with that version |
| `ReadModifyWrite.CheckedWrite` | src/net/memcache.cc:372-434 | the value an acknowledged read-modify-write replaces is the one it read, whoever wrote or moved the key in between |
| `ReadModifyWrite.IncrementsLoseNothing` | src/net/memcache.cc:372-434 | under any interleaving of `incr` clients, GC, other keys' writes and clean restarts the number a value starts with is the initial one plus every acknowledged delta modulo 2^64 |
| `ReadModifyWrite.IncrementAdds` | src/net/memcache.cc:372-434 | one acknowledged `incr` adds its delta to the number that is there when it commits |
| `ReadModifyWrite.NumberReadsBack` | src/net/memcache.cc:401-422 | the digits written for a number are read as that number by the next `incr` |
| `ReadModifyWrite.UpdatesCompose` | src/net/memcache.cc:227-276 | `append`, `prepend`, `incr` and `decr` compose: the value is the initial one with every acknowledged update applied once, in order |
| `LogWitness.PutsCanCommit` | src/udepot/store.cc:1861-1936 | a run in which a put of any record that fits is acknowledged and read back, so the theorems about runs are not empty |
| `LogWitness.DroppedTombstonesCanMeetACrash` | src/udepot/store.cc:1502-1512 | a run that puts and deletes a key, drops its tombstone in GC, frees the segment and crashes: both records are still on the device and the key stays absent |
| `Versions.PackedOrders` | src/udepot/store.cc:1704-1713 | packed versions order as (timestamp, grain) pairs do, so no two pairs share one |
| `Versions.PackedIsAVersion` | src/udepot/store.cc:1710-1712 | under the timestamp bound the store asserts, a version fits 64 bits and is never the value for "any version" |
| `Log.NewerTotal` | src/udepot/store.cc:1690-1697 | of two records in segments of distinct timestamps exactly one is the newer |
| `Recovery.CrashRecovery` | src/udepot/store.cc:288-415 | recovery indexes exactly the newest record of each key in the log, its tallies are the grains of those records, and the store opens exactly if they fit the user capacity |
| `Recovery.RecoverSegment` | src/udepot/store.cc:335-369 | the walk of a segment indexes every record of its present life and nothing else |
| `Recovery.RecoverRecord` | src/udepot/store.cc:218-265 | one more record leaves the directory the newest of each key met and the tallies exact; a tally is never taken below zero |
| `Recovery.BoundaryDecides` | src/udepot/store.cc:337-368 | at a grain the walk can reach, what passes for a record that fits is a record, and the next grain is again one it can reach |
| `Recovery.ReplacedIsTallied` | src/udepot/store.cc:253-260 | the size taken off for a replaced record, from its entry or its key's tombstone, is the size that was counted |
| `Recovery.RecoveryIsDetermined` | src/udepot/store.cc:305-370 | only one directory holds the newest record of each key, so the order of segments is immaterial |
| `LogLayout.RunLaid` | extern/salsa/src/frontends/usalsa++/allocator.c:47-64 | in every state of every run records and allocations of a segment lie apart, end before its metadata, and in an open segment before its cursor; tombstones have the size of their keys |
| `LogLayout.NextLaid` | src/udepot/store.cc:1861-1936 | every step keeps that layout |
| `LogDevice.RecoverDevice` | src/udepot/store.cc:288-415 | recovery run over the device a reachable store leaves yields exactly the directory, valid counts and timestamp of the model's crash step |
| `LogDevice.ImageIsReadable` | src/udepot/store.cc:335-369 | the device of a reachable store is one whose records the walk can tell apart |
| `LogDevice.CrashIsDetermined` | src/udepot/store.cc:305-370 | a crash has one outcome |
| `HashEntry.PackRoundTrip` | src/udepot/hash_entry.h:51-79 | offset, tag, size and address come back out of the 64 bits, and the empty entry is all ones |
| `HashEntry.UnpackRoundTrip` | src/udepot/hash_entry.h:62-76 | every 64-bit word is the packing of the fields read from it |
| `HashEntry.Make` | src/udepot/hash_entry.h:51-60 | fields are cut to their width, and fields in range stay as they are |
| `HashTables.HashTable.InsertLocked` | src/udepot/hash_table.cc:107-122 | on 0 the table gains exactly the new entry and on -1 nothing, though entries moved; all stay within 32 slots of their home, slots outside the window are untouched, and -1 means no free slot could be brought near |
| `HashTables.HashTable.BringNear` | src/udepot/hash_table.cc:114-116 | the free slot strictly descends to the bucket's neighborhood without passing the bucket, or no displacement is possible |
| `HashTables.HashTable.DisplaceToward` | src/udepot/hash_table.cc:166-193 | one entry moves up to the free slot, keeping its home and the table's contents; if none does, every candidate would leave its neighborhood |
| `HashTables.HashTable.FindFreeSlot` | src/udepot/hash_table.cc:157-164 | the first free slot of the search window, or proof that the window is full |
| `HashTables.HashTable.Lookup` | src/udepot/hash_table.cc:64-78 | the first matching entry from an offset on, or none matches |
| `HashTables.HashTable.FindPba` | src/udepot/hash_table.cc:124-137 | the slot of the entry for a hash and address, or there is none |
| `HashTables.HashTable.UpdateLocked` | src/udepot/hash_table.cc:139-148 | exactly that entry is replaced in place, and it fails only if the table holds no such entry |
| `HashTables.HashTable.RemoveLocked` | src/udepot/hash_table.cc:150-155 | exactly that entry goes, and it fails only if the table holds no such entry |
| `HashTables.HashTable.constructor` | src/udepot/hash_table.cc:37-60 | a new table is empty |
| `HashTables.MoveKeepsView` | src/udepot/hash_table.cc:183-189 | a displacement changes neither the contents nor any entry's home |
| `HashTables.AbsentFromView` | src/udepot/hash_table.cc:124-137 | what a scan of the neighborhood does not find is nowhere in the table |
| `Stripes.SizeStripes` | src/udepot/hash_table.cc:47-54 | stripes cover the table, and each is as long as a write's reach unless it is the only one |
| `Stripes.AtMostTwoLocks` | src/udepot/hash_table.cc:80-89 | for every table size and bucket a write takes one stripe or two adjacent ones, in ascending order |
| `Stripes.TouchedIsLocked` | src/udepot/hash_table.cc:14-19 | every slot a write can touch lies in a stripe it holds |
| `Stripes.ConflictsShareALock` | src/udepot/hash_table.cc:80-89 | two writes that can touch a common slot hold a common stripe |
| `LockFreeScan.ScanMeetsEveryEntry` | src/udepot/hash_table.cc:64-78 | a lock-free upward scan of one bucket meets every entry that is there when it starts and is neither updated nor removed, however displacements interleave |
| `LockFreeScan.ScanMeetsAVersion` | src/udepot/hash_table.cc:64-78 | of an entry that is only moved or updated in place while it scans, such as that of a key being put, it meets at least one version |
| `LockFreeScan.StepKeepsAhead` | src/udepot/hash_table.cc:183-189 | an entry not yet met stays at or above the reader: it is stored at the higher slot before it is cleared from the lower |
| `LockFreeScan.StepKeepsSane` | src/udepot/hash_table.cc:166-193 | stripe locks keep each half-done displacement to the writer that began it |
| `Directory.GrowKeepsMeaning` | src/udepot/directory.cc:129-146 | for every hash the entries, deleted included, that a lookup can find after a grow are those it could find before, each as often |
| `Directory.CopyAll` | src/udepot/directory.cc:129-146 | the copy of all tables never fails, and each new table is its parent's entries of the tags it takes |
| `Directory.CopyTable` | src/udepot/directory.cc:130-145 | copying one table fills its two successors and touches no other |
| `Directory.CopySlot` | src/udepot/directory.cc:131-144 | rehashing from tag and home bucket alone finds the entry's table and bucket, and the insert succeeds without displacement |
| `Directory.CopyFits` | src/udepot/directory.cc:128-146 | slots above the one being copied are still free in the new tables, and every entry copied is well placed |
| `Directory.LandsNoHigher` | src/udepot/directory.cc:140-143 | each entry lands at its old slot or lower, within its neighborhood |
| `Directory.CopyKeepsItems` | src/udepot/directory.cc:129-146 | the table that takes a tag ends up with exactly the old table's entries of that tag |
| `Directory.StoredHashIs` | src/udepot/directory.cc:133-139 | tag and home bucket rebuild enough of the hash for both the bucket and the tag |
| `Directory.TableIndexIsShare` | src/udepot/directory.h:65-69 | each table takes an even share of consecutive tags |
| `Directory.IndexInBounds` | src/udepot/directory.h:65-69 | a tag's table exists |
| `Directory.CopySelects` | src/udepot/directory.cc:141-142 | after the copy entries lie where their tags select, as the next grow relies on |
| `Directory.SelectedStays` | src/udepot/directory.cc:67-84 | a table that gains only an item of a tag it takes still holds no others, however entries moved |
| `Directory.InsertSelected` | src/udepot/directory.cc:67-71 | inserting a hash a table takes keeps its entries where their tags select, between grows |
| `Directory.UpdateSelected` | src/udepot/directory.cc:73-78 | so does updating one |
| `Directory.RemoveSelected` | src/udepot/directory.cc:80-84 | and removing one |
| `ResumedScan.ResumedScanReads` | src/udepot/store.cc:2013-2018 | a scan resumed at an offset after a grow reads an entry exactly if, in the frozen table, the entries of lower slots that go to the same new table fill every slot of its bucket below that offset |
| `ResumedScan.CopyFills` | src/udepot/directory.cc:129-146 | which slots the copy takes, from the old table alone: a slot is taken exactly if, for some slot at or below it, more homes of copied entries lie from there to it than would fit below it |
| `ResumedScan.ResumedScanMissesAnEntry` | src/udepot/store.cc:2013-2018 | in tables of every size from two buckets, a scan that stopped at offset 1 and resumes at 2 over the copy misses an entry that old table and copy both hold |
| `ResumedScan.MakeGapped` | src/udepot/hash_table.cc:107-155 | three inserts of one hash and a removal of the first make the table of that example |
| `GrowProtocol.NoWriteIsLost` | src/udepot/directory.cc:118-159 | in every state of every run the current tables hold exactly what the acknowledged writes amount to |
| `GrowProtocol.WritesGoToTheCurrentSnapshot` | src/udepot/directory.cc:45-55 | no write goes to a snapshot that is being or has been copied |
| `GrowProtocol.NobodyUsesAFreedSnapshot` | src/udepot/directory.cc:154-159 | no operation is in a snapshot that has been freed |
| `Rcu.GracePeriod` | src/udepot/rcu.cc:242-272 | every read section open when `synchronize()` is called is over when it returns: the guard with which `LogProtocol` frees segments, `GrowProtocol` copies and retires tables and `RcuCallbacks` runs callbacks |
| `Rcu.SynchronizeWaits` | src/udepot/rcu.cc:242-272 | when `synchronize()` returns, no read section that had begun at the call is open, in any interleaving |
| `Rcu.NextKeeps` | src/udepot/rcu.cc:168-240 | claiming, reusing and releasing slots, split load and store bumps, unlocks on another thread's slot and index flips keep the counts explained by the open sections |
| `Rcu.AgreementMeansDrained` | src/udepot/rcu.cc:242-254 | unlock sums read before lock sums, slot by slot while readers run, agree only if no section that had begun by the barrier is still open on that side |
| `RcuCallbacks.CallbackWaits` | src/udepot/rcu.cc:135-166 | a callback runs only when no read section that was open when it was queued is open any more, though one grace period serves a whole batch |
| `RcuCallbacks.BarrierWaits` | src/udepot/rcu.cc:144-148 | when `barrier()` returns, every callback queued before it has run |
| `RcuCallbacks.NextKeeps` | src/udepot/rcu.cc:150-166 | calls, batches and read sections that come and go keep every open section a batch must outlast among those its grace period waits for |
| `IndexFlush.RestoreIndex` | src/udepot/store.cc:747-932 | finds every valid footer, and restores an index exactly if the newest one is there whole, each table once and of this geometry, every table of it loads and its entries are accounted for, with the tables as they lie on the device |
| `IndexFlush.OneComplete` | src/udepot/store.cc:816-847 | at most one index on the device is complete |
| `IndexFlush.FindFooters` | src/udepot/store.cc:780-814 | lists every segment with a valid footer once |
| `RestoreCounts.CountGrains` | src/udepot/store.cc:878-932 | a restored index is accepted exactly if every entry points at a record that lies inside a data segment, and then each segment's count is the grains of the entries in it |
| `RestoreCounts.RestoredCounts` | src/udepot/store.cc:878-932 | every entry of the index a reachable store closed with is accepted, and the counts are those of the model's reopened store |
| `IndexFlush.NewestIndex` | src/udepot/store.cc:816-822 | the newest timestamp among them and exactly the segments that bear it |
| `IndexFlush.WholeDirectory` | src/udepot/store.cc:824-847 | accepts exactly the sets that are one whole directory and gives each index its table |
| `DirectoryIndex.TablesHoldTheIndex` | src/udepot/store.cc:1783-1795 | in every state of every run the tables, changed by commits, relocations and dropped tombstones as `insert_locked`, `update_locked` and `remove_locked` change them, hold one entry for each location of the protocol's directory and no other |
| `DirectoryIndex.EntryIsThere` | src/udepot/store.cc:1575-1579 | every location of the directory has its entry in the tables, so an update or removal of one is never refused |
| `DirectoryIndex.RecoverFollows` | src/udepot/store.cc:218-265 | tables that hold recovery's directory hold it again after the insert or update with which it indexes one more record |
| `DirectoryIndex.GrowKeepsWhole` | src/udepot/directory.cc:126-150 | the copy that doubles the tables keeps the entries of all of them together, each as often |
| `DirectoryIndex.ReopenFollows` | src/udepot/store.cc:878-974 | the tables an open restores hold the directory the store closed with, all their entries are accounted for, and the valid counts taken from them are those of the model's reopened store |
| `IndexCrash.CloseIsAtomic` | src/udepot/store.cc:663-728 | after any run of closes, opens and crashes, a restored directory is the one the last session closed with, nothing written since; and it is restored unless a write of that flush is missing or an open has begun to clear it |
| `IndexCrash.RestoreIsExact` | src/udepot/store.cc:816-847 | from any state of the invariant an open restores the closed directory or nothing, never a mix of two generations |
| `IndexCrash.SessionsStartClean` | src/udepot/store.cc:934-951 | a session starts with no valid footer on the device, so no later crash restores an old index |
| `IndexCrash.ReopenedDirectory` | src/udepot/store.cc:954-957 | a session that resumes a restored index has the directory the previous one closed with |
| `IndexCrash.NextKeeps` | src/udepot/store.cc:663-728 | each header, slot and footer write, each footer cleared and each crash keeps every valid footer on a wholly written table of the latest flush |
| `Allocator.Allocator.AllocateGrains` | extern/salsa/src/frontends/usalsa++/allocator.c:112-157 | hands out a range past all others of the segment's life and below its metadata, fails exactly if no staged segment has room and none is free or another caller is staging one, and changes no other segment's ranges |
| `Allocator.Allocator.WalkStage` | extern/salsa/src/frontends/usalsa++/allocator.c:119-137 | the first staged segment with room gives the range, those before it are drained |
| `Allocator.Allocator.NextRange` | extern/salsa/src/frontends/usalsa++/allocator.c:47-64 | the cursor moves exactly if the range fits, and a segment filled to the end leaves the stage |
| `Allocator.Allocator.AllocateSegment` | extern/salsa/src/frontends/usalsa++/allocator.c:66-102 | a staged segment starts a new life with no range handed out and its metadata grains set aside |
| `Allocator.Allocator.Unstage` | extern/salsa/src/frontends/usalsa++/allocator.c:130-134 | the first staged segment leaves the stage owing the grains it never handed out |
| `Allocator.Allocator.Settle` | extern/salsa/src/frontends/usalsa++/allocator.c:135-136 | a segment enters the done queue exactly when it is off the stage and every grain is released or drained, once per life |
| `Allocator.Allocator.DrainRemaining` | extern/salsa/src/frontends/usalsa++/allocator.c:158-179 | drains the first staged segment alone, and it is done exactly if all it handed out is released |
| `Allocator.Allocator.ReleaseGrains` | extern/salsa/src/frontends/usalsa++/allocator.c:181-188 | gives grains back, and sends the segment to the done queue exactly if it is off the stage and nothing is left |
| `Allocator.Allocator.constructor` | extern/salsa/src/frontends/usalsa++/allocator.c:30-45 | a new allocator has nothing staged or done |
| `Allocator.NoGrainTwice` | extern/salsa/src/frontends/usalsa++/allocator.c:47-102 | in the segments' current lives no grain is handed out twice and none is metadata |
| `Allocator.StagedIsNotDone` | extern/salsa/src/frontends/usalsa++/allocator.c:181-188 | a staged segment stays off the done queue while callers give back only what they were handed; the asserted bound alone lets the count reach zero exactly when all unhanded grains are given back too |
| `Capacity.GrantsFit` | extern/salsa/src/frontends/usalsa++/Scm.cc:261-280 | a user request is turned away untouched exactly while GC is critical, else granted only within the user capacity, a relocation within its own; a request is refused exactly if the counter, with what others have yet to take off, would pass the limit |
| `Capacity.RefusalIsExact` | extern/salsa/src/frontends/usalsa++/Scm.cc:261-280 | with no refusal in flight a request is refused exactly if it does not fit |
| `Capacity.RefusalCanBeSpurious` | extern/salsa/src/frontends/usalsa++/Scm.cc:267-278 | a run in which a request that fits is refused because of one in flight |
| `Capacity.NeverUnderflows` | extern/salsa/src/include/frontends/usalsa++/Scm.hh:96-99 | no back-out, failed allocation or invalidation takes the counter below zero |
| `Capacity.RunKeeps` | extern/salsa/src/frontends/usalsa++/SalsaCtlr.cc:203-223 | under any interleaving the counter is what requests have put on it, and what they may use is within the relocation capacity |
| `Memcache.Tokenize` | src/net/memcache.cc:80-91 | the words of a line, in order |
| `Memcache.Tokens` | src/net/memcache.cc:80-91 | no word is empty or holds a space |
| `Memcache.FindCrlf` | src/net/memcache.cc:162-168 | the first line end, or there is none |
| `Memcache.CrlfStays` | src/net/memcache.cc:488-501 | a line end once found stays the first, and line and rest stay the same, whatever arrives later |
| `MemcacheServer.ServeConnection` | src/net/memcache.cc:480-642 | whatever sizes the receives have, the requests and data blocks served are a function of the stream alone |
| `MemcacheServer.Serve` | src/net/memcache.cc:485-503 | the same for any way of reading a command line |
| `MemcacheServer.NextRequest` | src/net/memcache.cc:488-605 | one round takes the first line, and the data block it calls for, off what is buffered and yet to come |
| `MemcacheServer.RecvBuffer.ReadLine` | src/net/memcache.cc:488-501 | the first line of buffered and coming bytes, or none if the peer closes before it ends |
| `MemcacheServer.RecvBuffer.ReadBlock` | src/net/memcache.cc:584-599 | exactly the announced bytes and the line end after them, or none if the peer closes first |
| `MemcacheServer.RecvBuffer.FindLine` | src/net/memcache.cc:160-168 | the first line end of what is pending |
| `MemcacheServer.RecvBuffer.Compact` | src/net/memcache.cc:170-179 | moving pending bytes to the front changes none of them |
| `MemcacheServer.RecvBuffer.EnsureSpace` | src/net/memcache.cc:181-185 | there is room for the bytes asked for, and pending ones are kept |
| `MemcacheRoundTrip.ConversationRoundTrip` | src/net/memcache.cc:503-635 | a client's requests, written out in the protocol, are framed as those requests, in order |
| `MemcacheRoundTrip.FrameRoundTrip` | src/net/memcache.cc:547-605 | one request written out is framed as itself, even if its data holds line ends |
| `MemcacheRoundTrip.CasDataIsReadOn` | src/net/memcache.cc:66 | a well-formed `cas` is answered with an error and its data block is framed as commands |
| `MemcacheRoundTrip.RefusedDataIsReadOn` | src/net/memcache.cc:547-642 | what follows a line of one of the protocol's six storage commands is framed as commands exactly if the command is `cas` or the line has too few words, too long a key, a number that does not parse in range, or too much data, with the reply its fault calls for; otherwise exactly the announced bytes and two more are the data block |
| `MemcacheRoundTrip.NegativeTimeIsRefused` | src/net/memcache.cc:568-573 | a line with a negative expiry time is refused and its data block read as commands |
| `Memcache.NumberRoundTrip` | src/net/memcache.cc:96-104 | a number written in decimal is parsed as that number |
| `Memcache.NumberParses` | src/net/memcache.cc:96-104 | a token parses as a number exactly if it is that number in decimal, after any zeros, and in range |
| `MemcacheRoundTrip.Converse` | src/net/memcache.cc:480-642 | the server serves exactly the requests a client sent, however the network cuts the stream |

## Left out

- I/O backends, epoll networking, coroutine mechanics and completion polling: a suspension is an interleaving point, the device an array of grains.
- Update in place where threads interleave (`LogProtocol`, `Rcu`, `RcuCallbacks`, `GrowProtocol`, `LockFreeScan`, `Capacity`, `IndexCrash`): the fields are one record and each atomic action a step, so aliasing is not represented.
- Update in place in crash recovery: `Recovery` passes its directory and tallies on as values, and keeps the directory by key rather than by slot.
- Weak memory (membarrier, acquire and release orders): memory is sequentially consistent.
- Wrap-around of the 32-bit grace-period index, of RCU counters and of 64-bit timestamps and capacity counts: they are natural numbers.
- Segment staging in three parts (count, metadata write, publication): one step, which may fail in the metadata write.
- Torn and failed data writes: a failed write leaves no record, or a whole one that was never ranked.
- A decision to fail or to rewrite and the release of the grains that follows it: one step.
- CityHash and CRC: an uninterpreted hash and a predicate on grains.
- GC's choice of victims and the throttler: the model may collect any sealed segment.
- The choice among allocation streams, and waiting for space or for a grow: an operation may leave its read section and enter again at any time.
- Failing reads and mappings in `restore_index`: which tables load is an input of `RestoreIndex`.
- DirectoryIndex.TablesHoldTheIndex: a crash step takes the tables to hold the recovered directory; that recovery fills them so is proved for each record (`DirectoryIndex.RecoverFollows`), not in the walk, which keeps the directory by key.
- Memory mapping, huge pages, geometry retries at open, argument parsing, test hooks, and the Python, JNI and YCSB bindings.
- Expiry, replies and statistics of the memcache server, and the metadata kept at the end of values.
- ReadModifyWrite.IncrementsLoseNothing: is about acknowledged `incr`s of a key that does not expire; which bytes of a value are its text, ahead of the metadata, is an uninterpreted function.
- Allocator.Allocator.ReleaseGrains: callers give back no more grains than they were handed; the source asserts only that the count covers them, which does not keep a staged segment off the done queue (`Allocator.StagedIsNotDone`).
- Directory.CopyTable: hashes are the stored bits (tag and bucket), not the whole 64-bit hash, as in the source.
