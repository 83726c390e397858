# NFS-Ganesha asynchronous MFSL, in Dafny

This project models the asynchronous metadata layer ("MFSL async") of NFS-Ganesha, together with a few smaller pieces of the server that hold sequential logic. It proves properties of the model.

## The asynchronous pipeline

A mutating call (create, mkdir, rename, unlink, link or setattrs) goes through these steps:

- It checks its arguments and the caller's access.
- It takes an operation descriptor from the caller context's pool.
- It computes the *guessed* attributes the operation will produce. Create and mkdir use a precreated staging object for this.
- It posts the descriptor to the dispatcher and answers with the guess at once.

Three kinds of thread then finish the work:

- **The dispatcher** scans its list in order. It hands each operation older than the asynchronous window to the queue of a worker (a "synclet").
- **A synclet** runs the real FSAL call of each queued operation, invalidates the entry and gives the descriptor back to its context's pool.
- **The fillers** keep per-synclet pools of precreated files and directories. A pool is refilled when its occupancy drops below the low watermark.

Every queue and pool is the same list: entries are invalidated in place and compacted later by a garbage-collect step.

### How the pipeline is represented

- The list is `PendingLists.Slot` sequences.
- Each thread body is one pass of a method on a class holding its list and counters. A lock becomes the atomic body of a method.
- Backend FSAL calls are function fields of a `Fsal.Backend` value.
- Clock readings are parameters.
- The outcome of the LRU allocator is an `Alloc` input.
- A fatal `exit(1)` path becomes a precondition.

## Modules

- `Fsal` holds statuses, attributes, handles and the backend.
- `TimeVals` holds `timeval` arithmetic.
- `PendingLists` is the LRU list.
- `MfslTypes` holds operation codes, descriptors, contexts and objects.
- `Dispatcher`, `Synclets` and `Filler` are the three threads.
- `Create`, `Mkdir`, `Rename`, `Unlink`, `Link` and `Setattrs` are the entry points and their worker sides.
- `MfslSync` covers the synchronous guess-and-check variants and status-only stubs of `mfsl_async2.c`.
- `MfslObjects` covers `mfsl_async.c`.
- `MfslInit` and `MfslConf` cover initialisation and configuration.
- `Pipeline` covers the op_func dispatch and laws relating the guesses of different operations.

Outside the pipeline:

- `PtFsal` covers the PT FSAL helpers: path joining, the fixed-array name/handle cache, handle-index bounds and 256 KiB read/write chunking.
- `NinePHash` covers the 9P fid key hashing, comparison and fid table.
- `Nfs3`, `Nfs3Write` and `Nfs3Remove` cover the decision procedures of the NFSv3 WRITE and REMOVE handlers (sections 3.3.7 and 3.3.12 of RFC 1813).

## Known defects

Several defects of the source are reproduced as written and then corrected; see "## Findings".

Where the code as written has a defined behaviour, the operation takes a `Variants.Variant` argument and follows either reading:

- `Dispatcher.Dispatcher.Pass` and `Dispatcher.Dispatcher.Scan`: the window test.
- `Filler.DispatchObjects` and `Filler.InitObjects`: the reset of `eod` between fillers.
- `Rename.RenameDesc` and `Rename.MfslRename`: the size deltas of the guess.
- `Unlink.MfslUnlink` and `Link.MfslLink`: the worker index of the posted descriptor, and for link also the sanity check.
- `Nfs3Write.NfsWrite`: the status of a write past MaxOffsetWrite.

Where the code as written dereferences NULL or indexes past an array, the operation follows the intended reading, and "## Left out" names it. Where a defect is only a property of the code as written (for example, a create/mkdir descriptor pool entry that is never released on a failed precreated-object fetch), the model keeps the code's behaviour and says so in the member's contract.

## Model

| member | source | states |
|---|---|---|
| TimeVals.Sub | src/MFSL/MFSL_ASYNC/mfsl_async_dispatcher.c:195 | timersub of two normalised times is normalised and denotes the elapsed microseconds |
| TimeVals.LessIsEarlier | src/MFSL/MFSL_ASYNC/mfsl_async_mkdir.c:244 | on normalised times, timercmp(<) holds exactly when the first instant is earlier |
| TimeVals.MicrosInjective | src/MFSL/MFSL_ASYNC/mfsl_async_mkdir.c:244 | two normalised times denoting the same instant are equal |
| PendingLists.Fresh | src/MFSL/MFSL_ASYNC2/mfsl_async2_filler.c:412-425 | a run of LRU_new_entry calls makes one entry per payload |
| PendingLists.OccupancyCountsPayloads | src/MFSL/MFSL_ASYNC2/mfsl_async2_filler.c:552 | nb_entry - nb_invalid counts the live payloads and never exceeds the list length |
| PendingLists.AppendedAdds | src/MFSL/MFSL_ASYNC2/mfsl_async2_filler.c:628-640 | a new valid entry adds one to the live count and its payload at the end |
| PendingLists.InvalidatedDrops | src/MFSL/MFSL_ASYNC2/mfsl_async2_synclet.c:233 | invalidating an entry lowers the live count by one exactly when the entry was valid |
| PendingLists.InvalidatedIdle | src/MFSL/MFSL_ASYNC2/mfsl_async2_synclet.c:233 | invalidating an entry that is already invalid changes nothing |
| PendingLists.InvalidatedFirst | src/MFSL/MFSL_ASYNC2/mfsl_async2_filler.c:903 | invalidating the first live entry removes the first live payload |
| PendingLists.NoneLive | src/MFSL/MFSL_ASYNC2/mfsl_async2_synclet.c:210 | a list with no valid entry has no live payload and a live count of 0 |
| PendingLists.EmptyIffNoneValid | src/MFSL/MFSL_ASYNC2/mfsl_async2_synclet.c:210 | nb_entry == nb_invalid exactly when no entry is valid |
| PendingLists.CompactedKeepsLive | src/MFSL/MFSL_ASYNC2/mfsl_async2_synclet.c:244 | LRU_gc_invalid keeps exactly the live payloads, in order, all valid |
| PendingLists.CompactedAllValid | src/MFSL/MFSL_ASYNC2/mfsl_async2_synclet.c:244 | garbage collection of a list holding only valid entries changes nothing |
| PendingLists.CompactedIdempotent | src/MFSL/MFSL_ASYNC2/mfsl_async2_filler.c:1160 | collecting twice is collecting once |
| PendingLists.FreshAdds | src/MFSL/MFSL_ASYNC2/mfsl_async2_filler.c:775 | appending fresh entries adds their number to the live count and their payloads at the end |
| MfslTypes.OpOfCode | src/include/MFSL/MFSL_ASYNC/mfsl_types.h:301-311 | decoding an operation code: defined exactly on 0..7, and the inverse of the enumerator values |
| MfslTypes.OpCodeRoundTrip | src/include/MFSL/MFSL_ASYNC/mfsl_types.h:301-311 | decoding the code of an enumerator gives the enumerator back |
| MfslTypes.NameTableByCode | src/include/MFSL/MFSL_ASYNC/mfsl_types.h:313-323 | the name table has eight entries, and entry k names the operation of code k |
| MfslTypes.ArgsOp | src/include/MFSL/MFSL_ASYNC/mfsl_types.h:281-289 | argument variants exist for every operation except REMOVE and TRUNCATE |
| MfslTypes.ResOp | src/include/MFSL/MFSL_ASYNC/mfsl_types.h:291-299 | result variants exist for every operation except REMOVE and TRUNCATE |
| MfslTypes.MfslContext.constructor | src/include/MFSL/MFSL_ASYNC/mfsl_types.h:86-91 | a new context has an empty descriptor pool |
| MfslTypes.MfslContext.Take | src/MFSL/MFSL_ASYNC2/mfsl_async2_unlink.c:128 | GetFromPool: nothing exactly when the pool is empty; otherwise the last released descriptor, removed from the pool |
| MfslTypes.MfslContext.Release | src/MFSL/MFSL_ASYNC2/mfsl_async2_synclet.c:98 | ReleaseToPool puts the descriptor back on the pool |
| MfslTypes.MfslObject.constructor | src/include/MFSL/MFSL_ASYNC/mfsl_types.h:93-99 | a new object wraps its handle, with no last operation and no last synclet |
| MfslTypes.MfslObject.RecordLastOp | src/MFSL/MFSL_ASYNC/mfsl_async_mkdir.c:243-256 | the new descriptor becomes the object's last operation when none is recorded or the recorded one is older; otherwise nothing changes |
| MfslTypes.LastOpTimeAfter | src/MFSL/MFSL_ASYNC/mfsl_async_mkdir.c:243-256 | once an operation is recorded, the recorded time is the later of the old and the new one |
| Filler.Digit | src/MFSL/MFSL_ASYNC2/mfsl_async2_filler.c:599 | a number below ten is spelt as one character between '0' and '9' |
| Filler.Decimal | src/MFSL/MFSL_ASYNC2/mfsl_async2_filler.c:599 | the decimal spelling of a natural number is non-empty and made of digits only |
| Filler.Long | src/MFSL/MFSL_ASYNC2/mfsl_async2_filler.c:599 | a %ld spelling never contains a dot |
| Filler.DecimalLength | src/MFSL/MFSL_ASYNC2/mfsl_async2_filler.c:599 | a decimal spelling has one digit exactly when the number is below ten |
| Filler.DecimalInjective | src/MFSL/MFSL_ASYNC2/mfsl_async2_filler.c:599 | different natural numbers have different decimal spellings |
| Filler.LongSign | src/MFSL/MFSL_ASYNC2/mfsl_async2_filler.c:599 | a %ld spelling is non-empty and starts with '-' exactly when the number is negative |
| Filler.LongInjective | src/MFSL/MFSL_ASYNC2/mfsl_async2_filler.c:599 | different integers have different %ld spellings |
| Filler.FirstDotAfterHead | src/MFSL/MFSL_ASYNC2/mfsl_async2_filler.c:599 | in a dot-free head followed by a dot, the first dot is right after the head |
| Filler.SplitAtDot | src/MFSL/MFSL_ASYNC2/mfsl_async2_filler.c:599 | a "seconds.microseconds" string splits back into its two dot-free parts uniquely |
| Filler.FillNameInjective | src/MFSL/MFSL_ASYNC2/mfsl_async2_filler.c:591-599 | objects created at different instants get different staging names |
| Filler.FillCountAgrees | src/MFSL/MFSL_ASYNC2/mfsl_async2_filler.c:552-559 | while the pool holds no more than its capacity, the unsigned missing count computes the intended refill count |
| Filler.FillCountBounds | src/MFSL/MFSL_ASYNC2/mfsl_async2_filler.c:552-559 | a refill never adds more than asked, never takes a pool past its capacity, adds nothing to a full pool, and fills the pool exactly when enough is asked |
| Filler.FillCountWrapOverfills | src/MFSL/MFSL_ASYNC2/mfsl_async2_filler.c:552-558 | as written, a pool of capacity 10 holding 11 live objects still gets 5 more, where the intended count is 0 |
| Filler.Succeeded | src/MFSL/MFSL_ASYNC2/mfsl_async2_filler.c:578-620 | the creations that count are those before the first failure: all succeeded, and the next one failed unless every planned one was made |
| Filler.Made | src/MFSL/MFSL_ASYNC2/mfsl_async2_filler.c:578-640 | one staging object per successful creation |
| Filler.MadeNamesDistinct | src/MFSL/MFSL_ASYNC2/mfsl_async2_filler.c:591-610 | objects of one refill created at distinct instants have distinct names |
| Filler.RefillAccounting | src/MFSL/MFSL_ASYNC2/mfsl_async2_filler.c:546-659 | a refill adds exactly the objects it created to the live count, after the old live objects, never overfills a pool at or below capacity, and fills it to capacity when it completes and enough was asked |
| Filler.DirsReadoptedAsWritten | src/MFSL/MFSL_ASYNC2/mfsl_async2_filler.c:330-436 | one flag per filler saying whether its directories are re-adopted as written |
| Filler.ReadoptionSkipsDirs | src/MFSL/MFSL_ASYNC2/mfsl_async2_filler.c:354-436 | as written, with one filler or more, filler 0 has its precreated directories re-adopted and no later filler does |
| Filler.DirsReadopted | src/MFSL/MFSL_ASYNC2/mfsl_async2_filler.c:354-436 | as intended, every filler has its precreated directories re-adopted |
| Filler.AdoptedCount | src/MFSL/MFSL_ASYNC2/mfsl_async2_filler.c:392-419 | the entries adopted are those before the first one refused: every earlier entry got a record and a list entry, and the next one, if any, lacks one of them |
| Filler.Adopted | src/MFSL/MFSL_ASYNC2/mfsl_async2_filler.c:392-425 | the objects an adoption round stores are the listed objects before the first refused entry, in the order read |
| Filler.AdoptStatus | src/MFSL/MFSL_ASYNC2/mfsl_async2_filler.c:396-419 | an adoption round succeeds exactly when it adopts every entry; otherwise SERVERFAULT for the first refused entry, with minor 0 when no record was left in the pool and with the LRU status when the list refused it |
| Filler.RoundStatus | src/MFSL/MFSL_ASYNC2/mfsl_async2_filler.c:358-425 | a round on a staging directory succeeds exactly when its opendir, readdir and closedir succeed and every entry is adopted |
| Filler.ReadoptStatus | src/MFSL/MFSL_ASYNC2/mfsl_async2_filler.c:354-512 | re-adoption succeeds exactly when no filler's listing or adoption fails, and its status is then NO_ERROR |
| Filler.ReadoptedAll | src/MFSL/MFSL_ASYNC2/mfsl_async2_filler.c:354-512 | when re-adoption succeeds, each filler gets back every object of its files directory, and those of its directories directory for every filler as intended but for filler 0 only as written |
| Filler.ReadoptedNoneAfter | src/MFSL/MFSL_ASYNC2/mfsl_async2_filler.c:354-510 | once one filler's re-adoption fails, no later filler gets anything back |
| Filler.FirstValidFrom | src/MFSL/MFSL_ASYNC2/mfsl_async2_filler.c:875-879 | the scan as written stops at the first valid entry, and dereferences NULL exactly when no entry from there on is valid |
| Filler.FirstValidAsWrittenFaults | src/MFSL/MFSL_ASYNC2/mfsl_async2_filler.c:875-887 | as written, the scan dereferences NULL exactly when the pool has no live object, so the create-on-the-fly branch cannot be reached; otherwise it finds the first live payload |
| Filler.FirstLive | src/MFSL/MFSL_ASYNC2/mfsl_async2_filler.c:875-879 | the first valid entry of a non-empty pool; invalidating it removes the first live payload |
| Filler.Taken | src/MFSL/MFSL_ASYNC2/mfsl_async2_filler.c:863-981 | the object handed out is the first live object; with none, one made on demand; nothing only when the pool is empty and the creation fails |
| Filler.AfterTake | src/MFSL/MFSL_ASYNC2/mfsl_async2_filler.c:900-910 | a take invalidates the first live entry and lowers the live count by one; an empty pool is left alone |
| Filler.SucceededStops | src/MFSL/MFSL_ASYNC2/mfsl_async2_filler.c:578-620 | creations that all succeed up to a failure succeed exactly that far |
| Filler.FillerData.constructor | src/MFSL/MFSL_ASYNC2/mfsl_async2_filler.c:1232-1240 | a new filler has its index and pool handles, empty pools, no lock held and no wake-up sent |
| Filler.FillerData.Fill | src/MFSL/MFSL_ASYNC2/mfsl_async2_filler.c:527-660 | caller mode makes exactly the requested objects and hands them back; list mode appends the objects created for the refill count; success iff every planned creation succeeds; a failure returns 1 and leaves the pool lock held; the other pool is untouched |
| Filler.FillerData.GetPrecreatedObject | src/MFSL/MFSL_ASYNC2/mfsl_async2_filler.c:863-981 | FILE and DIRECTORY take the first live object of their pool and signal the filler below the watermark; an empty pool makes one object on the fly (NOENT when that fails); other types answer INVAL and change nothing |
| Filler.FillerData.Take | src/MFSL/MFSL_ASYNC2/mfsl_async2_filler.c:903 | LRU_invalidate of one entry of one pool; the other pool is untouched |
| Filler.FillerData.Pass | src/MFSL/MFSL_ASYNC2/mfsl_async2_filler.c:1127-1180 | the filler waits exactly when both pools are above the watermark; each pool strictly below it is refilled by AFT_nb_fill_critical and garbage-collected, its lock left held when the refill stops short; a pool at the watermark is untouched |
| Filler.FillerData.Adopt | src/MFSL/MFSL_ASYNC2/mfsl_async2_filler.c:392-425 | the entries read are adopted in order, each as a valid entry of the pool; the first with no record from the pool or no list entry ends the round with SERVERFAULT (minor 0 or the LRU status), the objects adopted before it staying |
| Filler.FillerData.Push | src/MFSL/MFSL_ASYNC2/mfsl_async2_filler.c:628-640 | LRU_new_entry: the object is appended to the pool as a valid entry |
| Filler.Grown | src/MFSL/MFSL_ASYNC2/mfsl_async2_filler.c:392-425 | adopting objects adds their number to each pool's live count and their payloads at the end, and changes no lock or counter |
| Filler.GrownNothing | src/MFSL/MFSL_ASYNC2/mfsl_async2_filler.c:354-512 | adopting nothing changes nothing |
| Filler.GrownTwice | src/MFSL/MFSL_ASYNC2/mfsl_async2_filler.c:392-506 | adopting directories and then files is adopting both at once |
| Filler.AdoptAt | src/MFSL/MFSL_ASYNC2/mfsl_async2_filler.c:392-425 | adopting entries on one filler answers the round's status and adds the adopted objects to that filler's pool only |
| Filler.DispatchObjects | src/MFSL/MFSL_ASYNC2/mfsl_async2_filler.c:327-513 | every filler in turn has its directories round (as written: filler 0 only; as intended: every filler) and its files round, each adopting the entries found; the first failed listing or adoption ends re-adoption with its status, the fillers after it untouched |
| Filler.ReadoptAt | src/MFSL/MFSL_ASYNC2/mfsl_async2_filler.c:356-510 | one filler's directories round, when it runs, then its files round, stopping at the first failed listing or adoption; only that filler changes |
| Filler.FillAt | src/MFSL/MFSL_ASYNC2/mfsl_async2_filler.c:843-851 | a list-mode fill of one filler's pool to capacity; 0 exactly when every creation succeeds; every other filler is untouched |
| Filler.InitFilled | src/MFSL/MFSL_ASYNC2/mfsl_async2_filler.c:843-851 | a filler after its initial fills: both pools filled when the directories fill completes, otherwise only the directories pool, with its lock left held |
| Filler.InitFilledLocks | src/MFSL/MFSL_ASYNC2/mfsl_async2_filler.c:843-851 | after the initial fills a lock is left held exactly when a fill stopped short; a failed directories fill leaves the files pool and its lock as they were |
| Filler.FillBoth | src/MFSL/MFSL_ASYNC2/mfsl_async2_filler.c:843-851 | both initial fills of one filler, directories first; 0 exactly when both complete; on every outcome the filler ends as InitFilled says and every other filler is untouched |
| Filler.InitObjects | src/MFSL/MFSL_ASYNC2/mfsl_async2_filler.c:818-855 | a failed directory step or re-adoption ends initialisation with its major code and minor 0, re-adoption's partial work kept; otherwise success exactly when every filler's two fills complete, SERVERFAULT otherwise; on success each filler holds its re-adopted objects and both pools are filled to their configured sizes; when a fill stops short at filler i, the fillers before i are filled, filler i is as InitFilled says, and the fillers after i hold only their re-adopted objects (the status is discarded by its only caller, so this state is what the filler threads start from) |
| Synclets.ChosenWorkerExists | src/MFSL/MFSL_ASYNC2/mfsl_async2_synclet.c:117-126 | the chosen synclet is always 0, an existing worker whenever at least one is configured |
| Synclets.ProcessAsyncOp | src/MFSL/MFSL_ASYNC2/mfsl_async2_synclet.c:64-106 | a NULL descriptor answers FAULT; otherwise the operation's function runs, its descriptor (with the worker's arguments and results) goes back to its context's pool, and the answer is success whatever the operation returned |
| Synclets.Drained | src/MFSL/MFSL_ASYNC2/mfsl_async2_synclet.c:215-235 | a pass invalidates entries and never changes the list's length |
| Synclets.CounterAfterPass | src/MFSL/MFSL_ASYNC2/mfsl_async2_synclet.c:238-248 | the pass counter goes up by one and is reset to 0 exactly when it reaches nb_before_gc |
| Synclets.Synclet.constructor | src/MFSL/MFSL_ASYNC2/mfsl_async2_synclet.c:190-196 | a new synclet has an empty list and a zero pass counter |
| Synclets.Synclet.Pass | src/MFSL/MFSL_ASYNC2/mfsl_async2_synclet.c:206-252 | a synclet works exactly when its list holds a live operation; it then runs and invalidates every live operation, each descriptor returning to its own context's pool, bumps its pass counter and garbage-collects on reaching nb_before_gc; with no work nothing changes |
| Synclets.Synclet.ProcessAll | src/MFSL/MFSL_ASYNC2/mfsl_async2_synclet.c:215-235 | the loop over the list invalidates every entry and returns every live descriptor, completed, to its context's pool in list order |
| Synclets.ReleasedStep | src/MFSL/MFSL_ASYNC2/mfsl_async2_synclet.c:215-235 | one more entry adds its completed descriptor to its own context's releases only |
| Synclets.CompletedAll | src/MFSL/MFSL_ASYNC2/mfsl_async2_synclet.c:80-98 | completing descriptors keeps their number |
| Synclets.ReleasedSingleContext | src/MFSL/MFSL_ASYNC2/mfsl_async2_synclet.c:215-235 | when every live operation belongs to one context, that context gets back all of them, completed, in list order |
| Synclets.ReleasedOwnOnly | src/MFSL/MFSL_ASYNC2/mfsl_async2_synclet.c:96-98 | a context only ever gets back its own descriptors, at most one per live operation |
| Dispatcher.OutOfWindowMeansElapsed | src/MFSL/MFSL_ASYNC/mfsl_async_dispatcher.c:195-199 | as intended, an operation leaves the asynchronous window exactly when the time elapsed since it was posted reaches the configured window |
| Dispatcher.OutOfWindowOlderToo | src/MFSL/MFSL_ASYNC/mfsl_async_dispatcher.c:191-199 | an operation older than one that left the window has left it too, so the chronological scan may stop at the first one still inside |
| Dispatcher.WindowAsWrittenDisagrees | src/MFSL/MFSL_ASYNC/mfsl_async_dispatcher.c:195-199 | as written, an operation posted 2 s ago stays inside a 1 s window, and one posted 100 µs ago leaves a 0.5 s window |
| Dispatcher.ScanAsWrittenHolds | src/MFSL/MFSL_ASYNC/mfsl_async_dispatcher.c:183-199 | with a window of 1 s and 0 µs, the scan as written keeps an operation posted 2 s ago and hands it on once the elapsed µs field reaches 1, while the intended scan hands it on at once |
| Dispatcher.RoutableAppended | src/MFSL/MFSL_ASYNC/mfsl_async_dispatcher.c:68-109 | appending a descriptor keeps every entry routable exactly when its synclet index names an existing worker |
| Dispatcher.ScanFrom | src/MFSL/MFSL_ASYNC/mfsl_async_dispatcher.c:183-199 | the scan stops at an index within the list |
| Dispatcher.ScanFromStops | src/MFSL/MFSL_ASYNC/mfsl_async_dispatcher.c:183-199 | every valid entry before the stopping point is out of the window, and the scan stops at a valid entry still inside it |
| Dispatcher.ScanEndStops | src/MFSL/MFSL_ASYNC/mfsl_async_dispatcher.c:183-199 | the scan from the head hands on only operations out of the window and stops at the first valid one still inside |
| Dispatcher.AfterScan | src/MFSL/MFSL_ASYNC/mfsl_async_dispatcher.c:201-232 | the scan invalidates entries and keeps the list's length |
| Dispatcher.HandedAreDue | src/MFSL/MFSL_ASYNC/mfsl_async_dispatcher.c:201-220 | every operation handed to synclet k is valid, routed to k and out of the window |
| Dispatcher.ScanConserves | src/MFSL/MFSL_ASYNC/mfsl_async_dispatcher.c:201-232 | with one worker, every live operation is either handed on or still live in the dispatcher's list; none is lost or duplicated |
| Dispatcher.InWindowEntryNotRouted | src/MFSL/MFSL_ASYNC/mfsl_async_dispatcher.c:192-203 | a live entry still inside its window stops the scan before its synclet index is read, so a list holding one with a non-existent synclet is unroutable yet its pass is defined |
| Dispatcher.Dispatcher.constructor | src/MFSL/MFSL_ASYNC/mfsl_async_dispatcher.c:150-160 | a new dispatcher has an empty list and a zero pass counter |
| Dispatcher.Dispatcher.Post | src/MFSL/MFSL_ASYNC/mfsl_async_dispatcher.c:68-109 | a NULL descriptor answers FAULT; a refused LRU entry answers SERVERFAULT with the LRU status; otherwise the descriptor is appended as a valid entry |
| Dispatcher.Dispatcher.Pass | src/MFSL/MFSL_ASYNC/mfsl_async_dispatcher.c:168-250 | one dispatcher pass, with the window test as written or as intended, defined whenever the live entries before the stop name existing synclets (the later ones are never indexed): the scan hands every due operation to its synclet (one wake-up each), invalidates it unless the synclet's list refused it, then counts the pass and garbage-collects on reaching nb_before_gc |
| Dispatcher.Dispatcher.Scan | src/MFSL/MFSL_ASYNC/mfsl_async_dispatcher.c:183-233 | the scan, with the window test as written or as intended and requiring only the entries it reaches to name existing synclets, leaves the list as AfterScan says and appends to each synclet exactly the operations handed to it, waking it once per operation |
| Dispatcher.HandOff | src/MFSL/MFSL_ASYNC/mfsl_async_dispatcher.c:207-225 | handing an operation to synclet k appends it to k's list as a valid entry and wakes k once; no other synclet changes |
| Dispatcher.AfterScanStep | src/MFSL/MFSL_ASYNC/mfsl_async_dispatcher.c:201-232 | one more scanned entry is invalidated exactly when it was valid and the synclet accepted it |
| Dispatcher.DispatcherInit | src/MFSL/MFSL_ASYNC/mfsl_async_dispatcher.c:265-285 | success exactly when the thread starts; otherwise SERVERFAULT with the negated pthread code |
| Create.GuessedObject | src/MFSL/MFSL_ASYNC/mfsl_async_create.c:202-218 | the guessed attributes of a new object: the requested type and mode, the caller's owner and group, ctime and mtime both the current second, the rest copied from the precreated object |
| Create.GuessedParent | src/MFSL/MFSL_ASYNC/mfsl_async_create.c:198-220 | the guessed parent attributes: one more entry in the directory, nothing else changed |
| Create.CreateDesc | src/MFSL/MFSL_ASYNC/mfsl_async_create.c:160-232 | the posted descriptor: a CREATE that renames the precreated file from the staging directory to the parent under the new name, guessing the new attributes and the parent's; the real results start as the parent's attributes with no new-file attributes |
| Create.AsyncCreate | src/MFSL/MFSL_ASYNC/mfsl_async_create.c:64-96 | the worker side always answers success, keeps the arguments and the new file's handle, whatever the rename and setattrs returned |
| Create.MfslCreate | src/MFSL/MFSL_ASYNC/mfsl_async_create.c:114-268 | missing context or attributes answer FAULT; a refused access check answers its code; an empty descriptor pool answers SERVERFAULT; otherwise a precreated file is taken (NOENT when none), both objects record the operation, and the post either fails with SERVERFAULT and the LRU status or succeeds and hands back the guessed attributes and the new handle |
| Mkdir.GuessedMkdirParent | src/MFSL/MFSL_ASYNC/mfsl_async_mkdir.c:195-218 | the guessed parent of a mkdir gets one more entry and one more link, nothing else changed |
| Mkdir.MkdirDesc | src/MFSL/MFSL_ASYNC/mfsl_async_mkdir.c:160-240 | the posted descriptor: a MKDIR that renames the precreated directory into place, guessing the new attributes and the parent's; its concerned objects are the parent and the new directory |
| Mkdir.AsyncMkdir | src/MFSL/MFSL_ASYNC/mfsl_async_mkdir.c:64-96 | the worker side always answers success, keeps the arguments and the new directory's handle |
| Mkdir.MfslMkdir | src/MFSL/MFSL_ASYNC/mfsl_async_mkdir.c:114-284 | the same checks and error codes as create, taking from the directories pool; both objects record the descriptor as their last operation when it supersedes theirs, which makes them asynchronous; on success the guessed attributes and the new handle are handed back |
| Rename.Touched | src/MFSL/MFSL_ASYNC/mfsl_async_rename.c:180-202 | a touched directory has ctime and mtime set to the current second, nothing else changed |
| Rename.RenameGuessAsWritten | src/MFSL/MFSL_ASYNC/mfsl_async_rename.c:212-218 | the guess as written, which moves one entry between the directories when the handles compare equal |
| Rename.RenameGuess | src/MFSL/MFSL_ASYNC/mfsl_async_rename.c:203-218 | as intended, both directories are touched, one entry moves from source to target exactly when they differ, and the total size is unchanged |
| Rename.RenameGuessSameDir | src/MFSL/MFSL_ASYNC/mfsl_async_rename.c:203-218 | as intended, renaming within one directory guesses the same attributes for source and target: the directory, touched |
| Rename.RenameGuessAsWrittenWrong | src/MFSL/MFSL_ASYNC/mfsl_async_rename.c:212-218 | as written, a rename within one directory guesses different sizes for the same directory, and a rename between two directories leaves the source size unchanged |
| Rename.RenameDesc | src/MFSL/MFSL_ASYNC/mfsl_async_rename.c:160-245 | the posted descriptor: a RENAME of the given names and handles whose guess is the as-written or the intended one; its concerned objects are the two parents |
| Rename.AsyncRename | src/MFSL/MFSL_ASYNC/mfsl_async_rename.c:61-81 | the worker side answers what FSAL_rename returned and copies the directories' attributes from the arguments into the results |
| Rename.RenameChecks | src/MFSL/MFSL_ASYNC/mfsl_async_rename.c:124-142 | missing attributes answer FAULT, a parent that is not a directory NOTDIR, otherwise the rename access check's code |
| Rename.MfslRename | src/MFSL/MFSL_ASYNC/mfsl_async_rename.c:99-276 | failed checks answer their code; an empty pool answers SERVERFAULT; a failed handle comparison answers its code; otherwise both parents record the descriptor (with the as-written or the intended guess) as their last operation when it supersedes theirs, and the post answers SERVERFAULT or hands back the guessed attributes |
| Unlink.UnlinkGuess | src/MFSL/MFSL_ASYNC2/mfsl_async2_unlink.c:147-165 | the guessed parent attributes: one link fewer exactly when the removed object is a directory, one byte fewer unless the backend is the proxy, ctime and mtime both the current second, every other field the caller's |
| Unlink.UnlinkDescAsWritten | src/MFSL/MFSL_ASYNC2/mfsl_async2_unlink.c:137-181 | the descriptor MFSL_unlink posts: an UNLINK with the caller's parent, name and attributes and the guessed parent attributes, whose worker index and concerned objects are whatever the pooled descriptor last held, since MFSL_unlink never assigns them |
| Unlink.UnlinkDesc | src/MFSL/MFSL_ASYNC2/mfsl_async2_unlink.c:137-181 | the descriptor as intended: an UNLINK routed to the worker MFSL_async_choose_synclet picks, with the caller's parent, name and attributes as arguments, the parent's attributes as initial result and the guessed parent attributes as guess |
| Unlink.UnlinkAsWrittenUnroutable | src/MFSL/MFSL_ASYNC2/mfsl_async2_unlink.c:137-186 | a recycled descriptor whose stale worker index is out of range makes the dispatch list unroutable once posted as written |
| Unlink.UnlinkRoutable | src/MFSL/MFSL_ASYNC2/mfsl_async2_unlink.c:137-186 | posting the corrected descriptor keeps a routable dispatch list routable: every valid entry names an existing worker |
| Unlink.AsyncUnlink | src/MFSL/MFSL_ASYNC2/mfsl_async2_unlink.c:61-75 | the worker side answers the backend unlink's status and records the real parent attributes in both the arguments and the result |
| Unlink.MfslUnlink | src/MFSL/MFSL_ASYNC2/mfsl_async2_unlink.c:91-197 | missing context or attributes answer FAULT; a refused access check answers its code; an empty pool answers SERVERFAULT and nothing changes; otherwise one descriptor (as written: keeping its old worker index; as intended: routed to the chosen worker) leaves the pool and the post either fails with SERVERFAULT and the LRU status or appends exactly that descriptor and hands the guessed parent attributes back |
| Link.LinkGuess | src/MFSL/MFSL_ASYNC2/mfsl_async2_link.c:158-164 | the guessed linked-object attributes: one more link and ctime the current second; every other field, mtime included, unchanged |
| Link.LinkRefusedAsWrittenSpurious | src/MFSL/MFSL_ASYNC2/mfsl_async2_link.c:111-119 | the sanity check as written tests the destination-directory pointer before it is set: with every pointer present it refuses when that stray local is NULL, a missing destination directory passes when it is not, and whatever the intended check refuses the as-written check refuses too when the local is NULL |
| Link.LinkChecks | src/MFSL/MFSL_ASYNC2/mfsl_async2_link.c:111-131 | the checks in order, with the sanity check as written or as intended: FAULT when it refuses; NOTDIR when either directory (source and destination swapped as the code takes them) is not a directory; then the access check's code, or success |
| Link.LinkDescAsWritten | src/MFSL/MFSL_ASYNC2/mfsl_async2_link.c:135-185 | the descriptor MFSL_link posts: a LINK with the caller's target, directory, name and object attributes and the guessed attributes, whose worker index and concerned objects are left from the descriptor's previous use |
| Link.LinkDesc | src/MFSL/MFSL_ASYNC2/mfsl_async2_link.c:135-185 | the descriptor as intended: a LINK routed to the chosen worker, the caller's target, directory, name and object attributes as arguments, those attributes as initial result and the guessed attributes as guess |
| Link.LinkAsWrittenUnroutable | src/MFSL/MFSL_ASYNC2/mfsl_async2_link.c:135-189 | a stale out-of-range worker index makes the dispatch list unroutable once the as-written descriptor is posted |
| Link.LinkRoutable | src/MFSL/MFSL_ASYNC2/mfsl_async2_link.c:135-189 | posting the corrected descriptor keeps a routable dispatch list routable |
| Link.AsyncLink | src/MFSL/MFSL_ASYNC2/mfsl_async2_link.c:61-76 | the worker side answers the backend link's status and records the real object attributes in the arguments and the result |
| Link.MfslLink | src/MFSL/MFSL_ASYNC2/mfsl_async2_link.c:92-200 | a failed check (as written or as intended) answers its status and changes nothing; an empty pool answers SERVERFAULT; otherwise one descriptor (as written or with a chosen worker) leaves the pool and the post either fails with SERVERFAULT and the LRU status or appends exactly that descriptor and hands back the guessed object attributes |
| Setattrs.SetattrsGuess | src/MFSL/MFSL_ASYNC2/mfsl_async2_setattrs.c:150-158 | the guess is the requested attribute set merged with itself; when the merge yields nothing the requested set stands |
| Setattrs.SetattrsDesc | src/MFSL/MFSL_ASYNC2/mfsl_async2_setattrs.c:137-171 | the descriptor: a SETATTRS routed to the chosen worker, with the requested set and the caller's object attributes as arguments, those object attributes as initial result and the merged requested set as guess |
| Setattrs.AsyncSetattrs | src/MFSL/MFSL_ASYNC2/mfsl_async2_setattrs.c:61-75 | the worker side answers the backend setattrs' status and, when it returns attributes, records them in the arguments and the result |
| Setattrs.SetattrsGuessConfirmed | src/MFSL/MFSL_ASYNC2/mfsl_async2_setattrs.c:61-75 | the worker's real result equals the posted guess exactly when the attributes FSAL_setattrs leaves in the object buffer are the merged requested set |
| Setattrs.SetattrsRoutable | src/MFSL/MFSL_ASYNC2/mfsl_async2_setattrs.c:137-171 | posting the setattrs descriptor keeps a routable dispatch list routable |
| Setattrs.MfslSetattrs | src/MFSL/MFSL_ASYNC2/mfsl_async2_setattrs.c:90-195 | missing context, attributes or requested set answer INVAL (not FAULT); a refused access check answers its code; an empty pool answers SERVERFAULT; a failed merge answers its status; otherwise the post either fails with SERVERFAULT and the LRU status or appends exactly the descriptor and hands back the guess |
| MfslSync.SyncLinkGuesses | src/MFSL/MFSL_ASYNC2/mfsl_async2.c:295-312 | the synchronous link's guesses: the destination directory one byte larger with ctime and mtime the current second, the object one more link with the directory's ctime |
| MfslSync.SyncLinkGuessesAgree | src/MFSL/MFSL_ASYNC2/mfsl_async2.c:295-312 | the synchronous object guess is the asynchronous link's guess, and the directory guess is a creation's parent guess stamped with the current second |
| MfslSync.SyncLink | src/MFSL/MFSL_ASYNC2/mfsl_async2.c:253-348 | without a context or without the destination directory attributes the answer is INVAL and the object attributes stay; otherwise the answer is FSAL_link's status and attributes, whatever the comparison with the guesses finds |
| MfslSync.SyncRenameGuess | src/MFSL/MFSL_ASYNC2/mfsl_async2.c:545-572 | both directories' guessed ctime and mtime are the current second |
| MfslSync.SyncRenameGuessAgrees | src/MFSL/MFSL_ASYNC2/mfsl_async2.c:562-572 | the synchronous rename guess equals the corrected asynchronous guess and differs from the asynchronous guess as written |
| MfslSync.SyncRename | src/MFSL/MFSL_ASYNC2/mfsl_async2.c:505-610 | missing attributes or a non-directory answer INVAL; a handle-comparison error answers its code; otherwise FSAL_rename's status and directory attributes |
| MfslSync.SyncUnlinkGuess | src/MFSL/MFSL_ASYNC2/mfsl_async2.c:641-659 | the guessed parent: one link fewer exactly when the object is a directory, ctime and mtime the current second |
| MfslSync.SyncUnlinkGuessAgrees | src/MFSL/MFSL_ASYNC2/mfsl_async2.c:641-659 | the synchronous unlink guess is the asynchronous one |
| MfslSync.SyncUnlink | src/MFSL/MFSL_ASYNC2/mfsl_async2.c:612-693 | missing context or parent attributes answer INVAL; otherwise FSAL_unlink's status and parent attributes, whatever the comparison finds |
| MfslSync.StatusOnly | src/MFSL/MFSL_ASYNC2/mfsl_async2.c:60-134 | the parameter and context entry points answer NO_ERROR and leave what they are given as it was |
| MfslSync.Terminate | src/MFSL/MFSL_ASYNC2/mfsl_async2.c:739-748 | MFSL_terminate answers NO_ERROR |
| MfslObjects.Lookup | src/MFSL/MFSL_ASYNC/mfsl_async.c:51-62 | FSAL_lookup under the parent's wrapped handle: its status is the answer, its handle becomes the object's, its attributes are handed back |
| MfslConf.CleanPendingOpEntry | src/MFSL/MFSL_ASYNC2/mfsl_async2_read_conf.c:59-63 | the LRU clean callback for a pending descriptor always answers 0 |
| MfslConf.SetDefaultParameter | src/MFSL/MFSL_ASYNC2/mfsl_async2_read_conf.c:91-109 | a missing parameter block answers FAULT; otherwise NO_ERROR and the block holds the defaults (50 descriptors, 1 worker, a window of 1 s and 0 µs, gc every 500 passes, LRU of 100 entries with gc after 30 calls), every other field as it was |
| MfslConf.SetDefaultIdempotent | src/MFSL/MFSL_ASYNC2/mfsl_async2_read_conf.c:91-109 | setting the defaults twice gives what setting them once gives |
| MfslConf.DefaultsServeThePipeline | src/MFSL/MFSL_ASYNC2/mfsl_async2_read_conf.c:97-101 | with the defaults, the worker MFSL_async_choose_synclet picks exists, and the corrected window test hands an entry on exactly when at least one second has elapsed |
| MfslConf.LoadParameterFromConf | src/MFSL/MFSL_ASYNC2/mfsl_async2_read_conf.c:129-139 | loading from the configuration answers NO_ERROR and leaves the parameters as they were |
| MfslInit.Preallocated | src/MFSL/MFSL_ASYNC2/mfsl_async2_init.c:122 | the pool MakePool builds: nb_pre_async_op_desc descriptors, each as the allocator hands it out |
| MfslInit.RefreshContext | src/MFSL/MFSL_ASYNC2/mfsl_async2_init.c:148-161 | NO_ERROR exactly when both contexts are given, FAULT otherwise, and no state changes |
| MfslInit.MfslGlobals.constructor | src/MFSL/MFSL_ASYNC2/mfsl_async2_init.c:48-49 | before MFSL_Init no parameters are installed, end_of_mfsl is false and no thread runs |
| MfslInit.MfslGlobals.Init | src/MFSL/MFSL_ASYNC2/mfsl_async2_init.c:60-91 | missing parameters answer FAULT and change nothing; otherwise a copy of the parameters is installed, a dispatcher failure answers its code and starts no worker, and a worker failure answers its code |
| MfslInit.MfslGlobals.GetContext | src/MFSL/MFSL_ASYNC2/mfsl_async2_init.c:105-134 | missing contexts answer FAULT; a lock failure answers SERVERFAULT with errno; otherwise the context's pool becomes nb_pre_async_op_desc fresh descriptors and the answer is NO_ERROR |
| MfslInit.MfslGlobals.Terminate | src/MFSL/MFSL_ASYNC2/mfsl_async2_init.c:176-188 | end_of_mfsl becomes true and the answer is NO_ERROR; a second call changes nothing |
| Pipeline.OpFunc | src/MFSL/MFSL_ASYNC2/mfsl_async2_synclet.c:78-79 | the function a worker runs for a descriptor is the worker side of the entry point that built it: its arguments and results stay in that operation's variants |
| Pipeline.CompletedStaysRunnable | src/MFSL/MFSL_ASYNC2/mfsl_async2_synclet.c:78-79 | running a descriptor leaves it runnable with the same guess and context, so it can be released to its pool and reused |
| Pipeline.StagedCreationsSucceed | src/MFSL/MFSL_ASYNC2/mfsl_async2_synclet.c:78-86 | create and mkdir descriptors always succeed on the worker side and keep their arguments, whatever the backend answers |
| Pipeline.UnlinkUndoesCreate | src/MFSL/MFSL_ASYNC2/mfsl_async2_unlink.c:147-165 | unlinking a file just created restores the parent's guessed size and link count; only the stamps change |
| Pipeline.UnlinkUndoesMkdir | src/MFSL/MFSL_ASYNC2/mfsl_async2_unlink.c:147-165 | removing a directory just made restores the parent's guessed size and link count |
| Pipeline.RenameThereAndBack | src/MFSL/MFSL_ASYNC/mfsl_async_rename.c:204-218 | with the corrected deltas, renaming an entry away and back restores both directories' guessed sizes |
| Nfs3Remove.FailExit | src/Protocols/NFS/nfs3_Remove.c:207-229 | the failure exit: the reply is nfs3_Errno of the cache status with failure wcc data, and the request is dropped exactly when the status is retryable |
| Nfs3Remove.NfsRemove | src/Protocols/NFS/nfs3_Remove.c:80-231 | a stale handle answers its status; an xattr handle answers the xattr handler; a non-directory parent answers NOTDIR; a missing or empty name takes the failure exit with INVALID_ARGUMENT; a child that is a directory answers ISDIR; removal is attempted exactly in the remaining cases, a failed lookup included, and answers NFS3_OK with wcc data or takes the failure exit |
| Nfs3Write.StabilityOf | src/Protocols/NFS/nfs3_Write.c:251-260 | an UNSTABLE request under use_commit goes to the filesystem buffer, or to the server's buffer when that is enabled; every other request is written through |
| Nfs3Write.Committed | src/Protocols/NFS/nfs3_Write.c:333-339 | FILE_SYNC is reported exactly for a written-through request, UNSTABLE otherwise |
| Nfs3Write.CommittedAnswersRequest | src/Protocols/NFS/nfs3_Write.c:251-339 | a reply says FILE_SYNC exactly when the request was not UNSTABLE under use_commit |
| Nfs3Write.OffsetTestWraps | src/Protocols/NFS/nfs3_Write.c:274 | the offset test adds offset and size in 64-bit arithmetic: a request whose end wraps past 2^64 passes it |
| Nfs3Write.ClampedSize | src/Protocols/NFS/nfs3_Write.c:296-301 | the size written is the request's count, or MaxWrite when the export sets that option and the count is larger |
| Nfs3Write.OffsetStatusAsWrittenHidesViolation | src/Protocols/NFS/nfs3_Write.c:274-290 | as written, a write past MaxOffsetWrite is answered with nfs3_Errno of the access outcome that let it through (a success, or EACCES for the owner), never with NFS3ERR_INVAL |
| Nfs3Write.ErrorExit | src/Protocols/NFS/nfs3_Write.c:352-369 | the error exit: a retryable status drops the request; any other answers nfs3_Errno of it with failure wcc data |
| Nfs3Write.NfsWrite | src/Protocols/NFS/nfs3_Write.c:81-379 | a stale handle or xattr handle answers as their handlers do; a failed access check answers its status unless it is EACCES and the caller owns the file; a directory answers ISDIR and other non-files INVAL; a non-RW export answers ROFS or DQUOT; a count past the data answers INVAL; a write past MaxOffsetWrite answers nfs3_Errno of the access outcome as written and INVAL as intended, with failure wcc data; otherwise the clamped size is written at the request's offset with the chosen stability, a zero size taking the error exit with a success status, and a successful write reports the bytes written and how they were committed |
| NinePHash.KeyOf | src/Protocols/9P/9p_hash_functions.c:209-213 | a fid's key is the connection's peer address and port with the fid |
| NinePHash.HashIndex | src/Protocols/9P/9p_hash_functions.c:72-78 | the bucket index is below the index size |
| NinePHash.RbtValue | src/Protocols/9P/9p_hash_functions.c:95-108 | the red-black tree value is computed in 32-bit arithmetic and so is below 2^32 |
| NinePHash.RbtValueCollides | src/Protocols/9P/9p_hash_functions.c:99-107 | the tree value is not injective: port and fid bits overlap, and the address's top byte is shifted out |
| NinePHash.CompareKeys | src/Protocols/9P/9p_hash_functions.c:125-133 | the comparison answers 0 exactly when address, port and fid are all equal, and 1 otherwise |
| NinePHash.CompareKeysConsistent | src/Protocols/9P/9p_hash_functions.c:125-133 | the comparison is reflexive, symmetric and transitive, agrees with key equality, and equal keys share their bucket and tree value |
| NinePHash.KeysSeparateFids | src/Protocols/9P/9p_hash_functions.c:125-133 | two fids' keys compare equal exactly when they come from the same connection and carry the same fid |
| NinePHash.Found | src/Protocols/9P/9p_hash_functions.c:215-220 | a lookup answers 0 and the stored fid when the key is present, -1 and nothing otherwise |
| NinePHash.FidTable.constructor | src/Protocols/9P/9p_hash_functions.c:192-202 | the fid table starts empty |
| NinePHash.FidTable.GetAsWritten | src/Protocols/9P/9p_hash_functions.c:205-221 | the lookup as written searches under whatever key buffer it was given, not the key it built |
| NinePHash.FidTable.Get | src/Protocols/9P/9p_hash_functions.c:205-221 | the corrected lookup searches under the key of the connection and fid |
| NinePHash.FidTable.Set | src/Protocols/9P/9p_hash_functions.c:241-265 | an allocation or table failure answers -1 and changes nothing; otherwise the fid is stored under its key, replacing any previous one, and the answer is 0 |
| NinePHash.FidTable.Del | src/Protocols/9P/9p_hash_functions.c:223-239 | the fid's key is removed; the answer is -1 exactly when it was absent, 0 otherwise |
| NinePHash.StoredFidIsFound | src/Protocols/9P/9p_hash_functions.c:205-265 | a stored fid is found under its key, a deleted one is not, and other keys are unaffected by either |
| NinePHash.GetAsWrittenMisses | src/Protocols/9P/9p_hash_functions.c:207-215 | after storing a fid, the as-written lookup with any other key buffer misses it while the corrected lookup finds it |
| PtFsal.WholePath | src/FSAL/FSAL_PT/pt_ganesha.c:23-34 | the whole path is the name under the root or an empty parent, else parent, slash and name |
| PtFsal.WholePathSplits | src/FSAL/FSAL_PT/pt_ganesha.c:28-32 | a joined path splits back into its parent, the slash and the name, so the join is injective in the name |
| PtFsal.CheckHandleIndex | src/FSAL/FSAL_PT/pt_ganesha.c:179-188 | 0 exactly when the index is within the stream table (regular plus CIFS-reserved streams), -1 otherwise |
| PtFsal.Bytes | src/FSAL/FSAL_PT/pt_ganesha.c:84 | a fixed-width field as memcmp sees it: the string's bytes, zero-padded to the width |
| PtFsal.BytesOfBytes | src/FSAL/FSAL_PT/pt_ganesha.c:84 | padding is idempotent and a string compares equal to its padded form |
| PtFsal.FirstMatch | src/FSAL/FSAL_PT/pt_ganesha.c:82-88 | the index of the first entry that matches, with no earlier match; none exactly when no entry matches |
| PtFsal.FirstMatchAt | src/FSAL/FSAL_PT/pt_ganesha.c:82-88 | an index that matches, with no earlier match, is the first match |
| PtFsal.CountAfterAsWrittenEven | src/FSAL/FSAL_PT/pt_ganesha.c:46-50 | as written, each insertion advances the slot index by two until it reaches the array size |
| PtFsal.InsertAsWrittenOverruns | src/FSAL/FSAL_PT/pt_ganesha.c:103-107 | as written, after (size+1)/2 insertions the slot index is the array size or one past it, outside the array |
| PtFsal.InsertSlot | src/FSAL/FSAL_PT/pt_ganesha.c:103-107 | the corrected slot index stays inside the array and advances by one while there is room |
| PtFsal.CountAfterCycles | src/FSAL/FSAL_PT/pt_ganesha.c:103-107 | with the corrected index, k insertions into a fresh cache fill slots 1..k and the size-th insertion wraps to slot 0 |
| PtFsal.Inserted | src/FSAL/FSAL_PT/pt_ganesha.c:103-113 | an insertion keeps the cache well formed and moves the slot index as the corrected rule says |
| PtFsal.NameLookup | src/FSAL/FSAL_PT/pt_ganesha.c:66-121 | a cached handle answers 0 with the first matching entry's name and no backend call; otherwise the backend answers, and its name is cached only when it answers 0 |
| PtFsal.LookupCachesName | src/FSAL/FSAL_PT/pt_ganesha.c:66-121 | after a lookup that answers 0, the same handle is answered from the cache with the same name |
| PtFsal.RenamedInCache | src/FSAL/FSAL_PT/pt_ganesha.c:124-142 | only the first entry whose name is the old name is renamed and the answer is 0; with no such entry the answer is -1; every other entry is unchanged |
| PtFsal.RemovedFromCache | src/FSAL/FSAL_PT/pt_ganesha.c:145-175 | only the first matching entry (by handle, or by the first handle-size bytes of its name) becomes the "0" placeholder; every other entry is unchanged |
| PtFsal.LookupKeepsUnique | src/FSAL/FSAL_PT/pt_ganesha.c:66-121 | a lookup keeps every real handle in at most one entry |
| PtFsal.InsertKeepsUnique | src/FSAL/FSAL_PT/pt_ganesha.c:103-113 | inserting a handle not yet cached keeps every real handle in at most one entry |
| PtFsal.RenameKeepsUnique | src/FSAL/FSAL_PT/pt_ganesha.c:124-142 | renaming an entry keeps handles unique |
| PtFsal.RemoveKeepsUnique | src/FSAL/FSAL_PT/pt_ganesha.c:145-175 | removing an entry keeps handles unique |
| PtFsal.RemoveByHandleForgets | src/FSAL/FSAL_PT/pt_ganesha.c:145-159 | once a real handle is removed, a lookup by that handle misses |
| PtFsal.PathRemovalComparesPrefix | src/FSAL/FSAL_PT/pt_ganesha.c:165 | removal by path matches any entry whose name shares the path's first handle-size bytes, even a different longer name |
| PtFsal.CacheNameAndHandleSpec | src/FSAL/FSAL_PT/pt_ganesha.c:37-63 | caching a name and handle keeps the cache well formed |
| PtFsal.CacheNameAndHandleCaches | src/FSAL/FSAL_PT/pt_ganesha.c:37-63 | after caching a handle the backend could not name, the handle is answered from the cache |
| PtFsal.RenameSpec | src/FSAL/FSAL_PT/pt_ganesha.c:191-236 | a rename fails with the first failing parent lookup; otherwise it answers the backend rename's code on the two whole paths and renames the cache entry only when that code is 0 |
| PtFsal.UnlinkSpec | src/FSAL/FSAL_PT/pt_ganesha.c:568-598 | an unlink (or an rmdir, pt_ganesha.c:699-727, given `ccl_rmdir` as the library call) fails with a failing parent lookup; otherwise it answers the backend unlink's code and removes the whole path's cache entry whatever that code is |
| PtFsal.PathOpsKeepUnique | src/FSAL/FSAL_PT/pt_ganesha.c:37-598 | rename, unlink and caching each keep handles unique in the cache |
| PtFsal.NameCache.constructor | src/FSAL/FSAL_PT/pt_ganesha.c:37-63 | a fresh cache has every entry empty and the slot index at 0 |
| PtFsal.NameCache.FindFirst | src/FSAL/FSAL_PT/pt_ganesha.c:82-88 | the scan over the cache array finds the first matching entry |
| PtFsal.NameCache.Insert | src/FSAL/FSAL_PT/pt_ganesha.c:103-113 | the array and slot index change exactly as the corrected insertion says |
| PtFsal.NameCache.GetNameFromHandle | src/FSAL/FSAL_PT/pt_ganesha.c:66-121 | the answer, the name and the new cache are those of the lookup specification |
| PtFsal.NameCache.CacheNameAndHandle | src/FSAL/FSAL_PT/pt_ganesha.c:37-63 | always answers 0, and the cache changes as its specification says |
| PtFsal.NameCache.UpdateCacheName | src/FSAL/FSAL_PT/pt_ganesha.c:124-142 | the answer and the cache are those of the rename-in-cache specification |
| PtFsal.NameCache.Remove | src/FSAL/FSAL_PT/pt_ganesha.c:145-175 | the cache changes exactly as the removal specification says |
| PtFsal.NameCache.Rename | src/FSAL/FSAL_PT/pt_ganesha.c:191-236 | the answer and the cache are those of the rename specification |
| PtFsal.NameCache.Unlink | src/FSAL/FSAL_PT/pt_ganesha.c:568-598 | the answer and the cache are those of the unlink specification; with `ccl_rmdir` as the library call it is `ptfsal_rmdir` (pt_ganesha.c:699-727) |
| PtFsal.FullChunksBounds | src/FSAL/FSAL_PT/pt_ganesha.c:750-765 | the full chunks fit in the size and leave a remainder of at most one chunk |
| PtFsal.ChunksCover | src/FSAL/FSAL_PT/pt_ganesha.c:750-765 | the chunks are nonempty, at most 262144 bytes, all but the last full, consecutive in the buffer and in the file, and together cover exactly the requested size |
| PtFsal.Transfer | src/FSAL/FSAL_PT/pt_ganesha.c:769-806 | the loop issues exactly the chunk sequence and answers the requested size whatever the chunk calls return |

## Left out

- Threads, condition variables, barriers and mutexes. Each thread body is one pass of a method, and each locked region is the atomic body of a method. The per-thread re-initialisation of every synclet and the thread prologues are plumbing.
- The filler's blocking wait is not modelled as a loop. `Filler.FillerData.Pass` is one iteration, and it reports whether the filler would wait. The wait loop re-tests its local occupancy copies, which are never re-read, so once entered it can only be left by a signal that changes nothing it tests. That liveness question is outside a one-pass model.
- The LRU list and preallocated-pool implementations are not part of this model. They are modelled by their observable operations: append, invalidate and garbage collect. Whether `LRU_new_entry` or a pool allocation succeeds is an input.
- A filler's pool of precreated-object records (`pool_precreated_objects`) is not modelled as state:
  - In re-adoption, whether `GetFromPool` hands out a record is an input per listed entry (`Filler.Listed`).
  - In a fill, a failed `GetFromPool` or `LRU_new_entry` ends in `exit(1)`. The model assumes it does not happen.
  - The `ReleaseToPool` of a taken record in create and mkdir has no modelled effect.
- The staging-directory initialisation is given as a status. It is a sequence of backend lookups and mkdirs ending in `exit(1)`.
- `Filler.DispatchObjects` assumes every staging directory fits in one readdir batch (`Filler.OneBatch`), so one round of listing reaches its end. Multi-batch listing is not modelled.
- Bytes that a recycled descriptor keeps from an operation of another kind are modelled as absent (`None`). Only a same-kind leftover is tracked.
- Logging, `print_pending_op` and the display helpers of the 9P hash are not modelled. They are formatting only.
- Attribute fields are unbounded integers. The widths in `fsal_types.h` are not part of this model, so no wrap-around of filesize or numlinks is modelled.
- `nfs3_Errno`, `nfs_RetryableError`, the xattr handlers, the handle-to-entry lookup and the quota check are inputs of the NFSv3 models. The NFSv2 branch, the write verifier bytes and the wcc attribute contents are not modelled. Wcc data is recorded only as present for success or failure.
- Nfs3Write.NfsWrite: models a build without `_USE_QUOTA`, so the quota check that answers NFS3ERR_DQUOT in such builds is absent.
- The hash-table implementation behind the 9P fid table is a map. `_9p_hash_fid_init`'s table parameters are not modelled.
- PT FSAL:
  - `PATH_MAX` truncation by `strncpy` is not modelled.
  - The constants of `pt_ganesha.h` (cache size, handle size, stream counts) are not part of this model and are parameters.
  - Strings compared with `memcmp` are compared over their zero-padded first bytes.
  - The `ccl_*` library calls are function parameters.
  - The other PT wrappers (stat, open, chmod, fsinfo) are foreign calls and are not modelled.
- The pass-through wrappers of `mfsl_async2.c` and `mfsl_async.c` (read, write, open, readdir, locks, symlink, and so on) only forward to the FSAL. They are not modelled.
- The stub dispatcher of `mfsl_async2_dispatcher.c` and the second type header of `MFSL_ASYNC2` (which numbers CREATE and MKDIR the other way round) are not modelled.
- Filler.FillerData.Fill: the list-mode count is the intended `Filler.FillCount`. As written, the unsigned difference wraps when a pool holds more live objects than its capacity (`Filler.FillCountWrapOverfills`), which only re-adoption can bring about; at or below capacity both agree (`Filler.FillCountAgrees`).
- Filler.FillerData.Pass: refills with the intended count of `Filler.FillerData.Fill`.
- Filler.FillAt: fills with the intended count of `Filler.FillerData.Fill`.
- Filler.FillBoth: fills with the intended count of `Filler.FillerData.Fill`.
- Filler.InitObjects: fills with the intended count of `Filler.FillerData.Fill`, although re-adoption can leave a pool above its capacity, where the count as written wraps.
- Filler.FillerData.GetPrecreatedObject: with no live object in the pool, the scan as written reads `valid_state` through NULL (`Filler.FirstValidAsWrittenFaults`), which C leaves undefined. The model follows the intended fall-through to the creation on the fly.
- Filler.Taken: follows the intended fall-through of `Filler.FillerData.GetPrecreatedObject` for a pool with no live object.
- Create.MfslCreate: takes its precreated file with the intended fall-through of `Filler.FillerData.GetPrecreatedObject`.
- Mkdir.MfslMkdir: takes its precreated directory with the intended fall-through of `Filler.FillerData.GetPrecreatedObject`.
- Link.MfslLink: requires that the attribute pointers it dereferences after a passed sanity check are set (`Link.DirsGiven`); dereferencing NULL there is undefined in C.
- Link.LinkChecks: requires the same pointers as `Link.MfslLink`.
- PtFsal.InsertSlot: as written the slot index can pass the end of the array (`PtFsal.InsertAsWrittenOverruns`), and the write there is undefined in C. Every cache operation uses the corrected index.
- PtFsal.NameLookup: caches a name with the corrected slot index of `PtFsal.InsertSlot`.
- PtFsal.LookupCachesName: holds for the corrected slot index of `PtFsal.InsertSlot`.
- PtFsal.CacheNameAndHandleSpec: caches with the corrected slot index of `PtFsal.InsertSlot`.
- PtFsal.CacheNameAndHandleCaches: holds for the corrected slot index of `PtFsal.InsertSlot`.
- PtFsal.RenameSpec: its lookups cache with the corrected slot index of `PtFsal.InsertSlot`.
- PtFsal.UnlinkSpec: its lookups cache with the corrected slot index of `PtFsal.InsertSlot`.
- PtFsal.NameCache.Insert: uses the corrected slot index of `PtFsal.InsertSlot`.
- PtFsal.NameCache.GetNameFromHandle: caches with the corrected slot index of `PtFsal.InsertSlot`.
- PtFsal.NameCache.CacheNameAndHandle: caches with the corrected slot index of `PtFsal.InsertSlot`.
- PtFsal.NameCache.Rename: its lookups cache with the corrected slot index of `PtFsal.InsertSlot`.
- PtFsal.NameCache.Unlink: its lookups cache with the corrected slot index of `PtFsal.InsertSlot`.
- PtFsal.Transfer: the sizes and the answer are unbounded naturals. The `int` and `size_t` widths of the C code are not modelled.
- Pipeline.OpFunc: answers FAULT for a descriptor no entry point builds (its argument, result or guess variants disagree with its operation). C has no such case: it would call the function pointer on mismatched unions. The answer only makes the function total.
- MfslObjects.IsSynchronous is a predicate with no contract of its own. It is exactly the source's test, and `MfslTypes.MfslObject.RecordLastOp` states how its input changes.

## Findings

| source | as written | input that shows it | evidently intended | confidence | as-written member | corrected member |
|---|---|---|---|---|---|---|
| src/MFSL/MFSL_ASYNC/mfsl_async_dispatcher.c:195-199 | the window test also compares the elapsed microseconds field against `async_window_sec`; `async_window_usec` is never read | window 1 s 0 µs, elapsed 2 s 0 µs: the µs field 0 is below 1, so the entry is held; it is held in any pass whose elapsed µs field is below `async_window_sec` | hand off once the elapsed time is at least the window | high, not executed | Dispatcher.WindowAsWrittenDisagrees | Dispatcher.OutOfWindowMeansElapsed |
| src/MFSL/MFSL_ASYNC2/mfsl_async2_filler.c:552-558 | the refill count subtracts the occupancy from the capacity in unsigned arithmetic | capacity 10, 11 live objects, 5 asked: the wrapped difference lets 5 objects in | never refill past the capacity | medium, not executed | Filler.FillCountWrapOverfills | Filler.FillCountBounds |
| src/MFSL/MFSL_ASYNC2/mfsl_async2_filler.c:354-436 | `eod` is reset only before the files pass, so after filler 0 the directories loop starts with `eod` already true | two fillers, each with one precreated directory: filler 1's directory is never re-adopted | re-adopt every filler's directories | high, not executed | Filler.ReadoptionSkipsDirs | Filler.DispatchObjects |
| src/MFSL/MFSL_ASYNC2/mfsl_async2_filler.c:875-887 | the loop test reads `valid_state` before testing the entry pointer for NULL, so a scan that finds no valid entry reads `valid_state` through NULL and the create-on-demand branch cannot be reached | an empty pool (the first read is already through NULL), or one whose every entry is invalid | fall through to the create-on-demand branch | high, not executed | Filler.FirstValidAsWrittenFaults | Filler.FillerData.GetPrecreatedObject |
| src/MFSL/MFSL_ASYNC/mfsl_async_rename.c:204-218 | the −1/+1 size deltas are applied when `FSAL_handlecmp` answers 0, that is when the two directories are the same | a rename within one directory: the source copy of its guessed size drops by 1 and the target copy rises by 1, so the two guesses for one directory disagree; a rename between two directories changes neither size | apply the deltas only when the directories differ, as the synchronous `MFSL_rename` does | high, not executed | Rename.RenameGuessAsWrittenWrong | Rename.RenameGuessSameDir |
| src/MFSL/MFSL_ASYNC2/mfsl_async2_unlink.c:137-181 | `related_synclet_index` is never assigned, so the dispatcher routes the descriptor with whatever index it held before | a recycled descriptor whose index is past the number of synclets | choose a synclet with `MFSL_async_choose_synclet` | high, not executed | Unlink.UnlinkAsWrittenUnroutable | Unlink.UnlinkRoutable |
| src/MFSL/MFSL_ASYNC2/mfsl_async2_link.c:135-185 | `related_synclet_index` is never assigned | a recycled descriptor whose index is past the number of synclets | choose a synclet with `MFSL_async_choose_synclet` | high, not executed | Link.LinkAsWrittenUnroutable | Link.LinkRoutable |
| src/MFSL/MFSL_ASYNC2/mfsl_async2_link.c:104-119 | the sanity check tests `p_attr_destdir` before it is assigned | context and directory attributes present, stray local NULL: FAULT | test the directory attributes in `pextra` | high, not executed | Link.LinkRefusedAsWrittenSpurious | Link.LinkChecks |
| src/Protocols/NFS/nfs3_Write.c:281-283 | NFS3ERR_INVAL is stored and at once overwritten with `nfs3_Errno(cache_status)`, which then holds the access outcome | a write past MaxOffsetWrite by a caller whose access check succeeded | reply NFS3ERR_INVAL | high, not executed | Nfs3Write.OffsetStatusAsWrittenHidesViolation | Nfs3Write.NfsWrite |
| src/Protocols/9P/9p_hash_functions.c:207-215 | `_9p_hash_fid_get` builds the key but never points `buffkey` at it before the lookup | a stored fid looked up through an uninitialised key buffer | look up under the key just built | high, not executed | NinePHash.GetAsWrittenMisses | NinePHash.StoredFidIsFound |
| src/FSAL/FSAL_PT/pt_ganesha.c:103-107 | the slot index is incremented in the test and again in the else branch, and it wraps only once it is at least the cache size | cache of 3 entries: after 2 insertions the slot index is 4, past the array | advance the slot by one and wrap inside the array | high, not executed | PtFsal.InsertAsWrittenOverruns | PtFsal.CountAfterCycles |
