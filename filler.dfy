/*
 * The fillers (mfsl_async2_filler.c): one per worker, each keeps a pool of
 * precreated directories and a pool of precreated files, so that create and
 * mkdir only have to rename an existing object into place.
 *
 * The backend's answers enter as parameters: a creation outcome per object
 * (the handle and attributes FSAL_mkdir or FSAL_create returns, or None on
 * error), the gettimeofday reading per object that names it, and the status
 * and entries of each staging-directory listing.
 */
module Filler {
  import opened Fsal
  import opened TimeVals
  import opened PendingLists
  import opened MfslTypes
  import opened Variants

  /* ---------------------------------------------------------------------- */
  /* Names of precreated objects: sprintf("%ld.%ld", tv_sec, tv_usec)       */

  function Digit(d: nat): (c: char)
    requires d < 10
    ensures '0' <= c <= '9'
  {
    (48 + d) as char
  }

  /** The decimal spelling of n, without leading zeros. */
  function Decimal(n: nat): (r: string)
    ensures |r| >= 1
    ensures forall i :: 0 <= i < |r| ==> '0' <= r[i] <= '9'
    decreases n
  {
    if n < 10 then [Digit(n)] else Decimal(n / 10) + [Digit(n % 10)]
  }

  /** %ld */
  function Long(n: int): (r: string)
    ensures forall i :: 0 <= i < |r| ==> r[i] != '.'
  {
    if n < 0 then "-" + Decimal(-n) else Decimal(n)
  }

  /** The staging name of an object created at time t. */
  function FillName(t: TimeVal): Name
  {
    Long(t.sec) + "." + Long(t.usec)
  }

  /** Only the numbers below ten are spelt with one digit. */
  lemma DecimalLength(n: nat)
    ensures |Decimal(n)| == 1 <==> n < 10
  {
    if n >= 10 {
      assert |Decimal(n)| == |Decimal(n / 10)| + 1;
    }
  }

  /** Different numbers have different decimal spellings. */
  lemma {:induction false} DecimalInjective(a: nat, b: nat)
    requires Decimal(a) == Decimal(b)
    ensures a == b
    decreases a
  {
    DecimalLength(a);
    DecimalLength(b);
    if a >= 10 {
      var r := Decimal(a);
      assert r[..|r| - 1] == Decimal(a / 10);
      assert Decimal(b)[..|r| - 1] == Decimal(b / 10);
      DecimalInjective(a / 10, b / 10);
      assert Digit(a % 10) == r[|r| - 1] == Digit(b % 10);
    }
  }

  /** A %ld spelling starts with a minus sign exactly when the number is negative. */
  lemma LongSign(n: int)
    ensures |Long(n)| >= 1
    ensures Long(n)[0] == '-' <==> n < 0
  {
  }

  /** Different integers have different %ld spellings. */
  lemma LongInjective(a: int, b: int)
    requires Long(a) == Long(b)
    ensures a == b
  {
    LongSign(a);
    LongSign(b);
    if a < 0 {
      assert Long(a)[1..] == Decimal(-a);
      assert Long(b)[1..] == Decimal(-b);
      DecimalInjective(-a, -b);
    } else {
      DecimalInjective(a, b);
    }
  }

  /** The position of the first dot of s, or |s| when there is none. */
  function FirstDot(s: string): nat
  {
    if s == [] then 0 else if s[0] == '.' then 0 else 1 + FirstDot(s[1..])
  }

  /** A dot-free head followed by a dot: the first dot is right after the head. */
  lemma {:induction false} FirstDotAfterHead(x: string, y: string)
    requires forall i :: 0 <= i < |x| ==> x[i] != '.'
    ensures FirstDot(x + "." + y) == |x|
  {
    if x != [] {
      assert (x + "." + y)[1..] == x[1..] + "." + y;
      FirstDotAfterHead(x[1..], y);
    }
  }

  /** A string is cut at its first dot. */
  lemma SplitAtDot(x1: string, y1: string, x2: string, y2: string)
    requires forall i :: 0 <= i < |x1| ==> x1[i] != '.'
    requires forall i :: 0 <= i < |x2| ==> x2[i] != '.'
    requires x1 + "." + y1 == x2 + "." + y2
    ensures x1 == x2 && y1 == y2
  {
    var s := x1 + "." + y1;
    FirstDotAfterHead(x1, y1);
    FirstDotAfterHead(x2, y2);
    assert x1 == s[..|x1|] == x2;
    assert y1 == s[|x1| + 1..] == y2;
  }

  /** Objects created at different instants get different staging names. */
  lemma FillNameInjective(t: TimeVal, u: TimeVal)
    requires FillName(t) == FillName(u)
    ensures t == u
  {
    SplitAtDot(Long(t.sec), Long(t.usec), Long(u.sec), Long(u.usec));
    LongInjective(t.sec, u.sec);
    LongInjective(t.usec, u.usec);
  }

  /* ---------------------------------------------------------------------- */
  /* How many objects a refill creates                                      */

  const UintRange: int := 0x1_0000_0000

  /**
   * The count of a list-mode refill as written: missing_in_lru is the
   * unsigned difference capacity - live count, which wraps around when the
   * pool holds more live objects than its capacity.
   */
  function FillCountAsWritten(remaining: nat, capacity: nat, number: nat): nat
    requires remaining < UintRange && capacity < UintRange
  {
    var missing := (capacity - remaining) % UintRange;
    if missing < number then missing else number
  }

  /** The intended count: what is missing below the capacity, at most number. */
  function FillCount(remaining: nat, capacity: nat, number: nat): nat
  {
    if remaining >= capacity then 0
    else if capacity - remaining < number then capacity - remaining
    else number
  }

  /** Below the capacity the code as written computes the intended count. */
  lemma FillCountAgrees(remaining: nat, capacity: nat, number: nat)
    requires remaining <= capacity < UintRange
    ensures FillCountAsWritten(remaining, capacity, number) == FillCount(remaining, capacity, number)
  {
  }

  /**
   * A refill never takes a pool past its capacity, never adds more than
   * asked, and fills it exactly to capacity when enough objects are asked.
   */
  lemma FillCountBounds(remaining: nat, capacity: nat, number: nat)
    ensures FillCount(remaining, capacity, number) <= number
    ensures remaining < capacity ==> remaining + FillCount(remaining, capacity, number) <= capacity
    ensures remaining >= capacity ==> FillCount(remaining, capacity, number) == 0
    ensures remaining <= capacity && number >= capacity - remaining ==>
              remaining + FillCount(remaining, capacity, number) == capacity
  {
  }

  /**
   * A pool of capacity 10 holding 11 live objects (re-adoption adds every
   * object found on disk, whatever the capacity) is asked for 5 more: as
   * written, 10 - 11 wraps to 2^32 - 1 and all 5 are created.
   */
  lemma FillCountWrapOverfills()
    ensures FillCountAsWritten(11, 10, 5) == 5
    ensures FillCount(11, 10, 5) == 0
  {
  }

  /* ---------------------------------------------------------------------- */
  /* Objects a refill creates                                               */

  /** What one FSAL_mkdir or FSAL_create returns on success. */
  datatype Created = Created(handle: Handle, attrs: Attrs)

  /** The two pools of a filler. */
  datatype PoolKind = DirsPool | FilesPool

  /** The number of creations, among the first todo, before the first failure. */
  function Succeeded(mk: nat -> Option<Created>, todo: nat): (n: nat)
    ensures n <= todo
    ensures forall i :: 0 <= i < n ==> mk(i).Some?
    ensures n < todo ==> mk(n).None?
  {
    if todo == 0 then 0
    else if Succeeded(mk, todo - 1) < todo - 1 then Succeeded(mk, todo - 1)
    else if mk(todo - 1).Some? then todo
    else todo - 1
  }

  /** The first n objects created, each named after its creation time. */
  function Made(clock: nat -> TimeVal, mk: nat -> Option<Created>, n: nat): (r: seq<Precreated>)
    requires forall i :: 0 <= i < n ==> mk(i).Some?
    ensures |r| == n
  {
    seq(n, i requires 0 <= i < n => Precreated(mk(i).value.handle, FillName(clock(i)), mk(i).value.attrs))
  }

  /** One more successful creation adds its object at the end. */
  lemma MadeStep(clock: nat -> TimeVal, mk: nat -> Option<Created>, n: nat)
    requires forall i :: 0 <= i <= n ==> mk(i).Some?
    ensures Made(clock, mk, n + 1)
            == Made(clock, mk, n) + [Precreated(mk(n).value.handle, FillName(clock(n)), mk(n).value.attrs)]
  {
  }

  /**
   * Created at distinct instants, the objects of a refill have distinct
   * staging names, so no creation collides with another one of the batch.
   */
  lemma MadeNamesDistinct(clock: nat -> TimeVal, mk: nat -> Option<Created>, n: nat)
    requires forall i :: 0 <= i < n ==> mk(i).Some?
    requires forall i, j :: 0 <= i < j < n ==> clock(i) != clock(j)
    ensures forall i, j :: 0 <= i < j < n ==>
              Made(clock, mk, n)[i].filename != Made(clock, mk, n)[j].filename
  {
    forall i, j | 0 <= i < j < n
      ensures Made(clock, mk, n)[i].filename != Made(clock, mk, n)[j].filename
    {
      if FillName(clock(i)) == FillName(clock(j)) {
        FillNameInjective(clock(i), clock(j));
      }
    }
  }

  /** A list-mode refill of s: the created objects appended, valid, in creation order. */
  function Refilled(s: seq<Slot<Precreated>>, capacity: nat, number: nat,
                    clock: nat -> TimeVal, mk: nat -> Option<Created>): seq<Slot<Precreated>>
  {
    s + Fresh(Made(clock, mk, Succeeded(mk, FillCount(Occupancy(s), capacity, number))))
  }

  /** Whether a list-mode refill of s creates every object it planned. */
  predicate RefillCompletes(s: seq<Slot<Precreated>>, capacity: nat, number: nat,
                            mk: nat -> Option<Created>)
  {
    var todo := FillCount(Occupancy(s), capacity, number);
    Succeeded(mk, todo) == todo
  }

  /**
   * A refill adds exactly the objects it created to the live count, keeps
   * the old live objects first, and never takes a pool below capacity past
   * it; when it completes and enough was asked, the pool is full.
   */
  lemma RefillAccounting(s: seq<Slot<Precreated>>, capacity: nat, number: nat,
                         clock: nat -> TimeVal, mk: nat -> Option<Created>)
    ensures var made := Made(clock, mk, Succeeded(mk, FillCount(Occupancy(s), capacity, number)));
            Occupancy(Refilled(s, capacity, number, clock, mk)) == Occupancy(s) + |made|
            && Payloads(Refilled(s, capacity, number, clock, mk)) == Payloads(s) + made
    ensures Occupancy(s) <= capacity ==>
              Occupancy(Refilled(s, capacity, number, clock, mk)) <= capacity
    ensures Occupancy(s) <= capacity && number >= capacity - Occupancy(s)
            && RefillCompletes(s, capacity, number, mk) ==>
              Occupancy(Refilled(s, capacity, number, clock, mk)) == capacity
  {
    var made := Made(clock, mk, Succeeded(mk, FillCount(Occupancy(s), capacity, number)));
    FreshAdds(s, made);
    FillCountBounds(Occupancy(s), capacity, number);
  }

  /* ---------------------------------------------------------------------- */
  /* Re-adoption of the objects left on disk                                */

  /** NB_DIRENT_CLEAN: the number of entries one FSAL_readdir call returns at most. */
  const NbDirentClean: nat := 100

  /**
   * One entry a staging-directory listing returns, with what adopting it
   * meets: whether GetFromPool hands out a precreated-object record
   * (record), and what LRU_new_entry answers on the pool's list (lru).
   */
  datatype Listed = Listed(obj: Precreated, record: bool, lru: Alloc)

  /**
   * The outcome of one opendir/readdir/closedir round on a staging
   * directory: the first error among the three calls, and the entries read.
   */
  datatype Listing = Listing(status: Status, entries: seq<Listed>)

  /** An entry is adopted when it gets both a record and a list entry. */
  predicate Admits(e: Listed)
  {
    e.record && e.lru.Granted?
  }

  /** The number of entries adopted before the first one refused. */
  function AdoptedCount(es: seq<Listed>): (n: nat)
    ensures n <= |es|
    ensures forall i :: 0 <= i < n ==> Admits(es[i])
    ensures n < |es| ==> !Admits(es[n])
  {
    if es == [] || !Admits(es[0]) then 0
    else
      var m := AdoptedCount(es[1..]);
      assert forall i :: 1 <= i < m + 1 ==> es[i] == es[1..][i - 1];
      m + 1
  }

  /** The objects an adoption round stores: those of the entries before the first one refused. */
  function Adopted(es: seq<Listed>): (r: seq<Precreated>)
    ensures |r| == AdoptedCount(es) <= |es|
    ensures forall i :: 0 <= i < |r| ==> r[i] == es[i].obj
  {
    seq(AdoptedCount(es), i requires 0 <= i < AdoptedCount(es) => es[i].obj)
  }

  /**
   * The status of an adoption round: success when every entry is adopted;
   * otherwise SERVERFAULT for the first entry refused, with minor 0 when
   * GetFromPool has no record left and with LRU_new_entry's status when
   * the list refuses the entry.
   */
  function AdoptStatus(es: seq<Listed>): (st: Status)
    ensures !IsError(st) <==> Adopted(es) == Objects(es)
    ensures !IsError(st) ==> st == Success
    ensures IsError(st) ==>
              var e := es[AdoptedCount(es)];
              st.major == ServerFault && !Admits(e)
              && st.minor == (if e.record then e.lru.lruStatus else 0)
  {
    var n := AdoptedCount(es);
    if n == |es| then
      assert Adopted(es) == Objects(es);
      Success
    else
      assert |Adopted(es)| != |Objects(es)|;
      var e := es[n];
      if !e.record then Status(ServerFault, 0) else Status(ServerFault, e.lru.lruStatus)
  }

  /** The objects of every entry of a listing. */
  function Objects(es: seq<Listed>): (r: seq<Precreated>)
    ensures |r| == |es|
  {
    seq(|es|, i requires 0 <= i < |es| => es[i].obj)
  }

  /** The status of one listing round together with the adoptions it leads to. */
  function RoundStatus(l: Listing): (st: Status)
    ensures !IsError(st) <==> !IsError(l.status) && Adopted(l.entries) == Objects(l.entries)
    ensures !IsError(st) ==> st == Success
  {
    if IsError(l.status) then l.status else AdoptStatus(l.entries)
  }

  /** The objects one listing round adds to its pool: none when the listing fails. */
  function RoundAdopted(l: Listing): seq<Precreated>
  {
    if IsError(l.status) then [] else Adopted(l.entries)
  }

  /**
   * Which fillers get their directories re-adopted, as written: eod carries
   * over from one filler to the next and is reset only before the files, so
   * the directories loop runs for filler 0 only (every listing reports the
   * end of the directory in its first batch).
   */
  function DirsReadoptedAsWritten(nbFillers: nat): (r: seq<bool>)
    ensures |r| == nbFillers
  {
    if nbFillers == 0 then []
    else
      var eodBefore := nbFillers - 1 > 0;   // set by the files pass of the previous filler
      DirsReadoptedAsWritten(nbFillers - 1) + [!eodBefore]
  }

  /** As written, filler 0 gets its precreated directories back and no other filler does. */
  lemma {:induction false} ReadoptionSkipsDirs(nbFillers: nat)
    requires nbFillers >= 1
    ensures DirsReadoptedAsWritten(nbFillers)[0]
    ensures forall i :: 1 <= i < nbFillers ==> !DirsReadoptedAsWritten(nbFillers)[i]
  {
    if nbFillers > 1 {
      ReadoptionSkipsDirs(nbFillers - 1);
      assert DirsReadoptedAsWritten(nbFillers)[..nbFillers - 1]
             == DirsReadoptedAsWritten(nbFillers - 1);
    }
  }

  /** The intended re-adoption: every filler lists both its staging directories. */
  function DirsReadopted(nbFillers: nat): (r: seq<bool>)
    ensures |r| == nbFillers
    ensures forall i :: 0 <= i < nbFillers ==> r[i]
  {
    seq(nbFillers, i => true)
  }

  /** Whether filler k of n runs its directories round, in reading v. */
  function DirsRoundRuns(v: Variant, n: nat, k: nat): bool
    requires k < n
  {
    if v == AsWritten then DirsReadoptedAsWritten(n)[k] else DirsReadopted(n)[k]
  }

  /**
   * The status of filler k's re-adoption: that of its directories round
   * when the round runs and fails, else that of its files round.
   */
  function FillerStatus(v: Variant, dirL: seq<Listing>, fileL: seq<Listing>, k: nat): Status
    requires k < |dirL| == |fileL|
  {
    if DirsRoundRuns(v, |dirL|, k) && IsError(RoundStatus(dirL[k])) then RoundStatus(dirL[k])
    else RoundStatus(fileL[k])
  }

  /** Re-adoption succeeds for every filler before k. */
  predicate ReadoptOkBefore(v: Variant, dirL: seq<Listing>, fileL: seq<Listing>, k: nat)
    requires k <= |dirL| == |fileL|
  {
    forall j :: 0 <= j < k ==> !IsError(FillerStatus(v, dirL, fileL, j))
  }

  /** Re-adoption succeeds for every filler from k on. */
  predicate ReadoptOkFrom(v: Variant, dirL: seq<Listing>, fileL: seq<Listing>, k: nat)
    requires k <= |dirL| == |fileL|
  {
    forall j :: k <= j < |dirL| ==> !IsError(FillerStatus(v, dirL, fileL, j))
  }

  /** The status of re-adoption from filler k on: that of the first filler whose re-adoption fails. */
  function ReadoptStatus(v: Variant, dirL: seq<Listing>, fileL: seq<Listing>, k: nat): (st: Status)
    requires k <= |dirL| == |fileL|
    ensures !IsError(st) <==> ReadoptOkFrom(v, dirL, fileL, k)
    ensures !IsError(st) ==> st == Success
    decreases |dirL| - k
  {
    if k == |dirL| then Success
    else if IsError(FillerStatus(v, dirL, fileL, k)) then FillerStatus(v, dirL, fileL, k)
    else ReadoptStatus(v, dirL, fileL, k + 1)
  }

  /* ---------------------------------------------------------------------- */
  /* Taking a precreated object                                             */

  /** Where the scan for the first valid entry ends. */
  datatype ScanOutcome = Found(index: nat) | NullDeref

  /**
   * The scan of MFSL_async_get_precreated_object as written: its loop test
   * reads valid_state before testing the entry pointer for NULL, so a list
   * with no valid entry ends in a NULL dereference rather than at the end.
   */
  function FirstValidAsWritten<T>(s: seq<Slot<T>>, i: nat): ScanOutcome
    requires i <= |s|
    decreases |s| - i
  {
    if i == |s| then NullDeref
    else if s[i].valid then Found(i)
    else FirstValidAsWritten(s, i + 1)
  }

  /** The scan from entry i finds the first valid entry from i on, or dereferences NULL when there is none. */
  lemma {:induction false} FirstValidFrom<T>(s: seq<Slot<T>>, i: nat)
    requires i <= |s|
    ensures FirstValidAsWritten(s, i).NullDeref? <==> forall j :: i <= j < |s| ==> !s[j].valid
    ensures FirstValidAsWritten(s, i).Found? ==>
              var k := FirstValidAsWritten(s, i).index;
              i <= k < |s| && s[k].valid && forall j :: i <= j < k ==> !s[j].valid
    decreases |s| - i
  {
    if i < |s| && !s[i].valid {
      FirstValidFrom(s, i + 1);
    }
  }

  /**
   * As written, the scan dereferences NULL exactly when the pool has no live
   * object, which is exactly when the create-on-the-fly branch that follows
   * it was meant to run: that branch is unreachable.  Otherwise it finds the
   * first live object, whose payload heads the live payloads.
   */
  lemma FirstValidAsWrittenFaults<T>(s: seq<Slot<T>>)
    ensures FirstValidAsWritten(s, 0).NullDeref? <==> Occupancy(s) == 0
    ensures FirstValidAsWritten(s, 0).Found? ==>
              var k := FirstValidAsWritten(s, 0).index;
              k < |s| && s[k].valid && Payloads(s) != [] && Payloads(s)[0] == s[k].payload
              && Payloads(Invalidated(s, k)) == Payloads(s)[1..]
  {
    FirstValidFrom(s, 0);
    EmptyIffNoneValid(s);
    if FirstValidAsWritten(s, 0).Found? {
      InvalidatedFirst(s, FirstValidAsWritten(s, 0).index);
    }
  }

  /** The index of the first live entry of a pool that has one. */
  function FirstLive<T>(s: seq<Slot<T>>): (k: nat)
    requires Occupancy(s) > 0
    ensures k < |s| && s[k].valid && forall j :: 0 <= j < k ==> !s[j].valid
    ensures Payloads(s) != [] && Payloads(s)[0] == s[k].payload
    ensures Payloads(Invalidated(s, k)) == Payloads(s)[1..]
  {
    FirstValidFrom(s, 0);
    FirstValidAsWrittenFaults(s);
    FirstValidAsWritten(s, 0).index
  }

  /**
   * The object MFSL_async_get_precreated_object hands out from pool s: the
   * first live object, else one made on demand, else none.
   */
  function Taken(s: seq<Slot<Precreated>>, clock: nat -> TimeVal, mk: nat -> Option<Created>)
    : (r: Option<Precreated>)
    ensures r.None? <==> Occupancy(s) == 0 && mk(0).None?
    ensures Occupancy(s) > 0 ==> r == Some(s[FirstLive(s)].payload)
  {
    if Occupancy(s) > 0 then Some(s[FirstLive(s)].payload)
    else if mk(0).Some? then Some(Precreated(mk(0).value.handle, FillName(clock(0)), mk(0).value.attrs))
    else None
  }

  /** Pool s after a take: its first live entry invalidated, if it has one. */
  function AfterTake(s: seq<Slot<Precreated>>): (r: seq<Slot<Precreated>>)
    ensures Occupancy(s) > 0 ==>
              r == Invalidated(s, FirstLive(s))
              && Occupancy(r) == Occupancy(s) - 1 && Payloads(r) == Payloads(s)[1..]
    ensures Occupancy(s) == 0 ==> r == s
  {
    if Occupancy(s) > 0 then
      var k := FirstLive(s);
      InvalidatedDrops(s, k);
      Invalidated(s, k)
    else s
  }

  /** The signals a take sends the filler: on falling below the watermark, or on running dry. */
  function TakeSignals(s: seq<Slot<Precreated>>, watermark: nat, mk: nat -> Option<Created>): nat
  {
    if Occupancy(s) > 0 then (if Occupancy(s) - 1 < watermark then 1 else 0)
    else if mk(0).Some? then 1 else 0
  }

  /** The pool a node type is taken from, if any. */
  function PoolOf(t: NodeType): Option<PoolKind>
  {
    if t == File then Some(FilesPool) else if t == Dir then Some(DirsPool) else None
  }

  /* ---------------------------------------------------------------------- */
  /* The filler                                                             */

  /**
   * mfsl_filler_data_t with its precreated_object_pool.  A lock flag is true
   * while the pool's mutex is held; fill leaves it held when a creation
   * fails, and the next attempt to take it would block for ever.
   */
  class FillerData {
    const index: nat
    const dirsPoolHandle: Handle
    const filesPoolHandle: Handle
    var dirs: seq<Slot<Precreated>>
    var files: seq<Slot<Precreated>>
    var dirsLocked: bool
    var filesLocked: bool
    var wakeups: nat                 // signals on watermark_condvar

    constructor (i: nat, dirsHandle: Handle, filesHandle: Handle)
      ensures index == i && dirsPoolHandle == dirsHandle && filesPoolHandle == filesHandle
      ensures dirs == [] && files == [] && !dirsLocked && !filesLocked && wakeups == 0
    {
      index := i;
      dirsPoolHandle := dirsHandle;
      filesPoolHandle := filesHandle;
      dirs := [];
      files := [];
      dirsLocked := false;
      filesLocked := false;
      wakeups := 0;
    }

    function Pool(kind: PoolKind): seq<Slot<Precreated>>
      reads this
    {
      if kind == DirsPool then dirs else files
    }

    predicate Locked(kind: PoolKind)
      reads this
    {
      if kind == DirsPool then dirsLocked else filesLocked
    }

    /**
     * MFSL_async_filler_fill_directories (DirsPool) and
     * MFSL_async_filler_fill_files (FilesPool).  In list mode the pool lock
     * is taken and the refill count computed from the live count; in caller
     * mode exactly number objects are made and handed back, the pool
     * untouched.  Objects are created one by one; the first failure ends the
     * fill with 1, keeping what was made so far and, in list mode, the lock.
     */
    method Fill(kind: PoolKind, number: nat, toCaller: bool, capacity: nat,
                clock: nat -> TimeVal, mk: nat -> Option<Created>)
      returns (rc: int, objs: seq<Precreated>)
      requires !toCaller ==> !Locked(kind)
      modifies this`dirs, this`files, this`dirsLocked, this`filesLocked
      ensures var todo := if toCaller then number
                          else FillCount(Occupancy(old(Pool(kind))), capacity, number);
              var made := Made(clock, mk, Succeeded(mk, todo));
              (rc == 0 <==> Succeeded(mk, todo) == todo)
              && (rc != 0 ==> rc == 1)
              && (toCaller ==> objs == made && Pool(kind) == old(Pool(kind))
                               && Locked(kind) == old(Locked(kind)))
              && (!toCaller ==> objs == [] && Pool(kind) == old(Pool(kind)) + Fresh(made)
                                && Locked(kind) == (rc != 0))
      ensures kind == DirsPool ==> files == old(files) && filesLocked == old(filesLocked)
      ensures kind == FilesPool ==> dirs == old(dirs) && dirsLocked == old(dirsLocked)
    {
      var todo;
      if !toCaller {
        if kind == DirsPool { dirsLocked := true; } else { filesLocked := true; }
        todo := FillCount(Occupancy(Pool(kind)), capacity, number);
      } else {
        todo := number;
      }
      ghost var s0 := Pool(kind);
      var made: seq<Precreated> := [];
      var n := 0;
      while n < todo
        invariant 0 <= n <= todo
        invariant forall i :: 0 <= i < n ==> mk(i).Some?
        invariant made == Made(clock, mk, n)
        invariant Pool(kind) == s0 + (if toCaller then [] else Fresh(made))
        invariant Locked(kind) == (!toCaller || old(Locked(kind)))
        invariant kind == DirsPool ==> files == old(files) && filesLocked == old(filesLocked)
        invariant kind == FilesPool ==> dirs == old(dirs) && dirsLocked == old(dirsLocked)
      {
        var outcome := mk(n);
        if outcome.None? {
          // The lock stays held in list mode.
          SucceededStops(mk, todo, n);
          return 1, if toCaller then made else [];
        }
        var obj := Precreated(outcome.value.handle, FillName(clock(n)), outcome.value.attrs);
        MadeStep(clock, mk, n);
        if !toCaller {
          Push(kind, obj);
          assert Fresh(made + [obj]) == Fresh(made) + [Slot(obj, true)];
        }
        made := made + [obj];
        n := n + 1;
      }
      SucceededStops(mk, todo, n);
      if !toCaller {
        if kind == DirsPool { dirsLocked := false; } else { filesLocked := false; }
      }
      objs := if toCaller then made else [];
      rc := 0;
    }

    /**
     * MFSL_async_get_precreated_object, with the scan stopping at the end of
     * the list: a FILE comes from the files pool, a DIR from the directories
     * pool, any other type is INVAL.  The first live object is taken and
     * invalidated, and the filler is signalled when the pool falls below the
     * watermark.  With no live object, one object is created on the fly for
     * the caller, the filler is signalled, and a failed creation is NOENT.
     */
    method GetPrecreatedObject(t: NodeType, watermark: nat, clock: nat -> TimeVal,
                               mk: nat -> Option<Created>)
      returns (st: Status, obj: Option<Precreated>)
      requires PoolOf(t) == Some(FilesPool) ==> !filesLocked
      requires PoolOf(t) == Some(DirsPool) ==> !dirsLocked
      modifies this`dirs, this`files, this`dirsLocked, this`filesLocked, this`wakeups
      ensures dirsLocked == old(dirsLocked) && filesLocked == old(filesLocked)
      ensures PoolOf(t).None? ==>
                st == Fail(Inval) && obj == None
                && dirs == old(dirs) && files == old(files) && wakeups == old(wakeups)
      ensures PoolOf(t).Some? ==>
                var kind := PoolOf(t).value;
                var s := old(Pool(kind));
                (kind == DirsPool ==> files == old(files))
                && (kind == FilesPool ==> dirs == old(dirs))
                && (Occupancy(s) > 0 ==>
                      Pool(kind) == Invalidated(s, FirstLive(s))
                      && st == Success && obj == Some(Payloads(s)[0])
                      && Occupancy(Pool(kind)) == Occupancy(s) - 1
                      && wakeups == old(wakeups) + (if Occupancy(s) - 1 < watermark then 1 else 0))
                && (Occupancy(s) == 0 ==>
                      Pool(kind) == s
                      && (mk(0).Some? ==>
                            st == Success
                            && obj == Some(Precreated(mk(0).value.handle, FillName(clock(0)),
                                                      mk(0).value.attrs))
                            && wakeups == old(wakeups) + 1)
                      && (mk(0).None? ==> st == Fail(NoEnt) && obj == None && wakeups == old(wakeups)))
      ensures PoolOf(t).Some? ==>
                var s := old(Pool(PoolOf(t).value));
                obj == Taken(s, clock, mk) && Pool(PoolOf(t).value) == AfterTake(s)
                && wakeups == old(wakeups) + TakeSignals(s, watermark, mk)
                && st == (if obj.Some? then Success else Fail(NoEnt))
    {
      if PoolOf(t).None? {
        return Fail(Inval), None;
      }
      var kind := PoolOf(t).value;
      var s := Pool(kind);
      FirstValidAsWrittenFaults(s);
      var i := 0;
      while i < |s| && !s[i].valid
        invariant 0 <= i <= |s|
        invariant FirstValidAsWritten(s, i) == FirstValidAsWritten(s, 0)
      {
        i := i + 1;
      }
      if i == |s| {
        // We ran out of precreated objects: make one for the caller.
        var rc, made := Fill(kind, 1, true, 0, clock, mk);
        if rc != 0 {
          return Fail(NoEnt), None;
        }
        wakeups := wakeups + 1;
        return Success, Some(made[0]);
      }
      obj := Some(s[i].payload);
      Take(kind, i);
      InvalidatedDrops(s, i);
      if Occupancy(Pool(kind)) < watermark {
        wakeups := wakeups + 1;
      }
      st := Success;
    }

    /** LRU_invalidate of entry i of one pool. */
    method Take(kind: PoolKind, i: nat)
      requires i < |Pool(kind)|
      modifies this`dirs, this`files
      ensures Pool(kind) == Invalidated(old(Pool(kind)), i)
      ensures kind == DirsPool ==> files == old(files)
      ensures kind == FilesPool ==> dirs == old(dirs)
    {
      if kind == DirsPool {
        dirs := Invalidated(dirs, i);
      } else {
        files := Invalidated(files, i);
      }
    }

    /**
     * One iteration of mfsl_async_filler_thread.  The filler waits while both
     * pools hold strictly more live objects than the watermark.  Otherwise
     * each pool strictly below the watermark is refilled by
     * AFT_nb_fill_critical objects (up to its capacity) and then
     * garbage-collected, whether or not the refill completed; a pool exactly
     * at the watermark is left alone.
     */
    method Pass(p: Params, clockD: nat -> TimeVal, mkD: nat -> Option<Created>,
                clockF: nat -> TimeVal, mkF: nat -> Option<Created>)
      returns (waited: bool)
      requires !dirsLocked && !filesLocked
      modifies this`dirs, this`files, this`dirsLocked, this`filesLocked
      ensures var wm := p.aftLowWatermark;
              waited <==> Occupancy(old(dirs)) > wm && Occupancy(old(files)) > wm
      ensures var wm := p.aftLowWatermark;
              var rd := Occupancy(old(dirs));
              !waited && rd < wm ==>
                dirs == Compacted(Refilled(old(dirs), p.nbPreCreateDirs, p.aftNbFillCritical, clockD, mkD))
                && dirsLocked == !RefillCompletes(old(dirs), p.nbPreCreateDirs, p.aftNbFillCritical, mkD)
      ensures var wm := p.aftLowWatermark;
              var rf := Occupancy(old(files));
              !waited && rf < wm ==>
                files == Compacted(Refilled(old(files), p.nbPreCreateFiles, p.aftNbFillCritical, clockF, mkF))
                && filesLocked == !RefillCompletes(old(files), p.nbPreCreateFiles, p.aftNbFillCritical, mkF)
      ensures waited || Occupancy(old(dirs)) >= p.aftLowWatermark ==>
                dirs == old(dirs) && !dirsLocked
      ensures waited || Occupancy(old(files)) >= p.aftLowWatermark ==>
                files == old(files) && !filesLocked
    {
      var remainingFiles := Occupancy(files);
      var remainingDirs := Occupancy(dirs);
      if remainingDirs > p.aftLowWatermark && remainingFiles > p.aftLowWatermark {
        return true;
      }
      waited := false;
      if remainingDirs < p.aftLowWatermark {
        var rc, _ := Fill(DirsPool, p.aftNbFillCritical, false, p.nbPreCreateDirs, clockD, mkD);
        dirs := Compacted(dirs);
      }
      if remainingFiles < p.aftLowWatermark {
        var rc, _ := Fill(FilesPool, p.aftNbFillCritical, false, p.nbPreCreateFiles, clockF, mkF);
        files := Compacted(files);
      }
    }

    /**
     * One round of re-adoption on one staging directory: each entry read,
     * in order, takes a record from the precreated-object pool and a new
     * entry of the pool's list, and becomes a live object of the pool.  The
     * first entry refused either ends the round with SERVERFAULT, the
     * objects adopted before it staying in the pool.
     */
    method Adopt(kind: PoolKind, entries: seq<Listed>) returns (st: Status)
      modifies this`dirs, this`files
      ensures st == AdoptStatus(entries)
      ensures Pool(kind) == old(Pool(kind)) + Fresh(Adopted(entries))
      ensures kind == DirsPool ==> files == old(files)
      ensures kind == FilesPool ==> dirs == old(dirs)
    {
      ghost var s0 := Pool(kind);
      ghost var adopted := Adopted(entries);
      var c := 0;
      while c < |entries|
        invariant 0 <= c <= |entries|
        invariant forall i :: 0 <= i < c ==> Admits(entries[i])
        invariant c <= |adopted|
        invariant Pool(kind) == s0 + Fresh(adopted[..c])
        invariant kind == DirsPool ==> files == old(files)
        invariant kind == FilesPool ==> dirs == old(dirs)
      {
        if !entries[c].record {
          // GetFromPool found no record.
          assert adopted[..c] == adopted;
          return Status(ServerFault, 0);
        }
        if entries[c].lru.Refused? {
          assert adopted[..c] == adopted;
          return Status(ServerFault, entries[c].lru.lruStatus);
        }
        Push(kind, entries[c].obj);
        assert adopted[..c + 1] == adopted[..c] + [entries[c].obj];
        assert Fresh(adopted[..c + 1]) == Fresh(adopted[..c]) + [Slot(entries[c].obj, true)];
        c := c + 1;
      }
      assert adopted[..c] == adopted;
      st := Success;
    }

    /** LRU_new_entry on one pool with the object stored in it, valid. */
    method Push(kind: PoolKind, obj: Precreated)
      modifies this`dirs, this`files
      ensures Pool(kind) == old(Pool(kind)) + [Slot(obj, true)]
      ensures kind == DirsPool ==> files == old(files)
      ensures kind == FilesPool ==> dirs == old(dirs)
    {
      if kind == DirsPool {
        dirs := Appended(dirs, obj);
      } else {
        files := Appended(files, obj);
      }
    }
  }

  /** Creations that all succeed up to a failure, or up to todo, succeed exactly that far. */
  lemma SucceededStops(mk: nat -> Option<Created>, todo: nat, n: nat)
    requires n <= todo
    requires forall i :: 0 <= i < n ==> mk(i).Some?
    requires n < todo ==> mk(n).None?
    ensures Succeeded(mk, todo) == n
  {
  }

  /* ---------------------------------------------------------------------- */
  /* All fillers                                                            */

  /** No filler appears twice in filler_data. */
  predicate DistinctFillers(fillers: seq<FillerData>)
  {
    forall a, b :: 0 <= a < b < |fillers| ==> fillers[a] != fillers[b]
  }

  /** Every staging directory fits in one FSAL_readdir batch, so one round reaches its end. */
  predicate OneBatch(dirL: seq<Listing>, fileL: seq<Listing>)
  {
    (forall k :: 0 <= k < |dirL| ==> |dirL[k].entries| <= NbDirentClean)
    && (forall k :: 0 <= k < |fileL| ==> |fileL[k].entries| <= NbDirentClean)
  }

  /** The state of one filler that re-adoption and the initial fill change. */
  datatype FillerView = FillerView(dirs: seq<Slot<Precreated>>, files: seq<Slot<Precreated>>,
                                   dirsLocked: bool, filesLocked: bool, wakeups: nat)

  function View(f: FillerData): (w: FillerView)
    reads f
    ensures w.dirs == f.dirs && w.files == f.files
  {
    FillerView(f.dirs, f.files, f.dirsLocked, f.filesLocked, f.wakeups)
  }

  /** w with dd adopted into its directory pool and ff into its file pool. */
  function Grown(w: FillerView, dd: seq<Precreated>, ff: seq<Precreated>): (r: FillerView)
    ensures Occupancy(r.dirs) == Occupancy(w.dirs) + |dd|
    ensures Occupancy(r.files) == Occupancy(w.files) + |ff|
    ensures Payloads(r.dirs) == Payloads(w.dirs) + dd
    ensures Payloads(r.files) == Payloads(w.files) + ff
    ensures r.dirsLocked == w.dirsLocked && r.filesLocked == w.filesLocked && r.wakeups == w.wakeups
  {
    FreshAdds(w.dirs, dd);
    FreshAdds(w.files, ff);
    w.(dirs := w.dirs + Fresh(dd), files := w.files + Fresh(ff))
  }

  /** Adopting nothing changes nothing. */
  lemma GrownNothing(w: FillerView)
    ensures Grown(w, [], []) == w
  {
    assert Fresh<Precreated>([]) == [];
  }

  /** Adopting directories, then files, is adopting both at once. */
  lemma GrownTwice(w: FillerView, dd: seq<Precreated>, ff: seq<Precreated>)
    ensures Grown(Grown(w, dd, []), [], ff) == Grown(w, dd, ff)
  {
    assert Fresh<Precreated>([]) == [];
  }

  /** Adopt on filler k; every other filler is untouched. */
  method AdoptAt(fillers: seq<FillerData>, k: nat, kind: PoolKind, entries: seq<Listed>)
    returns (st: Status)
    requires k < |fillers| && DistinctFillers(fillers)
    modifies fillers
    ensures st == AdoptStatus(entries)
    ensures forall j :: 0 <= j < |fillers| ==>
              View(fillers[j])
                == if j != k then old(View(fillers[j]))
                   else if kind == DirsPool then Grown(old(View(fillers[j])), Adopted(entries), [])
                   else Grown(old(View(fillers[j])), [], Adopted(entries))
  {
    st := fillers[k].Adopt(kind, entries);
    assert Fresh<Precreated>([]) == [];
  }

  /**
   * Both staging directories of filler k: the directories round when it
   * runs (runDirs), then the files round, stopping at the first failure,
   * whether of a listing or of an adoption.
   */
  method ReadoptAt(fillers: seq<FillerData>, k: nat, runDirs: bool, dirs: Listing, files: Listing)
    returns (st: Status)
    requires k < |fillers| && DistinctFillers(fillers)
    modifies fillers
    ensures st == if runDirs && IsError(RoundStatus(dirs)) then RoundStatus(dirs)
                  else RoundStatus(files)
    ensures forall j :: 0 <= j < |fillers| ==>
              View(fillers[j])
                == if j != k then old(View(fillers[j]))
                   else Grown(old(View(fillers[j])),
                              if runDirs then RoundAdopted(dirs) else [],
                              if runDirs && IsError(RoundStatus(dirs)) then []
                              else RoundAdopted(files))
  {
    ghost var w := View(fillers[k]);
    GrownNothing(w);
    if runDirs {
      if IsError(dirs.status) {
        return dirs.status;
      }
      st := AdoptAt(fillers, k, DirsPool, dirs.entries);
      if IsError(st) {
        return;
      }
    }
    if IsError(files.status) {
      return files.status;
    }
    st := AdoptAt(fillers, k, FilesPool, files.entries);
    GrownTwice(w, if runDirs then Adopted(dirs.entries) else [], Adopted(files.entries));
  }

  /** What filler k's directories round adds in reading v: nothing unless re-adoption reaches it and the round runs. */
  function DirsAdopted(v: Variant, dirL: seq<Listing>, fileL: seq<Listing>, k: nat): seq<Precreated>
    requires k < |dirL| == |fileL|
  {
    if ReadoptOkBefore(v, dirL, fileL, k) && DirsRoundRuns(v, |dirL|, k) then RoundAdopted(dirL[k])
    else []
  }

  /** What filler k's files round adds in reading v: nothing unless re-adoption gets that far. */
  function FilesAdopted(v: Variant, dirL: seq<Listing>, fileL: seq<Listing>, k: nat): seq<Precreated>
    requires k < |dirL| == |fileL|
  {
    if ReadoptOkBefore(v, dirL, fileL, k)
       && !(DirsRoundRuns(v, |dirL|, k) && IsError(RoundStatus(dirL[k])))
    then RoundAdopted(fileL[k])
    else []
  }

  /** Filler k after re-adoption in reading v. */
  function Readopted(v: Variant, w: FillerView, dirL: seq<Listing>, fileL: seq<Listing>, k: nat)
    : FillerView
    requires k < |dirL| == |fileL|
  {
    Grown(w, DirsAdopted(v, dirL, fileL, k), FilesAdopted(v, dirL, fileL, k))
  }

  /**
   * When re-adoption succeeds, every filler gets back every object found in
   * its files directory; its directories come back for every filler as
   * intended, and for filler 0 only as written.
   */
  lemma ReadoptedAll(v: Variant, w: FillerView, dirL: seq<Listing>, fileL: seq<Listing>, k: nat)
    requires k < |dirL| == |fileL|
    requires !IsError(ReadoptStatus(v, dirL, fileL, 0))
    ensures Payloads(Readopted(v, w, dirL, fileL, k).files)
            == Payloads(w.files) + Objects(fileL[k].entries)
    ensures Payloads(Readopted(v, w, dirL, fileL, k).dirs)
            == Payloads(w.dirs) + (if v == Intended || k == 0 then Objects(dirL[k].entries) else [])
  {
    ReadoptionSkipsDirs(|dirL|);
    assert !IsError(FillerStatus(v, dirL, fileL, k));
  }

  /**
   * MFSL_async_filler_dispatch_objects: for every filler in turn, its
   * staging directories are listed and every entry found is adopted,
   * directories first, then files.  As written (v) eod is reset only
   * before the files, so the directories round runs for filler 0 only; as
   * intended it is reset before each directory.  The first failure, of a
   * listing or of an adoption, ends re-adoption with its status.
   */
  method DispatchObjects(v: Variant, fillers: seq<FillerData>, dirL: seq<Listing>,
                         fileL: seq<Listing>)
    returns (st: Status)
    requires |fillers| == |dirL| == |fileL|
    requires DistinctFillers(fillers) && OneBatch(dirL, fileL)
    modifies fillers
    ensures st == ReadoptStatus(v, dirL, fileL, 0)
    ensures forall k :: 0 <= k < |fillers| ==>
              View(fillers[k]) == Readopted(v, old(View(fillers[k])), dirL, fileL, k)
  {
    var eod := false;
    var i := 0;
    while i < |fillers|
      invariant 0 <= i <= |fillers|
      invariant eod == (i > 0)
      invariant ReadoptOkBefore(v, dirL, fileL, i)
      invariant ReadoptStatus(v, dirL, fileL, i) == ReadoptStatus(v, dirL, fileL, 0)
      invariant forall k :: 0 <= k < |fillers| ==>
                  View(fillers[k]) == if k < i then Readopted(v, old(View(fillers[k])), dirL, fileL, k)
                                      else old(View(fillers[k]))
    {
      if v == Intended {
        eod := false;
      }
      EodRuns(v, |fillers|, i, eod);
      // One round reaches the end of a directory that fits in one batch.
      st := ReadoptFiller(v, fillers, dirL, fileL, i, !eod);
      eod := true;
      ReadoptedStep(v, dirL, fileL, i);
      if IsError(st) {
        ReadoptedNoneAfter(v, dirL, fileL, i);
        return;
      }
      i := i + 1;
    }
    st := Success;
  }

  /** ReadoptAt on filler i, with the rounds of reading v, once every filler before it is re-adopted. */
  method ReadoptFiller(v: Variant, fillers: seq<FillerData>, dirL: seq<Listing>,
                       fileL: seq<Listing>, i: nat, runDirs: bool)
    returns (st: Status)
    requires i < |fillers| == |dirL| == |fileL| && DistinctFillers(fillers)
    requires ReadoptOkBefore(v, dirL, fileL, i) && runDirs == DirsRoundRuns(v, |dirL|, i)
    modifies fillers
    ensures st == FillerStatus(v, dirL, fileL, i)
    ensures forall j :: 0 <= j < |fillers| ==>
              View(fillers[j]) == if j == i then Readopted(v, old(View(fillers[j])), dirL, fileL, j)
                                  else old(View(fillers[j]))
  {
    st := ReadoptAt(fillers, i, runDirs, dirL[i], fileL[i]);
    ReadoptedStep(v, dirL, fileL, i);
  }

  /** The directories round of filler i runs exactly when eod is still unset before it. */
  lemma EodRuns(v: Variant, n: nat, i: nat, eod: bool)
    requires i < n
    requires eod == (v == AsWritten && i > 0)
    ensures DirsRoundRuns(v, n, i) == !eod
  {
    ReadoptionSkipsDirs(n);
  }

  /**
   * Once every filler before i is re-adopted, filler i's re-adoption is
   * that of its own two rounds, and its status decides how re-adoption
   * goes on.
   */
  lemma ReadoptedStep(v: Variant, dirL: seq<Listing>, fileL: seq<Listing>, i: nat)
    requires i < |dirL| == |fileL| && ReadoptOkBefore(v, dirL, fileL, i)
    ensures var runs := DirsRoundRuns(v, |dirL|, i);
            forall w :: Readopted(v, w, dirL, fileL, i)
                        == Grown(w, if runs then RoundAdopted(dirL[i]) else [],
                                 if runs && IsError(RoundStatus(dirL[i])) then []
                                 else RoundAdopted(fileL[i]))
    ensures IsError(FillerStatus(v, dirL, fileL, i)) ==>
              ReadoptStatus(v, dirL, fileL, i) == FillerStatus(v, dirL, fileL, i)
    ensures !IsError(FillerStatus(v, dirL, fileL, i)) ==>
              ReadoptStatus(v, dirL, fileL, i) == ReadoptStatus(v, dirL, fileL, i + 1)
              && ReadoptOkBefore(v, dirL, fileL, i + 1)
  {
  }

  /** Once re-adoption of filler i fails, no later filler gets anything back. */
  lemma ReadoptedNoneAfter(v: Variant, dirL: seq<Listing>, fileL: seq<Listing>, i: nat)
    requires i < |dirL| == |fileL|
    requires IsError(FillerStatus(v, dirL, fileL, i))
    ensures forall k, w :: i < k < |dirL| ==> Readopted(v, w, dirL, fileL, k) == w
  {
    forall k, w | i < k < |dirL|
      ensures Readopted(v, w, dirL, fileL, k) == w
    {
      assert !ReadoptOkBefore(v, dirL, fileL, k);
      GrownNothing(w);
    }
  }

  /** Pool kind of v after a list-mode refill to capacity; its lock stays held when the refill stops short. */
  function Filled(v: FillerView, kind: PoolKind, capacity: nat,
                  clock: nat -> TimeVal, mk: nat -> Option<Created>): FillerView
  {
    if kind == DirsPool then
      v.(dirs := Refilled(v.dirs, capacity, capacity, clock, mk),
         dirsLocked := !RefillCompletes(v.dirs, capacity, capacity, mk))
    else
      v.(files := Refilled(v.files, capacity, capacity, clock, mk),
         filesLocked := !RefillCompletes(v.files, capacity, capacity, mk))
  }

  /** A list-mode fill of filler k's pool up to capacity; every other filler is untouched. */
  method FillAt(fillers: seq<FillerData>, k: nat, kind: PoolKind, capacity: nat,
                clock: nat -> TimeVal, mk: nat -> Option<Created>) returns (rc: int)
    requires k < |fillers| && DistinctFillers(fillers) && !fillers[k].Locked(kind)
    modifies fillers
    ensures rc == 0 <==> RefillCompletes(old(fillers[k].Pool(kind)), capacity, capacity, mk)
    ensures rc != 0 ==> rc == 1
    ensures forall j :: 0 <= j < |fillers| ==>
              View(fillers[j])
                == if j != k then old(View(fillers[j]))
                   else Filled(old(View(fillers[j])), kind, capacity, clock, mk)
  {
    var objs;
    rc, objs := fillers[k].Fill(kind, capacity, false, capacity, clock, mk);
  }

  /** Whether both initial fills of a re-adopted filler create every object they plan. */
  predicate InitFillCompletes(v: FillerView, p: Params,
                              mkD: nat -> Option<Created>, mkF: nat -> Option<Created>)
  {
    RefillCompletes(v.dirs, p.nbPreCreateDirs, p.nbPreCreateDirs, mkD)
    && RefillCompletes(v.files, p.nbPreCreateFiles, p.nbPreCreateFiles, mkF)
  }

  /** A re-adopted filler after both initial fills, when they complete. */
  function Initialised(r: FillerView, p: Params,
                       clockD: nat -> TimeVal, mkD: nat -> Option<Created>,
                       clockF: nat -> TimeVal, mkF: nat -> Option<Created>): FillerView
  {
    Filled(Filled(r, DirsPool, p.nbPreCreateDirs, clockD, mkD),
           FilesPool, p.nbPreCreateFiles, clockF, mkF)
  }

  /**
   * A re-adopted filler after its initial fills, whatever their outcome:
   * when the directories fill stops short, the files fill never starts.
   */
  function InitFilled(r: FillerView, p: Params,
                      clockD: nat -> TimeVal, mkD: nat -> Option<Created>,
                      clockF: nat -> TimeVal, mkF: nat -> Option<Created>): (f: FillerView)
    ensures InitFillCompletes(r, p, mkD, mkF) ==> f == Initialised(r, p, clockD, mkD, clockF, mkF)
  {
    if RefillCompletes(r.dirs, p.nbPreCreateDirs, p.nbPreCreateDirs, mkD)
    then Initialised(r, p, clockD, mkD, clockF, mkF)
    else Filled(r, DirsPool, p.nbPreCreateDirs, clockD, mkD)
  }

  /**
   * A directories fill that stops short leaves the directories lock held
   * and the files pool as it was; one that completes releases the lock, and
   * then the files fill decides the files lock.
   */
  lemma InitFilledLocks(r: FillerView, p: Params,
                        clockD: nat -> TimeVal, mkD: nat -> Option<Created>,
                        clockF: nat -> TimeVal, mkF: nat -> Option<Created>)
    ensures var f := InitFilled(r, p, clockD, mkD, clockF, mkF);
            f.dirsLocked == !RefillCompletes(r.dirs, p.nbPreCreateDirs, p.nbPreCreateDirs, mkD)
            && (f.dirsLocked ==> f.files == r.files && f.filesLocked == r.filesLocked)
            && (!f.dirsLocked ==>
                  f.filesLocked == !RefillCompletes(r.files, p.nbPreCreateFiles, p.nbPreCreateFiles, mkF))
            && (f.dirsLocked || f.filesLocked <==> !InitFillCompletes(r, p, mkD, mkF))
  {
  }

  /**
   * Filler k's two initial fills: directories, then files, stopping at the
   * first that fails; filler k ends as InitFilled says, every other filler
   * is untouched.
   */
  method FillBoth(fillers: seq<FillerData>, k: nat, p: Params,
                  clockD: nat -> TimeVal, mkD: nat -> Option<Created>,
                  clockF: nat -> TimeVal, mkF: nat -> Option<Created>) returns (rc: int)
    requires k < |fillers| && DistinctFillers(fillers)
    requires !fillers[k].dirsLocked && !fillers[k].filesLocked
    modifies fillers
    ensures rc == 0 <==> InitFillCompletes(old(View(fillers[k])), p, mkD, mkF)
    ensures rc != 0 ==> rc == 1
    ensures forall j :: 0 <= j < |fillers| ==>
              View(fillers[j])
                == if j != k then old(View(fillers[j]))
                   else InitFilled(old(View(fillers[j])), p, clockD, mkD, clockF, mkF)
  {
    rc := FillAt(fillers, k, DirsPool, p.nbPreCreateDirs, clockD, mkD);
    if rc != 0 {
      return;
    }
    rc := FillAt(fillers, k, FilesPool, p.nbPreCreateFiles, clockF, mkF);
  }

  /**
   * MFSL_async_filler_init_objects: the staging directory step, then
   * re-adoption in reading v, then both pools of every filler filled to
   * their configured sizes.  A failed directory step or re-adoption ends it
   * with that major code and minor 0; a fill that stops short ends it with
   * SERVERFAULT and the fill's code.  The staging directory step itself is
   * given by its status.
   */
  method InitObjects(v: Variant, fillers: seq<FillerData>, p: Params, dirInit: Status,
                     dirL: seq<Listing>, fileL: seq<Listing>,
                     clockD: seq<nat -> TimeVal>, mkD: seq<nat -> Option<Created>>,
                     clockF: seq<nat -> TimeVal>, mkF: seq<nat -> Option<Created>>)
    returns (st: Status, ghost stop: nat)
    requires |fillers| == p.nbSynclet == |dirL| == |fileL|
    requires |clockD| == |mkD| == |clockF| == |mkF| == |fillers|
    requires DistinctFillers(fillers) && OneBatch(dirL, fileL)
    requires forall k :: 0 <= k < |fillers| ==> !fillers[k].dirsLocked && !fillers[k].filesLocked
    modifies fillers
    ensures IsError(dirInit) ==>
              st == Fail(dirInit.major)
              && forall k :: 0 <= k < |fillers| ==> View(fillers[k]) == old(View(fillers[k]))
    ensures !IsError(dirInit) && IsError(ReadoptStatus(v, dirL, fileL, 0)) ==>
              st == Fail(ReadoptStatus(v, dirL, fileL, 0).major)
              && forall k :: 0 <= k < |fillers| ==>
                   View(fillers[k]) == Readopted(v, old(View(fillers[k])), dirL, fileL, k)
    ensures !IsError(dirInit) && !IsError(ReadoptStatus(v, dirL, fileL, 0)) ==>
              (st == Success <==>
                 forall k :: 0 <= k < |fillers| ==>
                   InitFillCompletes(Readopted(v, old(View(fillers[k])), dirL, fileL, k),
                                     p, mkD[k], mkF[k]))
              && (st != Success ==> st == Status(ServerFault, 1))
    ensures st == Success ==>
              forall k :: 0 <= k < |fillers| ==>
                View(fillers[k])
                  == Initialised(Readopted(v, old(View(fillers[k])), dirL, fileL, k), p,
                                 clockD[k], mkD[k], clockF[k], mkF[k])
    ensures !IsError(dirInit) && !IsError(ReadoptStatus(v, dirL, fileL, 0)) ==>
              stop <= |fillers|
              && (st == Success <==> stop == |fillers|)
              && (stop < |fillers| ==>
                    !InitFillCompletes(Readopted(v, old(View(fillers[stop])), dirL, fileL, stop),
                                       p, mkD[stop], mkF[stop]))
              && forall k :: 0 <= k < |fillers| ==>
                   var r := Readopted(v, old(View(fillers[k])), dirL, fileL, k);
                   (k < stop ==> InitFillCompletes(r, p, mkD[k], mkF[k]))
                   && View(fillers[k])
                        == if k < stop then Initialised(r, p, clockD[k], mkD[k], clockF[k], mkF[k])
                           else if k == stop then InitFilled(r, p, clockD[k], mkD[k], clockF[k], mkF[k])
                           else r
  {
    stop := 0;
    if IsError(dirInit) {
      return Fail(dirInit.major), 0;
    }
    st := DispatchObjects(v, fillers, dirL, fileL);
    if IsError(st) {
      return Fail(st.major), 0;
    }
    var i := 0;
    while i < |fillers|
      invariant 0 <= i <= |fillers|
      invariant forall k :: 0 <= k < i ==>
                  InitFillCompletes(Readopted(v, old(View(fillers[k])), dirL, fileL, k),
                                    p, mkD[k], mkF[k])
                  && View(fillers[k])
                       == Initialised(Readopted(v, old(View(fillers[k])), dirL, fileL, k), p,
                                      clockD[k], mkD[k], clockF[k], mkF[k])
      invariant forall k :: i <= k < |fillers| ==>
                  View(fillers[k]) == Readopted(v, old(View(fillers[k])), dirL, fileL, k)
    {
      var rc := FillBoth(fillers, i, p, clockD[i], mkD[i], clockF[i], mkF[i]);
      if rc != 0 {
        return Status(ServerFault, rc), i;
      }
      i := i + 1;
    }
    st, stop := Success, |fillers|;
  }
}
