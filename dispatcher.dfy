/*
 * The dispatcher (mfsl_async_dispatcher.c): MFSL_async_post queues a
 * descriptor on the dispatcher list; the dispatcher thread, on every
 * wake-up, hands the descriptors whose asynchronous window has passed to the
 * worker each of them names, oldest first, and stops at the first one still
 * inside its window.
 */
module Dispatcher {
  import opened Fsal
  import opened TimeVals
  import opened PendingLists
  import opened MfslTypes
  import opened Synclets
  import opened Variants

  /* ---------------------------------------------------------------------- */
  /* The asynchronous window                                                */

  /**
   * The window test of the dispatcher loop as written: the elapsed seconds
   * and the elapsed microseconds are both compared with the window's
   * seconds; the window's microseconds are never read.
   */
  predicate OutOfWindowAsWritten(now: TimeVal, opTime: TimeVal, p: Params)
  {
    var delta := Sub(now, opTime);
    !(delta.sec < p.asyncWindowSec) && !(delta.usec < p.asyncWindowSec)
  }

  /** The test the comments describe: the elapsed time is not shorter than the window. */
  predicate OutOfWindow(now: TimeVal, opTime: TimeVal, p: Params)
  {
    !Less(Sub(now, opTime), TimeVal(p.asyncWindowSec, p.asyncWindowUsec))
  }

  /** An operation leaves its window exactly when window_sec s + window_usec us have elapsed. */
  lemma OutOfWindowMeansElapsed(now: TimeVal, opTime: TimeVal, p: Params)
    requires Normal(now) && Normal(opTime) && 0 <= p.asyncWindowUsec < UsecPerSec
    ensures OutOfWindow(now, opTime, p)
            <==> Micros(now) - Micros(opTime) >= p.asyncWindowSec * UsecPerSec + p.asyncWindowUsec
  {
    LessIsEarlier(Sub(now, opTime), TimeVal(p.asyncWindowSec, p.asyncWindowUsec));
  }

  /**
   * Operations are posted in chronological order, so stopping at the first
   * one still inside the window loses nothing: every older operation is out
   * of the window as soon as a newer one is.
   */
  lemma OutOfWindowOlderToo(now: TimeVal, older: TimeVal, newer: TimeVal, p: Params)
    requires Normal(now) && Normal(older) && Normal(newer) && 0 <= p.asyncWindowUsec < UsecPerSec
    requires Micros(older) <= Micros(newer)
    requires OutOfWindow(now, newer, p)
    ensures OutOfWindow(now, older, p)
  {
    OutOfWindowMeansElapsed(now, newer, p);
    OutOfWindowMeansElapsed(now, older, p);
  }

  /**
   * The test as written holds back an operation two whole seconds old under
   * the default one-second window (its elapsed microseconds are 0 < 1), and
   * lets through at once an operation posted 100 us ago under a half-second
   * window (the window's microseconds are ignored).
   */
  lemma WindowAsWrittenDisagrees(p: Params, q: Params)
    requires p.asyncWindowSec == 1 && p.asyncWindowUsec == 0
    requires q.asyncWindowSec == 0 && q.asyncWindowUsec == 500000
    ensures Micros(TimeVal(10, 0)) - Micros(TimeVal(8, 0)) == 2 * UsecPerSec
    ensures !OutOfWindowAsWritten(TimeVal(10, 0), TimeVal(8, 0), p)
    ensures OutOfWindow(TimeVal(10, 0), TimeVal(8, 0), p)
    ensures Micros(TimeVal(5, 100)) - Micros(TimeVal(5, 0)) == 100
    ensures OutOfWindowAsWritten(TimeVal(5, 100), TimeVal(5, 0), q)
    ensures !OutOfWindow(TimeVal(5, 100), TimeVal(5, 0), q)
  {
  }

  /** The window test of reading v: the operation is due for a worker. */
  predicate Due(v: Variant, now: TimeVal, opTime: TimeVal, p: Params)
  {
    if v == AsWritten then OutOfWindowAsWritten(now, opTime, p) else OutOfWindow(now, opTime, p)
  }

  /* ---------------------------------------------------------------------- */
  /* What one pass of the dispatcher thread does                            */

  /** Every live entry names a worker that exists. */
  predicate Routable(s: seq<Slot<Desc>>, nbWorkers: nat)
  {
    forall i :: 0 <= i < |s| && s[i].valid ==> s[i].payload.relatedSynclet < nbWorkers
  }

  /**
   * Every live entry among the first e names a worker that exists: the
   * entries a scan stopping at e indexes the worker table with.
   */
  predicate RoutableBefore(s: seq<Slot<Desc>>, e: nat, nbWorkers: nat)
    requires e <= |s|
  {
    forall i :: 0 <= i < e && s[i].valid ==> s[i].payload.relatedSynclet < nbWorkers
  }

  /**
   * Posting keeps the list routable exactly when the posted descriptor
   * names an existing worker.
   */
  lemma RoutableAppended(s: seq<Slot<Desc>>, d: Desc, nbWorkers: nat)
    ensures Routable(Appended(s, d), nbWorkers) <==>
            Routable(s, nbWorkers) && d.relatedSynclet < nbWorkers
  {
    var t := Appended(s, d);
    assert t[|s|] == Slot(d, true);
    if Routable(s, nbWorkers) && d.relatedSynclet < nbWorkers {
      forall i | 0 <= i < |t| && t[i].valid
        ensures t[i].payload.relatedSynclet < nbWorkers
      {
        if i < |s| {
          assert t[i] == s[i];
        }
      }
    }
    if Routable(t, nbWorkers) {
      forall i | 0 <= i < |s| && s[i].valid
        ensures s[i].payload.relatedSynclet < nbWorkers
      {
        assert t[i] == s[i];
      }
    }
  }

  /** No worker appears twice in the worker table. */
  predicate DistinctWorkers(workers: seq<Synclet>)
  {
    forall a, b :: 0 <= a < b < |workers| ==> workers[a] != workers[b]
  }

  /** Where the scan starting at entry i stops: the first live entry still inside its window. */
  function ScanFrom(v: Variant, s: seq<Slot<Desc>>, now: TimeVal, p: Params, i: nat): (e: nat)
    requires i <= |s|
    ensures i <= e <= |s|
    decreases |s| - i
  {
    if i == |s| then |s|
    else if s[i].valid && !Due(v, now, s[i].payload.opTime, p) then i
    else ScanFrom(v, s, now, p, i + 1)
  }

  /** Where the scan of a whole pass stops. */
  function ScanEnd(v: Variant, s: seq<Slot<Desc>>, now: TimeVal, p: Params): nat
  {
    ScanFrom(v, s, now, p, 0)
  }

  /**
   * The scan stops at the first live entry inside its window, or at the end
   * of the list when there is none: every live entry before the stop is out
   * of its window.
   */
  lemma {:induction false} ScanFromStops(v: Variant, s: seq<Slot<Desc>>, now: TimeVal, p: Params, i: nat)
    requires i <= |s|
    ensures forall j :: i <= j < ScanFrom(v, s, now, p, i) && s[j].valid ==>
              Due(v, now, s[j].payload.opTime, p)
    ensures ScanFrom(v, s, now, p, i) < |s| ==>
              s[ScanFrom(v, s, now, p, i)].valid
              && !Due(v, now, s[ScanFrom(v, s, now, p, i)].payload.opTime, p)
    decreases |s| - i
  {
    if i < |s| && !(s[i].valid && !Due(v, now, s[i].payload.opTime, p)) {
      ScanFromStops(v, s, now, p, i + 1);
    }
  }

  /** The same fact for the scan of a whole pass. */
  lemma ScanEndStops(v: Variant, s: seq<Slot<Desc>>, now: TimeVal, p: Params)
    ensures ScanEnd(v, s, now, p) <= |s|
    ensures forall j :: 0 <= j < ScanEnd(v, s, now, p) && s[j].valid ==>
              Due(v, now, s[j].payload.opTime, p)
    ensures ScanEnd(v, s, now, p) < |s| ==>
              s[ScanEnd(v, s, now, p)].valid
              && !Due(v, now, s[ScanEnd(v, s, now, p)].payload.opTime, p)
  {
    ScanFromStops(v, s, now, p, 0);
  }

  /**
   * One live operation posted at 8 s, under the default one-second window.
   * At 10 s 0 us the scan as written holds it back, although two seconds
   * have elapsed, while the intended scan hands it on.  At 10 s 5 us the
   * elapsed microseconds field is no longer below the window's seconds, and
   * the scan as written hands it on too.
   */
  lemma ScanAsWrittenHolds(d: Desc, p: Params)
    requires p.asyncWindowSec == 1 && p.asyncWindowUsec == 0 && d.opTime == TimeVal(8, 0)
    ensures ScanEnd(AsWritten, [Slot(d, true)], TimeVal(10, 0), p) == 0
    ensures ScanEnd(Intended, [Slot(d, true)], TimeVal(10, 0), p) == 1
    ensures ScanEnd(AsWritten, [Slot(d, true)], TimeVal(10, 5), p) == 1
  {
    WindowAsWrittenDisagrees(p, p.(asyncWindowSec := 0, asyncWindowUsec := 500000));
  }

  /**
   * A pass never reads the synclet index of the entry it stops at: a live
   * entry still inside its window may name a worker that does not exist
   * (the stale index a recycled unlink or link descriptor keeps) and the
   * pass over it is still defined, although the list is not routable.
   */
  lemma InWindowEntryNotRouted(v: Variant, d: Desc, now: TimeVal, p: Params, nbWorkers: nat)
    requires d.relatedSynclet >= nbWorkers && !Due(v, now, d.opTime, p)
    ensures !Routable([Slot(d, true)], nbWorkers)
    ensures ScanEnd(v, [Slot(d, true)], now, p) == 0
    ensures RoutableBefore([Slot(d, true)], ScanEnd(v, [Slot(d, true)], now, p), nbWorkers)
  {
    var s := [Slot(d, true)];
    assert s[0].valid && s[0].payload.relatedSynclet >= nbWorkers;
  }

  /**
   * The entries the scan of the first e entries appends to worker k, in
   * order: the live ones that name k and for which the worker list
   * granted an entry (alloc[j]).
   */
  function HandedTo(s: seq<Slot<Desc>>, alloc: seq<bool>, e: nat, k: nat): seq<Slot<Desc>>
    requires e <= |s| == |alloc|
  {
    if e == 0 then []
    else
      HandedTo(s, alloc, e - 1, k)
        + (if s[e - 1].valid && alloc[e - 1] && s[e - 1].payload.relatedSynclet == k
           then [Slot(s[e - 1].payload, true)] else [])
  }

  /** The dispatcher list after scanning the first e entries: the handed entries are invalid. */
  function AfterScan(s: seq<Slot<Desc>>, alloc: seq<bool>, e: nat): (r: seq<Slot<Desc>>)
    requires e <= |s| == |alloc|
    ensures |r| == |s|
  {
    seq(|s|, j requires 0 <= j < |s| =>
      if j < e && s[j].valid && alloc[j] then s[j].(valid := false) else s[j])
  }

  /**
   * Every entry a pass hands to worker k is live, names k and is out of its
   * window.
   */
  lemma {:induction false} HandedAreDue(v: Variant, s: seq<Slot<Desc>>, alloc: seq<bool>,
                                        now: TimeVal, p: Params, e: nat, k: nat)
    requires |s| == |alloc| && e <= ScanEnd(v, s, now, p)
    ensures forall x :: x in HandedTo(s, alloc, e, k) ==>
              x.valid && x.payload.relatedSynclet == k && Due(v, now, x.payload.opTime, p)
  {
    ScanEndStops(v, s, now, p);
    if e > 0 {
      HandedAreDue(v, s, alloc, now, p, e - 1, k);
    }
  }

  /**
   * With a single worker (the choice MFSL_async_choose_synclet always
   * makes), a scan moves live entries and never creates or loses one: what
   * stays live on the dispatcher list plus what the worker received is what
   * was live before.
   */
  lemma {:induction false} ScanConserves(s: seq<Slot<Desc>>, alloc: seq<bool>, e: nat)
    requires e <= |s| == |alloc|
    requires Routable(s, 1)
    ensures Occupancy(AfterScan(s, alloc, e)) + |HandedTo(s, alloc, e, 0)| == Occupancy(s)
  {
    if e == 0 {
      assert AfterScan(s, alloc, 0) == s;
    } else {
      ScanConserves(s, alloc, e - 1);
      var before := AfterScan(s, alloc, e - 1);
      var j := e - 1;
      if s[j].valid && alloc[j] {
        assert AfterScan(s, alloc, e) == Invalidated(before, j);
        InvalidatedDrops(before, j);
      } else {
        assert AfterScan(s, alloc, e) == before;
      }
    }
  }

  /** mfsl_async_dispatcher_thread's list and pass counter, and MFSL_async_post. */
  class Dispatcher {
    var list: seq<Slot<Desc>>
    var passcounter: nat

    constructor ()
      ensures list == [] && passcounter == 0
    {
      list := [];
      passcounter := 0;
    }

    /**
     * MFSL_async_post: a missing descriptor is FAULT; a list that cannot
     * grant an entry is SERVERFAULT with the list status as minor code;
     * otherwise the descriptor is queued, live, at the end of the list.
     */
    method Post(d: Option<Desc>, alloc: Alloc) returns (st: Status)
      modifies this`list
      ensures d.None? ==> st == Fail(Fault) && list == old(list)
      ensures d.Some? && alloc.Refused? ==>
                st == Status(ServerFault, alloc.lruStatus) && list == old(list)
      ensures d.Some? && alloc.Granted? ==> st == Success && list == Appended(old(list), d.value)
    {
      if d.None? {
        return Fail(Fault);
      }
      if alloc.Refused? {
        return Status(ServerFault, alloc.lruStatus);
      }
      list := Appended(list, d.value);
      st := Success;
    }

    /**
     * One wake-up of mfsl_async_dispatcher_thread at time now.  The scan
     * hands every live entry before the first one still inside its window
     * (by the window test as written, or as intended, after v) to the worker
     * it names (one entry appended, one signal), unless that
     * worker's list refuses an entry (alloc[j] false), in which case the
     * entry stays live for a later pass.  Then the pass is counted and the
     * list garbage-collected when the counter reaches nbBeforeGc.  Only the
     * live entries before the stop must name an existing worker: they are
     * the only ones whose synclet index the scan reads.
     */
    method Pass(v: Variant, now: TimeVal, p: Params, workers: seq<Synclet>, alloc: seq<bool>)
      requires |alloc| == |list|
      requires RoutableBefore(list, ScanEnd(v, list, now, p), |workers|)
      requires DistinctWorkers(workers)
      modifies this, workers
      ensures passcounter == CounterAfterPass(old(passcounter), p.nbBeforeGc)
      ensures var scanned := AfterScan(old(list), alloc, ScanEnd(v, old(list), now, p));
              list == if passcounter == 0 then Compacted(scanned) else scanned
      ensures forall k :: 0 <= k < |workers| ==>
                var handed := HandedTo(old(list), alloc, ScanEnd(v, old(list), now, p), k);
                workers[k].opList == old(workers[k].opList) + handed
                && workers[k].wakeups == old(workers[k].wakeups) + |handed|
                && workers[k].passcounter == old(workers[k].passcounter)
    {
      Scan(v, now, p, workers, alloc);
      passcounter := CounterAfterPass(passcounter, p.nbBeforeGc);
      if passcounter == 0 {
        list := Compacted(list);
      }
    }

    /** The scan of one pass, with the window test of reading v. */
    method Scan(v: Variant, now: TimeVal, p: Params, workers: seq<Synclet>, alloc: seq<bool>)
      requires |alloc| == |list|
      requires RoutableBefore(list, ScanEnd(v, list, now, p), |workers|)
      requires DistinctWorkers(workers)
      modifies this`list, workers
      ensures list == AfterScan(old(list), alloc, ScanEnd(v, old(list), now, p))
      ensures forall k :: 0 <= k < |workers| ==>
                var handed := HandedTo(old(list), alloc, ScanEnd(v, old(list), now, p), k);
                workers[k].opList == old(workers[k].opList) + handed
                && workers[k].wakeups == old(workers[k].wakeups) + |handed|
                && workers[k].passcounter == old(workers[k].passcounter)
    {
      ghost var s0 := list;
      var i := 0;
      while i < |list|
        invariant 0 <= i <= |list| == |s0|
        invariant ScanFrom(v, s0, now, p, i) == ScanEnd(v, s0, now, p)
        invariant RoutableBefore(s0, ScanEnd(v, s0, now, p), |workers|)
        invariant list == AfterScan(s0, alloc, i)
        invariant forall k :: 0 <= k < |workers| ==>
                    workers[k].opList == old(workers[k].opList) + HandedTo(s0, alloc, i, k)
                    && workers[k].wakeups == old(workers[k].wakeups) + |HandedTo(s0, alloc, i, k)|
                    && workers[k].passcounter == old(workers[k].passcounter)
      {
        var slot := list[i];
        AfterScanStep(s0, alloc, i);
        assert slot == s0[i];
        if slot.valid && !Due(v, now, slot.payload.opTime, p) {
          break;
        }
        assert ScanFrom(v, s0, now, p, i + 1) == ScanFrom(v, s0, now, p, i);
        if slot.valid && alloc[i] {
          var chosen := slot.payload.relatedSynclet;
          HandOff(workers, chosen, slot.payload);
          list := Invalidated(list, i);
        }
        // A live entry whose worker list refused an entry stays for a later pass.
        i := i + 1;
      }
    }
  }

  /** Appending one descriptor to the list of worker k and signalling that worker. */
  method HandOff(workers: seq<Synclet>, k: nat, d: Desc)
    requires k < |workers| && DistinctWorkers(workers)
    modifies workers
    ensures forall j :: 0 <= j < |workers| ==>
              workers[j].opList == old(workers[j].opList) + (if j == k then [Slot(d, true)] else [])
              && workers[j].wakeups == old(workers[j].wakeups) + (if j == k then 1 else 0)
              && workers[j].passcounter == old(workers[j].passcounter)
  {
    var w := workers[k];
    w.opList := Appended(w.opList, d);
    w.wakeups := w.wakeups + 1;
  }

  /** Scanning one more entry invalidates it exactly when it is live and its worker took it. */
  lemma AfterScanStep(s: seq<Slot<Desc>>, alloc: seq<bool>, i: nat)
    requires i < |s| == |alloc|
    ensures AfterScan(s, alloc, i + 1)
            == if s[i].valid && alloc[i] then Invalidated(AfterScan(s, alloc, i), i)
               else AfterScan(s, alloc, i)
  {
  }

  /** MFSL_async_dispatcher_init: a thread creation error rc is SERVERFAULT with minor -rc. */
  function DispatcherInit(rc: int): (st: Status)
    ensures rc == 0 <==> st == Success
    ensures rc != 0 ==> st == Status(ServerFault, -rc)
  {
    if rc != 0 then Status(ServerFault, -rc) else Success
  }
}
