/*
 * The synclets (mfsl_async2_synclet.c): worker threads that run the real
 * FSAL operation of every descriptor the dispatcher handed them, then give
 * the descriptor back to the pool of the context that posted it.
 *
 * The operation function stored in a descriptor, together with the backend
 * it calls, is the parameter `run`: it maps a descriptor to the status and
 * the argument and result fields its worker side writes.
 */
module Synclets {
  import opened Fsal
  import opened PendingLists
  import opened MfslTypes

  /** MFSL_async_choose_synclet: every operation is given to worker 0. */
  function ChooseSynclet(d: Desc): nat
  {
    0
  }

  /** With at least one worker configured, the chosen worker exists, whatever the operation. */
  lemma ChosenWorkerExists(d: Desc, p: Params)
    requires p.nbSynclet >= 1
    ensures ChooseSynclet(d) < p.nbSynclet
    ensures forall e: Desc :: ChooseSynclet(e) == ChooseSynclet(d)
  {
  }

  /**
   * MFSL_async_process_async_op: run the operation, ignore its status, and
   * release the completed descriptor to the pool of its context.
   */
  method ProcessAsyncOp(d: Option<Desc>, run: Desc -> WorkerResult) returns (st: Status)
    requires d.Some? ==> d.value.mfslContext != null
    modifies if d.Some? then {d.value.mfslContext} else {}
    ensures d.None? ==> st == Fail(Fault)
    ensures d.Some? ==> st == Success
    ensures d.Some? ==> d.value.mfslContext.pool
                          == old(d.value.mfslContext.pool) + [Completed(d.value, run(d.value))]
  {
    if d.None? {
      return Fail(Fault);
    }
    var desc := d.value;
    var outcome := run(desc);
    // A failing status is only logged.
    var done := Completed(desc, outcome);
    desc.mfslContext.Release(done);
    st := Success;
  }

  /** Every live entry of the list knows the context it returns to. */
  predicate Releasable(s: seq<Slot<Desc>>) {
    forall i :: 0 <= i < |s| && s[i].valid ==> s[i].payload.mfslContext != null
  }

  /** The contexts the live entries of a list return to. */
  function Contexts(s: seq<Slot<Desc>>): set<MfslContext>
    requires Releasable(s)
  {
    set i | 0 <= i < |s| && s[i].valid :: s[i].payload.mfslContext as MfslContext
  }

  /** The list after one pass: every entry invalid, order and payloads kept. */
  function Drained(s: seq<Slot<Desc>>): (r: seq<Slot<Desc>>)
    ensures |r| == |s|
  {
    seq(|s|, i requires 0 <= i < |s| => s[i].(valid := false))
  }

  /**
   * The completed descriptors a pass over s releases to context c, in list
   * order: one per live entry whose descriptor belongs to c.
   */
  function Released(s: seq<Slot<Desc>>, c: MfslContext, run: Desc -> WorkerResult): seq<Desc>
  {
    if s == [] then []
    else
      var d := s[|s| - 1];
      Released(s[..|s| - 1], c, run)
        + (if d.valid && d.payload.mfslContext == c then [Completed(d.payload, run(d.payload))] else [])
  }

  /** The gc rule shared by the dispatcher and the synclets: gc once the counter reaches the limit. */
  function CounterAfterPass(counter: nat, nbBeforeGc: nat): (r: nat)
    ensures r == 0 <==> counter + 1 >= nbBeforeGc
    ensures r != 0 ==> r == counter + 1
  {
    if counter + 1 >= nbBeforeGc then 0 else counter + 1
  }

  /** mfsl_synclet_data_t, reduced to the state one pass reads and writes. */
  class Synclet {
    var opList: seq<Slot<Desc>>
    var passcounter: nat
    var wakeups: nat          // signals received on op_condvar

    constructor ()
      ensures opList == [] && passcounter == 0 && wakeups == 0
    {
      opList := [];
      passcounter := 0;
      wakeups := 0;
    }

    /**
     * One iteration of mfsl_async_synclet_thread.  The worker waits while
     * its list has no live entry (nothing changes).  Otherwise it processes
     * every live entry once, in list order, invalidates it, counts the pass
     * and garbage-collects when the counter reaches nbBeforeGc.
     */
    method Pass(nbBeforeGc: nat, run: Desc -> WorkerResult) returns (worked: bool)
      requires Releasable(opList)
      modifies this, Contexts(opList)
      ensures worked <==> Occupancy(old(opList)) > 0
      ensures !worked ==> opList == old(opList) && passcounter == old(passcounter)
      ensures worked ==> passcounter == CounterAfterPass(old(passcounter), nbBeforeGc)
      ensures worked ==> opList == if passcounter == 0 then Compacted(Drained(old(opList)))
                                   else Drained(old(opList))
      ensures forall c :: c in old(Contexts(opList)) ==>
                c.pool == old(c.pool) + (if worked then Released(old(opList), c, run) else [])
      ensures wakeups == old(wakeups)
    {
      EmptyIffNoneValid(opList);
      if Occupancy(opList) == 0 {
        return false;
      }
      worked := true;
      ProcessAll(run);
      passcounter := CounterAfterPass(passcounter, nbBeforeGc);
      if passcounter == 0 {
        opList := Compacted(opList);
      }
    }

    /** The scan of one pass: process and invalidate every live entry, in order. */
    method ProcessAll(run: Desc -> WorkerResult)
      requires Releasable(opList)
      modifies this`opList, Contexts(opList)
      ensures opList == Drained(old(opList))
      ensures forall c :: c in old(Contexts(opList)) ==>
                c.pool == old(c.pool) + Released(old(opList), c, run)
    {
      ghost var s0 := opList;
      ghost var cs := Contexts(opList);
      var i := 0;
      while i < |opList|
        invariant 0 <= i <= |opList| == |s0|
        invariant forall j :: 0 <= j < |s0| ==>
                    opList[j] == if j < i then s0[j].(valid := false) else s0[j]
        invariant forall c :: c in cs ==> c.pool == old(c.pool) + Released(s0[..i], c, run)
      {
        var slot := opList[i];
        ReleasedStep(s0, i, run);
        if slot.valid {
          var ctx := slot.payload.mfslContext;
          assert ctx in cs;
          label L:
          var st := ProcessAsyncOp(Some(slot.payload), run);
          opList := Invalidated(opList, i);
          forall c | c in cs
            ensures c.pool == old(c.pool) + Released(s0[..i + 1], c, run)
          {
            if c != ctx {
              assert c.pool == old@L(c.pool);
            }
          }
        }
        i := i + 1;
      }
      assert s0[..|s0|] == s0;
    }
  }

  /** Extending the scanned prefix by one entry extends the released sequence by that entry's share. */
  lemma ReleasedStep(s: seq<Slot<Desc>>, i: nat, run: Desc -> WorkerResult)
    requires i < |s|
    ensures forall c: MfslContext :: Released(s[..i + 1], c, run)
              == Released(s[..i], c, run)
                 + (if s[i].valid && s[i].payload.mfslContext == c
                    then [Completed(s[i].payload, run(s[i].payload))] else [])
  {
    assert s[..i + 1][..i] == s[..i];
  }

  /** mfsl_async_op_desc_t entries completed by their worker sides, in order. */
  function CompletedAll(ds: seq<Desc>, run: Desc -> WorkerResult): (r: seq<Desc>)
    ensures |r| == |ds|
  {
    seq(|ds|, i requires 0 <= i < |ds| => Completed(ds[i], run(ds[i])))
  }

  /**
   * When every live entry of a worker list belongs to one context, a pass
   * gives that context back every live descriptor, each exactly once, in
   * list order, completed by its worker side.
   */
  lemma {:induction false} ReleasedSingleContext(s: seq<Slot<Desc>>, c: MfslContext,
                                                  run: Desc -> WorkerResult)
    requires forall i :: 0 <= i < |s| && s[i].valid ==> s[i].payload.mfslContext == c
    ensures Released(s, c, run) == CompletedAll(Payloads(s), run)
    ensures |Released(s, c, run)| == Occupancy(s)
  {
    OccupancyCountsPayloads(s);
    if s != [] {
      var n := |s| - 1;
      ReleasedSingleContext(s[..n], c, run);
    }
  }

  /** A context only ever gets back its own descriptors, and no more than the live count. */
  lemma {:induction false} ReleasedOwnOnly(s: seq<Slot<Desc>>, c: MfslContext,
                                           run: Desc -> WorkerResult)
    ensures forall d :: d in Released(s, c, run) ==> d.mfslContext == c
    ensures |Released(s, c, run)| <= Occupancy(s)
  {
    if s != [] {
      ReleasedOwnOnly(s[..|s| - 1], c, run);
    }
  }
}
