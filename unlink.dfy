/*
 * Asynchronous unlink (mfsl_async2_unlink.c).  MFSL_unlink answers with
 * guessed parent-directory attributes and queues the real FSAL_unlink for
 * the worker side MFSL_async_unlink.
 */
module Unlink {
  import opened Fsal
  import opened TimeVals
  import opened PendingLists
  import opened MfslTypes
  import opened Synclets
  import Dispatcher
  import opened Variants

  /**
   * The guessed parent attributes after removing an entry of type objType:
   * one link less when it is a directory (its ".." goes away), one entry
   * less unless the build is the proxy one (which counts sizes in bytes),
   * and stamped with the current second.
   */
  function UnlinkGuess(parent: Attrs, objType: NodeType, proxy: bool, now: int): (a: Attrs)
    ensures a.numlinks == if objType == Dir then parent.numlinks - 1 else parent.numlinks
    ensures a.filesize == if proxy then parent.filesize else parent.filesize - 1
    ensures a.ctime == Stamp(now) && a.mtime == Stamp(now)
    ensures a.(filesize := parent.filesize, numlinks := parent.numlinks,
               ctime := parent.ctime, mtime := parent.mtime) == parent
  {
    var links := if objType == Dir then parent.numlinks - 1 else parent.numlinks;
    var size := if proxy then parent.filesize else parent.filesize - 1;
    parent.(numlinks := links, filesize := size, ctime := Stamp(now), mtime := Stamp(now))
  }

  /**
   * The descriptor as MFSL_unlink leaves it: the recycled descriptor d0
   * with its type, arguments, results, time and contexts rewritten, but
   * neither a worker chosen nor the concerned objects cleared, so both keep
   * whatever the previous use (or the pool's preallocation) left there.
   */
  function UnlinkDescAsWritten(d0: Desc, opTime: TimeVal, parentHandle: Handle, name: Name,
                               ctx: OpContext, mctx: MfslContext, parentAttrs: Attrs,
                               objType: NodeType, proxy: bool, now: int): (d: Desc)
    ensures WellFormed(d) && d.opType == OpUnlink
    ensures d.relatedSynclet == d0.relatedSynclet && d.concerned == d0.concerned
    ensures d.args == UnlinkArgs(parentHandle, name, ctx, parentAttrs)
    ensures d.res == UnlinkRes(parentAttrs)
    ensures d.guessed == UnlinkRes(UnlinkGuess(parentAttrs, objType, proxy, now))
    ensures d.opTime == opTime && d.fsalContext == ctx && d.mfslContext == mctx
  {
    d0.(opTime := opTime, opType := OpUnlink,
        args := UnlinkArgs(parentHandle, name, ctx, parentAttrs),
        res := UnlinkRes(parentAttrs),
        guessed := UnlinkRes(UnlinkGuess(parentAttrs, objType, proxy, now)),
        fsalContext := ctx, mfslContext := mctx)
  }

  /**
   * The descriptor MFSL_unlink should post: the same, with the worker
   * chosen as MFSL_create, MFSL_rename and MFSL_setattrs choose it.
   */
  function UnlinkDesc(d0: Desc, opTime: TimeVal, parentHandle: Handle, name: Name,
                      ctx: OpContext, mctx: MfslContext, parentAttrs: Attrs,
                      objType: NodeType, proxy: bool, now: int): (d: Desc)
    ensures WellFormed(d) && d.opType == OpUnlink && d.relatedSynclet == ChooseSynclet(d0)
    ensures d.args == UnlinkArgs(parentHandle, name, ctx, parentAttrs)
    ensures d.res == UnlinkRes(parentAttrs)
    ensures d.guessed == UnlinkRes(UnlinkGuess(parentAttrs, objType, proxy, now))
    ensures d.opTime == opTime && d.fsalContext == ctx && d.mfslContext == mctx
  {
    UnlinkDescAsWritten(d0, opTime, parentHandle, name, ctx, mctx, parentAttrs, objType, proxy, now)
      .(relatedSynclet := ChooseSynclet(d0))
  }

  /**
   * Posted as written, a descriptor whose recycled worker index names no
   * configured worker makes the pending list unroutable: the dispatcher
   * would index past its worker table.
   */
  lemma UnlinkAsWrittenUnroutable(list: seq<Slot<Desc>>, d0: Desc, opTime: TimeVal,
                                  parentHandle: Handle, name: Name, ctx: OpContext,
                                  mctx: MfslContext, parentAttrs: Attrs, objType: NodeType,
                                  proxy: bool, now: int, nbSynclet: nat)
    requires d0.relatedSynclet >= nbSynclet
    ensures !Dispatcher.Routable(Appended(list, UnlinkDescAsWritten(d0, opTime, parentHandle, name,
              ctx, mctx, parentAttrs, objType, proxy, now)), nbSynclet)
  {
    var d := UnlinkDescAsWritten(d0, opTime, parentHandle, name, ctx, mctx, parentAttrs,
                                 objType, proxy, now);
    Dispatcher.RoutableAppended(list, d, nbSynclet);
  }

  /** Posted with a chosen worker, the descriptor keeps a routable list routable. */
  lemma UnlinkRoutable(list: seq<Slot<Desc>>, d0: Desc, opTime: TimeVal,
                       parentHandle: Handle, name: Name, ctx: OpContext,
                       mctx: MfslContext, parentAttrs: Attrs, objType: NodeType,
                       proxy: bool, now: int, p: Params)
    requires Dispatcher.Routable(list, p.nbSynclet) && p.nbSynclet >= 1
    ensures Dispatcher.Routable(Appended(list, UnlinkDesc(d0, opTime, parentHandle, name,
              ctx, mctx, parentAttrs, objType, proxy, now)), p.nbSynclet)
  {
    var d := UnlinkDesc(d0, opTime, parentHandle, name, ctx, mctx, parentAttrs, objType, proxy, now);
    ChosenWorkerExists(d0, p);
    Dispatcher.RoutableAppended(list, d, p.nbSynclet);
  }

  /**
   * MFSL_async_unlink: the real unlink; what FSAL_unlink leaves in the
   * parent attribute buffer becomes the real result, and its status is the
   * answer.
   */
  function AsyncUnlink(d: Desc, be: Backend): (w: WorkerResult)
    requires d.args.UnlinkArgs?
    ensures var r := be.unlink(d.args.parentdirHandle, d.args.objectName, d.args.context,
                               d.args.parentdirAttributes);
            w.status == r.status
            && w.args == d.args.(parentdirAttributes := r.attrs)
            && w.res == UnlinkRes(r.attrs)
  {
    var a := d.args;
    var r := be.unlink(a.parentdirHandle, a.objectName, a.context, a.parentdirAttributes);
    WorkerResult(r.status, a.(parentdirAttributes := r.attrs), UnlinkRes(r.attrs))
  }

  /**
   * MFSL_unlink.  FAULT without a context, parent attributes or object
   * attributes; the access check's major code when it refuses; SERVERFAULT
   * when the descriptor pool is exhausted.  Otherwise the descriptor is
   * posted and a successful post hands the guessed parent attributes to the
   * caller.  As written (v == AsWritten) the descriptor keeps the worker
   * index of its previous use; as intended a worker is chosen.  The object
   * handle argument is not used.
   */
  method MfslUnlink(v: Variant, parent: MfslObject, name: Name, ctx: Option<OpContext>, mctx: MfslContext,
                    parentAttrs: Option<Attrs>, objAttrs: Option<Attrs>, be: Backend,
                    opTime: TimeVal, now: int, proxy: bool, disp: Dispatcher.Dispatcher,
                    alloc: Alloc)
    returns (st: Status, parentOut: Option<Attrs>)
    modifies mctx`pool, disp`list
    ensures ctx.None? || parentAttrs.None? || objAttrs.None? ==> st == Fail(Fault)
    ensures ctx.Some? && parentAttrs.Some? && objAttrs.Some?
            && IsError(be.unlinkAccess(ctx.value, parentAttrs.value, objAttrs)) ==>
              st == Fail(be.unlinkAccess(ctx.value, parentAttrs.value, objAttrs).major)
    ensures ctx.Some? && parentAttrs.Some? && objAttrs.Some?
            && !IsError(be.unlinkAccess(ctx.value, parentAttrs.value, objAttrs))
            && old(mctx.pool) == [] ==>
              st == Fail(ServerFault)
    ensures !(ctx.Some? && parentAttrs.Some? && objAttrs.Some?
              && !IsError(be.unlinkAccess(ctx.value, parentAttrs.value, objAttrs))
              && old(mctx.pool) != []) ==>
              unchanged(mctx, disp) && parentOut == parentAttrs
    ensures ctx.Some? && parentAttrs.Some? && objAttrs.Some?
            && !IsError(be.unlinkAccess(ctx.value, parentAttrs.value, objAttrs))
            && old(mctx.pool) != [] ==>
              var d0 := old(mctx.pool)[|old(mctx.pool)| - 1];
              var d := if v == AsWritten
                       then UnlinkDescAsWritten(d0, opTime, parent.handle, name, ctx.value, mctx,
                                                parentAttrs.value, objAttrs.value.ftype, proxy, now)
                       else UnlinkDesc(d0, opTime, parent.handle, name, ctx.value, mctx,
                                       parentAttrs.value, objAttrs.value.ftype, proxy, now);
              mctx.pool == old(mctx.pool)[..|old(mctx.pool)| - 1]
              && (alloc.Refused? ==>
                    st == Status(ServerFault, alloc.lruStatus) && disp.list == old(disp.list)
                    && parentOut == parentAttrs)
              && (alloc.Granted? ==>
                    st == Success && disp.list == Appended(old(disp.list), d)
                    && parentOut == Some(UnlinkGuess(parentAttrs.value, objAttrs.value.ftype, proxy, now)))
  {
    parentOut := parentAttrs;
    if ctx.None? || parentAttrs.None? || objAttrs.None? {
      return Fail(Fault), parentOut;
    }
    var access := be.unlinkAccess(ctx.value, parentAttrs.value, objAttrs);
    if IsError(access) {
      return Fail(access.major), parentOut;
    }
    var recycled := mctx.Take();
    if recycled.None? {
      return Fail(ServerFault), parentOut;
    }
    var d;
    if v == AsWritten {
      d := UnlinkDescAsWritten(recycled.value, opTime, parent.handle, name, ctx.value, mctx,
                               parentAttrs.value, objAttrs.value.ftype, proxy, now);
    } else {
      d := UnlinkDesc(recycled.value, opTime, parent.handle, name, ctx.value, mctx,
                      parentAttrs.value, objAttrs.value.ftype, proxy, now);
    }
    st := disp.Post(Some(d), alloc);
    if IsError(st) {
      return;
    }
    parentOut := Some(d.guessed.parentdirAttributes);
    st := Success;
  }
}
