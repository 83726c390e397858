/*
 * Asynchronous hard link (mfsl_async2_link.c).  MFSL_link answers with
 * guessed attributes for the linked object and queues the real FSAL_link
 * for the worker side MFSL_async_link.
 */
module Link {
  import opened Fsal
  import opened TimeVals
  import opened PendingLists
  import opened MfslTypes
  import opened Synclets
  import Dispatcher
  import opened Variants

  /** The guessed object attributes: one link more and a new ctime; mtime is left alone. */
  function LinkGuess(obj: Attrs, now: int): (a: Attrs)
    ensures a.numlinks == obj.numlinks + 1 && a.ctime == Stamp(now)
    ensures a.(numlinks := obj.numlinks, ctime := obj.ctime) == obj
  {
    obj.(numlinks := obj.numlinks + 1, ctime := Stamp(now))
  }

  /**
   * The sanity check as MFSL_link makes it: it tests the destination
   * directory pointer before assigning it, so its outcome depends on
   * whatever that local happens to hold (destdirUnsetIsNull: it holds
   * NULL).  True means FAULT.
   */
  predicate LinkRefusedAsWritten(ctx: Option<OpContext>, destdirUnsetIsNull: bool,
                                 extra: Option<DirsAttrs>)
  {
    ctx.None? || destdirUnsetIsNull || extra.None?
  }

  /**
   * The sanity check as intended: FAULT without a context, without the
   * extra argument, or without the destination directory attributes it
   * carries (its src_dir_attrs field).
   */
  predicate LinkRefused(ctx: Option<OpContext>, extra: Option<DirsAttrs>)
  {
    ctx.None? || extra.None? || extra.value.srcDirAttrs.None?
  }

  /**
   * The check as written refuses a well-formed call whenever the
   * uninitialised local is NULL, and lets a missing destination directory
   * through whenever it is not; on a call with every pointer set it agrees
   * with the intended check only when the local is not NULL.
   */
  lemma LinkRefusedAsWrittenSpurious(ctx: Option<OpContext>, extra: Option<DirsAttrs>)
    ensures ctx.Some? && extra.Some? && extra.value.srcDirAttrs.Some? ==>
              LinkRefusedAsWritten(ctx, true, extra) && !LinkRefused(ctx, extra)
              && !LinkRefusedAsWritten(ctx, false, extra)
    ensures ctx.Some? && extra.Some? && extra.value.srcDirAttrs.None? ==>
              !LinkRefusedAsWritten(ctx, false, extra) && LinkRefused(ctx, extra)
    ensures LinkRefused(ctx, extra) && !(extra.Some? && extra.value.srcDirAttrs.None?) ==>
              LinkRefusedAsWritten(ctx, false, extra)
    ensures LinkRefused(ctx, extra) ==> LinkRefusedAsWritten(ctx, true, extra)
  {
  }

  /** The sanity check of reading v; true means FAULT. */
  predicate LinkRefusedBy(v: Variant, ctx: Option<OpContext>, destdirUnsetIsNull: bool,
                          extra: Option<DirsAttrs>)
  {
    if v == AsWritten then LinkRefusedAsWritten(ctx, destdirUnsetIsNull, extra)
    else LinkRefused(ctx, extra)
  }

  /**
   * Once the sanity check of reading v has passed, MFSL_link dereferences
   * both attribute pointers of the extra argument without testing them: a
   * caller must have set them.
   */
  predicate DirsGiven(v: Variant, ctx: Option<OpContext>, destdirUnsetIsNull: bool,
                      extra: Option<DirsAttrs>)
  {
    !LinkRefusedBy(v, ctx, destdirUnsetIsNull, extra) ==>
      extra.value.srcDirAttrs.Some? && extra.value.destDirAttrs.Some?
  }

  /**
   * The checks MFSL_link makes, with the sanity check of reading v.  The
   * directory that receives the link is taken from the src_dir_attrs field
   * and the other from dest_dir_attrs; both must be directories.
   */
  function LinkChecks(v: Variant, ctx: Option<OpContext>, destdirUnsetIsNull: bool,
                      extra: Option<DirsAttrs>, be: Backend): (st: Status)
    requires DirsGiven(v, ctx, destdirUnsetIsNull, extra)
    ensures LinkRefusedBy(v, ctx, destdirUnsetIsNull, extra) ==> st == Fail(Fault)
    ensures !LinkRefusedBy(v, ctx, destdirUnsetIsNull, extra)
            && (extra.value.srcDirAttrs.value.ftype != Dir || extra.value.destDirAttrs.value.ftype != Dir) ==>
              st == Fail(NotDir)
    ensures !LinkRefusedBy(v, ctx, destdirUnsetIsNull, extra)
            && extra.value.srcDirAttrs.value.ftype == Dir && extra.value.destDirAttrs.value.ftype == Dir ==>
              var access := be.linkAccess(ctx.value, extra.value.srcDirAttrs.value,
                                          extra.value.destDirAttrs.value);
              st == if IsError(access) then Fail(access.major) else Success
  {
    if LinkRefusedBy(v, ctx, destdirUnsetIsNull, extra) then Fail(Fault)
    else
      var destdir := extra.value.srcDirAttrs.value;
      var srcdir := extra.value.destDirAttrs.value;
      if srcdir.ftype != Dir || destdir.ftype != Dir then Fail(NotDir)
      else
        var access := be.linkAccess(ctx.value, destdir, srcdir);
        if IsError(access) then Fail(access.major) else Success
  }

  /**
   * The descriptor as MFSL_link leaves it: like MFSL_unlink, it chooses
   * no worker and keeps the recycled descriptor's index and concerned
   * objects.
   */
  function LinkDescAsWritten(d0: Desc, opTime: TimeVal, targetHandle: Handle, dirHandle: Handle,
                             name: Name, ctx: OpContext, mctx: MfslContext, obj: Attrs,
                             now: int): (d: Desc)
    ensures WellFormed(d) && d.opType == OpLink
    ensures d.relatedSynclet == d0.relatedSynclet && d.concerned == d0.concerned
    ensures d.args == LinkArgs(targetHandle, dirHandle, name, ctx, obj)
    ensures d.res == LinkRes(obj) && d.guessed == LinkRes(LinkGuess(obj, now))
    ensures d.opTime == opTime && d.fsalContext == ctx && d.mfslContext == mctx
  {
    d0.(opTime := opTime, opType := OpLink,
        args := LinkArgs(targetHandle, dirHandle, name, ctx, obj),
        res := LinkRes(obj),
        guessed := LinkRes(LinkGuess(obj, now)),
        fsalContext := ctx, mfslContext := mctx)
  }

  /** The descriptor MFSL_link should post: the same, with a chosen worker. */
  function LinkDesc(d0: Desc, opTime: TimeVal, targetHandle: Handle, dirHandle: Handle,
                    name: Name, ctx: OpContext, mctx: MfslContext, obj: Attrs,
                    now: int): (d: Desc)
    ensures WellFormed(d) && d.opType == OpLink && d.relatedSynclet == ChooseSynclet(d0)
    ensures d.args == LinkArgs(targetHandle, dirHandle, name, ctx, obj)
    ensures d.res == LinkRes(obj) && d.guessed == LinkRes(LinkGuess(obj, now))
    ensures d.opTime == opTime && d.fsalContext == ctx && d.mfslContext == mctx
  {
    LinkDescAsWritten(d0, opTime, targetHandle, dirHandle, name, ctx, mctx, obj, now)
      .(relatedSynclet := ChooseSynclet(d0))
  }

  /** Posted as written, a recycled index that names no worker makes the list unroutable. */
  lemma LinkAsWrittenUnroutable(list: seq<Slot<Desc>>, d0: Desc, opTime: TimeVal,
                                targetHandle: Handle, dirHandle: Handle, name: Name,
                                ctx: OpContext, mctx: MfslContext, obj: Attrs, now: int,
                                nbSynclet: nat)
    requires d0.relatedSynclet >= nbSynclet
    ensures !Dispatcher.Routable(Appended(list, LinkDescAsWritten(d0, opTime, targetHandle,
              dirHandle, name, ctx, mctx, obj, now)), nbSynclet)
  {
    var d := LinkDescAsWritten(d0, opTime, targetHandle, dirHandle, name, ctx, mctx, obj, now);
    Dispatcher.RoutableAppended(list, d, nbSynclet);
  }

  /** Posted with a chosen worker, the descriptor keeps a routable list routable. */
  lemma LinkRoutable(list: seq<Slot<Desc>>, d0: Desc, opTime: TimeVal,
                     targetHandle: Handle, dirHandle: Handle, name: Name,
                     ctx: OpContext, mctx: MfslContext, obj: Attrs, now: int, p: Params)
    requires Dispatcher.Routable(list, p.nbSynclet) && p.nbSynclet >= 1
    ensures Dispatcher.Routable(Appended(list, LinkDesc(d0, opTime, targetHandle,
              dirHandle, name, ctx, mctx, obj, now)), p.nbSynclet)
  {
    var d := LinkDesc(d0, opTime, targetHandle, dirHandle, name, ctx, mctx, obj, now);
    ChosenWorkerExists(d0, p);
    Dispatcher.RoutableAppended(list, d, p.nbSynclet);
  }

  /**
   * MFSL_async_link: the real link; what FSAL_link leaves in the object
   * attribute buffer becomes the real result, and its status is the answer.
   */
  function AsyncLink(d: Desc, be: Backend): (w: WorkerResult)
    requires d.args.LinkArgs?
    ensures var r := be.link(d.args.targetHandle, d.args.dirHandle, d.args.linkName,
                             d.args.context, d.args.linkedObjectAttributes);
            w.status == r.status
            && w.args == d.args.(linkedObjectAttributes := r.attrs)
            && w.res == LinkRes(r.attrs)
  {
    var a := d.args;
    var r := be.link(a.targetHandle, a.dirHandle, a.linkName, a.context, a.linkedObjectAttributes);
    WorkerResult(r.status, a.(linkedObjectAttributes := r.attrs), LinkRes(r.attrs))
  }

  /**
   * MFSL_link, with the sanity check and the descriptor of reading v (as
   * written the descriptor keeps the recycled worker index).  After the
   * checks, SERVERFAULT when the descriptor pool is exhausted; otherwise the
   * descriptor is posted and a successful post hands the guessed object
   * attributes to the caller.
   */
  method MfslLink(v: Variant, target: MfslObject, dir: MfslObject, name: Name,
                  ctx: Option<OpContext>, destdirUnsetIsNull: bool,
                  mctx: MfslContext, objAttrs: Attrs, extra: Option<DirsAttrs>, be: Backend,
                  opTime: TimeVal, now: int, disp: Dispatcher.Dispatcher, alloc: Alloc)
    returns (st: Status, objOut: Attrs)
    requires DirsGiven(v, ctx, destdirUnsetIsNull, extra)
    modifies mctx`pool, disp`list
    ensures var c := LinkChecks(v, ctx, destdirUnsetIsNull, extra, be);
            IsError(c) ==> st == c
    ensures var c := LinkChecks(v, ctx, destdirUnsetIsNull, extra, be);
            !IsError(c) && old(mctx.pool) == [] ==> st == Fail(ServerFault)
    ensures var c := LinkChecks(v, ctx, destdirUnsetIsNull, extra, be);
            IsError(c) || old(mctx.pool) == [] ==> unchanged(mctx, disp) && objOut == objAttrs
    ensures var c := LinkChecks(v, ctx, destdirUnsetIsNull, extra, be);
            !IsError(c) && old(mctx.pool) != [] ==>
              var d0 := old(mctx.pool)[|old(mctx.pool)| - 1];
              var d := if v == AsWritten
                       then LinkDescAsWritten(d0, opTime, target.handle, dir.handle, name,
                                              ctx.value, mctx, objAttrs, now)
                       else LinkDesc(d0, opTime, target.handle, dir.handle, name, ctx.value,
                                     mctx, objAttrs, now);
              mctx.pool == old(mctx.pool)[..|old(mctx.pool)| - 1]
              && (alloc.Refused? ==>
                    st == Status(ServerFault, alloc.lruStatus) && disp.list == old(disp.list)
                    && objOut == objAttrs)
              && (alloc.Granted? ==>
                    st == Success && disp.list == Appended(old(disp.list), d)
                    && objOut == LinkGuess(objAttrs, now))
  {
    objOut := objAttrs;
    st := LinkChecks(v, ctx, destdirUnsetIsNull, extra, be);
    if IsError(st) {
      return;
    }
    var recycled := mctx.Take();
    if recycled.None? {
      return Fail(ServerFault), objOut;
    }
    var d;
    if v == AsWritten {
      d := LinkDescAsWritten(recycled.value, opTime, target.handle, dir.handle, name, ctx.value,
                             mctx, objAttrs, now);
    } else {
      d := LinkDesc(recycled.value, opTime, target.handle, dir.handle, name, ctx.value, mctx,
                    objAttrs, now);
    }
    st := disp.Post(Some(d), alloc);
    if IsError(st) {
      return;
    }
    objOut := d.guessed.linkedObjectAttributes;
    st := Success;
  }
}
