/*
 * Asynchronous directory creation (mfsl_async_mkdir.c).  Like file creation,
 * but from the filler's precreated directories, with a link more in the
 * parent, and with the objects' last-operation pointers updated only when
 * the new operation is more recent.
 */
module Mkdir {
  import opened Fsal
  import opened TimeVals
  import opened PendingLists
  import opened MfslTypes
  import opened Synclets
  import Dispatcher
  import opened Filler
  import opened Create
  import MfslObjects

  /** The guessed parent attributes: one more entry and one more link (the new ".."). */
  function GuessedMkdirParent(parent: Attrs): (a: Attrs)
    ensures a.filesize == parent.filesize + 1 && a.numlinks == parent.numlinks + 1
    ensures a.(filesize := parent.filesize, numlinks := parent.numlinks) == parent
  {
    parent.(filesize := parent.filesize + 1, numlinks := parent.numlinks + 1)
  }

  /**
   * The new-directory attributes a recycled descriptor still holds in its
   * real result: MFSL_mkdir does not clear the descriptor and never writes
   * that field.  Bytes left by an operation of another kind are not
   * modelled (None).
   */
  function StaleDirAttrs(r: OpRes): Option<Attrs>
  {
    if r.MkdirRes? then r.newDirAttributes else None
  }

  /**
   * The descriptor MFSL_mkdir posts, built over the recycled descriptor d0:
   * every field is rewritten except the real new-directory attributes.
   */
  function MkdirDesc(d0: Desc, opTime: TimeVal, k: nat, pre: Precreated, poolDir: Handle,
                     parent: MfslObject, obj: MfslObject, parentHandle: Handle, name: Name,
                     ctx: OpContext, mctx: MfslContext, parentAttrs: Attrs,
                     now: int, mode: int): (d: Desc)
    ensures WellFormed(d) && d.opType == OpMkdir && d.relatedSynclet == k
    ensures d.args.newDirHandle == d.res.newDirHandle == d.guessed.newDirHandle == pre.handle
    ensures d.args.oldParentdirHandle == poolDir && d.args.oldDirname == pre.filename
    ensures d.args.newParentdirHandle == parentHandle && d.args.newDirname == name
    ensures d.guessed.newDirAttributes == Some(GuessedObject(pre.attrs, Dir, now, mode, ctx))
    ensures d.guessed.newParentdirAttributes == GuessedMkdirParent(parentAttrs)
    ensures d.res.newParentdirAttributes == parentAttrs
    ensures d.res.newDirAttributes == StaleDirAttrs(d0.res)
    ensures d.concerned == [parent, obj, null]
  {
    d0.(opTime := opTime, opType := OpMkdir,
        args := MkdirArgs(poolDir, pre.filename, parentHandle, name, pre.handle, ctx),
        res := MkdirRes(pre.handle, StaleDirAttrs(d0.res), parentAttrs),
        guessed := MkdirRes(pre.handle, Some(GuessedObject(pre.attrs, Dir, now, mode, ctx)),
                            GuessedMkdirParent(parentAttrs)),
        fsalContext := ctx, mfslContext := mctx, relatedSynclet := k,
        concerned := [parent, obj, null])
  }

  /**
   * MFSL_async_mkdir: rename the precreated directory into place, then set
   * the guessed attributes on it; the statuses are only logged and the
   * answer is always NO_ERROR.
   */
  function AsyncMkdir(d: Desc, be: Backend): (w: WorkerResult)
    requires d.args.MkdirArgs? && d.res.MkdirRes? && d.guessed.MkdirRes?
    requires d.guessed.newDirAttributes.Some?
    ensures w.status == Success && w.args == d.args
    ensures w.res.MkdirRes? && w.res.newDirHandle == d.res.newDirHandle
  {
    var a := d.args;
    var moved := be.rename(a.oldParentdirHandle, a.oldDirname, a.newParentdirHandle,
                           a.newDirname, a.context, None, d.res.newParentdirAttributes);
    var attrsSet := be.setattrs(a.newDirHandle, a.context, d.guessed.newDirAttributes.value,
                                d.res.newDirAttributes);
    WorkerResult(Success, a, d.res.(newParentdirAttributes := moved.tgtDirAttrs,
                                    newDirAttributes := attrsSet.attrs))
  }

  /**
   * MFSL_mkdir.  The checks and outcomes are those of MFSL_create, with a
   * precreated directory; instead of the worker index, each object records
   * the descriptor as its last operation when it supersedes the recorded
   * one.
   */
  method MfslMkdir(parent: MfslObject, name: Name, ctx: Option<OpContext>, mctx: MfslContext,
                   mode: int, obj: MfslObject, objAttrs: Option<Attrs>, parentAttrs: Option<Attrs>,
                   be: Backend, opTime: TimeVal, now: int, p: Params,
                   fillers: seq<FillerData>, clock: nat -> TimeVal, mk: nat -> Option<Created>,
                   disp: Dispatcher.Dispatcher, alloc: Alloc)
    returns (st: Status, objAttrsOut: Option<Attrs>, parentAttrsOut: Option<Attrs>)
    requires |fillers| > 0 && !fillers[0].dirsLocked
    modifies mctx`pool, fillers[0], disp`list, parent, obj
    ensures ctx.None? || objAttrs.None? || parentAttrs.None? ==>
              st == Fail(Fault)
    ensures ctx.Some? && objAttrs.Some? && parentAttrs.Some?
            && IsError(be.createAccess(ctx.value, parentAttrs.value)) ==>
              st == Fail(be.createAccess(ctx.value, parentAttrs.value).major)
    ensures ctx.Some? && objAttrs.Some? && parentAttrs.Some?
            && !IsError(be.createAccess(ctx.value, parentAttrs.value)) && old(mctx.pool) == [] ==>
              st == Fail(ServerFault)
    ensures !(ctx.Some? && objAttrs.Some? && parentAttrs.Some?
              && !IsError(be.createAccess(ctx.value, parentAttrs.value)) && old(mctx.pool) != []) ==>
              unchanged(mctx, fillers[0], disp, parent, obj)
              && objAttrsOut == objAttrs && parentAttrsOut == parentAttrs
    ensures ctx.Some? && objAttrs.Some? && parentAttrs.Some?
            && !IsError(be.createAccess(ctx.value, parentAttrs.value)) && old(mctx.pool) != [] ==>
              var d0 := old(mctx.pool)[|old(mctx.pool)| - 1];
              var s := old(fillers[0].dirs);
              var pre := Taken(s, clock, mk);
              mctx.pool == old(mctx.pool)[..|old(mctx.pool)| - 1]
              && fillers[0].dirs == AfterTake(s)
              && fillers[0].wakeups == old(fillers[0].wakeups) + TakeSignals(s, p.aftLowWatermark, mk)
              && fillers[0].files == old(fillers[0].files)
              && (pre.None? ==>
                    st == Fail(NoEnt) && disp.list == old(disp.list)
                    && unchanged(parent, obj)
                    && objAttrsOut == objAttrs && parentAttrsOut == parentAttrs)
              && (pre.Some? ==>
                    var d := MkdirDesc(d0, opTime, 0, pre.value, fillers[0].dirsPoolHandle,
                                       parent, obj, old(parent.handle), name, ctx.value, mctx,
                                       parentAttrs.value, now, mode);
                    (Supersedes(old(parent.lastOpDesc), old(parent.lastOpTime), d) ==>
                       parent.lastOpDesc == Some(d) && parent.lastOpTime == opTime)
                    && (!Supersedes(old(parent.lastOpDesc), old(parent.lastOpTime), d) ==>
                          parent.lastOpDesc == old(parent.lastOpDesc)
                          && parent.lastOpTime == old(parent.lastOpTime))
                    && (Supersedes(old(obj.lastOpDesc), old(obj.lastOpTime), d) ==>
                          obj.lastOpDesc == Some(d) && obj.lastOpTime == opTime)
                    && (!Supersedes(old(obj.lastOpDesc), old(obj.lastOpTime), d) ==>
                          obj.lastOpDesc == old(obj.lastOpDesc) && obj.lastOpTime == old(obj.lastOpTime))
                    && parent.lastSyncletIndex == old(parent.lastSyncletIndex)
                    && obj.lastSyncletIndex == old(obj.lastSyncletIndex)
                    && (parent != obj ==> parent.handle == old(parent.handle))
                    && !MfslObjects.IsSynchronous(parent) && !MfslObjects.IsSynchronous(obj)
                    && (alloc.Refused? ==>
                          st == Status(ServerFault, alloc.lruStatus) && disp.list == old(disp.list)
                          && obj.handle == old(obj.handle)
                          && objAttrsOut == objAttrs && parentAttrsOut == parentAttrs)
                    && (alloc.Granted? ==>
                          st == Success && disp.list == Appended(old(disp.list), d)
                          && obj.handle == pre.value.handle
                          && objAttrsOut == Some(GuessedObject(pre.value.attrs, Dir, now, mode, ctx.value))
                          && parentAttrsOut == Some(GuessedMkdirParent(parentAttrs.value))))
  {
    objAttrsOut, parentAttrsOut := objAttrs, parentAttrs;
    if ctx.None? || parentAttrs.None? || objAttrs.None? {
      return Fail(Fault), objAttrsOut, parentAttrsOut;
    }
    var access := be.createAccess(ctx.value, parentAttrs.value);
    if IsError(access) {
      return Fail(access.major), objAttrsOut, parentAttrsOut;
    }
    var recycled := mctx.Take();
    if recycled.None? {
      return Fail(ServerFault), objAttrsOut, parentAttrsOut;
    }
    var k := ChooseSynclet(recycled.value);
    var filler := fillers[k];
    var got, pre := filler.GetPrecreatedObject(Dir, p.aftLowWatermark, clock, mk);
    if IsError(got) {
      // The descriptor is not given back to the pool.
      return got, objAttrsOut, parentAttrsOut;
    }
    var d := MkdirDesc(recycled.value, opTime, k, pre.value, filler.dirsPoolHandle, parent, obj,
                       parent.handle, name, ctx.value, mctx, parentAttrs.value, now, mode);
    st := PostMkdir(parent, obj, d, disp, alloc);
    if IsError(st) {
      return;
    }
    objAttrsOut := d.guessed.newDirAttributes;
    parentAttrsOut := Some(d.guessed.newParentdirAttributes);
  }

  /**
   * The end of MFSL_mkdir once a precreated directory is in hand: both
   * objects record d as their last operation unless they hold a later one,
   * the descriptor is posted, and a posted mkdir gives the new object the
   * precreated handle.
   */
  method PostMkdir(parent: MfslObject, obj: MfslObject, d: Desc, disp: Dispatcher.Dispatcher,
                   alloc: Alloc)
    returns (st: Status)
    requires d.guessed.MkdirRes?
    modifies parent, obj, disp`list
    ensures Supersedes(old(parent.lastOpDesc), old(parent.lastOpTime), d) ==>
              parent.lastOpDesc == Some(d) && parent.lastOpTime == d.opTime
    ensures !Supersedes(old(parent.lastOpDesc), old(parent.lastOpTime), d) ==>
              parent.lastOpDesc == old(parent.lastOpDesc) && parent.lastOpTime == old(parent.lastOpTime)
    ensures Supersedes(old(obj.lastOpDesc), old(obj.lastOpTime), d) ==>
              obj.lastOpDesc == Some(d) && obj.lastOpTime == d.opTime
    ensures !Supersedes(old(obj.lastOpDesc), old(obj.lastOpTime), d) ==>
              obj.lastOpDesc == old(obj.lastOpDesc) && obj.lastOpTime == old(obj.lastOpTime)
    ensures parent.lastSyncletIndex == old(parent.lastSyncletIndex)
    ensures obj.lastSyncletIndex == old(obj.lastSyncletIndex)
    ensures parent != obj ==> parent.handle == old(parent.handle)
    ensures alloc.Refused? ==>
              st == Status(ServerFault, alloc.lruStatus) && disp.list == old(disp.list)
              && obj.handle == old(obj.handle)
    ensures alloc.Granted? ==>
              st == Success && disp.list == Appended(old(disp.list), d)
              && obj.handle == d.guessed.newDirHandle
  {
    parent.RecordLastOp(d);
    obj.RecordLastOp(d);
    st := disp.Post(Some(d), alloc);
    if IsError(st) {
      return;
    }
    obj.handle := d.guessed.newDirHandle;
  }
}
