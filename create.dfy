/*
 * Asynchronous file creation (mfsl_async_create.c).  MFSL_create answers at
 * once with attributes guessed from a precreated file of the chosen
 * worker's filler; the real work, renaming that file from the filler's
 * staging directory to its place and setting its attributes, is queued as
 * a descriptor for the worker side MFSL_async_create.
 */
module Create {
  import opened Fsal
  import opened TimeVals
  import opened PendingLists
  import opened MfslTypes
  import opened Synclets
  import Dispatcher
  import opened Filler
  import MfslObjects

  /**
   * The guessed attributes of a new object of type t made from a precreated
   * one: the precreated object's, stamped with the current second for ctime
   * and mtime, with the requested mode, owned by the caller.
   */
  function GuessedObject(pre: Attrs, t: NodeType, now: int, mode: int, ctx: OpContext): (a: Attrs)
    ensures a.ftype == t && a.ctime == Stamp(now) && a.mtime == a.ctime
    ensures a.mode == mode && a.owner == ctx.uid && a.group == ctx.gid
    ensures a.filesize == pre.filesize && a.numlinks == pre.numlinks
  {
    pre.(ctime := Stamp(now), mtime := Stamp(now), mode := mode,
         owner := ctx.uid, group := ctx.gid, ftype := t)
  }

  /** The guessed parent attributes: one more entry, the link count unchanged. */
  function GuessedParent(parent: Attrs): (a: Attrs)
    ensures a.filesize == parent.filesize + 1
    ensures a.(filesize := parent.filesize) == parent
  {
    parent.(filesize := parent.filesize + 1)
  }

  /**
   * The descriptor MFSL_create posts.  It is cleared first, so nothing of
   * its previous use survives: the real result holds the caller's parent
   * attributes and no file attributes yet, and no concerned object is
   * recorded.
   */
  function CreateDesc(opTime: TimeVal, k: nat, pre: Precreated, poolDir: Handle,
                      parent: Handle, name: Name, ctx: OpContext, mctx: MfslContext,
                      parentAttrs: Attrs, now: int, mode: int): (d: Desc)
    ensures WellFormed(d) && d.opType == OpCreate && d.relatedSynclet == k
    ensures d.args.newFileHandle == d.res.newFileHandle == d.guessed.newFileHandle == pre.handle
    ensures d.args.oldParentdirHandle == poolDir && d.args.oldFilename == pre.filename
    ensures d.args.newParentdirHandle == parent && d.args.newFilename == name
    ensures d.guessed.newFileAttributes == Some(GuessedObject(pre.attrs, File, now, mode, ctx))
    ensures d.guessed.newParentdirAttributes == GuessedParent(parentAttrs)
    ensures d.res.newFileAttributes.None? && d.res.newParentdirAttributes == parentAttrs
  {
    Desc(opTime, OpCreate,
         CreateArgs(poolDir, pre.filename, parent, name, pre.handle, ctx),
         CreateRes(pre.handle, None, parentAttrs),
         CreateRes(pre.handle, Some(GuessedObject(pre.attrs, File, now, mode, ctx)), GuessedParent(parentAttrs)),
         ctx, mctx, k, [])
  }

  /**
   * MFSL_async_create: rename the precreated file into place, then set the
   * guessed attributes on it.  Both outcomes land in the real result; the
   * statuses are only logged and the answer is always NO_ERROR.
   */
  function AsyncCreate(d: Desc, be: Backend): (w: WorkerResult)
    requires d.args.CreateArgs? && d.res.CreateRes? && d.guessed.CreateRes?
    requires d.guessed.newFileAttributes.Some?
    ensures w.status == Success && w.args == d.args
    ensures w.res.CreateRes? && w.res.newFileHandle == d.res.newFileHandle
  {
    var a := d.args;
    var moved := be.rename(a.oldParentdirHandle, a.oldFilename, a.newParentdirHandle,
                           a.newFilename, a.context, None, d.res.newParentdirAttributes);
    var attrsSet := be.setattrs(a.newFileHandle, a.context, d.guessed.newFileAttributes.value,
                           d.res.newFileAttributes);
    WorkerResult(Success, a, d.res.(newParentdirAttributes := moved.tgtDirAttrs,
                                    newFileAttributes := attrsSet.attrs))
  }

  /**
   * MFSL_create.  FAULT without a context or either attribute buffer; the
   * access check's major code when it refuses; SERVERFAULT when the
   * context's descriptor pool is exhausted; the filler's status when no
   * precreated file can be had (the descriptor is then not given back).
   * Otherwise both objects record the operation time and the chosen worker,
   * the descriptor is posted, and on a successful post the caller receives
   * the guessed attributes and the precreated handle.  opTime is the
   * gettimeofday reading and now the time(NULL) reading.
   */
  method MfslCreate(parent: MfslObject, name: Name, ctx: Option<OpContext>, mctx: MfslContext,
                    mode: int, obj: MfslObject, objAttrs: Option<Attrs>, parentAttrs: Option<Attrs>,
                    be: Backend, opTime: TimeVal, now: int, p: Params,
                    fillers: seq<FillerData>, clock: nat -> TimeVal, mk: nat -> Option<Created>,
                    disp: Dispatcher.Dispatcher, alloc: Alloc)
    returns (st: Status, objAttrsOut: Option<Attrs>, parentAttrsOut: Option<Attrs>)
    requires |fillers| > 0 && !fillers[0].filesLocked
    modifies mctx`pool, fillers[0], disp`list
    modifies parent`lastOpTime, parent`lastSyncletIndex, obj`lastOpTime, obj`lastSyncletIndex, obj`handle
    ensures ctx.None? || objAttrs.None? || parentAttrs.None? ==>
              st == Fail(Fault)
    ensures ctx.Some? && objAttrs.Some? && parentAttrs.Some?
            && IsError(be.createAccess(ctx.value, parentAttrs.value)) ==>
              st == Fail(be.createAccess(ctx.value, parentAttrs.value).major)
    ensures ctx.Some? && objAttrs.Some? && parentAttrs.Some?
            && !IsError(be.createAccess(ctx.value, parentAttrs.value)) && old(mctx.pool) == [] ==>
              st == Fail(ServerFault)
    ensures !(ctx.Some? && objAttrs.Some? && parentAttrs.Some?
              && !IsError(be.createAccess(ctx.value, parentAttrs.value)) && old(mctx.pool) != []) ==>
              unchanged(mctx, fillers[0], disp, parent, obj)
              && objAttrsOut == objAttrs && parentAttrsOut == parentAttrs
    ensures ctx.Some? && objAttrs.Some? && parentAttrs.Some?
            && !IsError(be.createAccess(ctx.value, parentAttrs.value)) && old(mctx.pool) != [] ==>
              var s := old(fillers[0].files);
              var pre := Taken(s, clock, mk);
              |mctx.pool| + 1 == |old(mctx.pool)| && mctx.pool == old(mctx.pool)[..|mctx.pool|]
              && fillers[0].files == AfterTake(s)
              && fillers[0].wakeups == old(fillers[0].wakeups) + TakeSignals(s, p.aftLowWatermark, mk)
              && fillers[0].dirs == old(fillers[0].dirs)
              && (pre.None? ==>
                    st == Fail(NoEnt) && disp.list == old(disp.list)
                    && unchanged(parent, obj)
                    && objAttrsOut == objAttrs && parentAttrsOut == parentAttrs)
              && (pre.Some? ==>
                    var d := CreateDesc(opTime, 0, pre.value, fillers[0].filesPoolHandle,
                                        old(parent.handle), name, ctx.value, mctx,
                                        parentAttrs.value, now, mode);
                    parent.lastOpTime == opTime && parent.lastSyncletIndex == 0
                    && obj.lastOpTime == opTime && obj.lastSyncletIndex == 0
                    && MfslObjects.IsSynchronous(parent) == old(MfslObjects.IsSynchronous(parent))
                    && MfslObjects.IsSynchronous(obj) == old(MfslObjects.IsSynchronous(obj))
                    && (alloc.Refused? ==>
                          st == Status(ServerFault, alloc.lruStatus) && disp.list == old(disp.list)
                          && obj.handle == old(obj.handle)
                          && objAttrsOut == objAttrs && parentAttrsOut == parentAttrs)
                    && (alloc.Granted? ==>
                          st == Success && disp.list == Appended(old(disp.list), d)
                          && obj.handle == pre.value.handle
                          && objAttrsOut == Some(GuessedObject(pre.value.attrs, File, now, mode, ctx.value))
                          && parentAttrsOut == Some(GuessedParent(parentAttrs.value))))
  {
    objAttrsOut, parentAttrsOut := objAttrs, parentAttrs;
    if ctx.None? || parentAttrs.None? || objAttrs.None? {
      return Fail(Fault), objAttrsOut, parentAttrsOut;
    }
    var access := be.createAccess(ctx.value, parentAttrs.value);
    if IsError(access) {
      return Fail(access.major), objAttrsOut, parentAttrsOut;
    }
    var blank := mctx.Take();
    if blank.None? {
      return Fail(ServerFault), objAttrsOut, parentAttrsOut;
    }
    var k := ChooseSynclet(blank.value);
    var filler := fillers[k];
    var got, pre := filler.GetPrecreatedObject(File, p.aftLowWatermark, clock, mk);
    if IsError(got) {
      return got, objAttrsOut, parentAttrsOut;
    }
    var d := CreateDesc(opTime, k, pre.value, filler.filesPoolHandle, parent.handle, name,
                        ctx.value, mctx, parentAttrs.value, now, mode);
    st := PostCreate(parent, obj, d, disp, alloc);
    if IsError(st) {
      return;
    }
    objAttrsOut := d.guessed.newFileAttributes;
    parentAttrsOut := Some(d.guessed.newParentdirAttributes);
  }

  /**
   * The end of MFSL_create once a precreated file is in hand: both objects
   * record the operation time and the worker, the descriptor is posted, and
   * a posted creation gives the new object the precreated handle.
   */
  method PostCreate(parent: MfslObject, obj: MfslObject, d: Desc, disp: Dispatcher.Dispatcher,
                    alloc: Alloc)
    returns (st: Status)
    requires d.guessed.CreateRes?
    modifies parent`lastOpTime, parent`lastSyncletIndex, obj`lastOpTime, obj`lastSyncletIndex, obj`handle
    modifies disp`list
    ensures parent.lastOpTime == d.opTime && parent.lastSyncletIndex == d.relatedSynclet
    ensures obj.lastOpTime == d.opTime && obj.lastSyncletIndex == d.relatedSynclet
    ensures alloc.Refused? ==>
              st == Status(ServerFault, alloc.lruStatus) && disp.list == old(disp.list)
              && obj.handle == old(obj.handle)
    ensures alloc.Granted? ==>
              st == Success && disp.list == Appended(old(disp.list), d)
              && obj.handle == d.guessed.newFileHandle
  {
    parent.lastOpTime := d.opTime;
    parent.lastSyncletIndex := d.relatedSynclet;
    obj.lastOpTime := d.opTime;
    obj.lastSyncletIndex := d.relatedSynclet;
    st := disp.Post(Some(d), alloc);
    if IsError(st) {
      return;
    }
    obj.handle := d.guessed.newFileHandle;
  }
}
