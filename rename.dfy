/*
 * Asynchronous rename (mfsl_async_rename.c).  MFSL_rename answers with
 * guessed attributes for the source and target directories and queues the
 * real FSAL_rename for the worker side MFSL_async_rename.
 */
module Rename {
  import opened Fsal
  import opened TimeVals
  import opened PendingLists
  import opened MfslTypes
  import opened Synclets
  import Dispatcher
  import MfslObjects
  import opened Variants

  /** A directory's attributes stamped with the current second for ctime and mtime. */
  function Touched(a: Attrs, now: int): (r: Attrs)
    ensures r.ctime == Stamp(now) && r.mtime == Stamp(now)
    ensures r.(ctime := a.ctime, mtime := a.mtime) == a
  {
    a.(ctime := Stamp(now), mtime := Stamp(now))
  }

  /**
   * The directory guesses as MFSL_rename computes them: cmp is the
   * FSAL_handlecmp result, 0 when both directories are the same one, and
   * the sizes move by one entry when it is 0.
   */
  function RenameGuessAsWritten(src: Attrs, tgt: Attrs, cmp: int, now: int): (g: OpRes)
    ensures g.RenameRes?
  {
    var s := Touched(src, now);
    var t := Touched(tgt, now);
    if cmp == 0 then RenameRes(s.(filesize := s.filesize - 1), t.(filesize := t.filesize + 1))
    else RenameRes(s, t)
  }

  /**
   * The directory guesses as intended: both directories are stamped, and
   * one entry moves from the source to the target only when they are two
   * different directories.
   */
  function RenameGuess(src: Attrs, tgt: Attrs, cmp: int, now: int): (g: OpRes)
    ensures g.RenameRes?
    ensures g.srcDirAttributes.(filesize := src.filesize) == Touched(src, now)
    ensures g.tgtDirAttributes.(filesize := tgt.filesize) == Touched(tgt, now)
    ensures g.srcDirAttributes.filesize + g.tgtDirAttributes.filesize == src.filesize + tgt.filesize
    ensures cmp == 0 <==> g.srcDirAttributes.filesize == src.filesize
  {
    var s := Touched(src, now);
    var t := Touched(tgt, now);
    if cmp != 0 then RenameRes(s.(filesize := s.filesize - 1), t.(filesize := t.filesize + 1))
    else RenameRes(s, t)
  }

  /**
   * Renaming inside one directory, the intended guesses agree with each
   * other and keep its size: the entry only changes its name.
   */
  lemma RenameGuessSameDir(dir: Attrs, now: int)
    ensures RenameGuess(dir, dir, 0, now).srcDirAttributes == RenameGuess(dir, dir, 0, now).tgtDirAttributes
    ensures RenameGuess(dir, dir, 0, now).srcDirAttributes == Touched(dir, now)
  {
  }

  /**
   * The guesses as written give one directory two different sizes when a
   * rename stays inside it, and leave both sizes as they were when it
   * moves an entry between two directories.
   */
  lemma RenameGuessAsWrittenWrong(dir: Attrs, src: Attrs, tgt: Attrs, cmp: int, now: int)
    requires cmp != 0
    ensures RenameGuessAsWritten(dir, dir, 0, now).srcDirAttributes.filesize
            != RenameGuessAsWritten(dir, dir, 0, now).tgtDirAttributes.filesize
    ensures RenameGuessAsWritten(src, tgt, cmp, now).srcDirAttributes.filesize == src.filesize
    ensures RenameGuessAsWritten(src, tgt, cmp, now) != RenameGuess(src, tgt, cmp, now)
  {
    var g := RenameGuess(src, tgt, cmp, now);
    assert g.srcDirAttributes.filesize != src.filesize;
  }

  /**
   * The descriptor MFSL_rename posts, with the guesses of reading v; every
   * field of the recycled one is rewritten.
   */
  function RenameDesc(v: Variant, opTime: TimeVal, k: nat, oldParent: MfslObject, oldName: Name,
                      newParent: MfslObject, newName: Name, srcHandle: Handle, tgtHandle: Handle,
                      ctx: OpContext, mctx: MfslContext, src: Attrs, tgt: Attrs,
                      cmp: int, now: int): (d: Desc)
    ensures WellFormed(d) && d.opType == OpRename && d.relatedSynclet == k
    ensures d.args == RenameArgs(srcHandle, oldName, tgtHandle, newName, ctx, src, tgt)
    ensures d.res == RenameRes(src, tgt)
    ensures v == AsWritten ==> d.guessed == RenameGuessAsWritten(src, tgt, cmp, now)
    ensures v == Intended ==> d.guessed == RenameGuess(src, tgt, cmp, now)
    ensures d.concerned == [oldParent, newParent, null]
  {
    Desc(opTime, OpRename, RenameArgs(srcHandle, oldName, tgtHandle, newName, ctx, src, tgt),
         RenameRes(src, tgt),
         if v == AsWritten then RenameGuessAsWritten(src, tgt, cmp, now) else RenameGuess(src, tgt, cmp, now),
         ctx, mctx, k,
         [oldParent, newParent, null])
  }

  /**
   * MFSL_async_rename: the real rename, given both directory buffers; what
   * FSAL_rename leaves in them becomes the real result, and its status is
   * the answer.
   */
  function AsyncRename(d: Desc, be: Backend): (w: WorkerResult)
    requires d.args.RenameArgs?
    ensures w.args.RenameArgs? && w.res.RenameRes?
    ensures w.res.srcDirAttributes == w.args.srcDirAttributes
    ensures w.res.tgtDirAttributes == w.args.tgtDirAttributes
    ensures w.args.(srcDirAttributes := d.args.srcDirAttributes,
                    tgtDirAttributes := d.args.tgtDirAttributes) == d.args
    ensures var r := be.rename(d.args.srcParentdirHandle, d.args.srcName, d.args.tgtParentdirHandle,
                               d.args.tgtName, d.args.context, Some(d.args.srcDirAttributes),
                               d.args.tgtDirAttributes);
            w.status == r.status && w.args.tgtDirAttributes == r.tgtDirAttrs
  {
    var a := d.args;
    var r := be.rename(a.srcParentdirHandle, a.srcName, a.tgtParentdirHandle, a.tgtName,
                       a.context, Some(a.srcDirAttributes), a.tgtDirAttributes);
    var src := if r.srcDirAttrs.Some? then r.srcDirAttrs.value else a.srcDirAttributes;
    var a' := a.(srcDirAttributes := src, tgtDirAttributes := r.tgtDirAttrs);
    WorkerResult(r.status, a', RenameRes(src, r.tgtDirAttrs))
  }

  /** The checks MFSL_rename makes before touching anything. */
  function RenameChecks(ctx: OpContext, src: Option<Attrs>, tgt: Option<Attrs>,
                        obj: Option<Attrs>, be: Backend): (st: Status)
    ensures src.None? || tgt.None? || obj.None? ==> st == Fail(Fault)
    ensures src.Some? && tgt.Some? && obj.Some? && (src.value.ftype != Dir || tgt.value.ftype != Dir) ==>
              st == Fail(NotDir)
    ensures src.Some? && tgt.Some? && obj.Some? && src.value.ftype == Dir && tgt.value.ftype == Dir ==>
              st == (if IsError(be.renameAccess(ctx, src.value, tgt.value, obj))
                     then Fail(be.renameAccess(ctx, src.value, tgt.value, obj).major) else Success)
  {
    if src.None? || tgt.None? || obj.None? then Fail(Fault)
    else if src.value.ftype != Dir || tgt.value.ftype != Dir then Fail(NotDir)
    else
      var access := be.renameAccess(ctx, src.value, tgt.value, obj);
      if IsError(access) then Fail(access.major) else Success
  }

  /**
   * MFSL_rename.  After the checks and a descriptor from the pool, the
   * handles of both directories are compared; a failed comparison returns
   * its major code (the descriptor is not given back).  Otherwise both
   * directories record the descriptor as their last operation when it
   * supersedes the recorded one, the descriptor is posted, and a successful
   * post hands the guesses to the caller; the guesses are those of reading
   * v.  The context is not checked: the caller passes one.
   */
  method MfslRename(v: Variant, oldParent: MfslObject, oldName: Name, newParent: MfslObject, newName: Name,
                    ctx: OpContext, mctx: MfslContext, srcAttrs: Option<Attrs>,
                    tgtAttrs: Option<Attrs>, objAttrs: Option<Attrs>, be: Backend,
                    opTime: TimeVal, now: int, disp: Dispatcher.Dispatcher, alloc: Alloc)
    returns (st: Status, srcOut: Option<Attrs>, tgtOut: Option<Attrs>)
    modifies mctx`pool, disp`list, oldParent, newParent
    ensures IsError(RenameChecks(ctx, srcAttrs, tgtAttrs, objAttrs, be)) ==>
              st == RenameChecks(ctx, srcAttrs, tgtAttrs, objAttrs, be)
    ensures !IsError(RenameChecks(ctx, srcAttrs, tgtAttrs, objAttrs, be)) && old(mctx.pool) == [] ==>
              st == Fail(ServerFault)
    ensures IsError(RenameChecks(ctx, srcAttrs, tgtAttrs, objAttrs, be)) || old(mctx.pool) == [] ==>
              unchanged(mctx, disp, oldParent, newParent) && srcOut == srcAttrs && tgtOut == tgtAttrs
    ensures !IsError(RenameChecks(ctx, srcAttrs, tgtAttrs, objAttrs, be)) && old(mctx.pool) != [] ==>
              var cmp := be.handlecmp(old(oldParent.handle), old(newParent.handle));
              mctx.pool == old(mctx.pool)[..|old(mctx.pool)| - 1]
              && oldParent.handle == old(oldParent.handle) && newParent.handle == old(newParent.handle)
              && oldParent.lastSyncletIndex == old(oldParent.lastSyncletIndex)
              && newParent.lastSyncletIndex == old(newParent.lastSyncletIndex)
              && (IsError(cmp.status) ==>
                    st == Fail(cmp.status.major) && disp.list == old(disp.list)
                    && unchanged(oldParent, newParent) && srcOut == srcAttrs && tgtOut == tgtAttrs)
              && (!IsError(cmp.status) ==>
                    var d := RenameDesc(v, opTime, 0, oldParent, oldName, newParent, newName,
                                        old(oldParent.handle), old(newParent.handle), ctx, mctx,
                                        srcAttrs.value, tgtAttrs.value, cmp.result, now);
                    (Supersedes(old(oldParent.lastOpDesc), old(oldParent.lastOpTime), d) ==>
                       oldParent.lastOpDesc == Some(d) && oldParent.lastOpTime == opTime)
                    && (!Supersedes(old(oldParent.lastOpDesc), old(oldParent.lastOpTime), d) ==>
                          oldParent.lastOpDesc == old(oldParent.lastOpDesc)
                          && oldParent.lastOpTime == old(oldParent.lastOpTime))
                    && (Supersedes(old(newParent.lastOpDesc), old(newParent.lastOpTime), d) ==>
                          newParent.lastOpDesc == Some(d) && newParent.lastOpTime == opTime)
                    && (!Supersedes(old(newParent.lastOpDesc), old(newParent.lastOpTime), d) ==>
                          newParent.lastOpDesc == old(newParent.lastOpDesc)
                          && newParent.lastOpTime == old(newParent.lastOpTime))
                    && !MfslObjects.IsSynchronous(oldParent) && !MfslObjects.IsSynchronous(newParent)
                    && (alloc.Refused? ==>
                          st == Status(ServerFault, alloc.lruStatus) && disp.list == old(disp.list)
                          && srcOut == srcAttrs && tgtOut == tgtAttrs)
                    && (alloc.Granted? ==>
                          st == Success && disp.list == Appended(old(disp.list), d)
                          && srcOut == Some(d.guessed.srcDirAttributes)
                          && tgtOut == Some(d.guessed.tgtDirAttributes)))
  {
    srcOut, tgtOut := srcAttrs, tgtAttrs;
    st := RenameChecks(ctx, srcAttrs, tgtAttrs, objAttrs, be);
    if IsError(st) {
      return;
    }
    var recycled := mctx.Take();
    if recycled.None? {
      return Fail(ServerFault), srcOut, tgtOut;
    }
    var k := ChooseSynclet(recycled.value);
    var cmp := be.handlecmp(oldParent.handle, newParent.handle);
    if IsError(cmp.status) {
      return Fail(cmp.status.major), srcOut, tgtOut;
    }
    var d := RenameDesc(v, opTime, k, oldParent, oldName, newParent, newName, oldParent.handle,
                        newParent.handle, ctx, mctx, srcAttrs.value, tgtAttrs.value, cmp.result, now);
    oldParent.RecordLastOp(d);
    newParent.RecordLastOp(d);
    st := disp.Post(Some(d), alloc);
    if IsError(st) {
      return;
    }
    srcOut := Some(d.guessed.srcDirAttributes);
    tgtOut := Some(d.guessed.tgtDirAttributes);
    st := Success;
  }
}
