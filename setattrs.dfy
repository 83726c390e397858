/*
 * Asynchronous setattrs (mfsl_async2_setattrs.c).  MFSL_setattrs answers
 * with the requested attributes merged over themselves as its guess and
 * queues the real FSAL_setattrs for the worker side MFSL_async_setattrs.
 */
module Setattrs {
  import opened Fsal
  import opened TimeVals
  import opened PendingLists
  import opened MfslTypes
  import opened Synclets
  import Dispatcher

  /**
   * The guess: FSAL_merge_attrs of the requested attributes over a copy of
   * themselves, or the copy when the merge leaves its buffer empty.
   */
  function SetattrsGuess(attribSet: Attrs, be: Backend): (a: Attrs)
    ensures be.mergeAttrs(attribSet, attribSet).attrs.Some? ==>
              a == be.mergeAttrs(attribSet, attribSet).attrs.value
    ensures be.mergeAttrs(attribSet, attribSet).attrs.None? ==> a == attribSet
  {
    var merged := be.mergeAttrs(attribSet, attribSet);
    if merged.attrs.Some? then merged.attrs.value else attribSet
  }

  /**
   * The descriptor MFSL_setattrs posts over the recycled d0: a chosen
   * worker, the arguments, the caller's object attributes as the real
   * result; only the concerned objects keep their previous contents.
   */
  function SetattrsDesc(d0: Desc, opTime: TimeVal, fileHandle: Handle, ctx: OpContext,
                        mctx: MfslContext, attribSet: Attrs, obj: Attrs, be: Backend): (d: Desc)
    ensures WellFormed(d) && d.opType == OpSetattrs && d.relatedSynclet == ChooseSynclet(d0)
    ensures d.args == SetattrsArgs(fileHandle, ctx, attribSet, obj)
    ensures d.res == SetattrsRes(obj) && d.guessed == SetattrsRes(SetattrsGuess(attribSet, be))
    ensures d.opTime == opTime && d.fsalContext == ctx && d.mfslContext == mctx
    ensures d.concerned == d0.concerned
  {
    d0.(opTime := opTime, opType := OpSetattrs, relatedSynclet := ChooseSynclet(d0),
        args := SetattrsArgs(fileHandle, ctx, attribSet, obj),
        res := SetattrsRes(obj),
        guessed := SetattrsRes(SetattrsGuess(attribSet, be)),
        fsalContext := ctx, mfslContext := mctx)
  }

  /**
   * MFSL_async_setattrs: the real setattrs, given the object attribute
   * buffer; what FSAL_setattrs leaves there becomes the real result, and its
   * status is the answer.
   */
  function AsyncSetattrs(d: Desc, be: Backend): (w: WorkerResult)
    requires d.args.SetattrsArgs?
    ensures var r := be.setattrs(d.args.fileHandle, d.args.context, d.args.attribSet,
                                 Some(d.args.objectAttributes));
            w.status == r.status
            && (r.attrs.Some? ==> w.args == d.args.(objectAttributes := r.attrs.value))
            && (r.attrs.None? ==> w.args == d.args)
            && w.res == SetattrsRes(w.args.objectAttributes)
  {
    var a := d.args;
    var r := be.setattrs(a.fileHandle, a.context, a.attribSet, Some(a.objectAttributes));
    var obj := if r.attrs.Some? then r.attrs.value else a.objectAttributes;
    WorkerResult(r.status, a.(objectAttributes := obj), SetattrsRes(obj))
  }

  /**
   * The guess and the real result agree exactly when the backend leaves in
   * the object attribute buffer what the guess predicted; a worker result
   * that returns no attributes agrees only when the guess is the caller's
   * own object attributes.
   */
  lemma SetattrsGuessConfirmed(d0: Desc, opTime: TimeVal, fileHandle: Handle, ctx: OpContext,
                               mctx: MfslContext, attribSet: Attrs, obj: Attrs, be: Backend)
    ensures var d := SetattrsDesc(d0, opTime, fileHandle, ctx, mctx, attribSet, obj, be);
            var r := be.setattrs(fileHandle, ctx, attribSet, Some(obj));
            var actual := if r.attrs.Some? then r.attrs.value else obj;
            AsyncSetattrs(d, be).res == d.guessed <==> actual == SetattrsGuess(attribSet, be)
  {
  }

  /** Posted with a chosen worker, the descriptor keeps a routable list routable. */
  lemma SetattrsRoutable(list: seq<Slot<Desc>>, d0: Desc, opTime: TimeVal, fileHandle: Handle,
                         ctx: OpContext, mctx: MfslContext, attribSet: Attrs, obj: Attrs,
                         be: Backend, p: Params)
    requires Dispatcher.Routable(list, p.nbSynclet) && p.nbSynclet >= 1
    ensures Dispatcher.Routable(Appended(list, SetattrsDesc(d0, opTime, fileHandle, ctx, mctx,
              attribSet, obj, be)), p.nbSynclet)
  {
    var d := SetattrsDesc(d0, opTime, fileHandle, ctx, mctx, attribSet, obj, be);
    ChosenWorkerExists(d0, p);
    Dispatcher.RoutableAppended(list, d, p.nbSynclet);
  }

  /**
   * MFSL_setattrs.  INVAL without a context, object attributes or requested
   * attributes; the access check's major code when it refuses; SERVERFAULT
   * when the descriptor pool is exhausted; the merge's own status when it
   * fails (the descriptor is then not given back).  Otherwise the descriptor
   * is posted and a successful post hands the guess to the caller.
   */
  method MfslSetattrs(file: MfslObject, ctx: Option<OpContext>, mctx: MfslContext,
                      attribSet: Option<Attrs>, objAttrs: Option<Attrs>, be: Backend,
                      opTime: TimeVal, disp: Dispatcher.Dispatcher, alloc: Alloc)
    returns (st: Status, objOut: Option<Attrs>)
    modifies mctx`pool, disp`list
    ensures ctx.None? || objAttrs.None? || attribSet.None? ==> st == Fail(Inval)
    ensures ctx.Some? && objAttrs.Some? && attribSet.Some?
            && IsError(be.setattrAccess(ctx.value, attribSet.value, objAttrs.value)) ==>
              st == Fail(be.setattrAccess(ctx.value, attribSet.value, objAttrs.value).major)
    ensures ctx.Some? && objAttrs.Some? && attribSet.Some?
            && !IsError(be.setattrAccess(ctx.value, attribSet.value, objAttrs.value))
            && old(mctx.pool) == [] ==>
              st == Fail(ServerFault)
    ensures !(ctx.Some? && objAttrs.Some? && attribSet.Some?
              && !IsError(be.setattrAccess(ctx.value, attribSet.value, objAttrs.value))
              && old(mctx.pool) != []) ==>
              unchanged(mctx, disp) && objOut == objAttrs
    ensures ctx.Some? && objAttrs.Some? && attribSet.Some?
            && !IsError(be.setattrAccess(ctx.value, attribSet.value, objAttrs.value))
            && old(mctx.pool) != [] ==>
              var d0 := old(mctx.pool)[|old(mctx.pool)| - 1];
              var merge := be.mergeAttrs(attribSet.value, attribSet.value).status;
              var d := SetattrsDesc(d0, opTime, file.handle, ctx.value, mctx, attribSet.value,
                                    objAttrs.value, be);
              mctx.pool == old(mctx.pool)[..|old(mctx.pool)| - 1]
              && (IsError(merge) ==> st == merge && disp.list == old(disp.list) && objOut == objAttrs)
              && (!IsError(merge) && alloc.Refused? ==>
                    st == Status(ServerFault, alloc.lruStatus) && disp.list == old(disp.list)
                    && objOut == objAttrs)
              && (!IsError(merge) && alloc.Granted? ==>
                    st == Success && disp.list == Appended(old(disp.list), d)
                    && objOut == Some(SetattrsGuess(attribSet.value, be)))
  {
    objOut := objAttrs;
    if ctx.None? || objAttrs.None? || attribSet.None? {
      return Fail(Inval), objOut;
    }
    var access := be.setattrAccess(ctx.value, attribSet.value, objAttrs.value);
    if IsError(access) {
      return Fail(access.major), objOut;
    }
    var recycled := mctx.Take();
    if recycled.None? {
      return Fail(ServerFault), objOut;
    }
    var merge := be.mergeAttrs(attribSet.value, attribSet.value);
    if IsError(merge.status) {
      return merge.status, objOut;
    }
    var d := SetattrsDesc(recycled.value, opTime, file.handle, ctx.value, mctx, attribSet.value,
                          objAttrs.value, be);
    st := disp.Post(Some(d), alloc);
    if IsError(st) {
      return;
    }
    objOut := Some(d.guessed.objectAttributes);
    st := Success;
  }
}
