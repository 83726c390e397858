/*
 * Start-up and shut-down of the asynchronous layer (mfsl_async2_init.c).
 * The globals mfsl_param and end_of_mfsl, and whether the dispatcher and
 * worker threads were started, are the fields of one object.
 */
module MfslInit {
  import opened Fsal
  import opened MfslTypes
  import Dispatcher

  /** Descriptors made by MakePool: n of them, with whatever contents blank gives. */
  function Preallocated(n: nat, blank: nat -> Desc): (s: seq<Desc>)
    ensures |s| == n
    ensures forall i :: 0 <= i < n ==> s[i] == blank(i)
  {
    seq(n, i requires 0 <= i => blank(i))
  }

  /**
   * MFSL_RefreshContext: not implemented beyond its checks; FAULT when
   * either context is missing, NO_ERROR otherwise.
   */
  function RefreshContext(ctx: MfslContext?, fsalCtx: Option<OpContext>): (st: Status)
    ensures st == Success <==> ctx != null && fsalCtx.Some?
    ensures st != Success ==> st == Fail(Fault)
  {
    if ctx == null || fsalCtx.None? then Fail(Fault) else Success
  }

  class MfslGlobals {
    /** mfsl_param: the copy of the parameters MFSL_Init keeps (None: not initialised). */
    var param: Option<Params>
    /** end_of_mfsl: the dispatcher and workers stop looping once it is set. */
    var endOfMfsl: bool
    var dispatcherRunning: bool
    var syncletsRunning: bool

    constructor ()
      ensures param.None? && !endOfMfsl && !dispatcherRunning && !syncletsRunning
    {
      param := None;
      endOfMfsl := false;
      dispatcherRunning := false;
      syncletsRunning := false;
    }

    /**
     * MFSL_Init: FAULT without parameters.  Otherwise the parameters are
     * copied, then the dispatcher is started (dispatcherRc is its thread
     * creation result); if that fails its major code is returned and no
     * worker is started.  Otherwise the workers are started (syncletInit is
     * the status of that step) and a failure there returns its major code.
     */
    method Init(info: Option<Params>, dispatcherRc: int, syncletInit: Status) returns (st: Status)
      modifies this
      ensures info.None? ==> st == Fail(Fault) && unchanged(this)
      ensures info.Some? ==>
                param == info && endOfMfsl == old(endOfMfsl)
                && dispatcherRunning == (dispatcherRc == 0)
                && syncletsRunning == (dispatcherRc == 0 && !IsError(syncletInit))
      ensures info.Some? && dispatcherRc != 0 ==>
                st == Fail(Dispatcher.DispatcherInit(dispatcherRc).major) && st == Fail(ServerFault)
      ensures info.Some? && dispatcherRc == 0 ==>
                st == if IsError(syncletInit) then Fail(syncletInit.major) else Success
    {
      if info.None? {
        return Fail(Fault);
      }
      param := Some(info.value);
      var dispatched := Dispatcher.DispatcherInit(dispatcherRc);
      if IsError(dispatched) {
        dispatcherRunning, syncletsRunning := false, false;
        return Fail(dispatched.major);
      }
      dispatcherRunning := true;
      if IsError(syncletInit) {
        syncletsRunning := false;
        return Fail(syncletInit.major);
      }
      syncletsRunning := true;
      st := Success;
    }

    /**
     * MFSL_GetContext: FAULT when either context is missing; SERVERFAULT
     * with errno as minor code when the context lock cannot be initialised
     * (mutexRc != 0); otherwise the context's pool becomes
     * nb_pre_async_op_desc fresh descriptors and the refresh succeeds.
     * The parameters must have been installed by MFSL_Init.
     */
    method GetContext(ctx: MfslContext?, fsalCtx: Option<OpContext>, mutexRc: int, errno: int,
                      blank: nat -> Desc)
      returns (st: Status)
      requires param.Some?
      modifies ctx
      ensures ctx == null || fsalCtx.None? ==> st == Fail(Fault)
      ensures ctx != null && fsalCtx.Some? && mutexRc != 0 ==> st == Status(ServerFault, errno)
      ensures ctx == null || fsalCtx.None? || mutexRc != 0 ==> ctx == null || unchanged(ctx)
      ensures ctx != null && fsalCtx.Some? && mutexRc == 0 ==>
                st == Success && ctx.pool == Preallocated(param.value.nbPreAsyncOpDesc, blank)
                && |ctx.pool| == param.value.nbPreAsyncOpDesc
                && ctx.rootContext == old(ctx.rootContext)
    {
      if ctx == null || fsalCtx.None? {
        return Fail(Fault);
      }
      if mutexRc != 0 {
        return Status(ServerFault, errno);
      }
      ctx.pool := Preallocated(param.value.nbPreAsyncOpDesc, blank);
      var refreshed := RefreshContext(ctx, fsalCtx);
      if IsError(refreshed) {
        assert false;
        return Fail(refreshed.major);
      }
      st := Success;
    }

    /**
     * MFSL_terminate: sets end_of_mfsl and answers NO_ERROR; nothing else
     * changes, so a second call changes nothing.
     */
    method Terminate() returns (st: Status)
      modifies this`endOfMfsl
      ensures endOfMfsl && st == Success
    {
      endOfMfsl := true;
      st := Success;
    }
  }
}
