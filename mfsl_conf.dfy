/*
 * Configuration of the asynchronous layer (mfsl_async2_read_conf.c): the
 * default parameters, the LRU cleaning callback they install, and the
 * configuration-file loader.
 */
module MfslConf {
  import opened Fsal
  import opened TimeVals
  import opened MfslTypes
  import opened Synclets
  import Dispatcher

  /** mfsl_async_clean_pending_op: cleaning a pending-operation entry always succeeds (0). */
  function CleanPendingOpEntry(entry: Desc): (rc: int)
    ensures rc == 0
  {
    0
  }

  /** A status and what the parameter buffer holds afterwards (None: no buffer). */
  datatype ParamReply = ParamReply(status: Status, param: Option<Params>)

  /** The fields MFSL_SetDefault_parameter sets, at their default values. */
  predicate Defaulted(p: Params)
  {
    p.nbPreAsyncOpDesc == 50 && p.nbSynclet == 1
    && p.asyncWindowSec == 1 && p.asyncWindowUsec == 0 && p.nbBeforeGc == 500
    && p.lru == LruParams(100, 30, CleanPendingOp, PrintPendingOp)
  }

  /**
   * MFSL_SetDefault_parameter: FAULT without a buffer; otherwise NO_ERROR
   * with the descriptor count, worker count, window, gc period and LRU
   * settings at their defaults and every other field (the filler settings,
   * the staging directory) as the caller left it.
   */
  function SetDefaultParameter(out: Option<Params>): (r: ParamReply)
    ensures out.None? <==> r.status == Fail(Fault)
    ensures out.None? ==> r.param.None?
    ensures out.Some? ==>
              r.status == Success && r.param.Some? && Defaulted(r.param.value)
              && r.param.value.(nbPreAsyncOpDesc := out.value.nbPreAsyncOpDesc,
                                nbSynclet := out.value.nbSynclet,
                                asyncWindowSec := out.value.asyncWindowSec,
                                asyncWindowUsec := out.value.asyncWindowUsec,
                                nbBeforeGc := out.value.nbBeforeGc,
                                lru := out.value.lru) == out.value
  {
    if out.None? then ParamReply(Fail(Fault), None)
    else
      var lru := out.value.lru.(nbEntryPrealloc := 100, nbCallGcInvalid := 30,
                                cleanEntry := CleanPendingOp, entryToStr := PrintPendingOp);
      ParamReply(Success, Some(out.value.(nbPreAsyncOpDesc := 50, nbSynclet := 1,
                                          asyncWindowSec := 1, asyncWindowUsec := 0,
                                          nbBeforeGc := 500, lru := lru)))
  }

  /** Setting the defaults twice is setting them once. */
  lemma SetDefaultIdempotent(out: Option<Params>)
    ensures SetDefaultParameter(SetDefaultParameter(out).param) == SetDefaultParameter(out)
  {
  }

  /**
   * Under the defaults every descriptor names an existing worker, and an
   * operation leaves its window exactly when one full second has elapsed.
   */
  lemma DefaultsServeThePipeline(p: Params, d: Desc, now: TimeVal, opTime: TimeVal)
    requires Defaulted(p) && Normal(now) && Normal(opTime)
    ensures ChooseSynclet(d) < p.nbSynclet
    ensures Dispatcher.OutOfWindow(now, opTime, p) <==> Micros(now) - Micros(opTime) >= UsecPerSec
  {
    ChosenWorkerExists(d, p);
    Dispatcher.OutOfWindowMeansElapsed(now, opTime, p);
  }

  /**
   * MFSL_load_parameter_from_conf: not implemented; NO_ERROR, and the
   * parameter buffer is left as it was.  The parsed configuration it is
   * given is not read, so it is not a parameter here.
   */
  function LoadParameterFromConf(out: Option<Params>): (r: ParamReply)
    ensures r.status == Success && r.param == out
  {
    ParamReply(Success, out)
  }
}
