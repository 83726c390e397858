/*
 * The records of the asynchronous MFSL layer (mfsl_types.h): operation
 * codes and their name table, the per-operation argument and result unions,
 * the operation descriptor, the precreated object, the tunables, the
 * per-caller context with its descriptor pool, and the MFSL object that wraps
 * an FSAL handle.
 */
module MfslTypes {
  import opened Fsal
  import opened TimeVals

  /* ---------------------------------------------------------------------- */
  /* Operation codes                                                        */

  datatype OpType =
    | OpUnlink | OpLink | OpRename | OpSetattrs | OpMkdir | OpCreate | OpRemove | OpTruncate

  /** The numeric value of each enumerator of mfsl_async_op_type_t. */
  function OpCode(t: OpType): nat
  {
    match t
    case OpUnlink => 0
    case OpLink => 1
    case OpRename => 2
    case OpSetattrs => 3
    case OpMkdir => 4
    case OpCreate => 5
    case OpRemove => 6
    case OpTruncate => 7
  }

  /** The enumerator with numeric value k, if any: the inverse of OpCode. */
  function OpOfCode(k: int): (r: Option<OpType>)
    ensures r.Some? <==> 0 <= k < 8
    ensures r.Some? ==> OpCode(r.value) == k
  {
    if k == 0 then Some(OpUnlink)
    else if k == 1 then Some(OpLink)
    else if k == 2 then Some(OpRename)
    else if k == 3 then Some(OpSetattrs)
    else if k == 4 then Some(OpMkdir)
    else if k == 5 then Some(OpCreate)
    else if k == 6 then Some(OpRemove)
    else if k == 7 then Some(OpTruncate)
    else None
  }

  /** Decoding the code of an enumerator gives that enumerator back. */
  lemma OpCodeRoundTrip(t: OpType)
    ensures OpOfCode(OpCode(t)) == Some(t)
  {
  }

  /** mfsl_async_op_name[], indexed by operation code. */
  const OpNames: seq<string> := [
    "MFSL_ASYNC_OP_UNLINK",
    "MFSL_ASYNC_OP_LINK",
    "MFSL_ASYNC_OP_RENAME",
    "MFSL_ASYNC_OP_SETATTRS",
    "MFSL_ASYNC_OP_MKDIR",
    "MFSL_ASYNC_OP_CREATE",
    "MFSL_ASYNC_OP_REMOVE",
    "MFSL_ASYNC_OP_TRUNCATE"
  ]

  /** The enumerator's own spelling, without its common prefix. */
  function OpLabel(t: OpType): string
  {
    match t
    case OpUnlink => "UNLINK"
    case OpLink => "LINK"
    case OpRename => "RENAME"
    case OpSetattrs => "SETATTRS"
    case OpMkdir => "MKDIR"
    case OpCreate => "CREATE"
    case OpRemove => "REMOVE"
    case OpTruncate => "TRUNCATE"
  }

  /** The name table has one entry per code, and entry k names the operation of code k. */
  lemma NameTableByCode(k: int)
    requires 0 <= k < 8
    ensures |OpNames| == 8
    ensures OpNames[k] == "MFSL_ASYNC_OP_" + OpLabel(OpOfCode(k).value)
  {
  }

  /* ---------------------------------------------------------------------- */
  /* Argument and result unions                                             */

  /** mfsl_async_op_args_t: one variant per operation that has a worker side. */
  datatype OpArgs =
    | UnlinkArgs(parentdirHandle: Handle, objectName: Name, context: OpContext,
                 parentdirAttributes: Attrs)
    | LinkArgs(targetHandle: Handle, dirHandle: Handle, linkName: Name, context: OpContext,
               linkedObjectAttributes: Attrs)
    | RenameArgs(srcParentdirHandle: Handle, srcName: Name, tgtParentdirHandle: Handle,
                 tgtName: Name, context: OpContext, srcDirAttributes: Attrs,
                 tgtDirAttributes: Attrs)
    | SetattrsArgs(fileHandle: Handle, context: OpContext, attribSet: Attrs,
                   objectAttributes: Attrs)
    | MkdirArgs(oldParentdirHandle: Handle, oldDirname: Name, newParentdirHandle: Handle,
                newDirname: Name, newDirHandle: Handle, context: OpContext)
    | CreateArgs(oldParentdirHandle: Handle, oldFilename: Name, newParentdirHandle: Handle,
                 newFilename: Name, newFileHandle: Handle, context: OpContext)

  /**
   * mfsl_async_op_res_t, the type of both the guessed and the real outcome.
   * An attribute field that the posting call leaves unwritten is None until
   * the worker side fills it in.
   */
  datatype OpRes =
    | UnlinkRes(parentdirAttributes: Attrs)
    | LinkRes(linkedObjectAttributes: Attrs)
    | RenameRes(srcDirAttributes: Attrs, tgtDirAttributes: Attrs)
    | SetattrsRes(objectAttributes: Attrs)
    | MkdirRes(newDirHandle: Handle, newDirAttributes: Option<Attrs>,
               newParentdirAttributes: Attrs)
    | CreateRes(newFileHandle: Handle, newFileAttributes: Option<Attrs>,
                newParentdirAttributes: Attrs)

  /** The operation an argument variant belongs to. */
  function ArgsOp(a: OpArgs): (t: OpType)
    ensures t != OpRemove && t != OpTruncate
  {
    match a
    case UnlinkArgs(_, _, _, _) => OpUnlink
    case LinkArgs(_, _, _, _, _) => OpLink
    case RenameArgs(_, _, _, _, _, _, _) => OpRename
    case SetattrsArgs(_, _, _, _) => OpSetattrs
    case MkdirArgs(_, _, _, _, _, _) => OpMkdir
    case CreateArgs(_, _, _, _, _, _) => OpCreate
  }

  /** The operation a result variant belongs to. */
  function ResOp(r: OpRes): (t: OpType)
    ensures t != OpRemove && t != OpTruncate
  {
    match r
    case UnlinkRes(_) => OpUnlink
    case LinkRes(_) => OpLink
    case RenameRes(_, _) => OpRename
    case SetattrsRes(_) => OpSetattrs
    case MkdirRes(_, _, _) => OpMkdir
    case CreateRes(_, _, _) => OpCreate
  }

  /* ---------------------------------------------------------------------- */
  /* Descriptor, precreated object, tunables                                */

  /**
   * mfsl_async_op_desc_t.  The operation function pointer is determined by
   * the argument variant.  concerned holds the concerned_objects array, which
   * the descriptor of this model gains because mkdir and rename write it.
   */
  datatype Desc = Desc(
    opTime: TimeVal,
    opType: OpType,
    args: OpArgs,
    res: OpRes,
    guessed: OpRes,
    fsalContext: OpContext,
    mfslContext: MfslContext?,
    relatedSynclet: nat,
    concerned: seq<MfslObject?>)

  /**
   * A descriptor ready for the pipeline: its type, arguments, real and
   * guessed results all belong to one operation, and it knows the context
   * whose pool it returns to.
   */
  predicate WellFormed(d: Desc) {
    ArgsOp(d.args) == d.opType && ResOp(d.res) == d.opType && ResOp(d.guessed) == d.opType
    && d.mfslContext != null
  }

  /** mfsl_precreated_object_t; the wrapped MFSL object is reduced to its handle. */
  datatype Precreated = Precreated(handle: Handle, filename: Name, attrs: Attrs)

  /** mfsl_dirs_attributes_t, the extra argument of MFSL_link: two attribute pointers, each possibly NULL. */
  datatype DirsAttrs = DirsAttrs(srcDirAttrs: Option<Attrs>, destDirAttrs: Option<Attrs>)

  /** The two LRU callbacks the configuration can install. */
  datatype Callback = NoCallback | CleanPendingOp | PrintPendingOp

  /** The LRU_parameter_t fields the configuration sets. */
  datatype LruParams = LruParams(nbEntryPrealloc: nat, nbCallGcInvalid: nat,
                                 cleanEntry: Callback, entryToStr: Callback)

  /** mfsl_parameter_t */
  datatype Params = Params(
    nbPreAsyncOpDesc: nat,
    nbSynclet: nat,
    nbBeforeGc: nat,
    asyncWindowSec: int,
    asyncWindowUsec: int,
    adtSleepTime: nat,
    nbPreCreateDirs: nat,
    nbPreCreateFiles: nat,
    preCreateObjDir: string,
    lru: LruParams,
    aftLowWatermark: nat,
    aftTimeout: nat,
    aftNbFillCritical: nat,
    aftNbFillTimeout: nat)

  /** What a worker side produces: its status and the descriptor fields it writes. */
  datatype WorkerResult = WorkerResult(status: Status, args: OpArgs, res: OpRes)

  /** The descriptor after its worker side ran: only arguments and results change. */
  function Completed(d: Desc, w: WorkerResult): Desc
  {
    d.(args := w.args, res := w.res)
  }

  /** MFSL_OBJECT_NO_LAST_SYNCLET: no worker has been assigned to the object yet. */
  const NoLastSynclet: int := -1

  /* ---------------------------------------------------------------------- */
  /* Context and object                                                     */

  /**
   * mfsl_context_t.  pool holds the descriptors currently free in
   * pool_async_op; taking one when it is empty is GetFromPool returning NULL.
   * The context lock is an atomic section around each pool access.
   */
  class MfslContext {
    var pool: seq<Desc>
    var rootContext: OpContext

    constructor (root: OpContext)
      ensures pool == [] && rootContext == root
    {
      pool := [];
      rootContext := root;
    }

    /**
     * GetFromPool under the context lock: the most recently released
     * descriptor, or nothing when the pool is exhausted.
     */
    method Take() returns (d: Option<Desc>)
      modifies this`pool
      ensures old(pool) == [] <==> d.None?
      ensures d.None? ==> pool == old(pool)
      ensures d.Some? ==> pool + [d.value] == old(pool)
    {
      if pool == [] {
        return None;
      }
      d := Some(pool[|pool| - 1]);
      pool := pool[..|pool| - 1];
    }

    /** ReleaseToPool under the context lock. */
    method Release(d: Desc)
      modifies this`pool
      ensures pool == old(pool) + [d]
    {
      pool := pool + [d];
    }
  }

  /**
   * mfsl_object_t.  lastOpDesc is p_last_op_desc, which the object of this
   * model gains because mkdir, rename and the synchronous test read it; its
   * lock is an atomic section around RecordLastOp.
   */
  class MfslObject {
    var handle: Handle
    var lastOpTime: TimeVal
    var lastSyncletIndex: int
    var lastOpDesc: Option<Desc>

    constructor (h: Handle)
      ensures handle == h && lastOpDesc == None && lastSyncletIndex == NoLastSynclet
    {
      handle := h;
      lastOpTime := TimeVal(0, 0);
      lastSyncletIndex := NoLastSynclet;
      lastOpDesc := None;
    }

    /**
     * The last-operation update of mkdir and rename: the new descriptor
     * replaces the recorded one when there is none, or when the recorded time
     * is earlier (timercmp <) than the new descriptor's time.
     */
    method RecordLastOp(d: Desc)
      modifies this
      ensures Supersedes(old(lastOpDesc), old(lastOpTime), d) ==>
                lastOpDesc == Some(d) && lastOpTime == d.opTime
      ensures !Supersedes(old(lastOpDesc), old(lastOpTime), d) ==>
                lastOpDesc == old(lastOpDesc) && lastOpTime == old(lastOpTime)
      ensures Normal(old(lastOpTime)) && Normal(d.opTime) ==>
                lastOpTime == LastOpTimeAfter(old(lastOpDesc).Some?, old(lastOpTime), d.opTime)
      ensures handle == old(handle) && lastSyncletIndex == old(lastSyncletIndex)
    {
      if Supersedes(lastOpDesc, lastOpTime, d) {
        lastOpDesc := Some(d);
        lastOpTime := d.opTime;
      }
    }
  }

  /** Whether d replaces an object's recorded last operation: none is recorded, or it is older. */
  predicate Supersedes(last: Option<Desc>, lastTime: TimeVal, d: Desc)
  {
    last.None? || Less(lastTime, d.opTime)
  }

  /**
   * What RecordLastOp leaves as the recorded time, as a value: once an object
   * has a recorded operation, its recorded time is the latest of the old one
   * and the new one.
   */
  function LastOpTimeAfter(had: bool, last: TimeVal, t: TimeVal): (r: TimeVal)
    requires Normal(last) && Normal(t)
    ensures had ==> Micros(r) >= Micros(last) && Micros(r) >= Micros(t)
    ensures r == last || r == t
    ensures !had ==> r == t
  {
    LessIsEarlier(last, t);
    if !had || Less(last, t) then t else last
  }
}
