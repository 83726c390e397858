/*
 * Values shared by every layer of the model: FSAL status codes, node types,
 * attribute records, handles and the caller's operation context.
 * The backend filesystem itself is never modelled; its answers enter the
 * model as parameters.
 */
module Fsal {

  datatype Option<T> = None | Some(value: T)

  /** Major FSAL error codes that the modelled code produces or tests. */
  datatype ErrCode =
    | NoError
    | Fault
    | Inval
    | NotDir
    | NoEnt
    | ServerFault
    | Other(code: nat)   // any other major code, passed through unchanged

  /** fsal_status_t: a major code and a minor code. */
  datatype Status = Status(major: ErrCode, minor: int)

  const Success: Status := Status(NoError, 0)

  /** FSAL_IS_ERROR */
  predicate IsError(s: Status) { s.major != NoError }

  /** MFSL_return(major, 0) as used on every early exit. */
  function Fail(major: ErrCode): Status
  {
    Status(major, 0)
  }

  datatype NodeType = Fifo | Chr | Dir | Blk | File | Lnk | Sock | Xattr | Junction

  /** fsal_time_t */
  datatype FsalTime = FsalTime(seconds: int, nseconds: int)

  /** The fields of fsal_attrib_list_t that the modelled code reads or writes. */
  datatype Attrs = Attrs(
    ftype: NodeType,
    filesize: int,
    numlinks: int,
    mode: int,
    owner: int,
    group: int,
    ctime: FsalTime,
    mtime: FsalTime)

  /** Opaque FSAL object handle. */
  type Handle = nat

  /** fsal_name_t */
  type Name = string

  /** fsal_op_context_t, reduced to the credentials the code reads. */
  datatype OpContext = OpContext(uid: int, gid: int)

  /** The time stamp every guess uses: time(NULL) seconds, 0 nanoseconds. */
  function Stamp(now: int): FsalTime
  {
    FsalTime(now, 0)
  }

  /** FSAL_rename's answer: its status and what it leaves in the two directory attribute buffers. */
  datatype RenameReply = RenameReply(status: Status, srcDirAttrs: Option<Attrs>, tgtDirAttrs: Attrs)

  /** The answer of a call with one attribute buffer: its status and what it leaves there. */
  datatype AttrReply = AttrReply(status: Status, attrs: Attrs)

  /** FSAL_setattrs' answer; its result buffer may hold no attributes yet. */
  datatype SetattrsReply = SetattrsReply(status: Status, attrs: Option<Attrs>)

  /** FSAL_lookup's answer: its status, the handle it found and the attributes it leaves. */
  datatype LookupReply = LookupReply(status: Status, handle: Handle, attrs: Option<Attrs>)

  /** FSAL_handlecmp: 0 when the handles designate the same object, and a status. */
  datatype CmpReply = CmpReply(result: int, status: Status)

  /**
   * The FSAL calls the modelled code makes, as functions of their inputs.
   * An attribute buffer passed as NULL, or holding nothing yet, is None; the
   * value before the call is an input, so a call may leave it as it was.
   */
  datatype Backend = Backend(
    rename: (Handle, Name, Handle, Name, OpContext, Option<Attrs>, Attrs) -> RenameReply,
    setattrs: (Handle, OpContext, Attrs, Option<Attrs>) -> SetattrsReply,
    unlink: (Handle, Name, OpContext, Attrs) -> AttrReply,
    link: (Handle, Handle, Name, OpContext, Attrs) -> AttrReply,
    lookup: (Handle, Name, OpContext, Option<Attrs>) -> LookupReply,
    getattrs: (Handle, OpContext, Attrs) -> AttrReply,
    handlecmp: (Handle, Handle) -> CmpReply,
    mergeAttrs: (Attrs, Attrs) -> SetattrsReply,
    createAccess: (OpContext, Attrs) -> Status,
    renameAccess: (OpContext, Attrs, Attrs, Option<Attrs>) -> Status,
    unlinkAccess: (OpContext, Attrs, Option<Attrs>) -> Status,
    linkAccess: (OpContext, Attrs, Attrs) -> Status,
    setattrAccess: (OpContext, Attrs, Attrs) -> Status)
}
