/*
 * The decision logic of the NFSv3 WRITE handler (nfs3_Write.c): the access
 * exception for owners, the type and export checks, the stability chosen
 * for the cache_inode layer, the offset limit, the size clamp and the reply
 * fields.  The access check and cache_inode_rdwr are parameters.
 */
module Nfs3Write {
  import opened Nfs3
  import opened Fsal
  import opened Variants

  /** stable_how of the request, and the committed field of the reply. */
  datatype StableHow = Unstable | DataSync | FileSync

  /** cache_inode_stability_t: where the cache_inode layer may leave the data. */
  datatype Stability = SafeWriteToFs | UnsafeWriteToFsBuffer | UnsafeWriteToGaneshaBuffer

  /** The export's access_type. */
  datatype AccessType = AccessRW | AccessRO | AccessMdOnly | AccessMdOnlyRO

  /** The export settings the handler reads (the option bits as booleans). */
  datatype Export = Export(accessType: AccessType, useCommit: bool, useGaneshaWriteBuffer: bool,
                           maxOffsetWriteSet: bool, maxOffsetWrite: nat,
                           maxWriteSet: bool, maxWrite: nat)

  /** WRITE3args: offset, count, stable, and the length of the data sent. */
  datatype WriteArgs = WriteArgs(offset: nat, count: nat, stable: StableHow, dataLen: nat)

  /** The cache_inode_rdwr call made: offset, size and stability. */
  datatype RdwrCall = RdwrCall(offset: nat, size: nat, stability: Stability)

  /** What cache_inode_rdwr answers: its status and the number of bytes written. */
  datatype RdwrResult = RdwrResult(status: CacheStatus, written: nat)

  /**
   * WRITE3res as the handler fills it.  A field the handler leaves alone is
   * None: the status when the request is dropped, count and committed
   * outside the success arm.
   */
  datatype WriteReply = WriteReply(status: Option<Nfs3Status>, wcc: Wcc,
                                   count: Option<nat>, committed: Option<StableHow>)

  const U64: nat := 0x1_0000_0000_0000_0000

  /**
   * The stability requested of the cache_inode layer: an UNSTABLE write on
   * an export that uses COMMIT goes to the FSAL's buffer, or to Ganesha's
   * own buffer when the export uses it; every other write must reach the
   * file system.
   */
  function StabilityOf(ex: Export, stable: StableHow): (s: Stability)
    ensures s == UnsafeWriteToFsBuffer <==> ex.useCommit && !ex.useGaneshaWriteBuffer && stable == Unstable
    ensures s == UnsafeWriteToGaneshaBuffer <==> ex.useCommit && ex.useGaneshaWriteBuffer && stable == Unstable
    ensures s == SafeWriteToFs <==> !ex.useCommit || stable != Unstable
  {
    if ex.useCommit && !ex.useGaneshaWriteBuffer && stable == Unstable then UnsafeWriteToFsBuffer
    else if ex.useCommit && ex.useGaneshaWriteBuffer && stable == Unstable then UnsafeWriteToGaneshaBuffer
    else SafeWriteToFs
  }

  /** The committed field of a successful reply: FILE_SYNC exactly for a safe write. */
  function Committed(s: Stability): (c: StableHow)
    ensures c == FileSync <==> s == SafeWriteToFs
    ensures c != FileSync ==> c == Unstable
  {
    if s == SafeWriteToFs then FileSync else Unstable
  }

  /**
   * A successful write promises stable storage (FILE_SYNC) unless the
   * client asked for an UNSTABLE write on an export that uses COMMIT, and
   * never promises more than the client asked for there.
   */
  lemma CommittedAnswersRequest(ex: Export, stable: StableHow)
    ensures Committed(StabilityOf(ex, stable)) == FileSync <==> !(ex.useCommit && stable == Unstable)
    ensures stable == Unstable && ex.useCommit ==> Committed(StabilityOf(ex, stable)) == Unstable
  {
  }

  /**
   * The offset test, on unsigned 64-bit arithmetic: offset + size wraps
   * modulo 2^64 before it is compared with MaxOffsetWrite.
   */
  predicate PastMaxOffset(ex: Export, offset: nat, size: nat)
  {
    ex.maxOffsetWriteSet && (offset + size) % U64 > ex.maxOffsetWrite
  }

  /** A request whose end wraps past 2^64 passes the offset test as if it were small. */
  lemma OffsetTestWraps(ex: Export)
    requires ex.maxOffsetWriteSet
    ensures !PastMaxOffset(ex, U64 - 1, 1)
  {
  }

  /**
   * The size actually written: the request's count, clamped to MaxWrite
   * when the export sets that option.
   */
  function ClampedSize(ex: Export, count: nat): (size: nat)
    ensures size <= count
    ensures ex.maxWriteSet ==> size <= ex.maxWrite
    ensures size == count || (ex.maxWriteSet && size == ex.maxWrite)
  {
    if ex.maxWriteSet && count > ex.maxWrite then ex.maxWrite else count
  }

  /**
   * The reply status for a write past MaxOffsetWrite, as nfs_Write sets it:
   * NFS3ERR_INVAL is stored and at once overwritten with nfs3_Errno of the
   * cache status, which at that point holds the outcome of the access
   * check.
   */
  function OffsetStatusAsWritten(accessStatus: CacheStatus): (st: Nfs3Status)
  {
    Errno(accessStatus)
  }

  /**
   * As written, a write past the limit is answered with nfs3_Errno of the
   * access outcome, never with NFS3ERR_INVAL.  NfsWrite reaches the offset
   * test only after an access check that succeeded or failed with EACCES
   * for the file's owner, which is what the requires admits.
   */
  lemma OffsetStatusAsWrittenHidesViolation(accessStatus: CacheStatus, e: Entry, callerUid: nat)
    requires accessStatus == CacheSuccess || OwnerException(accessStatus, e, callerUid)
    ensures OffsetStatusAsWritten(accessStatus) == Errno(accessStatus)
    ensures OffsetStatusAsWritten(accessStatus) in {Errno(CacheSuccess), Errno(FsalEaccess)}
    ensures OffsetStatusAsWritten(accessStatus) != ErrInval
  {
  }

  /**
   * The exception to a failed access check: the owner of a read-only file
   * may still write it, when the check failed for lack of permission; the
   * client is left to enforce the permission.
   */
  predicate OwnerException(accessStatus: CacheStatus, e: Entry, callerUid: nat)
  {
    accessStatus == FsalEaccess && e.owner == callerUid
  }

  /** The failure exit shared by a failed and a zero-length write. */
  function ErrorExit(cs: CacheStatus, retryable: CacheStatus -> bool): (r: (ReqRc, WriteReply))
    ensures retryable(cs) ==> r == (ReqDrop, WriteReply(None, NoWcc, None, None))
    ensures !retryable(cs) ==> r == (ReqOk, WriteReply(Some(Errno(cs)), FailWcc, None, None))
  {
    if retryable(cs) then (ReqDrop, WriteReply(None, NoWcc, None, None))
    else (ReqOk, WriteReply(Some(Errno(cs)), FailWcc, None, None))
  }

  /**
   * nfs_Write, in the order of its checks:
   *  - a stale handle answers with what nfs_FhandleToCache set, an
   *    extended-attribute handle with what the extended-attribute handler
   *    answers (xattr);
   *  - a failed access check answers nfs3_Errno of its status, unless the
   *    caller owns the file and the check failed for lack of permission;
   *  - a target that is not a regular file answers NFS3ERR_ISDIR for a
   *    directory and NFS3ERR_INVAL otherwise;
   *  - an export that is not read-write answers NFS3ERR_DQUOT when it is
   *    metadata-only and NFS3ERR_ROFS when it is read-only;
   *  - a count larger than the data sent answers NFS3ERR_INVAL;
   *  - a write past MaxOffsetWrite answers NFS3ERR_INVAL as intended, and
   *    as written (v) nfs3_Errno of the access check's status;
   *  - otherwise the size is clamped; a zero size writes nothing and takes
   *    the failure exit with a success status; a non-zero size calls
   *    cache_inode_rdwr once (call), whose success answers NFS3_OK with the
   *    bytes written and the committed level, and whose failure takes the
   *    failure exit.
   */
  method NfsWrite(v: Variant, fh: FhLookup, isXattr: bool, xattr: (ReqRc, WriteReply),
                  accessStatus: CacheStatus, callerUid: nat, ex: Export, args: WriteArgs,
                  rdwr: RdwrCall -> RdwrResult, retryable: CacheStatus -> bool)
    returns (rc: ReqRc, res: WriteReply, call: Option<RdwrCall>)
    ensures fh.Stale? ==> rc == fh.rc && res == WriteReply(Some(fh.status), NoWcc, None, None)
    ensures fh.Found? && isXattr ==> (rc, res) == xattr
    ensures fh.Found? && !isXattr && accessStatus != CacheSuccess
            && !OwnerException(accessStatus, fh.entry, callerUid) ==>
              rc == ReqOk && res == WriteReply(Some(Errno(accessStatus)), NoWcc, None, None)
    ensures call.Some? ==>
              fh.Found? && !isXattr && fh.entry.objType == RegularFile && ex.accessType == AccessRW
              && (accessStatus == CacheSuccess || OwnerException(accessStatus, fh.entry, callerUid))
              && args.count <= args.dataLen && !PastMaxOffset(ex, args.offset, args.count)
              && call.value == RdwrCall(args.offset, ClampedSize(ex, args.count),
                                        StabilityOf(ex, args.stable))
              && call.value.size > 0
    ensures fh.Found? && !isXattr && (accessStatus == CacheSuccess || OwnerException(accessStatus, fh.entry, callerUid)) ==>
              (fh.entry.objType == Directory ==> rc == ReqOk && res == WriteReply(Some(ErrIsDir), NoWcc, None, None))
              && (fh.entry.objType == OtherObject ==> rc == ReqOk && res == WriteReply(Some(ErrInval), NoWcc, None, None))
              && (fh.entry.objType == RegularFile && ex.accessType != AccessRW ==>
                    rc == ReqOk && res.wcc == FailWcc
                    && res.status == Some(if ex.accessType == AccessRO then ErrRofs else ErrDquot))
              && (fh.entry.objType == RegularFile && ex.accessType == AccessRW && args.count > args.dataLen ==>
                    rc == ReqOk && res == WriteReply(Some(ErrInval), NoWcc, None, None))
              && (fh.entry.objType == RegularFile && ex.accessType == AccessRW && args.count <= args.dataLen
                  && PastMaxOffset(ex, args.offset, args.count) ==>
                    rc == ReqOk && res.wcc == FailWcc && res.count.None? && res.committed.None?
                    && res.status == Some(if v == AsWritten then OffsetStatusAsWritten(accessStatus)
                                          else ErrInval))
              && (fh.entry.objType == RegularFile && ex.accessType == AccessRW && args.count <= args.dataLen
                  && !PastMaxOffset(ex, args.offset, args.count) ==>
                    (call.Some? <==> ClampedSize(ex, args.count) > 0)
                    && (call.None? ==> (rc, res) == ErrorExit(CacheSuccess, retryable)))
    ensures call.Some? && rdwr(call.value).status == CacheSuccess ==>
              rc == ReqOk && res.status == Some(Nfs3Ok) && res.wcc == OkWcc
              && res.count == Some(rdwr(call.value).written)
              && res.committed == Some(Committed(call.value.stability))
    ensures call.Some? && rdwr(call.value).status != CacheSuccess ==>
              (rc, res) == ErrorExit(rdwr(call.value).status, retryable)
  {
    call := None;
    if fh.Stale? {
      return fh.rc, WriteReply(Some(fh.status), NoWcc, None, None), None;
    }
    if isXattr {
      return xattr.0, xattr.1, None;
    }
    var e := fh.entry;
    var cacheStatus := accessStatus;
    if accessStatus != CacheSuccess && !(cacheStatus == FsalEaccess && e.owner == callerUid) {
      return ReqOk, WriteReply(Some(Errno(cacheStatus)), NoWcc, None, None), None;
    }
    if e.objType != RegularFile {
      var st := if e.objType == Directory then ErrIsDir else ErrInval;
      return ReqOk, WriteReply(Some(st), NoWcc, None, None), None;
    }
    if ex.accessType != AccessRW {
      var st := match ex.accessType
        case AccessMdOnly => ErrDquot
        case AccessMdOnlyRO => ErrDquot
        case AccessRO => ErrRofs;
      return ReqOk, WriteReply(Some(st), FailWcc, None, None), None;
    }
    var offset, size := args.offset, args.count;
    if size > args.dataLen {
      return ReqOk, WriteReply(Some(ErrInval), NoWcc, None, None), None;
    }
    var stability := StabilityOf(ex, args.stable);
    if ex.maxOffsetWriteSet && (offset + size) % U64 > ex.maxOffsetWrite {
      var st := if v == AsWritten then OffsetStatusAsWritten(cacheStatus) else ErrInval;
      return ReqOk, WriteReply(Some(st), FailWcc, None, None), None;
    }
    if ex.maxWriteSet && size > ex.maxWrite {
      size := ex.maxWrite;
    }
    if size == 0 {
      cacheStatus := CacheSuccess;
    } else {
      call := Some(RdwrCall(offset, size, stability));
      var outcome := rdwr(call.value);
      cacheStatus := outcome.status;
      if outcome.status == CacheSuccess {
        res := WriteReply(Some(Nfs3Ok), OkWcc, Some(outcome.written), Some(Committed(stability)));
        return ReqOk, res, call;
      }
    }
    var exit := ErrorExit(cacheStatus, retryable);
    rc, res := exit.0, exit.1;
  }
}
