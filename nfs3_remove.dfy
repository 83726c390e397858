/*
 * The decision logic of the NFSv3 REMOVE handler (nfs3_Remove.c).  The
 * cache_inode lookup and remove calls are parameters: the child the lookup
 * finds (None when it fails) and the status the remove would return.
 */
module Nfs3Remove {
  import opened Nfs3
  import opened Fsal

  /** REMOVE3res as the handler fills it: the status and the directory's wcc data. */
  datatype RemoveReply = RemoveReply(status: Nfs3Status, wcc: Wcc)

  /** A usable entry name: present and not empty. */
  predicate ValidName(name: Option<string>)
  {
    name.Some? && name.value != ""
  }

  /**
   * The failure exit (out_fail): the reply status is nfs3_Errno of the cache
   * status with the failure wcc data, and the request is dropped for a
   * retryable status.
   */
  function FailExit(cs: CacheStatus, retryable: CacheStatus -> bool): (r: (ReqRc, RemoveReply))
    ensures r.1 == RemoveReply(Errno(cs), FailWcc)
    ensures r.0 == ReqDrop <==> retryable(cs)
    ensures r.0 != ReqDrop ==> r.0 == ReqOk
  {
    (if retryable(cs) then ReqDrop else ReqOk, RemoveReply(Errno(cs), FailWcc))
  }

  /**
   * nfs_Remove.  attempted says whether cache_inode_remove was called.
   *  - A stale handle answers with the status and disposition
   *    nfs_FhandleToCache set; an extended-attribute handle is answered by
   *    the extended-attribute handler (xattr).
   *  - A parent that is not a directory answers NFS3ERR_NOTDIR.
   *  - A missing or empty name takes the failure exit with
   *    CACHE_INODE_INVALID_ARGUMENT.
   *  - A child the lookup finds to be a directory answers NFS3ERR_ISDIR.
   *  - Otherwise, even when the lookup failed, the removal is attempted:
   *    NFS3_OK with the success wcc data, or the failure exit with its status.
   */
  method NfsRemove(fh: FhLookup, isXattr: bool, xattr: (ReqRc, RemoveReply), name: Option<string>,
                   child: Option<Entry>, removeStatus: CacheStatus,
                   retryable: CacheStatus -> bool)
    returns (rc: ReqRc, res: RemoveReply, attempted: bool)
    ensures fh.Stale? ==> rc == fh.rc && res == RemoveReply(fh.status, NoWcc) && !attempted
    ensures fh.Found? && isXattr ==> (rc, res) == xattr && !attempted
    ensures fh.Found? && !isXattr && fh.entry.objType != Directory ==>
              rc == ReqOk && res == RemoveReply(ErrNotDir, NoWcc) && !attempted
    ensures fh.Found? && !isXattr && fh.entry.objType == Directory && !ValidName(name) ==>
              (rc, res) == FailExit(InvalidArgument, retryable) && !attempted
    ensures fh.Found? && !isXattr && fh.entry.objType == Directory && ValidName(name)
            && child.Some? && child.value.objType == Directory ==>
              rc == ReqOk && res == RemoveReply(ErrIsDir, NoWcc) && !attempted
    ensures attempted <==>
              fh.Found? && !isXattr && fh.entry.objType == Directory && ValidName(name)
              && (child.None? || child.value.objType != Directory)
    ensures attempted && removeStatus == CacheSuccess ==> rc == ReqOk && res == RemoveReply(Nfs3Ok, OkWcc)
    ensures attempted && removeStatus != CacheSuccess ==> (rc, res) == FailExit(removeStatus, retryable)
    ensures fh.Found? && !isXattr ==>
              (res.status == Nfs3Ok <==> attempted && removeStatus == CacheSuccess)
              && (res.wcc == OkWcc <==> res.status == Nfs3Ok)
              && (rc == ReqDrop <==> res.status.Errno? && retryable(res.status.cause))
  {
    attempted := false;
    res := RemoveReply(Errno(CacheSuccess), NoWcc);
    if fh.Stale? {
      rc := fh.rc;
      res := res.(status := fh.status);
      return;
    }
    var parent := fh.entry;
    if isXattr {
      rc, res := xattr.0, xattr.1;
      return;
    }
    if parent.objType != Directory {
      rc := ReqOk;
      res := res.(status := ErrNotDir);
      return;
    }
    if name.None? || name.value == "" {
      var exit := FailExit(InvalidArgument, retryable);
      rc, res := exit.0, exit.1;
      return;
    }
    if child.Some? && child.value.objType == Directory {
      rc := ReqOk;
      res := res.(status := ErrIsDir);
      return;
    }
    attempted := true;
    if removeStatus != CacheSuccess {
      var exit := FailExit(removeStatus, retryable);
      rc, res := exit.0, exit.1;
      return;
    }
    res := RemoveReply(Nfs3Ok, OkWcc);
    rc := ReqOk;
  }
}
