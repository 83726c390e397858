/*
 * Values shared by the NFSv3 WRITE and REMOVE handlers: the statuses of the
 * cache_inode layer, the NFSv3 reply statuses, the request dispositions and
 * the outcome of turning a file handle into a cache entry.
 *
 * nfs3_Errno (the cache_inode to NFSv3 status mapping) and
 * nfs_RetryableError are not part of this model: a reply status produced by
 * nfs3_Errno is kept symbolic as Errno(status), and which cache statuses are
 * retryable is a parameter of the handlers.
 */
module Nfs3 {

  /** cache_inode_status_t, reduced to the values the handlers test for. */
  datatype CacheStatus = CacheSuccess | FsalEaccess | InvalidArgument | OtherCacheError(code: nat)

  /** nfsstat3 as the handlers set it; Errno(s) is nfs3_Errno(s). */
  datatype Nfs3Status = Nfs3Ok | ErrNotDir | ErrIsDir | ErrInval | ErrDquot | ErrRofs
                      | Errno(cause: CacheStatus)

  /** NFS_REQ_OK, NFS_REQ_DROP (retry later) and NFS_REQ_FAILED. */
  datatype ReqRc = ReqOk | ReqDrop | ReqFailed

  /** The object types the handlers distinguish. */
  datatype ObjType = RegularFile | Directory | OtherObject

  /** A cache entry as the handlers read it: its type and its owner. */
  datatype Entry = Entry(objType: ObjType, owner: nat)

  /**
   * nfs_FhandleToCache: the entry of a valid handle, or the reply status and
   * disposition it sets for a stale or malformed one.
   */
  datatype FhLookup = Found(entry: Entry) | Stale(status: Nfs3Status, rc: ReqRc)

  /**
   * The weak cache consistency data of a reply: left with no attributes,
   * or filled by nfs_SetWccData in the success or the failure arm of the
   * reply union.
   */
  datatype Wcc = NoWcc | OkWcc | FailWcc
}
