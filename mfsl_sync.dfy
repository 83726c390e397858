/*
 * The synchronous guess-and-check variants of mfsl_async2.c.  MFSL_link,
 * MFSL_rename and MFSL_unlink compute the attributes the asynchronous
 * versions would guess, perform the real FSAL call at once, compare the
 * guess with what the FSAL returned (the comparison is only logged), and
 * answer with the FSAL's own status.  The access checks they make are only
 * compared with that status and logged, so they do not appear here.
 */
module MfslSync {
  import opened Fsal
  import opened MfslTypes
  import Create
  import Rename
  import Unlink
  import Link

  /* ---------------------------------------------------------------------- */
  /* MFSL_link                                                              */

  /** The two guesses of the synchronous MFSL_link. */
  datatype LinkGuesses = LinkGuesses(destdir: Attrs, obj: Attrs)

  /**
   * The destination directory (taken from src_dir_attrs, as in the
   * asynchronous version) gets one entry more and the current second as
   * ctime and mtime; the object gets one link more and the directory's new
   * ctime.
   */
  function SyncLinkGuesses(extra: DirsAttrs, obj: Attrs, now: int): (g: LinkGuesses)
    requires extra.srcDirAttrs.Some?
    ensures g.destdir.filesize == extra.srcDirAttrs.value.filesize + 1
    ensures g.destdir.ctime == g.destdir.mtime == Stamp(now)
    ensures g.obj.numlinks == obj.numlinks + 1 && g.obj.ctime == g.destdir.ctime
  {
    var dir := extra.srcDirAttrs.value;
    var destdir := dir.(filesize := dir.filesize + 1, ctime := Stamp(now), mtime := Stamp(now));
    LinkGuesses(destdir, obj.(numlinks := obj.numlinks + 1, ctime := destdir.ctime))
  }

  /**
   * The synchronous guesses agree with the asynchronous rules: the object
   * guess is MFSL_link's guess, and the directory guess is MFSL_create's
   * parent guess stamped with the current second.
   */
  lemma SyncLinkGuessesAgree(extra: DirsAttrs, obj: Attrs, now: int)
    requires extra.srcDirAttrs.Some?
    ensures SyncLinkGuesses(extra, obj, now).obj == Link.LinkGuess(obj, now)
    ensures SyncLinkGuesses(extra, obj, now).destdir
            == Rename.Touched(Create.GuessedParent(extra.srcDirAttrs.value), now)
  {
  }

  /**
   * MFSL_link (synchronous): INVAL without a context or without the
   * destination directory attributes (the src_dir_attrs pointer of the
   * extra argument); otherwise the answer of FSAL_link, which also leaves
   * the object's new attributes in the caller's buffer.  The extra argument
   * itself is dereferenced before any check, so the caller must pass it.
   */
  function SyncLink(target: Handle, dir: Handle, name: Name, ctx: Option<OpContext>,
                    obj: Attrs, extra: DirsAttrs, be: Backend): (r: AttrReply)
    ensures ctx.None? || extra.srcDirAttrs.None? ==> r == AttrReply(Fail(Inval), obj)
    ensures ctx.Some? && extra.srcDirAttrs.Some? ==>
              r == be.link(target, dir, name, ctx.value, obj)
  {
    if ctx.None? || extra.srcDirAttrs.None? then AttrReply(Fail(Inval), obj)
    else be.link(target, dir, name, ctx.value, obj)
  }

  /* ---------------------------------------------------------------------- */
  /* MFSL_rename                                                            */

  /**
   * The synchronous rename guesses: both directories stamped with the
   * current second, and one entry moved from source to target when
   * FSAL_handlecmp says they differ (cmp != 0).
   */
  function SyncRenameGuess(src: Attrs, tgt: Attrs, cmp: int, now: int): (g: OpRes)
    ensures g.RenameRes?
    ensures g.srcDirAttributes.ctime == g.srcDirAttributes.mtime == Stamp(now)
    ensures g.tgtDirAttributes.ctime == g.tgtDirAttributes.mtime == Stamp(now)
  {
    var s := src.(ctime := Stamp(now), mtime := Stamp(now));
    var t := tgt.(ctime := Stamp(now), mtime := Stamp(now));
    if cmp != 0 then RenameRes(s.(filesize := s.filesize - 1), t.(filesize := t.filesize + 1))
    else RenameRes(s, t)
  }

  /**
   * The synchronous guess is the intended asynchronous one, and differs
   * from MFSL_rename's as written on every comparison result.
   */
  lemma SyncRenameGuessAgrees(src: Attrs, tgt: Attrs, cmp: int, now: int)
    ensures SyncRenameGuess(src, tgt, cmp, now) == Rename.RenameGuess(src, tgt, cmp, now)
    ensures SyncRenameGuess(src, tgt, cmp, now) != Rename.RenameGuessAsWritten(src, tgt, cmp, now)
  {
    var g := SyncRenameGuess(src, tgt, cmp, now);
    var w := Rename.RenameGuessAsWritten(src, tgt, cmp, now);
    assert g.srcDirAttributes.filesize != w.srcDirAttributes.filesize;
  }

  /** What the synchronous rename answers and leaves in the two directory buffers. */
  datatype RenameOutcome = RenameOutcome(status: Status, src: Option<Attrs>, tgt: Option<Attrs>)

  /**
   * MFSL_rename (synchronous): INVAL for a missing directory buffer or one
   * that is not a directory; a failed handle comparison returns its major
   * code; otherwise the answer of FSAL_rename and what it left in both
   * buffers.
   */
  function SyncRename(oldDir: Handle, oldName: Name, newDir: Handle, newName: Name,
                      ctx: OpContext, src: Option<Attrs>, tgt: Option<Attrs>,
                      be: Backend): (r: RenameOutcome)
    ensures src.None? || tgt.None? ==> r == RenameOutcome(Fail(Inval), src, tgt)
    ensures src.Some? && tgt.Some? && (src.value.ftype != Dir || tgt.value.ftype != Dir) ==>
              r == RenameOutcome(Fail(Inval), src, tgt)
    ensures src.Some? && tgt.Some? && src.value.ftype == Dir && tgt.value.ftype == Dir
            && IsError(be.handlecmp(oldDir, newDir).status) ==>
              r == RenameOutcome(Fail(be.handlecmp(oldDir, newDir).status.major), src, tgt)
    ensures src.Some? && tgt.Some? && src.value.ftype == Dir && tgt.value.ftype == Dir
            && !IsError(be.handlecmp(oldDir, newDir).status) ==>
              var reply := be.rename(oldDir, oldName, newDir, newName, ctx, src, tgt.value);
              r.status == reply.status && r.tgt == Some(reply.tgtDirAttrs)
              && r.src == (if reply.srcDirAttrs.Some? then reply.srcDirAttrs else src)
  {
    if src.None? || tgt.None? then RenameOutcome(Fail(Inval), src, tgt)
    else if src.value.ftype != Dir || tgt.value.ftype != Dir then RenameOutcome(Fail(Inval), src, tgt)
    else
      var cmp := be.handlecmp(oldDir, newDir);
      if IsError(cmp.status) then RenameOutcome(Fail(cmp.status.major), src, tgt)
      else
        var reply := be.rename(oldDir, oldName, newDir, newName, ctx, src, tgt.value);
        RenameOutcome(reply.status, if reply.srcDirAttrs.Some? then reply.srcDirAttrs else src,
                      Some(reply.tgtDirAttrs))
  }

  /* ---------------------------------------------------------------------- */
  /* MFSL_unlink                                                            */

  /**
   * The synchronous unlink guess.  The directory test reads the type kept in
   * the object's FSAL handle (handleType), not the object's attributes.
   */
  function SyncUnlinkGuess(parent: Attrs, handleType: NodeType, proxy: bool, now: int): (a: Attrs)
    ensures a.numlinks == if handleType == Dir then parent.numlinks - 1 else parent.numlinks
    ensures a.ctime == a.mtime == Stamp(now)
  {
    var p1 := if handleType == Dir then parent.(numlinks := parent.numlinks - 1) else parent;
    var p2 := if proxy then p1 else p1.(filesize := p1.filesize - 1);
    p2.(ctime := Stamp(now), mtime := Stamp(now))
  }

  /** Given the same type, the synchronous guess is the asynchronous one. */
  lemma SyncUnlinkGuessAgrees(parent: Attrs, t: NodeType, proxy: bool, now: int)
    ensures SyncUnlinkGuess(parent, t, proxy, now) == Unlink.UnlinkGuess(parent, t, proxy, now)
  {
  }

  /**
   * MFSL_unlink (synchronous): INVAL without a context or parent buffer
   * (its third test takes the address of the object's first member, the
   * handle, so it is a NULL test of the object pointer that a compiler may
   * fold away; the object is taken as given here); otherwise the
   * answer of FSAL_unlink, which leaves the parent's new attributes in the
   * caller's buffer.
   */
  function SyncUnlink(parent: Handle, name: Name, ctx: Option<OpContext>,
                      parentAttrs: Option<Attrs>, be: Backend): (r: (Status, Option<Attrs>))
    ensures ctx.None? || parentAttrs.None? ==> r == (Fail(Inval), parentAttrs)
    ensures ctx.Some? && parentAttrs.Some? ==>
              var reply := be.unlink(parent, name, ctx.value, parentAttrs.value);
              r == (reply.status, Some(reply.attrs))
  {
    if ctx.None? || parentAttrs.None? then (Fail(Inval), parentAttrs)
    else
      var reply := be.unlink(parent, name, ctx.value, parentAttrs.value);
      (reply.status, Some(reply.attrs))
  }

  /* ---------------------------------------------------------------------- */
  /* Status-only entry points                                               */

  /**
   * MFSL_SetDefault_parameter, MFSL_load_parameter_from_conf, MFSL_Init,
   * MFSL_GetContext and MFSL_RefreshContext of this build: NO_ERROR, and
   * whatever they are given (out) is left as it was.
   */
  function StatusOnly<T>(out: T): (r: (Status, T))
    ensures r.0 == Success && !IsError(r.0) && r.1 == out
  {
    (Success, out)
  }

  /** MFSL_terminate of this build: NO_ERROR, nothing else. */
  function Terminate(): (st: Status)
    ensures st == Success && !IsError(st)
  {
    Success
  }
}
