/*
 * The pipeline as a whole: the operation function each entry point stores
 * in its descriptor (op_func), run by a worker, and the laws the guessed
 * attributes of the entry points obey when several operations follow each
 * other on one directory.
 */
module Pipeline {
  import opened Fsal
  import opened MfslTypes
  import Create
  import Mkdir
  import Rename
  import Unlink
  import Link
  import Setattrs

  /**
   * A descriptor as an entry point leaves it: its argument, result and
   * guess variants all belong to its operation, it knows its context, and
   * the create and mkdir guesses carry the new object's attributes.
   */
  predicate Runnable(d: Desc)
  {
    WellFormed(d)
    && (d.guessed.CreateRes? ==> d.guessed.newFileAttributes.Some?)
    && (d.guessed.MkdirRes? ==> d.guessed.newDirAttributes.Some?)
  }

  /**
   * The op_func of a descriptor: the worker side of the entry point that
   * built it.  A descriptor no entry point builds (variants that disagree)
   * is answered with FAULT and left as it is.
   */
  function OpFunc(d: Desc, be: Backend): (w: WorkerResult)
    ensures Runnable(d) ==> ArgsOp(w.args) == d.opType && ResOp(w.res) == d.opType
    ensures !Runnable(d) ==> w == WorkerResult(Fail(Fault), d.args, d.res)
  {
    if !Runnable(d) then WorkerResult(Fail(Fault), d.args, d.res)
    else match d.opType
      case OpCreate => Create.AsyncCreate(d, be)
      case OpMkdir => Mkdir.AsyncMkdir(d, be)
      case OpRename => Rename.AsyncRename(d, be)
      case OpUnlink => Unlink.AsyncUnlink(d, be)
      case OpLink => Link.AsyncLink(d, be)
      case OpSetattrs => Setattrs.AsyncSetattrs(d, be)
      case _ => assert false; WorkerResult(Fail(Fault), d.args, d.res)
  }

  /**
   * Running a descriptor keeps it runnable: the worker side rewrites only
   * arguments and results, within the operation's own variants, so a
   * descriptor can be completed, released and run again.
   */
  lemma CompletedStaysRunnable(d: Desc, be: Backend)
    requires Runnable(d)
    ensures Runnable(Completed(d, OpFunc(d, be)))
    ensures Completed(d, OpFunc(d, be)).guessed == d.guessed
    ensures Completed(d, OpFunc(d, be)).mfslContext == d.mfslContext
  {
    var w := OpFunc(d, be);
    assert ArgsOp(w.args) == d.opType && ResOp(w.res) == d.opType;
  }

  /**
   * Create and mkdir never fail on the worker side, whatever the backend
   * answers: their status is not taken from the renames they perform.
   */
  lemma StagedCreationsSucceed(d: Desc, be: Backend)
    requires Runnable(d) && (d.opType == OpCreate || d.opType == OpMkdir)
    ensures OpFunc(d, be).status == Success
    ensures OpFunc(d, be).args == d.args
  {
    if d.opType == OpCreate {
      assert OpFunc(d, be) == Create.AsyncCreate(d, be);
    } else {
      assert OpFunc(d, be) == Mkdir.AsyncMkdir(d, be);
    }
  }

  /* ---------------------------------------------------------------------- */
  /* Laws of the guessed directory attributes                               */

  /**
   * Unlinking a file the caller just created restores the parent's guessed
   * size and link count; only the stamps change.
   */
  lemma UnlinkUndoesCreate(parent: Attrs, objType: NodeType, now: int)
    requires objType != Dir
    ensures Unlink.UnlinkGuess(Create.GuessedParent(parent), objType, false, now)
            == Rename.Touched(parent, now)
  {
  }

  /**
   * Removing a directory just made restores the parent's guessed size and
   * link count (the entry and the new directory's "..").
   */
  lemma UnlinkUndoesMkdir(parent: Attrs, now: int)
    ensures Unlink.UnlinkGuess(Mkdir.GuessedMkdirParent(parent), Dir, false, now)
            == Rename.Touched(parent, now)
  {
  }

  /**
   * Moving an entry from one directory to another and back restores both
   * guessed sizes, whether or not the two are the same directory.
   */
  lemma RenameThereAndBack(src: Attrs, tgt: Attrs, cmp: int, now: int)
    ensures var g := Rename.RenameGuess(src, tgt, cmp, now);
            var h := Rename.RenameGuess(g.tgtDirAttributes, g.srcDirAttributes, cmp, now);
            h.srcDirAttributes == Rename.Touched(tgt, now)
            && h.tgtDirAttributes == Rename.Touched(src, now)
  {
    var g := Rename.RenameGuess(src, tgt, cmp, now);
    var h := Rename.RenameGuess(g.tgtDirAttributes, g.srcDirAttributes, cmp, now);
    assert h.srcDirAttributes.(filesize := g.tgtDirAttributes.filesize)
           == Rename.Touched(g.tgtDirAttributes, now);
    assert h.tgtDirAttributes.(filesize := g.srcDirAttributes.filesize)
           == Rename.Touched(g.srcDirAttributes, now);
  }
}
