/*
 * The helpers of the PT FSAL (pt_ganesha.c): building a whole path, the
 * stream-index check, the process-wide name/handle cache
 * g_fsi_name_handle_cache (lookup, insertion, renaming, removal), the cache
 * effects of rename and unlink, and the splitting of reads and writes into
 * 256 KiB requests.
 *
 * pt_ganesha.h is not part of this model: the cache size, the handle size
 * and the stream counts are parameters.  Every ccl_* call of the PT library
 * is a function parameter giving its return code (and, for a name lookup,
 * the name it leaves in the caller's buffer).  Paths are assumed shorter
 * than PATH_MAX, so no copy truncates them.
 */
module PtFsal {
  import opened Fsal

  /* ---------------------------------------------------------------------- */
  /* Paths and stream indices                                               */

  /**
   * fsi_get_whole_path: the name alone under the root or an empty parent,
   * otherwise parent, a slash, and the name.
   */
  function WholePath(parentPath: string, name: string): (path: string)
    ensures parentPath == "/" || parentPath == "" ==> path == name
    ensures parentPath != "/" && parentPath != "" ==> |path| == |parentPath| + 1 + |name|
  {
    if parentPath == "/" || parentPath == "" then name else parentPath + "/" + name
  }

  /**
   * Below any other parent the whole path splits back into the parent, the
   * separator and the name, so two different names never give one path.
   */
  lemma WholePathSplits(parentPath: string, name: string, other: string)
    requires parentPath != "/" && parentPath != ""
    ensures WholePath(parentPath, name)[..|parentPath|] == parentPath
    ensures WholePath(parentPath, name)[|parentPath|] == '/'
    ensures WholePath(parentPath, name)[|parentPath| + 1..] == name
    ensures WholePath(parentPath, name) == WholePath(parentPath, other) ==> name == other
  {
    var p := WholePath(parentPath, name);
    assert p == parentPath + "/" + name;
    if p == WholePath(parentPath, other) {
      assert name == p[|parentPath| + 1..];
    }
  }

  /** The FSI limits of pt_ganesha.h. */
  datatype Limits = Limits(maxStreams: nat, cifsReservedStreams: nat)

  /**
   * fsi_check_handle_index: 0 for an index of an open stream slot (the
   * ordinary streams followed by the ones reserved for CIFS), -1 otherwise.
   */
  function CheckHandleIndex(handleIndex: int, lim: Limits): (rc: int)
    ensures rc == 0 <==> 0 <= handleIndex < lim.maxStreams + lim.cifsReservedStreams
    ensures rc != 0 ==> rc == -1
  {
    if 0 <= handleIndex < lim.maxStreams + lim.cifsReservedStreams then 0 else -1
  }

  /* ---------------------------------------------------------------------- */
  /* Fixed-size byte comparison                                             */

  /**
   * The first n bytes of a NUL-terminated buffer holding s: the characters
   * of s, then NUL bytes.  Bytes after the terminator of a buffer are taken
   * to be NUL.
   */
  function Bytes(s: seq<char>, n: nat): (b: seq<char>)
    ensures |b| == n
    ensures forall i :: 0 <= i < n ==> b[i] == if i < |s| then s[i] else '\0'
  {
    seq(n, i requires 0 <= i < n => if i < |s| then s[i] else '\0')
  }

  /** memcmp(a, b, n) == 0 */
  predicate SameBytes(a: seq<char>, b: seq<char>, n: nat)
  {
    Bytes(a, n) == Bytes(b, n)
  }

  /** Copying n bytes and comparing n bytes agree: a stored copy matches its source. */
  lemma BytesOfBytes(s: seq<char>, n: nat)
    ensures Bytes(Bytes(s, n), n) == Bytes(s, n)
    ensures SameBytes(s, Bytes(s, n), n)
  {
  }

  /* ---------------------------------------------------------------------- */
  /* The name/handle cache, as a value                                      */

  /** One cache entry: the handle bytes and the path name. */
  datatype CacheEntry = CacheEntry(handle: seq<char>, name: string)

  /** An entry of the zero-initialised global cache. */
  const EmptyEntry: CacheEntry := CacheEntry([], [])

  /** What the removals leave in an entry: "0" as handle and as name. */
  const RemovedEntry: CacheEntry := CacheEntry("0", "0")

  /** The cache: its entries and m_count, the slot of the latest insertion. */
  datatype CacheState = CacheState(entries: seq<CacheEntry>, count: int)

  /** A cache of at least one entry whose count designates one of them. */
  predicate ValidState(c: CacheState)
  {
    |c.entries| > 0 && 0 <= c.count < |c.entries|
  }

  /** The three searches of the cache: by handle bytes, by whole name, by path bytes. */
  datatype Match = ByHandle(handle: seq<char>) | ByName(name: string) | ByPath(path: string)

  /**
   * Whether an entry answers a search.  Handles are compared on handleSize
   * bytes, names as strings, and a path against a name on handleSize bytes
   * only, as fsi_remove_cache_by_fullpath does.
   */
  predicate Matches(e: CacheEntry, m: Match, handleSize: nat)
  {
    match m
    case ByHandle(h) => SameBytes(h, e.handle, handleSize)
    case ByName(n) => e.name == n
    case ByPath(p) => SameBytes(p, e.name, handleSize)
  }

  /** The index of the first entry answering a search, scanning from slot 0. */
  function FirstMatch(s: seq<CacheEntry>, m: Match, handleSize: nat): (r: Option<nat>)
    ensures r.Some? ==> r.value < |s| && Matches(s[r.value], m, handleSize)
    ensures r.Some? ==> forall j :: 0 <= j < r.value ==> !Matches(s[j], m, handleSize)
    ensures r.None? <==> forall j :: 0 <= j < |s| ==> !Matches(s[j], m, handleSize)
    decreases |s|
  {
    if s == [] then None
    else if Matches(s[0], m, handleSize) then Some(0)
    else
      var rest := FirstMatch(s[1..], m, handleSize);
      assert forall j :: 1 <= j < |s| ==> s[j] == s[1..][j - 1];
      if rest.None? then None else Some(rest.value + 1)
  }

  /** The first match is the one a scan stops at: a matching index with no match before it. */
  lemma FirstMatchAt(s: seq<CacheEntry>, m: Match, handleSize: nat, i: nat)
    requires i < |s| && Matches(s[i], m, handleSize)
    requires forall j :: 0 <= j < i ==> !Matches(s[j], m, handleSize)
    ensures FirstMatch(s, m, handleSize) == Some(i)
  {
    var r := FirstMatch(s, m, handleSize);
    assert r.Some?;
    assert Matches(s[r.value], m, handleSize);
    assert r.value >= i;
    assert r.value <= i;
  }

  /* The slot of an insertion ------------------------------------------- */

  /**
   * The slot an insertion uses as written: m_count is incremented in the
   * test and again in the else branch, so the slot is 0 once the old count
   * reaches FSI_MAX_HANDLE_CACHE_ENTRY and the old count plus 2 otherwise.
   */
  function InsertSlotAsWritten(count: int, maxEntries: nat): (slot: int)
  {
    if count >= maxEntries then 0 else count + 2
  }

  /** m_count after k insertions as written into the zero-initialised cache. */
  function CountAfterAsWritten(k: nat, maxEntries: nat): int
  {
    if k == 0 then 0 else InsertSlotAsWritten(CountAfterAsWritten(k - 1, maxEntries), maxEntries)
  }

  /** As written, the counts of the first insertions are the even numbers. */
  lemma {:induction false} CountAfterAsWrittenEven(k: nat, maxEntries: nat)
    requires k == 0 || 2 * (k - 1) < maxEntries
    ensures CountAfterAsWritten(k, maxEntries) == 2 * k
  {
    if k > 0 {
      CountAfterAsWrittenEven(k - 1, maxEntries);
    }
  }

  /**
   * As written, whatever the cache size, insertion number (size + 1) / 2
   * into a fresh cache writes slot size or size + 1: one or two entries past
   * the end of the array.
   */
  lemma InsertAsWrittenOverruns(maxEntries: nat)
    requires maxEntries >= 1
    ensures var slot := CountAfterAsWritten((maxEntries + 1) / 2, maxEntries);
            slot == maxEntries || slot == maxEntries + 1
  {
    CountAfterAsWrittenEven((maxEntries + 1) / 2, maxEntries);
  }

  /**
   * The slot an insertion uses as intended: the slot after the latest one,
   * wrapping to 0 at the end of the array.
   */
  function InsertSlot(count: nat, maxEntries: nat): (slot: nat)
    requires maxEntries > 0
    ensures slot < maxEntries
    ensures count + 1 < maxEntries ==> slot == count + 1
  {
    if count + 1 >= maxEntries then 0 else count + 1
  }

  /** m_count after k intended insertions into the zero-initialised cache. */
  function CountAfter(k: nat, maxEntries: nat): nat
    requires maxEntries > 0
  {
    if k == 0 then 0 else InsertSlot(CountAfter(k - 1, maxEntries), maxEntries)
  }

  /**
   * The intended insertions use slots 1, 2, ..., size - 1 in turn and then
   * come back to slot 0: every slot is used before any is reused.
   */
  lemma {:induction false} CountAfterCycles(k: nat, maxEntries: nat)
    requires maxEntries > 0 && k <= maxEntries
    ensures k < maxEntries ==> CountAfter(k, maxEntries) == k
    ensures k == maxEntries ==> CountAfter(k, maxEntries) == 0
  {
    if k > 0 {
      CountAfterCycles(k - 1, maxEntries);
    }
  }

  /** The cache after storing a handle's bytes and a name in the next slot. */
  function Inserted(c: CacheState, handle: seq<char>, name: string, handleSize: nat): (r: CacheState)
    requires ValidState(c)
    ensures ValidState(r) && |r.entries| == |c.entries|
    ensures r.count == InsertSlot(c.count, |c.entries|)
  {
    var slot := InsertSlot(c.count, |c.entries|);
    CacheState(c.entries[slot := CacheEntry(Bytes(handle, handleSize), name)], slot)
  }

  /* Lookup ------------------------------------------------------------- */

  /**
   * What ccl_handle_to_name answers: its return code and the name it
   * leaves in the caller's buffer (None: the buffer is left as it was).
   */
  datatype NameReply = NameReply(rc: int, name: Option<string>)

  /** The caller's buffer after a ccl_handle_to_name call. */
  function BufferAfter(reply: NameReply, buf: string): string
  {
    if reply.name.Some? then reply.name.value else buf
  }

  /**
   * The outcome of fsi_get_name_from_handle: return code, name buffer, the
   * cache afterwards, and whether the PT library was asked.
   */
  datatype Lookup = Lookup(rc: int, name: string, cache: CacheState, asked: bool)

  /**
   * fsi_get_name_from_handle: the name of the first entry whose handle
   * bytes match, with 0 and no library call; otherwise the library's
   * answer, whose name is cached in the next slot when it succeeded.
   */
  function NameLookup(c: CacheState, handle: seq<char>, buf: string, reply: NameReply,
                      handleSize: nat): (r: Lookup)
    requires ValidState(c)
    ensures ValidState(r.cache) && |r.cache.entries| == |c.entries|
    ensures var hit := FirstMatch(c.entries, ByHandle(handle), handleSize);
            hit.Some? ==> r == Lookup(0, c.entries[hit.value].name, c, false)
    ensures var hit := FirstMatch(c.entries, ByHandle(handle), handleSize);
            hit.None? ==>
              r.asked && r.rc == reply.rc && r.name == BufferAfter(reply, buf)
              && r.cache == (if reply.rc == 0 then Inserted(c, handle, r.name, handleSize) else c)
  {
    var hit := FirstMatch(c.entries, ByHandle(handle), handleSize);
    if hit.Some? then Lookup(0, c.entries[hit.value].name, c, false)
    else
      var name := BufferAfter(reply, buf);
      Lookup(reply.rc, name, if reply.rc == 0 then Inserted(c, handle, name, handleSize) else c, true)
  }

  /**
   * A name the library found is served from the cache from then on: the
   * next lookup of the same handle answers 0 and the same name, leaves the
   * cache alone and does not ask the library.
   */
  lemma LookupCachesName(c: CacheState, handle: seq<char>, buf: string, reply: NameReply,
                         handleSize: nat, buf2: string, reply2: NameReply)
    requires ValidState(c)
    requires NameLookup(c, handle, buf, reply, handleSize).rc == 0
    ensures var r := NameLookup(c, handle, buf, reply, handleSize);
            NameLookup(r.cache, handle, buf2, reply2, handleSize) == Lookup(0, r.name, r.cache, false)
  {
    var r := NameLookup(c, handle, buf, reply, handleSize);
    var hit := FirstMatch(c.entries, ByHandle(handle), handleSize);
    if hit.None? {
      var slot := r.cache.count;
      BytesOfBytes(handle, handleSize);
      assert r.cache.entries[slot] == CacheEntry(Bytes(handle, handleSize), r.name);
      assert Matches(r.cache.entries[slot], ByHandle(handle), handleSize);
      forall j | 0 <= j < slot
        ensures !Matches(r.cache.entries[j], ByHandle(handle), handleSize)
      {
        assert r.cache.entries[j] == c.entries[j];
      }
      FirstMatchAt(r.cache.entries, ByHandle(handle), handleSize, slot);
    }
  }

  /* Rename and removal ------------------------------------------------- */

  /**
   * fsi_update_cache_name: the first entry named oldname is renamed and 0
   * returned; with none, -1 and the cache unchanged.
   */
  function RenamedInCache(c: CacheState, oldname: string, newname: string): (r: (int, CacheState))
    ensures var hit := FirstMatch(c.entries, ByName(oldname), 0);
            hit.None? ==> r == (-1, c)
    ensures var hit := FirstMatch(c.entries, ByName(oldname), 0);
            hit.Some? ==>
              r.0 == 0 && r.1.count == c.count && |r.1.entries| == |c.entries|
              && r.1.entries[hit.value] == c.entries[hit.value].(name := newname)
              && forall j :: 0 <= j < |c.entries| && j != hit.value ==> r.1.entries[j] == c.entries[j]
  {
    var hit := FirstMatch(c.entries, ByName(oldname), 0);
    if hit.None? then (-1, c)
    else (0, c.(entries := c.entries[hit.value := c.entries[hit.value].(name := newname)]))
  }

  /**
   * fsi_remove_cache_by_handle and fsi_remove_cache_by_fullpath: the first
   * entry answering the search gets "0" as handle and name; every other
   * entry, and the count, stay.
   */
  function RemovedFromCache(c: CacheState, m: Match, handleSize: nat): (r: CacheState)
    requires !m.ByName?
    ensures r.count == c.count && |r.entries| == |c.entries|
    ensures var hit := FirstMatch(c.entries, m, handleSize);
            (hit.None? ==> r == c)
            && (hit.Some? ==>
                  r.entries[hit.value] == RemovedEntry
                  && forall j :: 0 <= j < |c.entries| && j != hit.value ==> r.entries[j] == c.entries[j])
  {
    var hit := FirstMatch(c.entries, m, handleSize);
    if hit.None? then c else c.(entries := c.entries[hit.value := RemovedEntry])
  }

  /** A handle the empty and removed entries carry; several entries may share it. */
  predicate Placeholder(h: seq<char>, handleSize: nat)
  {
    SameBytes(h, EmptyEntry.handle, handleSize) || SameBytes(h, RemovedEntry.handle, handleSize)
  }

  /**
   * The cache invariant: apart from the empty and removed placeholders, no
   * two entries hold the same handle bytes.
   */
  predicate UniqueHandles(c: CacheState, handleSize: nat)
  {
    forall i, j :: 0 <= i < j < |c.entries| && SameBytes(c.entries[i].handle, c.entries[j].handle, handleSize)
                   ==> Placeholder(c.entries[i].handle, handleSize)
  }

  /** A lookup keeps the invariant: it only inserts a handle no entry holds. */
  lemma LookupKeepsUnique(c: CacheState, handle: seq<char>, buf: string, reply: NameReply, handleSize: nat)
    requires ValidState(c) && UniqueHandles(c, handleSize)
    ensures UniqueHandles(NameLookup(c, handle, buf, reply, handleSize).cache, handleSize)
  {
    var r := NameLookup(c, handle, buf, reply, handleSize);
    if FirstMatch(c.entries, ByHandle(handle), handleSize).None? && reply.rc == 0 {
      InsertKeepsUnique(c, handle, r.name, handleSize);
    }
  }

  /** Inserting a handle that no entry matches keeps the invariant. */
  lemma InsertKeepsUnique(c: CacheState, handle: seq<char>, name: string, handleSize: nat)
    requires ValidState(c) && UniqueHandles(c, handleSize)
    requires FirstMatch(c.entries, ByHandle(handle), handleSize).None?
    ensures UniqueHandles(Inserted(c, handle, name, handleSize), handleSize)
  {
    var r := Inserted(c, handle, name, handleSize);
    var slot := r.count;
    BytesOfBytes(handle, handleSize);
    forall i, j | 0 <= i < j < |r.entries|
      ensures SameBytes(r.entries[i].handle, r.entries[j].handle, handleSize)
              ==> Placeholder(r.entries[i].handle, handleSize)
    {
      if i == slot {
        assert !Matches(c.entries[j], ByHandle(handle), handleSize);
        assert !SameBytes(r.entries[i].handle, r.entries[j].handle, handleSize);
      } else if j == slot {
        assert !Matches(c.entries[i], ByHandle(handle), handleSize);
        assert !SameBytes(r.entries[i].handle, r.entries[j].handle, handleSize);
      } else {
        assert r.entries[i] == c.entries[i] && r.entries[j] == c.entries[j];
      }
    }
  }

  /** A rename keeps the invariant: no handle changes. */
  lemma RenameKeepsUnique(c: CacheState, oldname: string, newname: string, handleSize: nat)
    requires UniqueHandles(c, handleSize)
    ensures UniqueHandles(RenamedInCache(c, oldname, newname).1, handleSize)
  {
    var r := RenamedInCache(c, oldname, newname).1;
    forall i, j | 0 <= i < j < |r.entries|
      ensures SameBytes(r.entries[i].handle, r.entries[j].handle, handleSize)
              ==> Placeholder(r.entries[i].handle, handleSize)
    {
      assert r.entries[i].handle == c.entries[i].handle && r.entries[j].handle == c.entries[j].handle;
    }
  }

  /** A removal keeps the invariant: it only writes the removed placeholder. */
  lemma RemoveKeepsUnique(c: CacheState, m: Match, handleSize: nat)
    requires !m.ByName? && UniqueHandles(c, handleSize)
    ensures UniqueHandles(RemovedFromCache(c, m, handleSize), handleSize)
  {
    var r := RemovedFromCache(c, m, handleSize);
    var hit := FirstMatch(c.entries, m, handleSize);
    forall i, j | 0 <= i < j < |r.entries|
      ensures SameBytes(r.entries[i].handle, r.entries[j].handle, handleSize)
              ==> Placeholder(r.entries[i].handle, handleSize)
    {
      if hit.Some? && i == hit.value {
        assert r.entries[i] == RemovedEntry;
      } else if hit.Some? && j == hit.value {
        assert r.entries[j] == RemovedEntry;
      } else {
        assert r.entries[i] == c.entries[i] && r.entries[j] == c.entries[j];
      }
    }
  }

  /**
   * Under the invariant, removing a handle that is no placeholder forgets
   * it: no entry answers a lookup of that handle any more.
   */
  lemma RemoveByHandleForgets(c: CacheState, handle: seq<char>, handleSize: nat)
    requires UniqueHandles(c, handleSize) && !Placeholder(handle, handleSize)
    ensures FirstMatch(RemovedFromCache(c, ByHandle(handle), handleSize).entries,
                       ByHandle(handle), handleSize).None?
  {
    var r := RemovedFromCache(c, ByHandle(handle), handleSize);
    var hit := FirstMatch(c.entries, ByHandle(handle), handleSize);
    forall j | 0 <= j < |r.entries|
      ensures !Matches(r.entries[j], ByHandle(handle), handleSize)
    {
      if hit.Some? && j == hit.value {
        assert r.entries[j] == RemovedEntry;
      } else if hit.Some? {
        var i := hit.value;
        assert r.entries[j] == c.entries[j];
        assert SameBytes(c.entries[i].handle, handle, handleSize);
        if i < j {
          assert Matches(c.entries[j], ByHandle(handle), handleSize)
                 ==> SameBytes(c.entries[i].handle, c.entries[j].handle, handleSize);
        } else {
          assert !Matches(c.entries[j], ByHandle(handle), handleSize);
        }
      }
    }
  }

  /**
   * fsi_remove_cache_by_fullpath compares only handleSize bytes: a path
   * removes the entry of any other name that shares those first bytes.
   */
  lemma PathRemovalComparesPrefix(name: string, path: string, handleSize: nat)
    requires |name| >= handleSize && |path| >= handleSize
    requires name[..handleSize] == path[..handleSize]
    ensures Matches(CacheEntry([], name), ByPath(path), handleSize)
  {
    assert forall i :: 0 <= i < handleSize ==> name[i] == name[..handleSize][i];
    assert forall i :: 0 <= i < handleSize ==> path[i] == path[..handleSize][i];
  }

  /* Operations on paths ------------------------------------------------ */

  /**
   * fsi_cache_name_and_handle: the name is looked up first (which may fill
   * the buffer and the cache); when that fails the handle is cached with
   * what the buffer then holds.  It answers 0 in every case.
   */
  function CacheNameAndHandleSpec(c: CacheState, handle: seq<char>, buf: string, reply: NameReply,
                                  handleSize: nat): (r: CacheState)
    requires ValidState(c)
    ensures ValidState(r)
  {
    var l := NameLookup(c, handle, buf, reply, handleSize);
    if l.rc < 0 then Inserted(l.cache, handle, l.name, handleSize) else l.cache
  }

  /**
   * The handle cached by fsi_cache_name_and_handle, when its lookup
   * failed, is found by the next lookup, with the name the buffer held.
   */
  lemma CacheNameAndHandleCaches(c: CacheState, handle: seq<char>, buf: string, reply: NameReply,
                                 handleSize: nat, buf2: string, reply2: NameReply)
    requires ValidState(c) && NameLookup(c, handle, buf, reply, handleSize).rc < 0
    ensures var l := NameLookup(c, handle, buf, reply, handleSize);
            var r := CacheNameAndHandleSpec(c, handle, buf, reply, handleSize);
            NameLookup(r, handle, buf2, reply2, handleSize) == Lookup(0, l.name, r, false)
  {
    var l := NameLookup(c, handle, buf, reply, handleSize);
    var r := CacheNameAndHandleSpec(c, handle, buf, reply, handleSize);
    assert l.cache == c;
    var slot := r.count;
    BytesOfBytes(handle, handleSize);
    assert Matches(r.entries[slot], ByHandle(handle), handleSize);
    forall j | 0 <= j < slot
      ensures !Matches(r.entries[j], ByHandle(handle), handleSize)
    {
      assert r.entries[j] == c.entries[j];
    }
    FirstMatchAt(r.entries, ByHandle(handle), handleSize, slot);
  }

  /** What ptfsal_rename and ptfsal_unlink answer and leave in the cache. */
  datatype PathOp = PathOp(rc: int, cache: CacheState)

  /**
   * ptfsal_rename: both parent names are looked up (a failure returns its
   * code); the whole old and new paths go to ccl_rename; only when that
   * succeeds is the cached old path renamed.
   */
  function RenameSpec(c: CacheState, oldDir: seq<char>, oldName: string, newDir: seq<char>,
                      newName: string, handleToName: seq<char> -> NameReply,
                      cclRename: (string, string) -> int, handleSize: nat): (r: PathOp)
    requires ValidState(c)
    ensures ValidState(r.cache)
    ensures var l1 := NameLookup(c, oldDir, "", handleToName(oldDir), handleSize);
            var l2 := NameLookup(l1.cache, newDir, "", handleToName(newDir), handleSize);
            var from := WholePath(l1.name, oldName);
            var to := WholePath(l2.name, newName);
            (l1.rc < 0 ==> r == PathOp(l1.rc, l1.cache))
            && (l1.rc >= 0 && l2.rc < 0 ==> r == PathOp(l2.rc, l2.cache))
            && (l1.rc >= 0 && l2.rc >= 0 ==>
                  r.rc == cclRename(from, to)
                  && r.cache == (if r.rc == 0 then RenamedInCache(l2.cache, from, to).1 else l2.cache))
  {
    var l1 := NameLookup(c, oldDir, "", handleToName(oldDir), handleSize);
    if l1.rc < 0 then PathOp(l1.rc, l1.cache)
    else
      var l2 := NameLookup(l1.cache, newDir, "", handleToName(newDir), handleSize);
      if l2.rc < 0 then PathOp(l2.rc, l2.cache)
      else
        var from := WholePath(l1.name, oldName);
        var to := WholePath(l2.name, newName);
        var rc := cclRename(from, to);
        if rc == 0 then PathOp(rc, RenamedInCache(l2.cache, from, to).1) else PathOp(rc, l2.cache)
  }

  /**
   * ptfsal_unlink (and ptfsal_rmdir, which differs only in the library
   * call): the parent's name is looked up (a failure returns its code);
   * the whole path goes to the library, and its cache entry is removed
   * whether or not the library succeeded.
   */
  function UnlinkSpec(c: CacheState, dir: seq<char>, name: string, handleToName: seq<char> -> NameReply,
                      cclUnlink: string -> int, handleSize: nat): (r: PathOp)
    requires ValidState(c)
    ensures ValidState(r.cache)
    ensures var l := NameLookup(c, dir, "", handleToName(dir), handleSize);
            (l.rc < 0 ==> r == PathOp(l.rc, l.cache))
            && (l.rc >= 0 ==>
                  r.rc == cclUnlink(WholePath(l.name, name))
                  && r.cache == RemovedFromCache(l.cache, ByPath(WholePath(l.name, name)), handleSize))
  {
    var l := NameLookup(c, dir, "", handleToName(dir), handleSize);
    if l.rc < 0 then PathOp(l.rc, l.cache)
    else
      var path := WholePath(l.name, name);
      PathOp(cclUnlink(path), RemovedFromCache(l.cache, ByPath(path), handleSize))
  }

  /** Every operation on the cache keeps the unique-handle invariant. */
  lemma PathOpsKeepUnique(c: CacheState, oldDir: seq<char>, oldName: string, newDir: seq<char>,
                          newName: string, handleToName: seq<char> -> NameReply,
                          cclRename: (string, string) -> int, cclUnlink: string -> int,
                          handle: seq<char>, buf: string, handleSize: nat)
    requires ValidState(c) && UniqueHandles(c, handleSize)
    ensures UniqueHandles(RenameSpec(c, oldDir, oldName, newDir, newName, handleToName, cclRename,
                                     handleSize).cache, handleSize)
    ensures UniqueHandles(UnlinkSpec(c, oldDir, oldName, handleToName, cclUnlink, handleSize).cache,
                          handleSize)
    ensures UniqueHandles(CacheNameAndHandleSpec(c, handle, buf, handleToName(handle), handleSize),
                          handleSize)
  {
    var l1 := NameLookup(c, oldDir, "", handleToName(oldDir), handleSize);
    LookupKeepsUnique(c, oldDir, "", handleToName(oldDir), handleSize);
    var l2 := NameLookup(l1.cache, newDir, "", handleToName(newDir), handleSize);
    LookupKeepsUnique(l1.cache, newDir, "", handleToName(newDir), handleSize);
    RenameKeepsUnique(l2.cache, WholePath(l1.name, oldName), WholePath(l2.name, newName), handleSize);
    RemoveKeepsUnique(l1.cache, ByPath(WholePath(l1.name, oldName)), handleSize);
    var l := NameLookup(c, handle, buf, handleToName(handle), handleSize);
    LookupKeepsUnique(c, handle, buf, handleToName(handle), handleSize);
    if l.rc < 0 {
      assert FirstMatch(c.entries, ByHandle(handle), handleSize).None?;
      assert l.cache == c;
      InsertKeepsUnique(c, handle, l.name, handleSize);
    }
  }

  /* ---------------------------------------------------------------------- */
  /* The cache object                                                       */

  /** g_fsi_name_handle_cache: its entry array and m_count. */
  class NameCache {
    const handleSize: nat
    const entries: array<CacheEntry>
    var count: int

    predicate Valid()
      reads this, entries
    {
      ValidState(State())
    }

    function State(): CacheState
      reads this, entries
    {
      CacheState(entries[..], count)
    }

    /** The zero-initialised cache of maxEntries entries. */
    constructor (maxEntries: nat, hsize: nat)
      requires maxEntries > 0
      ensures Valid() && fresh(entries) && handleSize == hsize
      ensures State() == CacheState(seq(maxEntries, i => EmptyEntry), 0)
    {
      handleSize := hsize;
      entries := new CacheEntry[maxEntries](i => EmptyEntry);
      count := 0;
    }

    /** The loop every cache search runs: from slot 0, the first entry answering m. */
    method FindFirst(m: Match) returns (r: Option<nat>)
      ensures r == FirstMatch(entries[..], m, handleSize)
    {
      var index := 0;
      while index < entries.Length
        invariant 0 <= index <= entries.Length
        invariant forall j :: 0 <= j < index ==> !Matches(entries[j], m, handleSize)
      {
        if Matches(entries[index], m, handleSize) {
          FirstMatchAt(entries[..], m, handleSize, index);
          return Some(index);
        }
        index := index + 1;
      }
      assert forall j :: 0 <= j < |entries[..]| ==> entries[..][j] == entries[j];
      return None;
    }

    /** Storing a handle and a name in the next slot. */
    method Insert(handle: seq<char>, name: string)
      requires Valid()
      modifies this, entries
      ensures Valid()
      ensures State() == Inserted(old(State()), handle, name, handleSize)
    {
      count := InsertSlot(count, entries.Length);
      entries[count] := CacheEntry(Bytes(handle, handleSize), name);
    }

    /** fsi_get_name_from_handle, with the PT library's lookup as a parameter. */
    method GetNameFromHandle(handle: seq<char>, buf: string, handleToName: seq<char> -> NameReply)
      returns (rc: int, name: string)
      requires Valid()
      modifies this, entries
      ensures Valid()
      ensures var r := NameLookup(old(State()), handle, buf, handleToName(handle), handleSize);
              rc == r.rc && name == r.name && State() == r.cache
    {
      var hit := FindFirst(ByHandle(handle));
      if hit.Some? {
        return 0, entries[hit.value].name;
      }
      var reply := handleToName(handle);
      rc, name := reply.rc, BufferAfter(reply, buf);
      if rc == 0 {
        Insert(handle, name);
      }
    }

    /** fsi_cache_name_and_handle: always 0. */
    method CacheNameAndHandle(handle: seq<char>, buf: string, handleToName: seq<char> -> NameReply)
      returns (rc: int)
      requires Valid()
      modifies this, entries
      ensures Valid() && rc == 0
      ensures State() == CacheNameAndHandleSpec(old(State()), handle, buf, handleToName(handle), handleSize)
    {
      var lookupRc, name := GetNameFromHandle(handle, buf, handleToName);
      if lookupRc < 0 {
        Insert(handle, name);
      }
      rc := 0;
    }

    /** fsi_update_cache_name */
    method UpdateCacheName(oldname: string, newname: string) returns (rc: int)
      requires Valid()
      modifies entries
      ensures Valid()
      ensures (rc, State()) == RenamedInCache(old(State()), oldname, newname)
    {
      var hit := FindFirst(ByName(oldname));
      if hit.None? {
        return -1;
      }
      entries[hit.value] := entries[hit.value].(name := newname);
      rc := 0;
    }

    /** fsi_remove_cache_by_handle and fsi_remove_cache_by_fullpath (m says which). */
    method Remove(m: Match)
      requires Valid() && !m.ByName?
      modifies entries
      ensures Valid()
      ensures State() == RemovedFromCache(old(State()), m, handleSize)
    {
      var hit := FindFirst(m);
      if hit.Some? {
        entries[hit.value] := RemovedEntry;
      }
    }

    /** ptfsal_rename */
    method Rename(oldDir: seq<char>, oldName: string, newDir: seq<char>, newName: string,
                  handleToName: seq<char> -> NameReply, cclRename: (string, string) -> int)
      returns (rc: int)
      requires Valid()
      modifies this, entries
      ensures Valid()
      ensures PathOp(rc, State())
              == RenameSpec(old(State()), oldDir, oldName, newDir, newName, handleToName, cclRename,
                            handleSize)
    {
      var oldParent, newParent;
      rc, oldParent := GetNameFromHandle(oldDir, "", handleToName);
      if rc < 0 {
        return;
      }
      rc, newParent := GetNameFromHandle(newDir, "", handleToName);
      if rc < 0 {
        return;
      }
      var from := WholePath(oldParent, oldName);
      var to := WholePath(newParent, newName);
      rc := cclRename(from, to);
      if rc == 0 {
        var updated := UpdateCacheName(from, to);
      }
    }

    /** ptfsal_unlink, and ptfsal_rmdir when cclUnlink is ccl_rmdir */
    method Unlink(dir: seq<char>, name: string, handleToName: seq<char> -> NameReply,
                  cclUnlink: string -> int)
      returns (rc: int)
      requires Valid()
      modifies this, entries
      ensures Valid()
      ensures PathOp(rc, State()) == UnlinkSpec(old(State()), dir, name, handleToName, cclUnlink, handleSize)
    {
      var parent;
      rc, parent := GetNameFromHandle(dir, "", handleToName);
      if rc < 0 {
        return;
      }
      var path := WholePath(parent, name);
      rc := cclUnlink(path);
      Remove(ByPath(path));
    }
  }

  /* ---------------------------------------------------------------------- */
  /* Reads and writes in 256 KiB requests                                   */

  /** The largest request sent to the PT library. */
  const ChunkSize: nat := 262144

  /** One ccl_pread or ccl_pwrite call: file offset, offset in the caller's buffer, length. */
  datatype Chunk = Chunk(offset: int, bufOffset: nat, length: nat)

  /** The number of full-size requests: the loop runs while more than one request's worth remains. */
  function FullChunks(size: nat): nat
  {
    if size == 0 then 0 else (size - 1) / ChunkSize
  }

  /** The requests for size bytes from offset: full-size ones, then the remainder. */
  function Chunks(offset: int, size: nat): seq<Chunk>
  {
    var k := FullChunks(size);
    seq(k, i requires 0 <= i < k => Chunk(offset + i * ChunkSize, i * ChunkSize, ChunkSize))
    + (if size > k * ChunkSize then [Chunk(offset + k * ChunkSize, k * ChunkSize, size - k * ChunkSize)] else [])
  }

  /** Two facts about the full-size count, from the definition of division. */
  lemma FullChunksBounds(size: nat)
    ensures FullChunks(size) * ChunkSize <= size
    ensures size > 0 ==> size - FullChunks(size) * ChunkSize <= ChunkSize
    ensures size > 0 ==> size > FullChunks(size) * ChunkSize
  {
  }

  /**
   * The requests cover [offset, offset + size) exactly, in order and
   * without gaps: each starts where the previous one ended, the file and
   * buffer offsets advance together, every request but the last is full,
   * none is empty or larger than 256 KiB, and their lengths add up to size.
   */
  lemma ChunksCover(offset: int, size: nat)
    ensures var cs := Chunks(offset, size);
            (size == 0 <==> cs == [])
            && (forall i :: 0 <= i < |cs| ==> 0 < cs[i].length <= ChunkSize)
            && (forall i :: 0 <= i < |cs| ==> cs[i].offset == offset + cs[i].bufOffset)
            && (forall i :: 0 <= i < |cs| - 1 ==> cs[i].length == ChunkSize)
            && (cs != [] ==> cs[0].bufOffset == 0)
            && (forall i :: 0 <= i < |cs| - 1 ==> cs[i + 1].bufOffset == cs[i].bufOffset + cs[i].length)
            && (cs != [] ==> cs[|cs| - 1].bufOffset + cs[|cs| - 1].length == size)
  {
    FullChunksBounds(size);
  }

  /**
   * The loop of ptfsal_read and ptfsal_write: the requests it issues, in
   * order, and the answer, which is the size asked for whatever the
   * requests returned.
   */
  method Transfer(offset: int, size: nat) returns (ret: nat, calls: seq<Chunk>)
    ensures ret == size
    ensures calls == Chunks(offset, size)
  {
    var curOffset, curSize, bufOffset, splitCount := offset, size, 0, 0;
    calls := [];
    FullChunksBounds(size);
    while curSize > ChunkSize
      invariant curSize + bufOffset == size
      invariant bufOffset == splitCount * ChunkSize && curOffset == offset + bufOffset
      invariant splitCount <= FullChunks(size)
      invariant calls == seq(splitCount, i requires 0 <= i < splitCount =>
                               Chunk(offset + i * ChunkSize, i * ChunkSize, ChunkSize))
      invariant splitCount > 0 ==> curSize > 0
    {
      calls := calls + [Chunk(curOffset, bufOffset, ChunkSize)];
      curSize := curSize - ChunkSize;
      curOffset := curOffset + ChunkSize;
      bufOffset := bufOffset + ChunkSize;
      splitCount := splitCount + 1;
      assert splitCount * ChunkSize < size;
    }
    assert splitCount == FullChunks(size) by {
      if size > 0 {
        assert (splitCount * ChunkSize) < size <= splitCount * ChunkSize + ChunkSize;
      }
    }
    if curSize > 0 {
      calls := calls + [Chunk(curOffset, bufOffset, curSize)];
    }
    ret := size;
  }
}
