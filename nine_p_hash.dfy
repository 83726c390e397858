/*
 * The 9P FID table (9p_hash_functions.c): the key a connection and a fid
 * make, the bucket and red-black-tree values the generic hash table
 * computes from it, the key comparison, and the get/set/delete operations
 * on the table ht_9pfids.
 *
 * The generic hash table is not part of this model.  It is represented by
 * its contents, a map from keys to fid references: two keys are the same
 * entry exactly when the comparison function calls them equal, which for
 * this key type is equality of its three fields.
 */
module NinePHash {
  import opened Fsal

  const U32: nat := 0x1_0000_0000

  type U32Value = x: nat | x < U32

  /** _9p_hash_key_t: the peer's address and port, and the fid number. */
  datatype Key = Key(peerAddr: U32Value, peerPort: U32Value, fid: U32Value)

  /** A _9p_fid_t pointer, by identity. */
  type FidRef = nat

  /** A connection's peer, as the key builders read it. */
  datatype Conn = Conn(peerAddr: U32Value, peerPort: U32Value)

  /** The key the get, set and delete operations build for a connection and a fid. */
  function KeyOf(c: Conn, fid: U32Value): (k: Key)
    ensures k.fid == fid && k.peerAddr == c.peerAddr && k.peerPort == c.peerPort
  {
    Key(c.peerAddr, c.peerPort, fid)
  }

  /**
   * _9p_hash_func: the bucket index, (peer_addr + fid) modulo the index
   * size, the sum taken on 32 bits.
   */
  function HashIndex(k: Key, indexSize: nat): (i: nat)
    requires indexSize > 0
    ensures i < indexSize
  {
    ((k.peerAddr + k.fid) % U32) % indexSize
  }

  /**
   * _9p_hash_rbt: (peer_addr << 8) + ((peer_port << 4) + fid), computed on
   * 32-bit unsigned values and only then widened to 64 bits.
   */
  function RbtValue(k: Key): (v: nat)
    ensures v < U32
  {
    var part1 := k.peerAddr;
    var part2 := (k.peerPort * 16 + k.fid) % U32;
    ((part1 * 256) % U32 + part2) % U32
  }

  /**
   * The rbt value never uses the upper half of its 64 bits, and different
   * keys can share one: the comparison, not the rbt value, tells entries
   * apart.
   */
  lemma RbtValueCollides()
    ensures RbtValue(Key(0, 1, 0)) == RbtValue(Key(0, 0, 16))
    ensures RbtValue(Key(1, 0, 0)) == RbtValue(Key(0, 16, 0))
    ensures RbtValue(Key(0x100_0000, 0, 0)) == RbtValue(Key(0, 0, 0))
  {
  }

  /** _9p_compare_hash_key: 0 for keys equal in all three fields, 1 otherwise. */
  function CompareKeys(k1: Key, k2: Key): (r: int)
    ensures r == 0 || r == 1
    ensures r == 0 <==> k1.peerAddr == k2.peerAddr && k1.peerPort == k2.peerPort && k1.fid == k2.fid
  {
    if k1.peerAddr == k2.peerAddr && k1.peerPort == k2.peerPort && k1.fid == k2.fid then 0 else 1
  }

  /**
   * The comparison is an equivalence (reflexive, symmetric, transitive), it
   * is key equality, and keys it calls equal land in the same bucket with
   * the same rbt value, as the hash table requires.
   */
  lemma CompareKeysConsistent(k1: Key, k2: Key, k3: Key, indexSize: nat)
    requires indexSize > 0
    ensures CompareKeys(k1, k1) == 0
    ensures CompareKeys(k1, k2) == CompareKeys(k2, k1)
    ensures CompareKeys(k1, k2) == 0 && CompareKeys(k2, k3) == 0 ==> CompareKeys(k1, k3) == 0
    ensures CompareKeys(k1, k2) == 0 <==> k1 == k2
    ensures CompareKeys(k1, k2) == 0 ==>
              HashIndex(k1, indexSize) == HashIndex(k2, indexSize) && RbtValue(k1) == RbtValue(k2)
  {
  }

  /** The fids one connection opened under different numbers never share a key. */
  lemma KeysSeparateFids(c: Conn, f1: U32Value, f2: U32Value, d: Conn)
    ensures CompareKeys(KeyOf(c, f1), KeyOf(d, f2)) == 0 <==> c == d && f1 == f2
  {
  }

  /**
   * HashTable_Get on the table's contents: 0 and the fid stored under the
   * key, or -1 when there is none.
   */
  function Found(m: map<Key, FidRef>, k: Key): (r: (int, Option<FidRef>))
    ensures r.0 == 0 <==> k in m
    ensures r.0 != 0 ==> r == (-1, None)
    ensures k in m ==> r.1 == Some(m[k])
  {
    if k in m then (0, Some(m[k])) else (-1, None)
  }

  /** The table ht_9pfids. */
  class FidTable {
    var contents: map<Key, FidRef>

    constructor ()
      ensures contents == map[]
    {
      contents := map[];
    }

    /**
     * _9p_hash_fid_get as written: the key is built but never attached to
     * the lookup buffer, so the table is searched with whatever key the
     * uninitialised buffer designates (garbage); -1 when that finds
     * nothing, else 0 with the fid found.
     */
    method GetAsWritten(c: Conn, fid: U32Value, garbage: Key) returns (rc: int, found: Option<FidRef>)
      ensures (rc, found) == Found(contents, garbage)
    {
      var key := KeyOf(c, fid);
      if garbage !in contents {
        return -1, None;
      }
      return 0, Some(contents[garbage]);
    }

    /**
     * _9p_hash_fid_get with the built key attached: 0 and the fid stored
     * for the connection and fid number, or -1 when there is none.
     */
    method Get(c: Conn, fid: U32Value) returns (rc: int, found: Option<FidRef>)
      ensures (rc, found) == Found(contents, KeyOf(c, fid))
    {
      var key := KeyOf(c, fid);
      if key !in contents {
        return -1, None;
      }
      return 0, Some(contents[key]);
    }

    /**
     * _9p_hash_fid_set: -1 when the key cannot be allocated
     * (keyAllocated false) or the table refuses the insertion (tableOk false); otherwise
     * 0, and the fid is stored under the connection's key, replacing any
     * fid stored there before.
     */
    method Set(c: Conn, fid: U32Value, pfid: FidRef, keyAllocated: bool, tableOk: bool) returns (rc: int)
      modifies this
      ensures !keyAllocated || !tableOk ==> rc == -1 && contents == old(contents)
      ensures keyAllocated && tableOk ==> rc == 0 && contents == old(contents)[KeyOf(c, fid) := pfid]
    {
      if !keyAllocated {
        return -1;
      }
      var key := KeyOf(c, fid);
      if !tableOk {
        return -1;
      }
      contents := contents[key := pfid];
      rc := 0;
    }

    /**
     * _9p_hash_fid_del: removes the entry of the connection's key and
     * answers 0, or -1 when the table has no such entry.
     */
    method Del(c: Conn, fid: U32Value) returns (rc: int)
      modifies this
      ensures rc == -1 <==> KeyOf(c, fid) !in old(contents)
      ensures rc != -1 ==> rc == 0
      ensures contents == old(contents) - {KeyOf(c, fid)}
    {
      var key := KeyOf(c, fid);
      if key !in contents {
        return -1;
      }
      contents := contents - {key};
      rc := 0;
    }
  }

  /**
   * Get answers what set stored and del removed: after storing a fid for a
   * connection and number it is found under them, every other key keeps
   * what it had, and after a delete the key is found no more.
   */
  lemma StoredFidIsFound(m: map<Key, FidRef>, c: Conn, fid: U32Value, pfid: FidRef, other: Key)
    requires other != KeyOf(c, fid)
    ensures Found(m[KeyOf(c, fid) := pfid], KeyOf(c, fid)) == (0, Some(pfid))
    ensures Found(m[KeyOf(c, fid) := pfid], other) == Found(m, other)
    ensures Found(m - {KeyOf(c, fid)}, KeyOf(c, fid)) == (-1, None)
    ensures Found(m - {KeyOf(c, fid)}, other) == Found(m, other)
  {
  }

  /**
   * As written, get misses a fid that is stored: with one fid stored for a
   * connection, a lookup whose buffer designates another key answers -1,
   * where the lookup with the built key finds it.
   */
  lemma GetAsWrittenMisses(c: Conn, fid: U32Value, pfid: FidRef, garbage: Key)
    requires garbage != KeyOf(c, fid)
    ensures Found(map[KeyOf(c, fid) := pfid], garbage) == (-1, None)
    ensures Found(map[KeyOf(c, fid) := pfid], KeyOf(c, fid)) == (0, Some(pfid))
  {
  }
}
