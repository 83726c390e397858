/*
 * The pending-entry list every queue of the pipeline is built on (the
 * dispatcher list, the synclet lists, the precreated-object lists).
 * An entry is never unlinked when it is consumed: it is marked invalid, and a
 * later garbage collection drops the invalid entries.  The live count the code
 * reads is nb_entry - nb_invalid, here Occupancy.
 *
 * Lists are values; the classes that own one reassign it.
 */
module PendingLists {

  datatype Slot<T> = Slot(payload: T, valid: bool)

  /** What LRU_new_entry answers: an entry, or none with the list status. */
  datatype Alloc = Granted | Refused(lruStatus: int)

  /** nb_entry - nb_invalid */
  function Occupancy<T>(s: seq<Slot<T>>): nat
  {
    if s == [] then 0
    else Occupancy(s[..|s| - 1]) + (if s[|s| - 1].valid then 1 else 0)
  }

  /** The payloads of the valid entries, in list order. */
  function Payloads<T>(s: seq<Slot<T>>): seq<T>
  {
    if s == [] then []
    else Payloads(s[..|s| - 1]) + (if s[|s| - 1].valid then [s[|s| - 1].payload] else [])
  }

  /** LRU_new_entry followed by storing the payload and marking it valid. */
  function Appended<T>(s: seq<Slot<T>>, x: T): seq<Slot<T>>
  {
    s + [Slot(x, true)]
  }

  /** A run of LRU_new_entry calls, one valid entry per payload, in order. */
  function Fresh<T>(xs: seq<T>): (r: seq<Slot<T>>)
    ensures |r| == |xs|
  {
    seq(|xs|, i requires 0 <= i < |xs| => Slot(xs[i], true))
  }

  /** LRU_invalidate of entry i. */
  function Invalidated<T>(s: seq<Slot<T>>, i: nat): seq<Slot<T>>
    requires i < |s|
  {
    s[i := s[i].(valid := false)]
  }

  /** LRU_gc_invalid: drop the invalid entries, keep the order of the rest. */
  function Compacted<T>(s: seq<Slot<T>>): seq<Slot<T>>
  {
    if s == [] then []
    else Compacted(s[..|s| - 1]) + (if s[|s| - 1].valid then [s[|s| - 1]] else [])
  }

  predicate AllValid<T>(s: seq<Slot<T>>) {
    forall i :: 0 <= i < |s| ==> s[i].valid
  }

  /** The live count is the number of live payloads, and never exceeds the list length. */
  lemma {:induction false} OccupancyCountsPayloads<T>(s: seq<Slot<T>>)
    ensures Occupancy(s) == |Payloads(s)| <= |s|
  {
    if s != [] {
      OccupancyCountsPayloads(s[..|s| - 1]);
    }
  }

  /** A new entry adds one to the live count and its payload at the end. */
  lemma AppendedAdds<T>(s: seq<Slot<T>>, x: T)
    ensures Occupancy(Appended(s, x)) == Occupancy(s) + 1
    ensures Payloads(Appended(s, x)) == Payloads(s) + [x]
  {
    assert Appended(s, x)[..|s|] == s;
  }

  /** Invalidating a live entry removes exactly one from the live count. */
  lemma {:induction false} InvalidatedDrops<T>(s: seq<Slot<T>>, i: nat)
    requires i < |s|
    ensures Occupancy(Invalidated(s, i)) == Occupancy(s) - (if s[i].valid then 1 else 0)
    decreases |s|
  {
    var t := Invalidated(s, i);
    var n := |s| - 1;
    if i == n {
      assert t[..n] == s[..n];
    } else {
      assert t[..n] == Invalidated(s[..n], i);
      InvalidatedDrops(s[..n], i);
    }
  }

  /** Invalidating an entry that is already invalid changes nothing. */
  lemma InvalidatedIdle<T>(s: seq<Slot<T>>, i: nat)
    requires i < |s| && !s[i].valid
    ensures Invalidated(s, i) == s
  {
  }

  /** Invalidating the first live entry removes the first live payload. */
  lemma {:induction false} InvalidatedFirst<T>(s: seq<Slot<T>>, i: nat)
    requires i < |s| && s[i].valid
    requires forall j :: 0 <= j < i ==> !s[j].valid
    ensures Payloads(s) != [] && Payloads(s)[0] == s[i].payload
    ensures Payloads(Invalidated(s, i)) == Payloads(s)[1..]
    decreases |s|
  {
    var n := |s| - 1;
    var t := Invalidated(s, i);
    if i == n {
      NoneLive(s[..n]);
      assert t[..n] == s[..n];
    } else {
      assert t[..n] == Invalidated(s[..n], i);
      InvalidatedFirst(s[..n], i);
    }
  }

  /** A list without live entries has no live payloads. */
  lemma {:induction false} NoneLive<T>(s: seq<Slot<T>>)
    requires forall j :: 0 <= j < |s| ==> !s[j].valid
    ensures Payloads(s) == [] && Occupancy(s) == 0
  {
    if s != [] {
      NoneLive(s[..|s| - 1]);
    }
  }

  /** A list is empty of live entries exactly when no slot is valid. */
  lemma {:induction false} EmptyIffNoneValid<T>(s: seq<Slot<T>>)
    ensures Occupancy(s) == 0 <==> forall j :: 0 <= j < |s| ==> !s[j].valid
  {
    if s != [] {
      EmptyIffNoneValid(s[..|s| - 1]);
      var n := |s| - 1;
      if Occupancy(s) == 0 {
        forall j | 0 <= j < |s| ensures !s[j].valid {
          if j < n { assert s[j] == s[..n][j]; }
        }
      }
    }
  }

  /**
   * Garbage collection keeps exactly the live entries: the live payloads
   * and the live count are unchanged, and every remaining entry is valid.
   */
  lemma {:induction false} CompactedKeepsLive<T>(s: seq<Slot<T>>)
    ensures AllValid(Compacted(s))
    ensures Payloads(Compacted(s)) == Payloads(s)
    ensures |Compacted(s)| == Occupancy(s) == Occupancy(Compacted(s))
  {
    if s != [] {
      var n := |s| - 1;
      CompactedKeepsLive(s[..n]);
      var c := Compacted(s[..n]);
      if s[n].valid {
        assert Compacted(s) == c + [s[n]];
        assert (c + [s[n]])[..|c|] == c;
      } else {
        assert Compacted(s) == c;
      }
    }
  }

  /** Garbage collection of a list that holds only live entries is the identity. */
  lemma {:induction false} CompactedAllValid<T>(s: seq<Slot<T>>)
    requires AllValid(s)
    ensures Compacted(s) == s
  {
    if s != [] {
      var n := |s| - 1;
      CompactedAllValid(s[..n]);
      assert s == s[..n] + [s[n]];
    }
  }

  /** Collecting twice is collecting once. */
  lemma CompactedIdempotent<T>(s: seq<Slot<T>>)
    ensures Compacted(Compacted(s)) == Compacted(s)
  {
    CompactedKeepsLive(s);
    CompactedAllValid(Compacted(s));
  }

  /** Appending fresh entries adds their number to the live count and their payloads at the end. */
  lemma {:induction false} FreshAdds<T>(s: seq<Slot<T>>, xs: seq<T>)
    ensures Occupancy(s + Fresh(xs)) == Occupancy(s) + |xs|
    ensures Payloads(s + Fresh(xs)) == Payloads(s) + xs
  {
    if xs == [] {
      assert s + Fresh(xs) == s;
    } else {
      var n := |xs| - 1;
      FreshAdds(s, xs[..n]);
      var t := s + Fresh(xs);
      assert t[..|t| - 1] == s + Fresh(xs[..n]);
      assert t[|t| - 1] == Slot(xs[n], true);
      assert xs[..n] + [xs[n]] == xs;
    }
  }
}
