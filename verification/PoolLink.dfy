/** The queue and map of `TxCache` and the pool of `PoolRuns` are one thing: flushing and packaging do
    the same to both. */
module PoolLink {
  import opened Types
  import C = TxCache
  import opened PoolRuns

  function EntryOf(w: C.TxWrapper): Entry {
    Entry(w.hash, w.timeout, w.proposed)
  }

  function Entries(q: seq<C.TxWrapper>): (es: seq<Entry>)
    ensures |es| == |q|
  {
    seq(|q|, i requires 0 <= i < |q| => EntryOf(q[i]))
  }

  lemma EntriesAppend(q: seq<C.TxWrapper>, w: C.TxWrapper)
    ensures Entries(q + [w]) == Entries(q) + [EntryOf(w)]
  {
  }

  /** The live entries are those a flush keeps. */
  lemma {:induction false} LiveIsKept(
      q: seq<C.TxWrapper>, k: nat, removed: set<C.TxWrapper>, hashes: seq<Hash>, height: nat, limit: nat)
    requires k <= |q| && forall w | w in q :: w in removed <==> w.hash in hashes
    ensures Entries(C.Live(q, k, removed, height, limit)) == Kept(Entries(q)[..k], hashes, height, limit)
  {
    if k > 0 {
      LiveIsKept(q, k - 1, removed, hashes, height, limit);
      EntriesAppend(C.Live(q, k - 1, removed, height, limit), q[k - 1]);
      assert Entries(q)[..k][..k - 1] == Entries(q)[..k - 1];
      assert q[k - 1] in q;
    }
  }

  /** The hashes a flush deletes are the given ones and those of entries that timed out. */
  lemma {:induction false} GoneIsDeleted(
      q: seq<C.TxWrapper>, k: nat, removed: set<C.TxWrapper>, hashes: seq<Hash>, height: nat, limit: nat, h: Hash)
    requires k <= |q| && forall w | w in q :: w in removed <==> w.hash in hashes
    ensures h in hashes || h in C.Hashes(C.TimedOut(q, k, removed, height, limit)) <==>
            h in hashes || h in Late(Entries(q)[..k], height, limit)
  {
    if k > 0 {
      GoneIsDeleted(q, k - 1, removed, hashes, height, limit, h);
      var w, late := q[k - 1], C.TimedOut(q, k - 1, removed, height, limit);
      assert Entries(q)[..k][..k - 1] == Entries(q)[..k - 1];
      assert w in q;
      assert C.Hashes(late + [w]) == C.Hashes(late) + [w.hash];
    }
  }

  /** What `TxCache.Flush` leaves, with the other queue empty, is what a flush step leaves: the new queue
      and the keys of the map. With no hashes given it is also what `TxCache.Package` leaves. */
  lemma FlushIsFlushStep(
      flat: map<Hash, C.TxWrapper>, q: seq<C.TxWrapper>, hashes: seq<Hash>, height: nat, limit: nat, s: Pool)
    requires |q| <= s.capacity && s.Incumbent() == Entries(q) && s.Retired() == [] && s.keys == flat.Keys
    ensures var removed := set w | w in q && w.hash in hashes;
            var live := C.Live(q, |q|, removed, height, limit);
            var late := C.TimedOut(q, |q|, removed, height, limit);
            var after := C.Without(C.Without(flat - (set h | h in hashes), C.Refused([], live, s.capacity)), late);
            var t := FlushStep(s, hashes, height, limit);
            && t.Incumbent() == Entries(C.Admitted([], live, s.capacity)) && t.Retired() == []
            && t.keys == after.Keys
  {
    var removed := set w | w in q && w.hash in hashes;
    var live := C.Live(q, |q|, removed, height, limit);
    var late := C.TimedOut(q, |q|, removed, height, limit);
    LiveIsKept(q, |q|, removed, hashes, height, limit);
    assert Entries(q)[..|q|] == Entries(q);
    KeptFits(Entries(q), hashes, height, limit);
    assert C.Admitted([], live, s.capacity) == live && C.Refused([], live, s.capacity) == [];
    var left := flat - set h | h in hashes;
    C.WithoutLoses(left, late);
    forall h
      ensures h in (left - set x | x in C.Hashes(late)).Keys <==> h in s.keys - Gone(Entries(q), hashes, height, limit)
    {
      GoneIsDeleted(q, |q|, removed, hashes, height, limit, h);
    }
  }
}
