/** The mempool's map: sixteen buckets that together behave like one flat map. */
module TxMap {
  import opened Types

  const BUCKETS: nat := 16

  /** The high four bits of the first byte. */
  function GetIndex(h: Hash): (i: nat)
    ensures i < BUCKETS
  {
    h[0] as nat / 16
  }

  /** Every key lies in the bucket its hash selects. */
  ghost predicate Placed<V>(bs: seq<map<Hash, V>>) {
    forall i, h | 0 <= i < |bs| && h in bs[i] :: GetIndex(h) == i
  }

  /** The flat map that a row of buckets stands for. */
  ghost function Merge<V>(bs: seq<map<Hash, V>>): map<Hash, V> {
    if bs == [] then map[] else Merge(bs[..|bs| - 1]) + bs[|bs| - 1]
  }

  /** A key is in the flat map exactly when it is in its own bucket, with the same value. */
  lemma {:induction false} MergeLookup<V>(bs: seq<map<Hash, V>>, h: Hash)
    requires Placed(bs)
    ensures h in Merge(bs) <==> GetIndex(h) < |bs| && h in bs[GetIndex(h)]
    ensures h in Merge(bs) ==> Merge(bs)[h] == bs[GetIndex(h)][h]
  {
    if bs != [] {
      MergeLookup(bs[..|bs| - 1], h);
    }
  }

  ghost function TotalLen<V>(bs: seq<map<Hash, V>>): nat {
    if bs == [] then 0 else TotalLen(bs[..|bs| - 1]) + |bs[|bs| - 1]|
  }

  lemma JoinSize<V>(a: map<Hash, V>, b: map<Hash, V>)
    requires a.Keys !! b.Keys
    ensures |a + b| == |a| + |b|
  {
    assert (a + b).Keys == a.Keys + b.Keys;
  }

  /** Buckets hold disjoint keys, so their sizes add up to the size of the flat map. */
  lemma {:induction false} MergeSize<V>(bs: seq<map<Hash, V>>)
    requires Placed(bs)
    ensures |Merge(bs)| == TotalLen(bs)
  {
    if bs != [] {
      var init, last := bs[..|bs| - 1], bs[|bs| - 1];
      MergeSize(init);
      forall h | h in Merge(init)
        ensures h !in last
      {
        MergeLookup(init, h);
      }
      JoinSize(Merge(init), last);
    }
  }

  /** Replacing one bucket changes the flat map in that bucket's keys only. */
  lemma MergeUpdate<V>(bs: seq<map<Hash, V>>, i: nat, b: map<Hash, V>, flat: map<Hash, V>)
    requires Placed(bs) && |bs| == BUCKETS && i < BUCKETS && Placed(bs[i := b])
    requires forall h: Hash :: h in flat <==> if GetIndex(h) == i then h in b else h in Merge(bs)
    requires forall h: Hash | h in flat ::
               flat[h] == if GetIndex(h) == i then b[h] else Merge(bs)[h]
    ensures Merge(bs[i := b]) == flat
  {
    forall h: Hash
      ensures h in Merge(bs[i := b]) <==> h in flat
      ensures h in flat ==> Merge(bs[i := b])[h] == flat[h]
    {
      MergeLookup(bs, h);
      MergeLookup(bs[i := b], h);
    }
  }

  function RemoveEach<V>(m: map<Hash, V>, hashes: seq<Hash>): map<Hash, V> {
    if hashes == [] then m else RemoveEach(m - {hashes[0]}, hashes[1..])
  }

  /** Removing hashes one after another is removing them all. */
  lemma {:induction false} RemoveEachIsRemoveAll<V>(m: map<Hash, V>, hashes: seq<Hash>)
    ensures RemoveEach(m, hashes) == m - set h | h in hashes
  {
    if hashes != [] {
      RemoveEachIsRemoveAll(m - {hashes[0]}, hashes[1..]);
      assert (set h | h in hashes) == {hashes[0]} + set h | h in hashes[1..];
    }
  }

  class Map<V> {
    const buckets: array<map<Hash, V>>

    ghost predicate Valid()
      reads this, buckets
    {
      buckets.Length == BUCKETS && Placed(buckets[..])
    }

    /** The contents, as one map. */
    ghost function Flat(): map<Hash, V>
      reads this, buckets
    {
      Merge(buckets[..])
    }

    constructor ()
      ensures Valid() && fresh(buckets)
      ensures Flat() == map[]
    {
      buckets := new map<Hash, V>[BUCKETS](_ => map[]);
      new;
      forall h: Hash
        ensures h !in Merge(buckets[..])
      {
        MergeLookup(buckets[..], h);
      }
    }

    /** Never overwrites: an occupied key keeps its value and the new one is handed back. */
    method Insert(hash: Hash, value: V) returns (rejected: Option<V>)
      requires Valid()
      modifies buckets
      ensures Valid()
      ensures rejected == if hash in old(Flat()) then Some(value) else None
      ensures Flat() == if hash in old(Flat()) then old(Flat()) else old(Flat())[hash := value]
    {
      var i := GetIndex(hash);
      MergeLookup(buckets[..], hash);
      if hash in buckets[i] {
        return Some(value);
      }
      ghost var was := buckets[..];
      buckets[i] := buckets[i][hash := value];
      assert buckets[..] == was[i := was[i][hash := value]];
      LookupAll(was);
      MergeUpdate(was, i, was[i][hash := value], Merge(was)[hash := value]);
      return None;
    }

    method ContainsKey(hash: Hash) returns (found: bool)
      requires Valid()
      ensures found <==> hash in Flat()
    {
      MergeLookup(buckets[..], hash);
      return hash in buckets[GetIndex(hash)];
    }

    method Get(hash: Hash) returns (r: Option<V>)
      requires Valid()
      ensures r == if hash in Flat() then Some(Flat()[hash]) else None
    {
      MergeLookup(buckets[..], hash);
      var b := buckets[GetIndex(hash)];
      return if hash in b then Some(b[hash]) else None;
    }

    method Remove(hash: Hash)
      requires Valid()
      modifies buckets
      ensures Valid()
      ensures Flat() == old(Flat()) - {hash}
    {
      RemoveFromBucket(GetIndex(hash), [hash]);
      assert (set h | h in [hash]) == {hash};
    }

    /** One bucket drops its hashes one after another, under its own lock. */
    method RemoveFromBucket(i: nat, hashes: seq<Hash>)
      requires Valid() && i < BUCKETS
      requires forall h | h in hashes :: GetIndex(h) == i
      modifies buckets
      ensures Valid()
      ensures Flat() == old(Flat()) - set h | h in hashes
    {
      ghost var was := buckets[..];
      var store := buckets[i];
      for k := 0 to |hashes|
        invariant RemoveEach(store, hashes[k..]) == RemoveEach(was[i], hashes)
        invariant buckets[..] == was
      {
        assert hashes[k..][1..] == hashes[k + 1..];
        store := store - {hashes[k]};
      }
      RemoveEachIsRemoveAll(was[i], hashes);
      buckets[i] := store;
      assert buckets[..] == was[i := store];
      LookupAll(was);
      MergeUpdate(was, i, store, Merge(was) - set h | h in hashes);
    }

    /** Hashes are grouped by bucket, and the groups are removed in any order. */
    method RemoveBatch(hashes: seq<Hash>)
      requires Valid()
      modifies buckets
      ensures Valid()
      ensures Flat() == old(Flat()) - set h | h in hashes
    {
      var groups := Group(hashes);
      ghost var gone: set<Hash> := {};
      var todo := groups.Keys;
      while todo != {}
        invariant Valid()
        invariant todo <= groups.Keys
        invariant forall h :: h in gone <==> h in hashes && GetIndex(h) !in todo
        invariant Flat() == old(Flat()) - gone
      {
        var i :| i in todo;
        RemoveFromBucket(i, groups[i]);
        gone := gone + set h | h in groups[i];
        todo := todo - {i};
      }
      assert gone == set h | h in hashes;
    }

    method Len() returns (n: nat)
      requires Valid()
      ensures n == |Flat()|
    {
      n := 0;
      for i := 0 to BUCKETS
        invariant n == TotalLen(buckets[..i])
      {
        assert buckets[..i + 1][..i] == buckets[..i];
        n := n + |buckets[i]|;
      }
      assert buckets[..BUCKETS] == buckets[..];
      MergeSize(buckets[..]);
    }

    method Clear()
      requires Valid()
      modifies buckets
      ensures Valid()
      ensures Flat() == map[]
    {
      for i := 0 to BUCKETS
        invariant forall j | 0 <= j < i :: buckets[j] == map[]
        invariant Valid()
      {
        buckets[i] := map[];
      }
      forall h: Hash
        ensures h !in Merge(buckets[..])
      {
        MergeLookup(buckets[..], h);
      }
    }
  }

  /** `groups` lists, for each bucket, exactly the hashes that belong to it. */
  ghost predicate Grouped(groups: map<nat, seq<Hash>>, hashes: seq<Hash>) {
    && (forall i, h | i in groups && h in groups[i] :: i < BUCKETS && GetIndex(h) == i && h in hashes)
    && (forall i | i in groups :: i < BUCKETS)
    && (forall h | h in hashes :: GetIndex(h) in groups && h in groups[GetIndex(h)])
  }

  /** Sorts hashes into the groups of their buckets. */
  method Group(hashes: seq<Hash>) returns (groups: map<nat, seq<Hash>>)
    ensures Grouped(groups, hashes)
  {
    groups := map[];
    for k := 0 to |hashes|
      invariant Grouped(groups, hashes[..k])
    {
      var i := GetIndex(hashes[k]);
      groups := groups[i := (if i in groups then groups[i] else []) + [hashes[k]]];
      assert hashes[..k + 1] == hashes[..k] + [hashes[k]];
    }
    assert hashes[..|hashes|] == hashes;
  }

  lemma LookupAll<V>(bs: seq<map<Hash, V>>)
    requires Placed(bs)
    ensures forall h: Hash :: h in Merge(bs) <==> GetIndex(h) < |bs| && h in bs[GetIndex(h)]
    ensures forall h: Hash | h in Merge(bs) :: Merge(bs)[h] == bs[GetIndex(h)][h]
  {
    forall h: Hash
      ensures h in Merge(bs) <==> GetIndex(h) < |bs| && h in bs[GetIndex(h)]
      ensures h in Merge(bs) ==> Merge(bs)[h] == bs[GetIndex(h)][h]
    {
      MergeLookup(bs, h);
    }
  }
}
