/** The store map as services hold it: an object over their state that fills its buckets as it goes. */
module DefaultStoreMap {
  import opened Types
  import opened ServiceState
  import opened StoreMap

  class DefaultStoreMap {
    const layout: Layout
    const state: GeneralServiceState
    var keys: Buckets
    var recovered: Flags
    var len: nat

    function Mem(): Memory
      reads this
    {
      Memory(keys, recovered, len)
    }

    function Visible(): Entries
      reads state
    {
      state.View().Visible()
    }

    constructor (layout: Layout, state: GeneralServiceState)
      ensures this.layout == layout && this.state == state
      ensures Mem() == Build(layout, Visible())
    {
      this.layout, this.state := layout, state;
      var stored := state.Get(layout.lenName);
      keys, recovered := seq(16, _ => []), seq(16, _ => false);
      len := if stored.Some? then layout.decodeLen(stored.value) else 0;
    }

    /** Reads a bucket from the state, unless it was read before. */
    method RecoverBucket(i: nat)
      requires i < BUCKETS
      modifies this`keys, this`recovered
      ensures Mem() == Recover(layout, old(Mem()), Visible(), i)
    {
      if !recovered[i] {
        var stored := state.Get(layout.bucketName(i));
        keys := keys[i := if stored.Some? then layout.decodeKeys(stored.value) else []];
        recovered := recovered[i := true];
      }
    }

    method ContainsKey(k: Key) returns (known: bool)
      modifies this`keys, this`recovered
      ensures Outcome(Bool(known), map[], Mem()) == Do(layout, old(Mem()), Visible(), Contains(k))
    {
      RecoverBucket(Index(k));
      known := k in keys[Index(k)];
    }

    method GetValue(k: Key) returns (v: Option<Bytes>)
      modifies this`keys, this`recovered
      ensures Outcome(Value(v), map[], Mem()) == Do(layout, old(Mem()), Visible(), Get(k))
    {
      var known := ContainsKey(k);
      if !known {
        return None;
      }
      v := state.Get(layout.valueName(k));
    }

    /** A new key goes to the end of its bucket; the bucket, the length and the value are written. */
    method InsertValue(k: Key, v: Bytes)
      modifies this, state
      ensures var o := Do(layout, old(Mem()), old(Visible()), Insert(k, v));
              && Mem() == o.mem
              && state.View() == old(state.View()).(cache := old(state.cache) + o.writes)
    {
      var i := Index(k);
      var known := ContainsKey(k);
      if known {
        state.Insert(layout.valueName(k), v);
        return;
      }
      keys, len := keys[i := keys[i] + [k]], len + 1;
      WriteThree(layout.bucketName(i), layout.encodeKeys(keys[i]), layout.lenName, layout.encodeLen(len),
                 layout.valueName(k), v);
    }

    /** The first match leaves the bucket; a known key without a value is a panic. */
    method RemoveValue(k: Key) returns (answer: Answer)
      modifies this, state
      ensures var o := Do(layout, old(Mem()), old(Visible()), Remove(k));
              && answer == o.answer
              && (answer != Panic ==> Mem() == o.mem)
              && (answer != Panic ==> state.View() == old(state.View()).(cache := old(state.cache) + o.writes))
    {
      var i := Index(k);
      var known := ContainsKey(k);
      if !known {
        assert state.cache + map[] == state.cache;
        return Value(None);
      }
      var v := state.Get(layout.valueName(k));
      if v.None? || len == 0 {
        return Panic;
      }
      CutOut(k);
      return Value(v);
    }

    method CutOut(k: Key)
      requires len > 0
      modifies this, state
      ensures var o := Removed(layout, old(Mem()), k, None);
              Mem() == o.mem && state.View() == old(state.View()).(cache := old(state.cache) + o.writes)
    {
      var i := Index(k);
      var ks := RemoveItem(keys[i], k);
      keys, len := keys[i := ks], len - 1;
      WriteThree(layout.bucketName(i), layout.encodeKeys(ks), layout.valueName(k), [],
                 layout.lenName, layout.encodeLen(len));
    }

    method WriteThree(a: Bytes, x: Bytes, b: Bytes, y: Bytes, c: Bytes, z: Bytes)
      modifies state
      ensures state.View() == old(state.View()).(cache := old(state.cache) + map[a := x, b := y, c := z])
    {
      ghost var cache := state.cache;
      state.Insert(a, x);
      state.Insert(b, y);
      state.Insert(c, z);
      WriteJoined(cache, map[a := x], b, y);
      WriteJoined(cache, map[a := x, b := y], c, z);
    }
  }

  lemma WriteJoined(m: Entries, w: Entries, a: Bytes, x: Bytes)
    ensures m + w + map[a := x] == m + w[a := x]
  {
  }

  /** Searches the list for the key and cuts it out. */
  method RemoveItem(ks: seq<Bytes>, k: Bytes) returns (r: seq<Bytes>)
    ensures r == RemoveFirst(ks, k)
  {
    var i := 0;
    while i < |ks| && ks[i] != k
      invariant i <= |ks| && RemoveFirst(ks, k) == ks[..i] + RemoveFirst(ks[i..], k)
    {
      assert ks[i..][1..] == ks[i + 1..];
      assert ks[..i] + ([ks[i]] + RemoveFirst(ks[i + 1..], k)) == ks[..i + 1] + RemoveFirst(ks[i + 1..], k);
      i := i + 1;
    }
    if i == |ks| {
      assert ks[..i] + [] == ks;
      return ks;
    }
    assert ks[i..][1..] == ks[i + 1..];
    return ks[..i] + ks[i + 1..];
  }
}
