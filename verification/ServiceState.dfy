/** A service's state in three layers: the committed trie, the stash of finished transactions of
    this block, and the cache of the running one. An empty value means that the key is absent. */
module ServiceState {
  import opened Types

  type Entries = map<Bytes, Bytes>

  function Present(m: Entries): Entries {
    map k | k in m && m[k] != [] :: m[k]
  }

  /** `m` after writing `w` into it; writing an empty value deletes. */
  function Write(m: Entries, w: Entries): Entries {
    Present(m + w)
  }

  datatype Layers = Layers(trie: Entries, stash: Entries, cache: Entries) {
    /** What a reader sees: cache over stash over trie. */
    function Visible(): Entries {
      Present(trie + stash + cache)
    }
  }

  /** Writing on top of the layers shows as writing to what they show. */
  lemma WriteShows(l: Layers, w: Entries)
    ensures l.(cache := l.cache + w).Visible() == Write(l.Visible(), w)
  {
    assert l.trie + l.stash + (l.cache + w) == l.trie + l.stash + l.cache + w;
    PresentFirst(l.trie + l.stash + l.cache, w);
  }

  lemma PresentFirst(m: Entries, w: Entries)
    ensures Present(Present(m) + w) == Present(m + w)
  {
  }

  lemma PresentTwice(m: Entries, w: Entries)
    ensures Present(Write(m, w)) == Write(m, w)
  {
  }

  /** Stashing shows no difference. */
  lemma StashShows(l: Layers)
    ensures Layers(l.trie, l.stash + l.cache, map[]).Visible() == l.Visible()
  {
    assert l.trie + (l.stash + l.cache) + map[] == l.trie + l.stash + l.cache;
  }

  lemma CleanShows(l: Layers)
    requires l.cache == map[]
    ensures l.Visible() == Present(l.trie + l.stash)
  {
    assert l.trie + l.stash + map[] == l.trie + l.stash;
  }

  /** A reader sees what the topmost layer holding the key has, and nothing if that is the empty value. */
  lemma TopmostShows(l: Layers, k: Bytes)
    ensures var v := if k in l.cache then l.cache[k] else if k in l.stash then l.stash[k]
                     else if k in l.trie then l.trie[k] else [];
            if v == [] then k !in l.Visible() else k in l.Visible() && l.Visible()[k] == v
  {
  }

  lemma MoveOne(a: Entries, b: Entries, k: Bytes)
    requires k in b
    ensures a[k := b[k]] + (b - {k}) == a + b
    ensures a[k := b[k]] == a + map[k := b[k]]
  {
  }

  class GeneralServiceState {
    var trie: Entries
    var stash: Entries
    var cache: Entries

    function View(): Layers
      reads this
    {
      Layers(trie, stash, cache)
    }

    constructor (trie: Entries)
      ensures View() == Layers(trie, map[], map[])
    {
      this.trie, this.stash, this.cache := trie, map[], map[];
    }

    /** A read answers from the visible state. */
    method Get(key: Bytes) returns (r: Option<Bytes>)
      ensures r == if key in View().Visible() then Some(View().Visible()[key]) else None
    {
      if key in cache {
        return if cache[key] == [] then None else Some(cache[key]);
      }
      if key in stash {
        return if stash[key] == [] then None else Some(stash[key]);
      }
      if key in trie {
        return if trie[key] == [] then None else Some(trie[key]);
      }
      return None;
    }

    /** Writes go to the cache. */
    method Insert(key: Bytes, value: Bytes)
      modifies this
      ensures View() == old(View()).(cache := old(cache) + map[key := value])
    {
      cache := cache[key := value];
    }

    method InsertAll(w: Entries)
      modifies this
      ensures View() == old(View()).(cache := old(cache) + w)
    {
      var todo := w;
      while todo != map[]
        invariant trie == old(trie) && stash == old(stash)
        invariant cache + todo == old(cache) + w
        decreases todo.Keys
      {
        var k :| k in todo;
        MoveOne(cache, todo, k);
        Insert(k, todo[k]);
        todo := todo - {k};
      }
      assert cache + map[] == cache;
    }

    method RevertCache()
      modifies this
      ensures View() == old(View()).(cache := map[])
    {
      cache := map[];
    }

    /** Moves the cache into the stash, entry by entry. */
    method StashCache()
      modifies this
      ensures View() == Layers(old(trie), old(stash) + old(cache), map[])
    {
      while cache != map[]
        invariant trie == old(trie)
        invariant stash + cache == old(stash) + old(cache)
        decreases cache.Keys
      {
        var k :| k in cache;
        MoveOne(stash, cache, k);
        stash := stash[k := cache[k]];
        cache := cache - {k};
      }
      assert stash + map[] == stash;
    }

    /** Moves the stash into the trie, where an empty value removes the key. Readers see no
        difference. */
    method Commit()
      modifies this
      ensures stash == map[] && cache == old(cache)
      ensures Present(trie) == Present(old(trie) + old(stash))
    {
      var t, s := trie, stash;
      ghost var seen := Present(t + s);
      while s != map[]
        invariant SameShown(t, s, seen) && cache == old(cache)
        decreases s.Keys
      {
        var k :| k in s;
        CommitOne(t, s, k);
        t, s := TrieInsert(t, k, s[k]), s - {k};
      }
      assert t + map[] == t;
      trie, stash := t, map[];
    }
  }

  ghost predicate SameShown(t: Entries, s: Entries, seen: Entries) {
    Present(t + s) == seen
  }

  function TrieInsert(trie: Entries, k: Bytes, v: Bytes): Entries {
    if v == [] then trie - {k} else trie[k := v]
  }

  lemma CommitOne(trie: Entries, stash: Entries, k: Bytes)
    requires k in stash
    ensures Present(TrieInsert(trie, k, stash[k]) + (stash - {k})) == Present(trie + stash)
  {
  }
}
