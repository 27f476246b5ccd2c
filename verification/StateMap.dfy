/** The layered states of all services, stashed, reverted and committed together. */
module StateMap {
  import opened Types
  import opened ServiceState

  type World = map<string, Entries>
  type Store = map<string, Layers>

  /** What each service sees. */
  function Shown(st: Store): World {
    map n | n in st :: st[n].Visible()
  }

  /** Nothing is cached. */
  ghost predicate Clean(st: Store) {
    forall n | n in st :: st[n].cache == map[]
  }

  function Stashed(st: Store): Store {
    map n | n in st :: Layers(st[n].trie, st[n].stash + st[n].cache, map[])
  }

  function Reverted(st: Store): Store {
    map n | n in st :: st[n].(cache := map[])
  }

  function Written(st: Store, ws: World): Store {
    map n | n in st :: if n in ws then st[n].(cache := st[n].cache + ws[n]) else st[n]
  }

  function WriteWorld(w: World, ws: World): World {
    map n | n in w :: if n in ws then Write(w[n], ws[n]) else w[n]
  }

  lemma StashedShows(st: Store)
    ensures Shown(Stashed(st)) == Shown(st)
  {
    forall n | n in st
      ensures Stashed(st)[n].Visible() == st[n].Visible()
    {
      StashShows(st[n]);
    }
  }

  lemma WrittenShows(st: Store, ws: World)
    ensures Shown(Written(st, ws)) == WriteWorld(Shown(st), ws)
  {
    forall n | n in st && n in ws
      ensures Written(st, ws)[n].Visible() == Write(st[n].Visible(), ws[n])
    {
      WriteShows(st[n], ws[n]);
    }
  }

  /** A write shows where it was made and nowhere else; writing the empty value deletes. */
  lemma WriteWorldAt(w: World, ws: World, n: string, k: Bytes)
    requires n in w && (k in w[n] ==> w[n][k] != [])
    ensures n in WriteWorld(w, ws)
    ensures var after := WriteWorld(w, ws)[n];
            if n in ws && k in ws[n] then
              if ws[n][k] == [] then k !in after else k in after && after[k] == ws[n][k]
            else (k in after <==> k in w[n]) && (k in w[n] ==> after[k] == w[n][k])
  {
  }

  /** Reverting undoes whatever was written since the cache was empty. */
  lemma RevertUndoes(st: Store, ws: World)
    requires Clean(st)
    ensures Reverted(Written(st, ws)) == st
    ensures Reverted(st) == st
  {
  }

  class ServiceStateMap {
    const states: map<string, GeneralServiceState>

    ghost predicate Valid() {
      forall a, b | a in states && b in states && a != b :: states[a] != states[b]
    }

    function Layered(): Store
      reads states.Values
    {
      map n | n in states :: states[n].View()
    }

    constructor (states: map<string, GeneralServiceState>)
      requires forall a, b | a in states && b in states && a != b :: states[a] != states[b]
      ensures Valid() && this.states == states
    {
      this.states := states;
    }

    method Stash()
      requires Valid()
      modifies states.Values
      ensures Layered() == Stashed(old(Layered()))
    {
      var todo := states.Keys;
      while todo != {}
        invariant todo <= states.Keys
        invariant forall n | n in states ::
                    if n in todo then states[n].View() == old(states[n].View())
                    else states[n].View() == Stashed(old(Layered()))[n]
      {
        var n :| n in todo;
        states[n].StashCache();
        todo := todo - {n};
      }
    }

    method RevertCache()
      requires Valid()
      modifies states.Values
      ensures Layered() == Reverted(old(Layered()))
    {
      var todo := states.Keys;
      while todo != {}
        invariant todo <= states.Keys
        invariant forall n | n in states ::
                    if n in todo then states[n].View() == old(states[n].View())
                    else states[n].View() == Reverted(old(Layered()))[n]
      {
        var n :| n in todo;
        states[n].RevertCache();
        todo := todo - {n};
      }
    }

    /** The writes a service makes, in its own state and in those of services it calls. */
    method WriteAll(ws: World)
      requires Valid()
      modifies states.Values
      ensures Layered() == Written(old(Layered()), ws)
    {
      var todo := states.Keys;
      while todo != {}
        invariant todo <= states.Keys
        invariant forall n | n in states ::
                    if n in todo then states[n].View() == old(states[n].View())
                    else states[n].View() == Written(old(Layered()), ws)[n]
      {
        var n :| n in todo;
        if n in ws {
          states[n].InsertAll(ws[n]);
        }
        todo := todo - {n};
      }
    }

    /** Persists every stash; what services see stays the same and is now in the tries. */
    method Commit()
      requires Valid() && Clean(Layered())
      modifies states.Values
      ensures forall n | n in states ::
                && states[n].stash == map[] && states[n].cache == map[]
                && Present(states[n].trie) == old(Shown(Layered()))[n]
    {
      var todo := states.Keys;
      while todo != {}
        invariant todo <= states.Keys
        invariant forall n | n in todo :: states[n].View() == old(states[n].View())
        invariant forall n | n in states && n !in todo ::
                    && states[n].stash == map[] && states[n].cache == map[]
                    && Present(states[n].trie) == old(Shown(Layered()))[n]
      {
        var n :| n in todo;
        assert old(Layered())[n] == old(states[n].View());
        CleanShows(old(Layered())[n]);
        states[n].Commit();
        todo := todo - {n};
      }
    }
  }
}
