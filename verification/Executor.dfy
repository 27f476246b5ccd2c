/** The service executor: hooks, calls and blocks run over the layered states, with caches that are
    stashed or reverted, an event list that is truncated, a shared cycle counter, and services whose
    own memory nothing reverts. Every method is proved to do what the plain fold of `BlockSpec` says. */
module Executor {
  import opened Types
  import opened ServiceState
  import opened StateMap
  import opened BlockSpec

  /** What hooks and calls of one transaction share. */
  class ServiceContext {
    const tx: Tx
    var used: nat
    var events: seq<Event>
    var canceled: bool

    constructor (tx: Tx)
      ensures this.tx == tx && used == 0 && events == [] && !canceled
    {
      this.tx, used, events, canceled := tx, 0, [], false;
    }

    function View<M>(world: World, mem: M): TxState<M>
      reads this
    {
      TxState(world, used, events, canceled, mem)
    }

    method SubCycles(cycles: nat) returns (ok: bool)
      modifies this`used
      ensures ok == (old(used) + cycles <= tx.cyclesLimit)
      ensures used == if ok then old(used) + cycles else old(used)
    {
      if used + cycles <= tx.cyclesLimit {
        used := used + cycles;
        return true;
      }
      return false;
    }

    method ChargeAll(charges: seq<nat>)
      modifies this`used
      ensures used == Charge(old(used), tx.cyclesLimit, charges)
    {
      for i := 0 to |charges|
        invariant used == Charge(old(used), tx.cyclesLimit, charges[..i])
      {
        var ok := SubCycles(charges[i]);
        assert charges[..i + 1][..i] == charges[..i];
      }
      assert charges[..|charges|] == charges;
    }

    method EmitAll(es: seq<Event>)
      modifies this`events
      ensures events == old(events) + es
    {
      events := events + es;
    }

    method Absorb<M>(e: Effect<M>)
      modifies this`used, this`events
      ensures used == Charge(old(used), tx.cyclesLimit, e.charges)
      ensures events == old(events) + e.events
    {
      ChargeAll(e.charges);
      EmitAll(e.events);
    }

    method TruncateEvents(n: nat)
      modifies this`events
      ensures events == Truncate(old(events), n)
    {
      events := if n <= |events| then events[..n] else events;
    }

    method Cancel()
      modifies this`canceled
      ensures canceled
    {
      canceled := true;
    }
  }

  /** The committed part of each state. */
  ghost function Tries(st: Store): World {
    map n | n in st :: st[n].trie
  }

  /** Between the steps of a block: nothing cached, tries untouched, `world` visible. */
  ghost predicate At(st: Store, tries: World, world: World) {
    Clean(st) && Tries(st) == tries && Shown(st) == world
  }

  lemma WrittenTries(st: Store, ws: World)
    ensures Tries(Written(st, ws)) == Tries(st)
  {
  }

  lemma StashedTries(st: Store)
    ensures Tries(Stashed(st)) == Tries(st) && Clean(Stashed(st))
  {
  }

  lemma RevertedTries(st: Store)
    ensures Tries(Reverted(st)) == Tries(st) && Clean(Reverted(st))
  {
  }

  lemma WrittenNothing<M>(st: Store, s: TxState<M>)
    ensures Written(st, map[]) == st
    ensures WriteWorld(s.world, map[]) == s.world && s.events + [] == s.events
  {
  }

  lemma KeptAt(st: Store, ws: World)
    ensures At(Stashed(Written(st, ws)), Tries(st), WriteWorld(Shown(st), ws))
  {
    WrittenShows(st, ws);
    WrittenTries(st, ws);
    StashedShows(Written(st, ws));
    StashedTries(Written(st, ws));
  }

  lemma StashedAt(st: Store)
    ensures At(Stashed(st), Tries(st), Shown(st))
  {
    StashedShows(st);
    StashedTries(st);
  }

  /** Services are built once, on the states the executor starts from. */
  class ServiceExecutor<M> {
    const services: Services<M>
    const states: ServiceStateMap
    var mem: M

    constructor (services: Services<M>, states: ServiceStateMap)
      ensures this.services == services && this.states == states
      ensures mem == services.build(Shown(states.Layered()))
    {
      this.services, this.states := services, states;
      mem := services.build(Shown(states.Layered()));
    }

    /** The running transaction as its services see it, with nothing committed since `tries`. */
    ghost predicate Running(ctx: ServiceContext, tries: World, s: TxState<M>)
      reads this, ctx, states.states.Values
    {
      && states.Valid()
      && Tries(states.Layered()) == tries
      && ctx.View(Shown(states.Layered()), mem) == s
    }

    /** What a service does through its SDK and context while it runs. */
    method Perform(ctx: ServiceContext, e: Effect<M>, ghost tries: World, ghost s: TxState<M>)
      requires Running(ctx, tries, s)
      modifies states.states.Values, ctx, `mem
      ensures states.Layered() == Written(old(states.Layered()), e.writes)
      ensures Running(ctx, tries, Apply(s, ctx.tx.cyclesLimit, e))
    {
      ghost var before := states.Layered();
      Note(ctx, e);
      assert states.Layered() == before;
      WriteSeen(e.writes);
    }

    method WriteSeen(ws: World)
      requires states.Valid()
      modifies states.states.Values
      ensures states.Layered() == Written(old(states.Layered()), ws)
      ensures Tries(states.Layered()) == Tries(old(states.Layered()))
      ensures Shown(states.Layered()) == WriteWorld(Shown(old(states.Layered())), ws)
    {
      WrittenShows(states.Layered(), ws);
      WrittenTries(states.Layered(), ws);
      states.WriteAll(ws);
    }

    /** What the effect does besides writing. */
    method Note(ctx: ServiceContext, e: Effect<M>)
      modifies ctx`used, ctx`events, `mem
      ensures ctx.used == Charge(old(ctx.used), ctx.tx.cyclesLimit, e.charges)
      ensures ctx.events == old(ctx.events) + e.events && mem == e.mem
    {
      ctx.Absorb(e);
      Remember(e.mem);
    }

    method Stash(ctx: ServiceContext, ghost tries: World, ghost s: TxState<M>)
      requires Running(ctx, tries, s)
      modifies states.states.Values
      ensures Running(ctx, tries, s) && Clean(states.Layered())
    {
      StashedAt(states.Layered());
      states.Stash();
    }

    /** One transaction hook: stashed unless it panics, whatever it answers. */
    method Kan(phase: Phase, name: string, ctx: ServiceContext, ghost tries: World, ghost s: TxState<M>)
      returns (r: Option<nat>)
      requires Running(ctx, tries, s)
      modifies states.states.Values, ctx, `mem
      ensures Tries(states.Layered()) == tries
      ensures var e := services.txHook(phase, name, ctx.tx, s);
              && r == (if e.panics then None else Some(e.code))
              && (r.Some? ==> Running(ctx, tries, Apply(s, ctx.tx.cyclesLimit, e)) && Clean(states.Layered()))
    {
      var e := services.txHook(phase, name, ctx.tx, ctx.View(Shown(states.Layered()), mem));
      Perform(ctx, e, tries, s);
      if e.panics {
        RevertedTries(states.Layered());
        states.RevertCache();
        return None;
      }
      Stash(ctx, tries, Apply(s, ctx.tx.cyclesLimit, e));
      return Some(e.code);
    }

    /** All transaction hooks of one phase; the answer tells whether any returned an error. */
    method TxHooks(phase: Phase, ctx: ServiceContext, ghost tries: World, ghost s: TxState<M>) returns (r: Option<bool>)
      requires Running(ctx, tries, s)
      modifies states.states.Values, ctx, `mem
      ensures Tries(states.Layered()) == tries
      ensures var spec := Hooks(services, phase, |services.names|, ctx.tx, s);
              && r.None? == spec.None?
              && (r.Some? ==> Running(ctx, tries, spec.value.0) && r.value == spec.value.1)
      ensures r == Some(true) ==> Clean(states.Layered())
    {
      var objected := false;
      for i := 0 to |services.names|
        invariant Hooks(services, phase, i, ctx.tx, s).Some?
        invariant Running(ctx, tries, Hooks(services, phase, i, ctx.tx, s).value.0)
        invariant objected == Hooks(services, phase, i, ctx.tx, s).value.1
        invariant objected ==> Clean(states.Layered())
      {
        var code := Kan(phase, services.names[i], ctx, tries, Hooks(services, phase, i, ctx.tx, s).value.0);
        if code.None? {
          HooksFailOnce(services, phase, i + 1, |services.names|, ctx.tx, s);
          return None;
        }
        objected := objected || code.value != 0;
      }
      return Some(objected);
    }

    /** The call, or an error code in its place; a panic reverts what it cached. */
    method Invoke(ctx: ServiceContext, skip: bool, ghost tries: World, ghost s: TxState<M>) returns (r: Option<nat>)
      requires Running(ctx, tries, s)
      modifies states.states.Values, ctx, `mem
      ensures Tries(states.Layered()) == tries
      ensures var e := CallEffect(services, ctx.tx, s, skip);
              && r == (if e.panics then None else Some(e.code))
              && (r.Some? ==> states.Layered() == Written(old(states.Layered()), e.writes))
              && (r.Some? ==> Running(ctx, tries, Apply(s, ctx.tx.cyclesLimit, e)))
    {
      if skip || ctx.tx.service !in services.names {
        WrittenNothing(states.Layered(), s);
        return Some(if skip then SKIP_TX_RUN else SERVICE_NOT_FOUND);
      }
      var e := services.call(ctx.tx, ctx.View(Shown(states.Layered()), mem));
      Perform(ctx, e, tries, s);
      if e.panics {
        RevertedTries(states.Layered());
        states.RevertCache();
        return None;
      }
      return Some(e.code);
    }

    /** The call and, when it answers with an error, its undoing. */
    method Call(ctx: ServiceContext, skip: bool, ghost tries: World, ghost s: TxState<M>) returns (r: Option<nat>)
      requires Running(ctx, tries, s) && Clean(states.Layered())
      modifies states.states.Values, ctx, `mem
      ensures Tries(states.Layered()) == tries
      ensures var spec := BlockSpec.Call(services, ctx.tx, s, skip);
              && r.None? == spec.None?
              && (r.Some? ==> Running(ctx, tries, spec.value.0) && r.value == spec.value.1)
    {
      var eventIndex := |ctx.events|;
      ghost var base := states.Layered();
      ghost var e := CallEffect(services, ctx.tx, s, skip);
      r := Invoke(ctx, skip, tries, s);
      if r.Some? && r.value != 0 {
        Undo(ctx, eventIndex, base, e.writes);
        assert Truncate(s.events + e.events, |s.events|) == s.events;
      }
    }

    method Undo(ctx: ServiceContext, eventIndex: nat, ghost base: Store, ghost ws: World)
      requires states.Valid() && Clean(base) && states.Layered() == Written(base, ws)
      modifies states.states.Values, ctx
      ensures states.Layered() == base
      ensures ctx.canceled && ctx.used == old(ctx.used) && ctx.events == Truncate(old(ctx.events), eventIndex)
    {
      RevertUndoes(base, ws);
      ctx.TruncateEvents(eventIndex);
      ctx.Cancel();
      states.RevertCache();
    }

    /** One transaction: hooks, call, hooks. It ends with nothing cached, in the state and with the
        code that the fold gives. */
    method CatchCall(ctx: ServiceContext, ghost tries: World, ghost world: World) returns (r: Option<nat>)
      requires Running(ctx, tries, Start(world, mem))
      modifies states.states.Values, ctx, `mem
      ensures Tries(states.Layered()) == tries
      ensures var spec := RunTx(services, ctx.tx, world, old(mem));
              && r.None? == spec.None?
              && (r.Some? ==> Running(ctx, tries, spec.value.0) && r.value == spec.value.1)
              && (r.Some? ==> Clean(states.Layered()))
    {
      ghost var s0 := Start(world, mem);
      var before := TxHooks(Before, ctx, tries, s0);
      if before.None? {
        return None;
      }
      ghost var s1 := Hooks(services, Before, |services.names|, ctx.tx, s0).value.0;
      Stash(ctx, tries, s1);
      var eventIndex := |ctx.events|;
      r := Call(ctx, before.value, tries, s1);
      if r.None? {
        return;
      }
      ghost var s2 := BlockSpec.Call(services, ctx.tx, s1, before.value).value.0;
      var after := TxHooks(After, ctx, tries, s2);
      if after.None? {
        return None;
      }
      Settle(ctx, after.value, eventIndex, tries, Hooks(services, After, |services.names|, ctx.tx, s2).value.0);
    }

    /** After the hooks: events since the call are dropped if one objected. Their writes and the call's
        are stashed by then, so the revert finds nothing. */
    method Settle(ctx: ServiceContext, objected: bool, eventIndex: nat, ghost tries: World, ghost s: TxState<M>)
      requires Running(ctx, tries, s) && (objected ==> Clean(states.Layered()))
      modifies states.states.Values, ctx
      ensures Running(ctx, tries, if objected then s.(events := Truncate(s.events, eventIndex)) else s)
      ensures Clean(states.Layered())
    {
      if objected {
        RevertUndoes(states.Layered(), map[]);
        ctx.TruncateEvents(eventIndex);
        states.RevertCache();
      } else {
        Stash(ctx, tries, s);
      }
    }

    /** Between the steps of a block. */
    ghost predicate Ready(tries: World, world: World, m: M)
      reads this, states.states.Values
    {
      states.Valid() && At(states.Layered(), tries, world) && mem == m
    }

    /** One block hook: stashed unless it panics, else reverted. */
    method BlockHook(phase: Phase, name: string, ghost tries: World, ghost world: World)
      requires Ready(tries, world, mem)
      modifies states.states.Values, `mem
      ensures var e := services.blockHook(phase, name, world, old(mem));
              Ready(tries, if e.panics then world else WriteWorld(world, e.writes), e.mem)
    {
      var e := services.blockHook(phase, name, Shown(states.Layered()), mem);
      KeepOrUndo(e.panics, e.writes, tries, world);
      Remember(e.mem);
    }

    /** Writes, then stashes or reverts. */
    method KeepOrUndo(undo: bool, ws: World, ghost tries: World, ghost world: World)
      requires states.Valid() && At(states.Layered(), tries, world)
      modifies states.states.Values
      ensures At(states.Layered(), tries, if undo then world else WriteWorld(world, ws))
    {
      KeptAt(states.Layered(), ws);
      RevertUndoes(states.Layered(), ws);
      states.WriteAll(ws);
      if undo {
        states.RevertCache();
      } else {
        states.Stash();
      }
    }

    method Remember(m: M)
      modifies `mem
      ensures mem == m
    {
      mem := m;
    }

    method Hook(phase: Phase, ghost tries: World, ghost world: World)
      requires Ready(tries, world, mem)
      modifies states.states.Values, `mem
      ensures var (w, m) := BlockHooks(services, phase, |services.names|, world, old(mem)); Ready(tries, w, m)
    {
      for i := 0 to |services.names|
        invariant var (w, m) := BlockHooks(services, phase, i, world, old(mem)); Ready(tries, w, m)
      {
        BlockHook(phase, services.names[i], tries, BlockHooks(services, phase, i, world, old(mem)).0);
      }
    }

    /** The first `k` transactions are done. */
    ghost predicate Done(txs: seq<Tx>, k: nat, receipts: seq<Receipt>, tries: World, world: World, m: M)
      reads this, states.states.Values
    {
      && k <= |txs|
      && var spec := RunTxs(services, txs, k, world, m);
         spec.Some? && receipts == spec.value.receipts && Ready(tries, spec.value.world, spec.value.mem)
    }

    method ExecNext(txs: seq<Tx>, k: nat, receipts: seq<Receipt>, ghost tries: World, ghost world: World, ghost m: M)
      returns (r: Option<seq<Receipt>>)
      requires Done(txs, k, receipts, tries, world, m) && k < |txs|
      modifies states.states.Values, `mem
      ensures Tries(states.Layered()) == tries
      ensures r.None? ==> RunTxs(services, txs, k + 1, world, m).None?
      ensures r.Some? ==> Done(txs, k + 1, r.value, tries, world, m)
    {
      var receipt := ExecTx(txs[k], tries, RunTxs(services, txs, k, world, m).value.world);
      return if receipt.None? then None else Some(receipts + [receipt.value]);
    }

    /** All transactions of a block; it stops at the first that panics. */
    method ExecTxs(txs: seq<Tx>, ghost tries: World, ghost world: World) returns (r: Option<seq<Receipt>>)
      requires Ready(tries, world, mem)
      modifies states.states.Values, `mem
      ensures Tries(states.Layered()) == tries
      ensures r.None? ==> RunTxs(services, txs, |txs|, world, old(mem)).None?
      ensures r.Some? ==> Done(txs, |txs|, r.value, tries, world, old(mem))
    {
      var receipts := [];
      for i := 0 to |txs|
        invariant Done(txs, i, receipts, tries, world, old(mem))
      {
        r := ExecNext(txs, i, receipts, tries, world, old(mem));
        if r.None? {
          TxsFailOnce(services, txs, i + 1, |txs|, world, old(mem));
          return;
        }
        receipts := r.value;
      }
      return Some(receipts);
    }

    method ExecTx(tx: Tx, ghost tries: World, ghost world: World) returns (r: Option<Receipt>)
      requires Ready(tries, world, mem)
      modifies states.states.Values, `mem
      ensures Tries(states.Layered()) == tries
      ensures var spec := RunTx(services, tx, world, old(mem));
              && r.None? == spec.None?
              && (r.Some? ==> r.value == ReceiptOf(tx, spec.value.0, spec.value.1))
              && (r.Some? ==> Ready(tries, spec.value.0.world, spec.value.0.mem))
    {
      var ctx := new ServiceContext(tx);
      var code := CatchCall(ctx, tries, world);
      if code.None? {
        return None;
      }
      return Some(Receipt([], tx.hash, ctx.used, ctx.events, tx.service, tx.method', code.value));
    }

    /** A whole block. When the fold fails nothing is committed; otherwise the committed state, the
        services' memory, the receipts, the total and the root are those of the fold. */
    method Exec(txs: seq<Tx>, ghost tries: World, ghost world: World) returns (r: Option<Response>)
      requires Ready(tries, world, mem)
      modifies states.states.Values, `mem
      ensures r.None? == RunBlock(services, txs, world, old(mem)).None?
      ensures r.None? ==> Tries(states.Layered()) == tries
      ensures r.Some? ==>
                var b := RunBlock(services, txs, world, old(mem)).value;
                var root := services.root(b.world);
                && Persisted(states.Layered(), b.world) && mem == b.mem
                && r.value == Response(Rooted(b.receipts, root), TotalCycles(b.receipts), root)
    {
      Hook(Before, tries, world);
      ghost var (w1, m1) := BlockHooks(services, Before, |services.names|, world, old(mem));
      var maybe := ExecTxs(txs, tries, w1);
      if maybe.None? {
        return None;
      }
      var receipts := maybe.value;
      ghost var b := RunTxs(services, txs, |txs|, w1, m1).value;
      Hook(After, tries, b.world);
      var root := Commit(BlockHooks(services, After, |services.names|, b.world, b.mem).0);
      var rooted, total := Finish(receipts, root);
      return Some(Response(rooted, total, root));
    }

    method Commit(ghost world: World) returns (root: Bytes)
      requires states.Valid() && Clean(states.Layered()) && Shown(states.Layered()) == world
      modifies states.states.Values
      ensures Persisted(states.Layered(), world) && root == services.root(world)
    {
      states.Commit();
      PersistedShown(states.Layered(), world);
      root := services.root(Shown(states.Layered()));
    }
  }

  /** Everything is in the tries, which hold `world`. */
  ghost predicate Persisted(st: Store, world: World) {
    && st.Keys == world.Keys
    && forall n | n in st :: st[n].stash == map[] && st[n].cache == map[] && Present(st[n].trie) == world[n]
  }

  lemma PersistedShown(st: Store, world: World)
    requires Persisted(st, world)
    ensures Shown(st) == world
  {
    forall n | n in st
      ensures st[n].Visible() == world[n]
    {
      assert st[n].trie + map[] + map[] == st[n].trie;
    }
  }

  /** Writes the state root into every receipt and adds up their cycles. */
  method Finish(receipts: seq<Receipt>, root: Bytes) returns (rooted: seq<Receipt>, total: nat)
    ensures rooted == Rooted(receipts, root)
    ensures total == TotalCycles(receipts)
  {
    rooted, total := receipts, 0;
    for i := 0 to |receipts|
      invariant |rooted| == |receipts|
      invariant forall j | 0 <= j < i :: rooted[j] == receipts[j].(stateRoot := root)
      invariant forall j | i <= j < |receipts| :: rooted[j] == receipts[j]
      invariant total == TotalCycles(receipts[..i])
    {
      total := total + rooted[i].cyclesUsed;
      rooted := rooted[i := rooted[i].(stateRoot := root)];
      assert receipts[..i + 1][..i] == receipts[..i];
    }
    assert receipts[..|receipts|] == receipts;
  }
}
