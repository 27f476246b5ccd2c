/** What a failing call leaves behind. Its writes and events are dropped, its service's memory is not;
    so it leaves no trace exactly as far as that memory looks the same afterwards. */
module Traces {
  import opened Types
  import opened StateMap
  import opened BlockSpec

  // ----- services that look at their memory in one way only -----

  /** Two effects that differ at most in what of the memory cannot be seen, kept or undone. */
  ghost predicate SameLook<M, T>(obs: (M, World) -> T, a: Effect<M>, b: Effect<M>, w: World) {
    && a.(mem := b.mem) == b
    && obs(a.mem, WriteWorld(w, a.writes)) == obs(b.mem, WriteWorld(w, a.writes))
    && obs(a.mem, w) == obs(b.mem, w)
  }

  ghost predicate HookBlind<M, T>(
      sv: Services<M>, obs: (M, World) -> T, phase: Phase, name: string, tx: Tx, s: TxState<M>, m: M)
  {
    obs(s.mem, s.world) == obs(m, s.world) ==>
      SameLook(obs, sv.txHook(phase, name, tx, s), sv.txHook(phase, name, tx, s.(mem := m)), s.world)
  }

  ghost predicate CallBlind<M, T>(sv: Services<M>, obs: (M, World) -> T, tx: Tx, s: TxState<M>, m: M) {
    obs(s.mem, s.world) == obs(m, s.world) ==>
      SameLook(obs, sv.call(tx, s), sv.call(tx, s.(mem := m)), s.world)
  }

  ghost predicate BlockBlind<M, T>(
      sv: Services<M>, obs: (M, World) -> T, phase: Phase, name: string, w: World, a: M, b: M)
  {
    obs(a, w) == obs(b, w) ==>
      var x, y := sv.blockHook(phase, name, w, a), sv.blockHook(phase, name, w, b);
      && x.(mem := y.mem) == y
      && obs(x.mem, WriteWorld(w, x.writes)) == obs(y.mem, WriteWorld(w, x.writes))
      && obs(x.mem, w) == obs(y.mem, w)
  }

  /** Services see their memory only through `obs`. */
  ghost predicate Blind<M(!new), T>(sv: Services<M>, obs: (M, World) -> T) {
    && (forall phase, name, tx, s, m :: HookBlind(sv, obs, phase, name, tx, s, m))
    && (forall tx, s, m :: CallBlind(sv, obs, tx, s, m))
    && (forall phase, name, w, a, b :: BlockBlind(sv, obs, phase, name, w, a, b))
  }

  /** Equal but for what of the memory cannot be seen. */
  ghost predicate Alike<M, T>(obs: (M, World) -> T, s: TxState<M>, t: TxState<M>) {
    s.(mem := t.mem) == t && obs(s.mem, s.world) == obs(t.mem, s.world)
  }

  lemma {:induction false} HooksAlike<M(!new), T>(
      sv: Services<M>, obs: (M, World) -> T, phase: Phase, k: nat, tx: Tx, s: TxState<M>, t: TxState<M>)
    requires Blind(sv, obs) && k <= |sv.names| && Alike(obs, s, t)
    ensures var x, y := Hooks(sv, phase, k, tx, s), Hooks(sv, phase, k, tx, t);
            && x.None? == y.None?
            && (x.Some? ==> Alike(obs, x.value.0, y.value.0) && x.value.1 == y.value.1)
  {
    if k > 0 {
      HooksAlike(sv, obs, phase, k - 1, tx, s, t);
      var x, y := Hooks(sv, phase, k - 1, tx, s), Hooks(sv, phase, k - 1, tx, t);
      if x.Some? {
        assert HookBlind(sv, obs, phase, sv.names[k - 1], tx, x.value.0, y.value.0.mem);
      }
    }
  }

  // ----- failing calls that leave nothing -----

  /** The same services, except that a call which fails does nothing but use cycles. */
  function Muted<M>(sv: Services<M>): Services<M> {
    sv.(call := (tx, s) =>
        var e := sv.call(tx, s);
        if e.code != 0 then e.(writes := map[], events := [], mem := s.mem) else e)
  }

  /** Hooks do not depend on what calls do. */
  lemma {:induction false} HooksMuted<M>(
      sv: Services<M>, call: (Tx, TxState<M>) -> Effect<M>, phase: Phase, k: nat, tx: Tx, s: TxState<M>)
    requires k <= |sv.names|
    ensures Hooks(sv.(call := call), phase, k, tx, s) == Hooks(sv, phase, k, tx, s)
  {
    if k > 0 {
      HooksMuted(sv, call, phase, k - 1, tx, s);
    }
  }

  lemma {:induction false} BlockHooksMuted<M>(
      sv: Services<M>, call: (Tx, TxState<M>) -> Effect<M>, phase: Phase, k: nat, world: World, mem: M)
    requires k <= |sv.names|
    ensures BlockHooks(sv.(call := call), phase, k, world, mem) == BlockHooks(sv, phase, k, world, mem)
  {
    if k > 0 {
      BlockHooksMuted(sv, call, phase, k - 1, world, mem);
    }
  }

  // ----- failing calls write nothing -----

  /** The same services, except that a call which fails writes nothing and emits nothing. */
  function Silenced<M>(sv: Services<M>): Services<M> {
    sv.(call := (tx, s) =>
        var e := sv.call(tx, s);
        if e.code != 0 then e.(writes := map[], events := []) else e)
  }

  lemma TxSilenced<M>(sv: Services<M>, tx: Tx, world: World, mem: M)
    ensures RunTx(Silenced(sv), tx, world, mem) == RunTx(sv, tx, world, mem)
  {
    var quiet := Silenced(sv);
    var n := |sv.names|;
    HooksMuted(sv, quiet.call, Before, n, tx, Start(world, mem));
    var r1 := Hooks(sv, Before, n, tx, Start(world, mem));
    if r1.Some? {
      var (s1, skip) := r1.value;
      assert Call(quiet, tx, s1, skip) == Call(sv, tx, s1, skip);
      var r2 := Call(sv, tx, s1, skip);
      if r2.Some? {
        HooksMuted(sv, quiet.call, After, n, tx, r2.value.0);
      }
    }
  }

  lemma {:induction false} TxsSilenced<M>(sv: Services<M>, txs: seq<Tx>, k: nat, world: World, mem: M)
    requires k <= |txs|
    ensures RunTxs(Silenced(sv), txs, k, world, mem) == RunTxs(sv, txs, k, world, mem)
  {
    if k > 0 {
      TxsSilenced(sv, txs, k - 1, world, mem);
      var r := RunTxs(sv, txs, k - 1, world, mem);
      if r.Some? {
        TxSilenced(sv, txs[k - 1], r.value.world, r.value.mem);
      }
    }
  }

  lemma BlockSilenced<M>(sv: Services<M>, txs: seq<Tx>, world: World, mem: M)
    ensures RunBlock(Silenced(sv), txs, world, mem) == RunBlock(sv, txs, world, mem)
  {
    var quiet, n := Silenced(sv), |sv.names|;
    BlockHooksMuted(sv, quiet.call, Before, n, world, mem);
    var (w, m) := BlockHooks(sv, Before, n, world, mem);
    TxsSilenced(sv, txs, |txs|, w, m);
    var r := RunTxs(sv, txs, |txs|, w, m);
    if r.Some? {
      BlockHooksMuted(sv, quiet.call, After, n, r.value.world, r.value.mem);
    }
  }

  lemma {:induction false} ChainSilenced<M>(sv: Services<M>, blocks: seq<seq<Tx>>, n: nat, world: World)
    requires n <= |blocks|
    ensures RunChain(Silenced(sv), blocks, n, world) == RunChain(sv, blocks, n, world)
  {
    if n > 0 {
      ChainSilenced(sv, blocks, n - 1, world);
      var r := RunChain(sv, blocks, n - 1, world);
      if r.Some? {
        BlockSilenced(sv, blocks[n - 1], r.value, sv.build(r.value));
      }
    }
  }

  /** Whatever the services: no write and no event of a failing call reaches any receipt, any later
      transaction or any later block. At every point of every chain of blocks, receipts, state, memory
      and panics are those of the services whose failing calls write and emit nothing. */
  lemma FailedCallsWriteNothing<M>(sv: Services<M>, blocks: seq<seq<Tx>>, n: nat, k: nat, world: World)
    requires n < |blocks| && k <= |blocks[n]|
    ensures Inside(Silenced(sv), blocks, n, k, world) == Inside(sv, blocks, n, k, world)
  {
    ChainSilenced(sv, blocks, n, world);
    var r := RunChain(sv, blocks, n, world);
    if r.Some? {
      BlockHooksMuted(sv, Silenced(sv).call, Before, |sv.names|, r.value, sv.build(r.value));
      var (w, m) := BlockHooks(sv, Before, |sv.names|, r.value, sv.build(r.value));
      TxsSilenced(sv, blocks[n], k, w, m);
    }
  }

  // ----- and leave no trace if they leave no memory -----

  /** A call that, if it fails, leaves the memory looking as it was. */
  ghost predicate Tidy<M, T>(sv: Services<M>, obs: (M, World) -> T, tx: Tx, s: TxState<M>, skip: bool) {
    var e := CallEffect(sv, tx, s, skip);
    !e.panics && e.code != 0 ==> obs(e.mem, s.world) == obs(s.mem, s.world)
  }

  lemma CallMuted<M(!new), T>(sv: Services<M>, obs: (M, World) -> T, tx: Tx, s: TxState<M>, t: TxState<M>, skip: bool)
    requires Blind(sv, obs) && Alike(obs, s, t) && Tidy(sv, obs, tx, s, skip)
    ensures var x, y := Call(sv, tx, s, skip), Call(Muted(sv), tx, t, skip);
            && x.None? == y.None?
            && (x.Some? ==> Alike(obs, x.value.0, y.value.0) && x.value.1 == y.value.1)
  {
    assert CallBlind(sv, obs, tx, s, t.mem);
  }

  /** The state the call of a transaction starts from, and whether it is skipped. */
  function AtCall<M>(sv: Services<M>, tx: Tx, world: World, mem: M): Option<(TxState<M>, bool)> {
    Hooks(sv, Before, |sv.names|, tx, Start(world, mem))
  }

  ghost predicate TidyTx<M, T>(sv: Services<M>, obs: (M, World) -> T, tx: Tx, world: World, mem: M) {
    var r := AtCall(sv, tx, world, mem);
    r.Some? ==> Tidy(sv, obs, tx, r.value.0, r.value.1)
  }

  lemma TxMuted<M(!new), T>(sv: Services<M>, obs: (M, World) -> T, tx: Tx, world: World, a: M, b: M)
    requires Blind(sv, obs) && obs(a, world) == obs(b, world) && TidyTx(sv, obs, tx, world, a)
    ensures var x, y := RunTx(sv, tx, world, a), RunTx(Muted(sv), tx, world, b);
            && x.None? == y.None?
            && (x.Some? ==> Alike(obs, x.value.0, y.value.0) && x.value.1 == y.value.1)
  {
    var s, t := Start(world, a), Start(world, b);
    var n := |sv.names|;
    HooksAlike(sv, obs, Before, n, tx, s, t);
    HooksMuted(sv, Muted(sv).call, Before, n, tx, t);
    var x1, y1 := Hooks(sv, Before, n, tx, s), Hooks(sv, Before, n, tx, t);
    if x1.Some? {
      CallMuted(sv, obs, tx, x1.value.0, y1.value.0, x1.value.1);
      var x2, y2 := Call(sv, tx, x1.value.0, x1.value.1), Call(Muted(sv), tx, y1.value.0, x1.value.1);
      if x2.Some? {
        HooksAlike(sv, obs, After, n, tx, x2.value.0, y2.value.0);
        HooksMuted(sv, Muted(sv).call, After, n, tx, y2.value.0);
      }
    }
  }

  /** Every call of the first `k` transactions is tidy, where it is made. */
  ghost predicate TidyTxs<M, T>(sv: Services<M>, obs: (M, World) -> T, txs: seq<Tx>, k: nat, world: World, mem: M)
    requires k <= |txs|
  {
    k > 0 ==>
      && TidyTxs(sv, obs, txs, k - 1, world, mem)
      && var r := RunTxs(sv, txs, k - 1, world, mem);
         r.Some? ==> TidyTx(sv, obs, txs[k - 1], r.value.world, r.value.mem)
  }

  /** The same outcome for everyone but the services. */
  ghost predicate SameOutcome<M, T>(obs: (M, World) -> T, x: Option<BlockState<M>>, y: Option<BlockState<M>>) {
    && x.None? == y.None?
    && (x.Some? ==>
          && x.value.(mem := y.value.mem) == y.value
          && obs(x.value.mem, x.value.world) == obs(y.value.mem, x.value.world))
  }

  /** Transactions whose failing calls leave the memory looking as it was end as if those calls had
      done nothing: no write or event of them, and no memory of them, reaches any receipt or state. */
  lemma {:induction false} FailedCallsLeaveNoTrace<M(!new), T>(
      sv: Services<M>, obs: (M, World) -> T, txs: seq<Tx>, k: nat, world: World, a: M, b: M)
    requires Blind(sv, obs) && k <= |txs| && obs(a, world) == obs(b, world) && TidyTxs(sv, obs, txs, k, world, a)
    ensures SameOutcome(obs, RunTxs(sv, txs, k, world, a), RunTxs(Muted(sv), txs, k, world, b))
  {
    if k > 0 {
      FailedCallsLeaveNoTrace(sv, obs, txs, k - 1, world, a, b);
      var x, y := RunTxs(sv, txs, k - 1, world, a), RunTxs(Muted(sv), txs, k - 1, world, b);
      if x.Some? {
        TxMuted(sv, obs, txs[k - 1], x.value.world, x.value.mem, y.value.mem);
      }
    }
  }

  lemma {:induction false} BlockHooksAlike<M(!new), T>(
      sv: Services<M>, obs: (M, World) -> T, phase: Phase, k: nat, world: World, a: M, b: M)
    requires Blind(sv, obs) && k <= |sv.names| && obs(a, world) == obs(b, world)
    ensures var (w, x) := BlockHooks(sv, phase, k, world, a);
            var (v, y) := BlockHooks(sv, phase, k, world, b);
            w == v && obs(x, w) == obs(y, w)
  {
    if k > 0 {
      BlockHooksAlike(sv, obs, phase, k - 1, world, a, b);
      var (w, x) := BlockHooks(sv, phase, k - 1, world, a);
      var (v, y) := BlockHooks(sv, phase, k - 1, world, b);
      assert BlockBlind(sv, obs, phase, sv.names[k - 1], w, x, y);
    }
  }

  /** Every call of the block is tidy, where it is made. */
  ghost predicate TidyBlock<M, T>(sv: Services<M>, obs: (M, World) -> T, txs: seq<Tx>, world: World, mem: M) {
    var (w, m) := BlockHooks(sv, Before, |sv.names|, world, mem);
    TidyTxs(sv, obs, txs, |txs|, w, m)
  }

  /** The same for whole blocks, hooks included. */
  lemma TidyBlockLeavesNoTrace<M(!new), T>(
      sv: Services<M>, obs: (M, World) -> T, txs: seq<Tx>, world: World, mem: M)
    requires Blind(sv, obs) && TidyBlock(sv, obs, txs, world, mem)
    ensures SameOutcome(obs, RunBlock(sv, txs, world, mem), RunBlock(Muted(sv), txs, world, mem))
  {
    var n := |sv.names|;
    BlockHooksMuted(sv, Muted(sv).call, Before, n, world, mem);
    var (w, m) := BlockHooks(sv, Before, n, world, mem);
    FailedCallsLeaveNoTrace(sv, obs, txs, |txs|, w, m, m);
    var x, y := RunTxs(sv, txs, |txs|, w, m), RunTxs(Muted(sv), txs, |txs|, w, m);
    if x.Some? {
      BlockHooksAlike(sv, obs, After, n, x.value.world, x.value.mem, y.value.mem);
      BlockHooksMuted(sv, Muted(sv).call, After, n, y.value.world, y.value.mem);
    }
  }

  lemma TxAlike<M(!new), T>(sv: Services<M>, obs: (M, World) -> T, tx: Tx, world: World, a: M, b: M)
    requires Blind(sv, obs) && obs(a, world) == obs(b, world)
    ensures var x, y := RunTx(sv, tx, world, a), RunTx(sv, tx, world, b);
            && x.None? == y.None?
            && (x.Some? ==> Alike(obs, x.value.0, y.value.0) && x.value.1 == y.value.1)
  {
    var s, t := Start(world, a), Start(world, b);
    var n := |sv.names|;
    HooksAlike(sv, obs, Before, n, tx, s, t);
    var x1, y1 := Hooks(sv, Before, n, tx, s), Hooks(sv, Before, n, tx, t);
    if x1.Some? {
      assert CallBlind(sv, obs, tx, x1.value.0, y1.value.0.mem);
      var x2, y2 := Call(sv, tx, x1.value.0, x1.value.1), Call(sv, tx, y1.value.0, x1.value.1);
      if x2.Some? {
        HooksAlike(sv, obs, After, n, tx, x2.value.0, y2.value.0);
      }
    }
  }

  /** Memories that look the same give the same outcome of whatever follows. */
  lemma {:induction false} TxsAlike<M(!new), T>(
      sv: Services<M>, obs: (M, World) -> T, txs: seq<Tx>, k: nat, world: World, a: M, b: M)
    requires Blind(sv, obs) && k <= |txs| && obs(a, world) == obs(b, world)
    ensures SameOutcome(obs, RunTxs(sv, txs, k, world, a), RunTxs(sv, txs, k, world, b))
  {
    if k > 0 {
      TxsAlike(sv, obs, txs, k - 1, world, a, b);
      var x, y := RunTxs(sv, txs, k - 1, world, a), RunTxs(sv, txs, k - 1, world, b);
      if x.Some? {
        TxAlike(sv, obs, txs[k - 1], x.value.world, x.value.mem, y.value.mem);
      }
    }
  }
}
