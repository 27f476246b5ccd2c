/** The asset ledger on chain: what any sequence of blocks does to it. Any hook, call or block hook may
    make any number of ledger calls; a ledger call counts if the effect it belongs to is kept. */
module AssetOnChain {
  import opened Types
  import opened ServiceState
  import opened StateMap
  import opened BlockSpec
  import opened Asset
  import opened Allowances

  const ASSET: string := "asset"

  type Calls = seq<(Address, Op)>

  /** How the ledger is stored in the asset service's entries, when its memory is in step with them, and
      which ledger calls each effect makes. */
  datatype Binding<!M> = Binding(
    ledger: Entries -> Ledger,
    inStep: (Entries, M) -> bool,
    digest: Digest,
    hookCalls: (Phase, string, Tx, TxState<M>) -> Calls,
    callCalls: (Tx, TxState<M>) -> Calls,
    blockCalls: (Phase, string, World, M) -> Calls)
  {
    function Seen(w: World): Ledger
      requires ASSET in w
    {
      ledger(w[ASSET])
    }

    predicate Ready(w: World, mem: M) {
      ASSET in w && inStep(w[ASSET], mem)
    }

    /** Calls after which there are the same assets as before. */
    ghost predicate CreateNothing(w: World, calls: Calls)
      requires ASSET in w
    {
      Run(Seen(w), digest, calls).assets == Seen(w).assets
    }

    /** An effect that does to the ledger what these calls do, and leaves the memory in step with the
        state it wrote; if it created no asset, also with the state as it was. */
    ghost predicate Follows(w: World, mem: M, writes: World, after: M, calls: Calls) {
      Ready(w, mem) ==>
        && Ready(WriteWorld(w, writes), after)
        && Seen(WriteWorld(w, writes)) == Run(Seen(w), digest, calls)
        && (CreateNothing(w, calls) ==> Ready(w, after))
    }
  }

  ghost predicate HookFits<M>(sv: Services<M>, b: Binding<M>, phase: Phase, name: string, tx: Tx, s: TxState<M>) {
    var e := sv.txHook(phase, name, tx, s);
    !e.panics ==> b.Follows(s.world, s.mem, e.writes, e.mem, b.hookCalls(phase, name, tx, s))
  }

  ghost predicate CallFits<M>(sv: Services<M>, b: Binding<M>, tx: Tx, s: TxState<M>) {
    var e := sv.call(tx, s);
    !e.panics ==> b.Follows(s.world, s.mem, e.writes, e.mem, b.callCalls(tx, s))
  }

  ghost predicate BlockFits<M>(sv: Services<M>, b: Binding<M>, phase: Phase, name: string, w: World, m: M) {
    var e := sv.blockHook(phase, name, w, m);
    b.Follows(w, m, e.writes, e.mem, b.blockCalls(phase, name, w, m))
  }

  ghost predicate BuildFits<M>(sv: Services<M>, b: Binding<M>, w: World, m: M) {
    b.Ready(w, m) ==> b.Ready(w, sv.build(w))
  }

  /** Services that touch the ledger only through its calls. */
  ghost predicate Hosts<M(!new)>(sv: Services<M>, b: Binding<M>) {
    && (forall phase, name, tx, s :: HookFits(sv, b, phase, name, tx, s))
    && (forall tx, s :: CallFits(sv, b, tx, s))
    && (forall phase, name, w, m :: BlockFits(sv, b, phase, name, w, m))
    && (forall w, m :: BuildFits(sv, b, w, m))
  }

  // ----- one transaction -----

  /** The ledger calls of the first `k` hooks. */
  ghost function HooksKept<M>(sv: Services<M>, b: Binding<M>, phase: Phase, k: nat, tx: Tx, s: TxState<M>): Calls
    requires k <= |sv.names|
  {
    if k == 0 then []
    else
      var r := Hooks(sv, phase, k - 1, tx, s);
      HooksKept(sv, b, phase, k - 1, tx, s)
      + if r.Some? then b.hookCalls(phase, sv.names[k - 1], tx, r.value.0) else []
  }

  lemma {:induction false} HooksFollow<M(!new)>(
      sv: Services<M>, b: Binding<M>, phase: Phase, k: nat, tx: Tx, s: TxState<M>)
    requires Hosts(sv, b) && k <= |sv.names| && b.Ready(s.world, s.mem)
    ensures var r := Hooks(sv, phase, k, tx, s);
            r.Some? ==>
              && b.Ready(r.value.0.world, r.value.0.mem)
              && b.Seen(r.value.0.world) == Run(b.Seen(s.world), b.digest, HooksKept(sv, b, phase, k, tx, s))
  {
    if k > 0 {
      HooksFollow(sv, b, phase, k - 1, tx, s);
      var r := Hooks(sv, phase, k - 1, tx, s);
      if r.Some? {
        var name, t := sv.names[k - 1], r.value.0;
        assert HookFits(sv, b, phase, name, tx, t);
        RunInTwo(b.Seen(s.world), b.digest, HooksKept(sv, b, phase, k - 1, tx, s), b.hookCalls(phase, name, tx, t));
      }
    }
  }

  /** The ledger calls of the transaction's own call, if they are kept. */
  ghost function CallKept<M>(sv: Services<M>, b: Binding<M>, tx: Tx, s: TxState<M>, skip: bool): Calls {
    if skip || tx.service !in sv.names || sv.call(tx, s).code != 0 then [] else b.callCalls(tx, s)
  }

  /** A call that fails has created no asset on the way. */
  ghost predicate Tidy<M>(sv: Services<M>, b: Binding<M>, tx: Tx, s: TxState<M>, skip: bool)
    requires ASSET in s.world
  {
    !skip && tx.service in sv.names && sv.call(tx, s).code != 0 ==> b.CreateNothing(s.world, b.callCalls(tx, s))
  }

  lemma CallFollows<M(!new)>(sv: Services<M>, b: Binding<M>, tx: Tx, s: TxState<M>, skip: bool)
    requires Hosts(sv, b) && b.Ready(s.world, s.mem) && Tidy(sv, b, tx, s, skip)
    ensures var r := Call(sv, tx, s, skip);
            r.Some? ==>
              && b.Ready(r.value.0.world, r.value.0.mem)
              && b.Seen(r.value.0.world) == Run(b.Seen(s.world), b.digest, CallKept(sv, b, tx, s, skip))
  {
    assert CallFits(sv, b, tx, s);
  }

  ghost function TxKept<M>(sv: Services<M>, b: Binding<M>, tx: Tx, world: World, mem: M): Calls {
    var n := |sv.names|;
    var r1 := Hooks(sv, Before, n, tx, Start(world, mem));
    if r1.None? then []
    else
      var (s1, skip) := r1.value;
      var r2 := Call(sv, tx, s1, skip);
      HooksKept(sv, b, Before, n, tx, Start(world, mem)) + CallKept(sv, b, tx, s1, skip)
      + if r2.Some? then HooksKept(sv, b, After, n, tx, r2.value.0) else []
  }

  ghost predicate TidyTx<M>(sv: Services<M>, b: Binding<M>, tx: Tx, world: World, mem: M) {
    var r := Hooks(sv, Before, |sv.names|, tx, Start(world, mem));
    r.Some? && ASSET in r.value.0.world ==> Tidy(sv, b, tx, r.value.0, r.value.1)
  }

  /** A transaction does to the ledger what its kept calls do. */
  lemma TxFollows<M(!new)>(sv: Services<M>, b: Binding<M>, tx: Tx, world: World, mem: M)
    requires Hosts(sv, b) && b.Ready(world, mem) && TidyTx(sv, b, tx, world, mem)
    ensures var r := RunTx(sv, tx, world, mem);
            r.Some? ==>
              && b.Ready(r.value.0.world, r.value.0.mem)
              && b.Seen(r.value.0.world) == Run(b.Seen(world), b.digest, TxKept(sv, b, tx, world, mem))
  {
    var n, s0 := |sv.names|, Start(world, mem);
    HooksFollow(sv, b, Before, n, tx, s0);
    var r1 := Hooks(sv, Before, n, tx, s0);
    if r1.Some? {
      var (s1, skip) := r1.value;
      CallFollows(sv, b, tx, s1, skip);
      var r2 := Call(sv, tx, s1, skip);
      if r2.Some? {
        HooksFollow(sv, b, After, n, tx, r2.value.0);
        var x, y := HooksKept(sv, b, Before, n, tx, s0), CallKept(sv, b, tx, s1, skip);
        RunInTwo(b.Seen(world), b.digest, x, y);
        RunInTwo(b.Seen(world), b.digest, x + y, HooksKept(sv, b, After, n, tx, r2.value.0));
      }
    }
  }

  // ----- blocks -----

  ghost function TxsKept<M>(sv: Services<M>, b: Binding<M>, txs: seq<Tx>, k: nat, world: World, mem: M): Calls
    requires k <= |txs|
  {
    if k == 0 then []
    else
      var r := RunTxs(sv, txs, k - 1, world, mem);
      TxsKept(sv, b, txs, k - 1, world, mem)
      + if r.Some? then TxKept(sv, b, txs[k - 1], r.value.world, r.value.mem) else []
  }

  ghost predicate TidyTxs<M>(sv: Services<M>, b: Binding<M>, txs: seq<Tx>, k: nat, world: World, mem: M)
    requires k <= |txs|
  {
    k > 0 ==>
      && TidyTxs(sv, b, txs, k - 1, world, mem)
      && var r := RunTxs(sv, txs, k - 1, world, mem);
         r.Some? ==> TidyTx(sv, b, txs[k - 1], r.value.world, r.value.mem)
  }

  lemma {:induction false} TxsFollow<M(!new)>(
      sv: Services<M>, b: Binding<M>, txs: seq<Tx>, k: nat, world: World, mem: M)
    requires Hosts(sv, b) && b.Ready(world, mem) && k <= |txs| && TidyTxs(sv, b, txs, k, world, mem)
    ensures var r := RunTxs(sv, txs, k, world, mem);
            r.Some? ==>
              && b.Ready(r.value.world, r.value.mem)
              && b.Seen(r.value.world) == Run(b.Seen(world), b.digest, TxsKept(sv, b, txs, k, world, mem))
  {
    if k > 0 {
      TxsFollow(sv, b, txs, k - 1, world, mem);
      var r := RunTxs(sv, txs, k - 1, world, mem);
      if r.Some? {
        var x := r.value;
        TxFollows(sv, b, txs[k - 1], x.world, x.mem);
        var kept := TxKept(sv, b, txs[k - 1], x.world, x.mem);
        assert TxsKept(sv, b, txs, k, world, mem) == TxsKept(sv, b, txs, k - 1, world, mem) + kept;
        RunInTwo(b.Seen(world), b.digest, TxsKept(sv, b, txs, k - 1, world, mem), kept);
      }
    }
  }

  /** The ledger calls of the first `k` block hooks that do not panic. */
  ghost function BlockHooksKept<M>(sv: Services<M>, b: Binding<M>, phase: Phase, k: nat, world: World, mem: M): Calls
    requires k <= |sv.names|
  {
    if k == 0 then []
    else
      var (w, m) := BlockHooks(sv, phase, k - 1, world, mem);
      var name := sv.names[k - 1];
      BlockHooksKept(sv, b, phase, k - 1, world, mem)
      + if sv.blockHook(phase, name, w, m).panics then [] else b.blockCalls(phase, name, w, m)
  }

  /** A block hook that panics has created no asset on the way. */
  ghost predicate TidyBlockHooks<M>(sv: Services<M>, b: Binding<M>, phase: Phase, k: nat, world: World, mem: M)
    requires k <= |sv.names|
  {
    k > 0 ==>
      && TidyBlockHooks(sv, b, phase, k - 1, world, mem)
      && var (w, m) := BlockHooks(sv, phase, k - 1, world, mem);
         var name := sv.names[k - 1];
         sv.blockHook(phase, name, w, m).panics && ASSET in w ==> b.CreateNothing(w, b.blockCalls(phase, name, w, m))
  }

  lemma {:induction false} BlockHooksFollow<M(!new)>(
      sv: Services<M>, b: Binding<M>, phase: Phase, k: nat, world: World, mem: M)
    requires Hosts(sv, b) && b.Ready(world, mem) && k <= |sv.names| && TidyBlockHooks(sv, b, phase, k, world, mem)
    ensures var (w, m) := BlockHooks(sv, phase, k, world, mem);
            && b.Ready(w, m)
            && b.Seen(w) == Run(b.Seen(world), b.digest, BlockHooksKept(sv, b, phase, k, world, mem))
  {
    if k > 0 {
      BlockHooksFollow(sv, b, phase, k - 1, world, mem);
      var (w, m) := BlockHooks(sv, phase, k - 1, world, mem);
      var name := sv.names[k - 1];
      assert BlockFits(sv, b, phase, name, w, m);
      var kept := BlockHooksKept(sv, b, phase, k - 1, world, mem);
      RunInTwo(b.Seen(world), b.digest, kept, b.blockCalls(phase, name, w, m));
      assert kept + [] == kept;
    }
  }

  /** The kept ledger calls of a block's opening hooks and first `k` transactions. */
  ghost function OpeningKept<M>(sv: Services<M>, b: Binding<M>, txs: seq<Tx>, k: nat, world: World): Calls
    requires k <= |txs|
  {
    var n, mem := |sv.names|, sv.build(world);
    var (w, m) := BlockHooks(sv, Before, n, world, mem);
    BlockHooksKept(sv, b, Before, n, world, mem) + TxsKept(sv, b, txs, k, w, m)
  }

  ghost function ClosingKept<M>(sv: Services<M>, b: Binding<M>, txs: seq<Tx>, world: World): Calls {
    var n := |sv.names|;
    var (w, m) := BlockHooks(sv, Before, n, world, sv.build(world));
    var r := RunTxs(sv, txs, |txs|, w, m);
    if r.Some? then BlockHooksKept(sv, b, After, n, r.value.world, r.value.mem) else []
  }

  ghost predicate TidyOpening<M>(sv: Services<M>, b: Binding<M>, txs: seq<Tx>, k: nat, world: World)
    requires k <= |txs|
  {
    var n, mem := |sv.names|, sv.build(world);
    var (w, m) := BlockHooks(sv, Before, n, world, mem);
    TidyBlockHooks(sv, b, Before, n, world, mem) && TidyTxs(sv, b, txs, k, w, m)
  }

  ghost predicate TidyClosing<M>(sv: Services<M>, b: Binding<M>, txs: seq<Tx>, world: World) {
    var n := |sv.names|;
    var (w, m) := BlockHooks(sv, Before, n, world, sv.build(world));
    var r := RunTxs(sv, txs, |txs|, w, m);
    r.Some? ==> TidyBlockHooks(sv, b, After, n, r.value.world, r.value.mem)
  }

  lemma OpeningFollows<M(!new)>(sv: Services<M>, b: Binding<M>, txs: seq<Tx>, k: nat, world: World)
    requires Hosts(sv, b) && b.Ready(world, sv.build(world)) && k <= |txs| && TidyOpening(sv, b, txs, k, world)
    ensures var (w, m) := BlockHooks(sv, Before, |sv.names|, world, sv.build(world));
            var r := RunTxs(sv, txs, k, w, m);
            r.Some? ==>
              && b.Ready(r.value.world, r.value.mem)
              && b.Seen(r.value.world) == Run(b.Seen(world), b.digest, OpeningKept(sv, b, txs, k, world))
  {
    var n, mem := |sv.names|, sv.build(world);
    BlockHooksFollow(sv, b, Before, n, world, mem);
    var (w, m) := BlockHooks(sv, Before, n, world, mem);
    TxsFollow(sv, b, txs, k, w, m);
    RunInTwo(b.Seen(world), b.digest, BlockHooksKept(sv, b, Before, n, world, mem), TxsKept(sv, b, txs, k, w, m));
  }

  ghost function BlockKept<M>(sv: Services<M>, b: Binding<M>, txs: seq<Tx>, world: World): Calls {
    OpeningKept(sv, b, txs, |txs|, world) + ClosingKept(sv, b, txs, world)
  }

  lemma BlockFollows<M(!new)>(sv: Services<M>, b: Binding<M>, txs: seq<Tx>, world: World)
    requires Hosts(sv, b) && b.Ready(world, sv.build(world))
    requires TidyOpening(sv, b, txs, |txs|, world) && TidyClosing(sv, b, txs, world)
    ensures var r := RunBlock(sv, txs, world, sv.build(world));
            r.Some? ==>
              && b.Ready(r.value.world, r.value.mem)
              && b.Seen(r.value.world) == Run(b.Seen(world), b.digest, BlockKept(sv, b, txs, world))
  {
    OpeningFollows(sv, b, txs, |txs|, world);
    var (w, m) := BlockHooks(sv, Before, |sv.names|, world, sv.build(world));
    var r := RunTxs(sv, txs, |txs|, w, m);
    if r.Some? {
      BlockHooksFollow(sv, b, After, |sv.names|, r.value.world, r.value.mem);
      RunInTwo(b.Seen(world), b.digest, OpeningKept(sv, b, txs, |txs|, world), ClosingKept(sv, b, txs, world));
    }
  }

  // ----- chains -----

  ghost function ChainKept<M>(sv: Services<M>, b: Binding<M>, blocks: seq<seq<Tx>>, n: nat, world: World): Calls
    requires n <= |blocks|
  {
    if n == 0 then []
    else
      var r := RunChain(sv, blocks, n - 1, world);
      ChainKept(sv, b, blocks, n - 1, world)
      + if r.Some? then BlockKept(sv, b, blocks[n - 1], r.value) else []
  }

  /** In the first `n` blocks no effect that is undone has created an asset. */
  ghost predicate TidyChain<M>(sv: Services<M>, b: Binding<M>, blocks: seq<seq<Tx>>, n: nat, world: World)
    requires n <= |blocks|
  {
    n > 0 ==>
      && TidyChain(sv, b, blocks, n - 1, world)
      && var r := RunChain(sv, blocks, n - 1, world);
         r.Some? ==>
           TidyOpening(sv, b, blocks[n - 1], |blocks[n - 1]|, r.value) && TidyClosing(sv, b, blocks[n - 1], r.value)
  }

  lemma {:induction false} ChainFollows<M(!new)>(
      sv: Services<M>, b: Binding<M>, blocks: seq<seq<Tx>>, n: nat, world: World)
    requires Hosts(sv, b) && b.Ready(world, sv.build(world)) && n <= |blocks| && TidyChain(sv, b, blocks, n, world)
    ensures var r := RunChain(sv, blocks, n, world);
            r.Some? ==>
              && b.Ready(r.value, sv.build(r.value))
              && b.Seen(r.value) == Run(b.Seen(world), b.digest, ChainKept(sv, b, blocks, n, world))
  {
    if n > 0 {
      ChainFollows(sv, b, blocks, n - 1, world);
      var r := RunChain(sv, blocks, n - 1, world);
      if r.Some? {
        BlockFollows(sv, b, blocks[n - 1], r.value);
        var s := RunBlock(sv, blocks[n - 1], r.value, sv.build(r.value));
        if s.Some? {
          assert BuildFits(sv, b, s.value.world, s.value.mem);
          var kept := BlockKept(sv, b, blocks[n - 1], r.value);
          RunInTwo(b.Seen(world), b.digest, ChainKept(sv, b, blocks, n - 1, world), kept);
        }
      }
    }
  }

  /** All ledger calls kept before this point of the chain. */
  ghost function KeptSoFar<M>(sv: Services<M>, b: Binding<M>, blocks: seq<seq<Tx>>, n: nat, k: nat, world: World): Calls
    requires n < |blocks| && k <= |blocks[n]|
  {
    var r := RunChain(sv, blocks, n, world);
    ChainKept(sv, b, blocks, n, world) + if r.Some? then OpeningKept(sv, b, blocks[n], k, r.value) else []
  }

  ghost predicate TidySoFar<M>(sv: Services<M>, b: Binding<M>, blocks: seq<seq<Tx>>, n: nat, k: nat, world: World)
    requires n < |blocks| && k <= |blocks[n]|
  {
    var r := RunChain(sv, blocks, n, world);
    TidyChain(sv, b, blocks, n, world) && (r.Some? ==> TidyOpening(sv, b, blocks[n], k, r.value))
  }

  /** The ledger at any point of the chain is the run of all kept calls from the start. */
  lemma PointFollows<M(!new)>(sv: Services<M>, b: Binding<M>, blocks: seq<seq<Tx>>, n: nat, k: nat, world: World)
    requires Hosts(sv, b) && b.Ready(world, sv.build(world)) && n < |blocks| && k <= |blocks[n]|
    requires TidySoFar(sv, b, blocks, n, k, world)
    ensures var r := Inside(sv, blocks, n, k, world);
            r.Some? ==>
              && ASSET in r.value.world
              && b.Seen(r.value.world) == Run(b.Seen(world), b.digest, KeptSoFar(sv, b, blocks, n, k, world))
  {
    ChainFollows(sv, b, blocks, n, world);
    var r := RunChain(sv, blocks, n, world);
    if r.Some? {
      OpeningFollows(sv, b, blocks[n], k, r.value);
      RunInTwo(b.Seen(world), b.digest, ChainKept(sv, b, blocks, n, world), OpeningKept(sv, b, blocks[n], k, r.value));
    }
  }

  /** From genesis, after every transaction of every block: supplies are conserved, and for every grant
      what is left, what was moved since it was last approved, in whichever block, and what was lost to
      spendings whose failure was ignored add up to what was approved. Nothing is lost, and the rest
      adds up alone, if every kept ledger call succeeded. */
  lemma LedgerOnChain<M(!new)>(
      sv: Services<M>, b: Binding<M>, blocks: seq<seq<Tx>>, n: nat, k: nat, world: World,
      id: Id, asset: Asset, g: Grant)
    requires Hosts(sv, b) && b.Ready(world, sv.build(world)) && b.Seen(world) == Issued(EMPTY, id, asset)
    requires n < |blocks| && k <= |blocks[n]| && TidySoFar(sv, b, blocks, n, k, world)
    requires Inside(sv, blocks, n, k, world).Some?
    ensures var w := Inside(sv, blocks, n, k, world).value.world;
            var kept := KeptSoFar(sv, b, blocks, n, k, world);
            var (approved, moved, lost) := RawBooks(g, b.Seen(world), b.digest, kept);
            && ASSET in w
            && Conserved(b.Seen(w))
            && g.In(b.Seen(w)) as nat + moved + lost == approved
            && (AllSucceed(b.Seen(world), b.digest, kept) ==> lost == 0)
  {
    PointFollows(sv, b, blocks, n, k, world);
    var kept := KeptSoFar(sv, b, blocks, n, k, world);
    RunConserves(b.digest, id, asset, kept);
    IssueConserves(EMPTY, id, asset);
    RawBooksAddUp(g, b.Seen(world), b.digest, kept);
    if AllSucceed(b.Seen(world), b.digest, kept) {
      NothingLost(g, b.Seen(world), b.digest, kept);
    }
  }
}
