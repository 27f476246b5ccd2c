/** The asset service on a chain of its own: without any assumption about blocks and transactions, what
    its ledger promises holds after every one of them. */
module AssetChain {
  import opened Types
  import opened ServiceState
  import opened StateMap
  import opened BlockSpec
  import opened StoreMap
  import opened StoreContents
  import opened StoreRuns
  import opened Asset
  import opened Allowances
  import opened AssetOnChain
  import opened AssetHost

  // ----- services whose codes tell the truth -----

  /** The call does not panic; with code zero all its ledger calls succeeded, with another none created
      an asset. */
  ghost predicate CarefulCall<M>(sv: Services<M>, b: Binding<M>, tx: Tx, s: TxState<M>) {
    b.Ready(s.world, s.mem) ==>
      var e := sv.call(tx, s);
      && !e.panics
      && (e.code == 0 ==> AllSucceed(b.Seen(s.world), b.digest, b.callCalls(tx, s)))
      && (e.code != 0 ==> b.CreateNothing(s.world, b.callCalls(tx, s)))
  }

  ghost predicate QuietHook<M>(sv: Services<M>, b: Binding<M>, phase: Phase, name: string, tx: Tx, s: TxState<M>) {
    !sv.txHook(phase, name, tx, s).panics && b.hookCalls(phase, name, tx, s) == []
  }

  ghost predicate QuietBlockHook<M>(sv: Services<M>, b: Binding<M>, phase: Phase, name: string, w: World, m: M) {
    !sv.blockHook(phase, name, w, m).panics && b.blockCalls(phase, name, w, m) == []
  }

  ghost predicate Careful<M(!new)>(sv: Services<M>, b: Binding<M>) {
    && Hosts(sv, b)
    && (forall tx, s :: CarefulCall(sv, b, tx, s))
    && (forall phase, name, tx, s :: QuietHook(sv, b, phase, name, tx, s))
    && (forall phase, name, w, m :: QuietBlockHook(sv, b, phase, name, w, m))
  }

  lemma {:induction false} SucceedInTwo(l: Ledger, digest: Digest, a: Calls, c: Calls)
    requires AllSucceed(l, digest, a) && AllSucceed(Run(l, digest, a), digest, c)
    ensures AllSucceed(l, digest, a + c)
  {
    if c == [] {
      assert a + c == a;
    } else {
      var n := |c| - 1;
      SucceedInTwo(l, digest, a, c[..n]);
      RunInTwo(l, digest, a, c[..n]);
      assert (a + c)[..|a + c| - 1] == a + c[..n];
    }
  }

  lemma {:induction false} HooksQuiet<M(!new)>(
      sv: Services<M>, b: Binding<M>, phase: Phase, k: nat, tx: Tx, s: TxState<M>)
    requires Careful(sv, b) && k <= |sv.names|
    ensures Hooks(sv, phase, k, tx, s).Some? && HooksKept(sv, b, phase, k, tx, s) == []
  {
    if k > 0 {
      HooksQuiet(sv, b, phase, k - 1, tx, s);
      assert QuietHook(sv, b, phase, sv.names[k - 1], tx, Hooks(sv, phase, k - 1, tx, s).value.0);
    }
  }

  lemma TxCareful<M(!new)>(sv: Services<M>, b: Binding<M>, tx: Tx, world: World, mem: M)
    requires Careful(sv, b) && b.Ready(world, mem)
    ensures RunTx(sv, tx, world, mem).Some? && TidyTx(sv, b, tx, world, mem)
    ensures AllSucceed(b.Seen(world), b.digest, TxKept(sv, b, tx, world, mem))
  {
    var n, s0 := |sv.names|, Start(world, mem);
    HooksQuiet(sv, b, Before, n, tx, s0);
    HooksFollow(sv, b, Before, n, tx, s0);
    var (s1, skip) := Hooks(sv, Before, n, tx, s0).value;
    assert CarefulCall(sv, b, tx, s1);
    var r2 := Call(sv, tx, s1, skip);
    HooksQuiet(sv, b, After, n, tx, r2.value.0);
    assert [] + CallKept(sv, b, tx, s1, skip) + [] == CallKept(sv, b, tx, s1, skip);
  }

  lemma {:induction false} TxsCareful<M(!new)>(
      sv: Services<M>, b: Binding<M>, txs: seq<Tx>, k: nat, world: World, mem: M)
    requires Careful(sv, b) && b.Ready(world, mem) && k <= |txs|
    ensures RunTxs(sv, txs, k, world, mem).Some? && TidyTxs(sv, b, txs, k, world, mem)
    ensures AllSucceed(b.Seen(world), b.digest, TxsKept(sv, b, txs, k, world, mem))
  {
    if k > 0 {
      TxsCareful(sv, b, txs, k - 1, world, mem);
      TxsFollow(sv, b, txs, k - 1, world, mem);
      var x := RunTxs(sv, txs, k - 1, world, mem).value;
      TxCareful(sv, b, txs[k - 1], x.world, x.mem);
      var kept := TxKept(sv, b, txs[k - 1], x.world, x.mem);
      SucceedInTwo(b.Seen(world), b.digest, TxsKept(sv, b, txs, k - 1, world, mem), kept);
    }
  }

  lemma {:induction false} BlockHooksQuiet<M(!new)>(
      sv: Services<M>, b: Binding<M>, phase: Phase, k: nat, world: World, mem: M)
    requires Careful(sv, b) && k <= |sv.names|
    ensures TidyBlockHooks(sv, b, phase, k, world, mem) && BlockHooksKept(sv, b, phase, k, world, mem) == []
  {
    if k > 0 {
      BlockHooksQuiet(sv, b, phase, k - 1, world, mem);
      var (w, m) := BlockHooks(sv, phase, k - 1, world, mem);
      assert QuietBlockHook(sv, b, phase, sv.names[k - 1], w, m);
    }
  }

  lemma OpeningCareful<M(!new)>(sv: Services<M>, b: Binding<M>, txs: seq<Tx>, k: nat, world: World)
    requires Careful(sv, b) && b.Ready(world, sv.build(world)) && k <= |txs|
    ensures TidyOpening(sv, b, txs, k, world)
    ensures AllSucceed(b.Seen(world), b.digest, OpeningKept(sv, b, txs, k, world))
    ensures var (w, m) := BlockHooks(sv, Before, |sv.names|, world, sv.build(world)); RunTxs(sv, txs, k, w, m).Some?
  {
    var n, mem := |sv.names|, sv.build(world);
    BlockHooksQuiet(sv, b, Before, n, world, mem);
    BlockHooksFollow(sv, b, Before, n, world, mem);
    var (w, m) := BlockHooks(sv, Before, n, world, mem);
    TxsCareful(sv, b, txs, k, w, m);
    assert [] + TxsKept(sv, b, txs, k, w, m) == TxsKept(sv, b, txs, k, w, m);
  }

  lemma BlockCareful<M(!new)>(sv: Services<M>, b: Binding<M>, txs: seq<Tx>, world: World)
    requires Careful(sv, b) && b.Ready(world, sv.build(world))
    ensures TidyOpening(sv, b, txs, |txs|, world) && TidyClosing(sv, b, txs, world)
    ensures RunBlock(sv, txs, world, sv.build(world)).Some?
    ensures AllSucceed(b.Seen(world), b.digest, BlockKept(sv, b, txs, world))
  {
    OpeningCareful(sv, b, txs, |txs|, world);
    var (w, m) := BlockHooks(sv, Before, |sv.names|, world, sv.build(world));
    var x := RunTxs(sv, txs, |txs|, w, m).value;
    BlockHooksQuiet(sv, b, After, |sv.names|, x.world, x.mem);
    assert OpeningKept(sv, b, txs, |txs|, world) + [] == OpeningKept(sv, b, txs, |txs|, world);
  }

  lemma {:induction false} ChainCareful<M(!new)>(
      sv: Services<M>, b: Binding<M>, blocks: seq<seq<Tx>>, n: nat, world: World)
    requires Careful(sv, b) && b.Ready(world, sv.build(world)) && n <= |blocks|
    ensures RunChain(sv, blocks, n, world).Some? && TidyChain(sv, b, blocks, n, world)
    ensures AllSucceed(b.Seen(world), b.digest, ChainKept(sv, b, blocks, n, world))
  {
    if n > 0 {
      ChainCareful(sv, b, blocks, n - 1, world);
      ChainFollows(sv, b, blocks, n - 1, world);
      var w := RunChain(sv, blocks, n - 1, world).value;
      BlockCareful(sv, b, blocks[n - 1], w);
      SucceedInTwo(b.Seen(world), b.digest, ChainKept(sv, b, blocks, n - 1, world), BlockKept(sv, b, blocks[n - 1], w));
    }
  }

  lemma PointCareful<M(!new)>(sv: Services<M>, b: Binding<M>, blocks: seq<seq<Tx>>, n: nat, k: nat, world: World)
    requires Careful(sv, b) && b.Ready(world, sv.build(world)) && n < |blocks| && k <= |blocks[n]|
    ensures TidySoFar(sv, b, blocks, n, k, world) && Inside(sv, blocks, n, k, world).Some?
    ensures AllSucceed(b.Seen(world), b.digest, KeptSoFar(sv, b, blocks, n, k, world))
  {
    ChainCareful(sv, b, blocks, n, world);
    ChainFollows(sv, b, blocks, n, world);
    var w := RunChain(sv, blocks, n, world).value;
    OpeningCareful(sv, b, blocks[n], k, w);
    SucceedInTwo(b.Seen(world), b.digest, ChainKept(sv, b, blocks, n, world), OpeningKept(sv, b, blocks[n], k, w));
  }

  // ----- the asset service is careful -----

  lemma FailedCreatesNothing(l: Ledger, digest: Digest, caller: Address, op: Op)
    requires Step(l, digest, caller, op).1 != OK
    ensures Step(l, digest, caller, op).0.assets == l.assets
  {
  }

  lemma OneOrNone(l: Ledger, digest: Digest, call: (Address, Op))
    ensures Run(l, digest, [call]) == Step(l, digest, call.0, call.1).0 && Run(l, digest, []) == l
    ensures AllSucceed(l, digest, [call]) <==> Succeeds(l, digest, call.0, call.1)
    ensures AllSucceed(l, digest, [])
  {
    assert [call][..0] == [];
    assert Run(l, digest, [call][..0]) == l && AllSucceed(l, digest, [call][..0]);
  }

  lemma AssetCallCareful(c: Codec, requests: Requests, digest: Digest, tx: Tx, s: TxState<Memory>)
    requires c.Ok() && AllInUse(c, requests, digest)
    ensures CarefulCall(AssetServices(c, requests, digest), BindingOf(c, requests, digest), tx, s)
  {
    var sv, b := AssetServices(c, requests, digest), BindingOf(c, requests, digest);
    assert sv.call(tx, s) == AssetCall(c, requests, digest, tx, s);
    if b.Ready(s.world, s.mem) && requests(tx).Some? {
      var call := requests(tx).value;
      ServeFollows(c, s.world[ASSET], s.mem, digest, call.0, call.1);
      OneOrNone(b.Seen(s.world), digest, call);
      assert b.callCalls(tx, s) == [call];
      if !Succeeds(b.Seen(s.world), digest, call.0, call.1) {
        FailedCreatesNothing(b.Seen(s.world), digest, call.0, call.1);
      }
    }
  }

  lemma AssetServiceIsCareful(c: Codec, requests: Requests, digest: Digest)
    requires c.Ok() && AllInUse(c, requests, digest)
    ensures Careful(AssetServices(c, requests, digest), BindingOf(c, requests, digest))
  {
    AssetServiceHosts(c, requests, digest);
    var sv, b := AssetServices(c, requests, digest), BindingOf(c, requests, digest);
    forall tx, s
      ensures CarefulCall(sv, b, tx, s)
    {
      AssetCallCareful(c, requests, digest, tx, s);
    }
    assert forall phase, name, tx, s :: QuietHook(sv, b, phase, name, tx, s);
    assert forall phase, name, w, m :: QuietBlockHook(sv, b, phase, name, w, m);
  }

  // ----- genesis -----

  lemma EmptyIsGood(c: Codec)
    ensures c.Good(map[], Build(c.layout, map[])) && c.LedgerIn(map[]) == EMPTY
  {
    var l, m: Entries := c.layout, map[];
    EmptyIsSound(l);
    BuiltInStep(l, m);
    assert Contents(l, Stored(l, m), m) == map[];
  }

  /** The entries after genesis: the first asset is listed and its issuer holds the supply. */
  function InitGenesis(c: Codec, id: Id, asset: Asset): Entries {
    var b: Balances := map[(id, asset.issuer) := Balance(asset.supply, map[])];
    var o := Do(c.layout, Build(c.layout, map[]), map[], Insert(c.keyOf(id), c.encodeAsset(asset)));
    Write(map[], o.writes + BalanceWrites(c, b, (id, asset.issuer), (id, asset.issuer)))
  }

  /** Genesis leaves the ledger that chains start from, and a memory built from it is in step. */
  lemma Genesis(c: Codec, id: Id, asset: Asset)
    requires c.Ok() && c.layout.keys(c.keyOf(id)) && c.accounts((id, asset.issuer))
    ensures var m := InitGenesis(c, id, asset);
            c.Good(m, Build(c.layout, m)) && c.LedgerIn(m) == Issued(EMPTY, id, asset)
  {
    EmptyIsGood(c);
    var mem := Build(c.layout, map[]);
    var b: Balances := map[(id, asset.issuer) := Balance(asset.supply, map[])];
    ServeCreates(c, map[], mem, id, asset, b, (id, asset.issuer), (id, asset.issuer));
    BuiltInStep(c.layout, InitGenesis(c, id, asset));
  }

  /** For the asset service alone, whatever blocks and transactions come: from genesis, after every
      transaction of every block, nothing has panicked, balances sum to supplies, and what is left of a
      grant and what was moved by it since it was last approved add up to what was approved. */
  lemma AssetLedgerOnChain(
      c: Codec, requests: Requests, digest: Digest, blocks: seq<seq<Tx>>, n: nat, k: nat, world: World,
      id: Id, asset: Asset, g: Grant)
    requires c.Ok() && AllInUse(c, requests, digest) && c.layout.keys(c.keyOf(id)) && c.accounts((id, asset.issuer))
    requires n < |blocks| && k <= |blocks[n]|
    requires ASSET in world && world[ASSET] == InitGenesis(c, id, asset)
    ensures var sv, b := AssetServices(c, requests, digest), BindingOf(c, requests, digest);
            var r := Inside(sv, blocks, n, k, world);
            && r.Some? && ASSET in r.value.world
            && var l := c.LedgerIn(r.value.world[ASSET]);
               var kept := KeptSoFar(sv, b, blocks, n, k, world);
               var (approved, moved, _) := RawBooks(g, Issued(EMPTY, id, asset), digest, kept);
               Conserved(l) && g.In(l) as nat + moved == approved
  {
    var sv, b := AssetServices(c, requests, digest), BindingOf(c, requests, digest);
    AssetServiceIsCareful(c, requests, digest);
    Genesis(c, id, asset);
    assert b.Ready(world, sv.build(world));
    PointCareful(sv, b, blocks, n, k, world);
    LedgerOnChain(sv, b, blocks, n, k, world, id, asset, g);
  }
}
