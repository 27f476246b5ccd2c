/** Executing a block, as a plain fold over one flat state per service: no layers, no undo.

    What services do is a parameter: each hook and call is a function of what it can see. Services
    also have a memory of their own, of any type. It lasts as long as the executor, and nothing that
    undoes writes undoes it. */
module BlockSpec {
  import opened Types
  import opened StateMap

  const SKIP_TX_RUN: nat := 65535
  const SERVICE_NOT_FOUND: nat := 62077

  datatype Event = Event(service: string, name: string, data: string)

  datatype Tx = Tx(
    hash: Bytes, sender: Bytes, cyclesLimit: nat, service: string, method': string, payload: string)

  /** What a service can see of the running transaction, its memory included. */
  datatype TxState<M> = TxState(world: World, used: nat, events: seq<Event>, canceled: bool, mem: M)

  /** What a service does: it may panic, it answers with a code (zero is success), and it leaves
      its memory as `mem`. */
  datatype Effect<M> = Effect(
    panics: bool, writes: World, charges: seq<nat>, events: seq<Event>, code: nat, mem: M)

  datatype BlockEffect<M> = BlockEffect(panics: bool, writes: World, mem: M)

  datatype Phase = Before | After

  /** `build` is the memory services start with when they are built on a state. */
  datatype Services<!M> = Services(
    names: seq<string>,
    txHook: (Phase, string, Tx, TxState<M>) -> Effect<M>,
    call: (Tx, TxState<M>) -> Effect<M>,
    blockHook: (Phase, string, World, M) -> BlockEffect<M>,
    build: World -> M,
    root: World -> Bytes)

  /** Cycles are charged one request at a time; a request over the limit is refused. */
  function Charge(used: nat, limit: nat, charges: seq<nat>): nat {
    if charges == [] then used
    else
      var u := Charge(used, limit, charges[..|charges| - 1]);
      if u + charges[|charges| - 1] <= limit then u + charges[|charges| - 1] else u
  }

  function Apply<M>(s: TxState<M>, limit: nat, e: Effect<M>): TxState<M> {
    TxState(WriteWorld(s.world, e.writes), Charge(s.used, limit, e.charges), s.events + e.events, s.canceled, e.mem)
  }

  /** The hooks of the first `k` services, in order; each keeps its writes even when it answers with
      an error, and a panic stops the block. The flag tells whether any answered with an error. */
  function Hooks<M>(sv: Services<M>, phase: Phase, k: nat, tx: Tx, s: TxState<M>): Option<(TxState<M>, bool)>
    requires k <= |sv.names|
  {
    if k == 0 then Some((s, false))
    else
      match Hooks(sv, phase, k - 1, tx, s)
      case None => None
      case Some((t, bad)) =>
        var e := sv.txHook(phase, sv.names[k - 1], tx, t);
        if e.panics then None else Some((Apply(t, tx.cyclesLimit, e), bad || e.code != 0))
  }

  /** A failed call keeps the cycles it used and what it did to its service's memory. */
  function Failed<M>(s: TxState<M>, limit: nat, e: Effect<M>): TxState<M> {
    s.(used := Charge(s.used, limit, e.charges), canceled := true, mem := e.mem)
  }

  /** What the call does: nothing but an error code when a hook objected or the service is unknown. */
  function CallEffect<M>(sv: Services<M>, tx: Tx, s: TxState<M>, objected: bool): Effect<M> {
    if objected then Effect(false, map[], [], [], SKIP_TX_RUN, s.mem)
    else if tx.service !in sv.names then Effect(false, map[], [], [], SERVICE_NOT_FOUND, s.mem)
    else sv.call(tx, s)
  }

  /** The call: its writes and events are kept iff its code is zero. */
  function Call<M>(sv: Services<M>, tx: Tx, s: TxState<M>, objected: bool): Option<(TxState<M>, nat)> {
    var e := CallEffect(sv, tx, s, objected);
    if e.panics then None
    else if e.code != 0 then Some((Failed(s, tx.cyclesLimit, e), e.code))
    else Some((Apply(s, tx.cyclesLimit, e), 0))
  }

  function Truncate(events: seq<Event>, n: nat): seq<Event> {
    if n <= |events| then events[..n] else events
  }

  function Start<M>(world: World, mem: M): TxState<M> {
    TxState(world, 0, [], false, mem)
  }

  function RunTx<M>(sv: Services<M>, tx: Tx, world: World, mem: M): Option<(TxState<M>, nat)> {
    match Hooks(sv, Before, |sv.names|, tx, Start(world, mem))
    case None => None
    case Some((s1, skip)) =>
      match Call(sv, tx, s1, skip)
      case None => None
      case Some((s2, code)) =>
        match Hooks(sv, After, |sv.names|, tx, s2)
        case None => None
        case Some((s3, objected)) =>
          Some((if objected then s3.(events := Truncate(s3.events, |s1.events|)) else s3, code))
  }

  datatype Receipt = Receipt(
    stateRoot: Bytes, txHash: Bytes, cyclesUsed: nat, events: seq<Event>, service: string, method': string, code: nat)

  datatype Response = Response(receipts: seq<Receipt>, allCyclesUsed: nat, stateRoot: Bytes)

  /** A receipt before the state root is known. */
  function ReceiptOf<M>(tx: Tx, s: TxState<M>, code: nat): Receipt {
    Receipt([], tx.hash, s.used, s.events, tx.service, tx.method', code)
  }

  /** Between transactions. */
  datatype BlockState<M> = BlockState(world: World, mem: M, receipts: seq<Receipt>)

  /** The first `k` transactions, each from the state and memory the one before left. */
  function RunTxs<M>(sv: Services<M>, txs: seq<Tx>, k: nat, world: World, mem: M): Option<BlockState<M>>
    requires k <= |txs|
  {
    if k == 0 then Some(BlockState(world, mem, []))
    else
      match RunTxs(sv, txs, k - 1, world, mem)
      case None => None
      case Some(b) =>
        match RunTx(sv, txs[k - 1], b.world, b.mem)
        case None => None
        case Some((s, code)) =>
          Some(BlockState(s.world, s.mem, b.receipts + [ReceiptOf(txs[k - 1], s, code)]))
  }

  /** Block hooks of the first `k` services: a hook's writes are kept iff it does not panic. */
  function BlockHooks<M>(sv: Services<M>, phase: Phase, k: nat, world: World, mem: M): (World, M)
    requires k <= |sv.names|
  {
    if k == 0 then (world, mem)
    else
      var (w, m) := BlockHooks(sv, phase, k - 1, world, mem);
      var e := sv.blockHook(phase, sv.names[k - 1], w, m);
      (if e.panics then w else WriteWorld(w, e.writes), e.mem)
  }

  function RunBlock<M>(sv: Services<M>, txs: seq<Tx>, world: World, mem: M): Option<BlockState<M>> {
    var (w, m) := BlockHooks(sv, Before, |sv.names|, world, mem);
    match RunTxs(sv, txs, |txs|, w, m)
    case None => None
    case Some(b) =>
      var (w', m') := BlockHooks(sv, After, |sv.names|, b.world, b.mem);
      Some(BlockState(w', m', b.receipts))
  }

  /** The first `n` blocks, each run by services built on the state the one before left. */
  function RunChain<M>(sv: Services<M>, blocks: seq<seq<Tx>>, n: nat, world: World): Option<World>
    requires n <= |blocks|
  {
    if n == 0 then Some(world)
    else
      match RunChain(sv, blocks, n - 1, world)
      case None => None
      case Some(w) =>
        match RunBlock(sv, blocks[n - 1], w, sv.build(w))
        case None => None
        case Some(b) => Some(b.world)
  }

  /** Inside block `n`, after `k` of its transactions. */
  function Inside<M>(sv: Services<M>, blocks: seq<seq<Tx>>, n: nat, k: nat, world: World): Option<BlockState<M>>
    requires n < |blocks| && k <= |blocks[n]|
  {
    match RunChain(sv, blocks, n, world)
    case None => None
    case Some(w) =>
      var (w', m) := BlockHooks(sv, Before, |sv.names|, w, sv.build(w));
      RunTxs(sv, blocks[n], k, w', m)
  }

  function TotalCycles(receipts: seq<Receipt>): nat {
    if receipts == [] then 0 else TotalCycles(receipts[..|receipts| - 1]) + receipts[|receipts| - 1].cyclesUsed
  }

  function Rooted(receipts: seq<Receipt>, root: Bytes): seq<Receipt> {
    seq(|receipts|, i requires 0 <= i < |receipts| => receipts[i].(stateRoot := root))
  }

  // ----- what the fold promises -----

  lemma {:induction false} ChargeBounded(used: nat, limit: nat, charges: seq<nat>)
    requires used <= limit
    ensures used <= Charge(used, limit, charges) <= limit
  {
    if charges != [] {
      ChargeBounded(used, limit, charges[..|charges| - 1]);
    }
  }

  lemma {:induction false} HooksBounded<M>(sv: Services<M>, phase: Phase, k: nat, tx: Tx, s: TxState<M>)
    requires k <= |sv.names| && s.used <= tx.cyclesLimit
    ensures var r := Hooks(sv, phase, k, tx, s);
            r.Some? ==> r.value.0.used <= tx.cyclesLimit && s.events <= r.value.0.events
  {
    if k > 0 {
      HooksBounded(sv, phase, k - 1, tx, s);
      var r := Hooks(sv, phase, k - 1, tx, s);
      if r.Some? {
        var e := sv.txHook(phase, sv.names[k - 1], tx, r.value.0);
        ChargeBounded(r.value.0.used, tx.cyclesLimit, e.charges);
      }
    }
  }

  /** Across hooks and calls a transaction never uses more cycles than its limit. */
  lemma TxCyclesBounded<M>(sv: Services<M>, tx: Tx, world: World, mem: M)
    ensures var r := RunTx(sv, tx, world, mem); r.Some? ==> r.value.0.used <= tx.cyclesLimit
  {
    var s0 := Start(world, mem);
    HooksBounded(sv, Before, |sv.names|, tx, s0);
    var r1 := Hooks(sv, Before, |sv.names|, tx, s0);
    if r1.Some? {
      var s1 := r1.value.0;
      ChargeBounded(s1.used, tx.cyclesLimit, CallEffect(sv, tx, s1, r1.value.1).charges);
      var r2 := Call(sv, tx, s1, r1.value.1);
      if r2.Some? {
        HooksBounded(sv, After, |sv.names|, tx, r2.value.0);
      }
    }
  }

  /** Receipts answer transactions one to one, in order and within their limits. */
  lemma {:induction false} ReceiptsMatch<M>(sv: Services<M>, txs: seq<Tx>, k: nat, world: World, mem: M)
    requires k <= |txs|
    ensures var r := RunTxs(sv, txs, k, world, mem);
            r.Some? ==>
              && |r.value.receipts| == k
              && forall i | 0 <= i < k ::
                   && r.value.receipts[i].txHash == txs[i].hash
                   && r.value.receipts[i].service == txs[i].service
                   && r.value.receipts[i].cyclesUsed <= txs[i].cyclesLimit
  {
    if k > 0 {
      ReceiptsMatch(sv, txs, k - 1, world, mem);
      var r := RunTxs(sv, txs, k - 1, world, mem);
      if r.Some? {
        TxCyclesBounded(sv, txs[k - 1], r.value.world, r.value.mem);
      }
    }
  }

  /** The same services, except that no hook after the call objects. */
  function Agreeing<M>(sv: Services<M>): Services<M> {
    sv.(txHook := (phase, name, tx, s) =>
        var e := sv.txHook(phase, name, tx, s);
        if phase == After then e.(code := 0) else e)
  }

  lemma {:induction false} HooksAgreeing<M>(sv: Services<M>, phase: Phase, k: nat, tx: Tx, s: TxState<M>)
    requires k <= |sv.names|
    ensures var r := Hooks(sv, phase, k, tx, s);
            Hooks(Agreeing(sv), phase, k, tx, s) ==
            if r.Some? && phase == After then Some((r.value.0, false)) else r
  {
    if k > 0 {
      HooksAgreeing(sv, phase, k - 1, tx, s);
    }
  }

  /** An objection by an after-hook undoes nothing in the state: with it or without, the world, the
      cycles and the code are the same; only the events since the call are dropped. */
  lemma ObjectionDropsOnlyEvents<M>(sv: Services<M>, tx: Tx, world: World, mem: M)
    ensures var r, agreed := RunTx(sv, tx, world, mem), RunTx(Agreeing(sv), tx, world, mem);
            && r.None? == agreed.None?
            && (r.Some? ==>
                  && r.value.1 == agreed.value.1
                  && r.value.0.(events := agreed.value.0.events) == agreed.value.0
                  && r.value.0.events <= agreed.value.0.events)
  {
    var s0 := Start(world, mem);
    HooksAgreeing(sv, Before, |sv.names|, tx, s0);
    var r1 := Hooks(sv, Before, |sv.names|, tx, s0);
    if r1.Some? {
      var (s1, skip) := r1.value;
      assert Call(Agreeing(sv), tx, s1, skip) == Call(sv, tx, s1, skip);
      var r2 := Call(sv, tx, s1, skip);
      if r2.Some? {
        HooksAgreeing(sv, After, |sv.names|, tx, r2.value.0);
      }
    }
  }

  /** A hook that panics makes the whole sequence fail. */
  lemma {:induction false} HooksFailOnce<M>(sv: Services<M>, phase: Phase, k: nat, n: nat, tx: Tx, s: TxState<M>)
    requires k <= n <= |sv.names| && Hooks(sv, phase, k, tx, s).None?
    ensures Hooks(sv, phase, n, tx, s).None?
  {
    if k < n {
      HooksFailOnce(sv, phase, k, n - 1, tx, s);
    }
  }

  lemma {:induction false} TxsFailOnce<M>(sv: Services<M>, txs: seq<Tx>, k: nat, n: nat, world: World, mem: M)
    requires k <= n <= |txs| && RunTxs(sv, txs, k, world, mem).None?
    ensures RunTxs(sv, txs, n, world, mem).None?
  {
    if k < n {
      TxsFailOnce(sv, txs, k, n - 1, world, mem);
    }
  }
}
