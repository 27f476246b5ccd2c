/** What a transaction comes to, read off the effects of its hooks and its call one by one. */
module TxAnatomy {
  import opened Types
  import opened StateMap
  import opened BlockSpec

  // ----- cycles -----

  lemma {:induction false} ChargeInTwo(used: nat, limit: nat, a: seq<nat>, b: seq<nat>)
    ensures Charge(used, limit, a + b) == Charge(Charge(used, limit, a), limit, b)
  {
    if b == [] {
      assert a + b == a;
    } else {
      ChargeInTwo(used, limit, a, b[..|b| - 1]);
      assert (a + b)[..|a + b| - 1] == a + b[..|b| - 1];
    }
  }

  function Sum(charges: seq<nat>): nat {
    if charges == [] then 0 else charges[0] + Sum(charges[1..])
  }

  /** One request is charged if it fits and not at all otherwise. */
  lemma ChargeOne(used: nat, limit: nat, c: nat)
    ensures Charge(used, limit, [c]) == if used + c <= limit then used + c else used
  {
    assert [c][..0] == [];
    assert Charge(used, limit, [c][..0]) == used;
  }

  /** Requests that fit together are all charged; of those that do not, each is charged if it fits behind
      what was charged before it. */
  lemma {:induction false} ChargedIs(used: nat, limit: nat, charges: seq<nat>)
    ensures used + Sum(charges) <= limit ==> Charge(used, limit, charges) == used + Sum(charges)
    ensures charges != [] ==>
              Charge(used, limit, charges) ==
              Charge(if used + charges[0] <= limit then used + charges[0] else used, limit, charges[1..])
    decreases |charges|
  {
    if charges != [] {
      var c, rest := charges[0], charges[1..];
      ChargeInTwo(used, limit, [c], rest);
      ChargeOne(used, limit, c);
      assert [c] + rest == charges;
      ChargedIs(if used + c <= limit then used + c else used, limit, rest);
    }
  }

  // ----- hooks -----

  /** The state after the first `i` effects of a phase, whatever they answer. */
  function Along<M>(sv: Services<M>, phase: Phase, i: nat, tx: Tx, s: TxState<M>): TxState<M>
    requires i <= |sv.names|
  {
    if i == 0 then s
    else
      var t := Along(sv, phase, i - 1, tx, s);
      var e := sv.txHook(phase, sv.names[i - 1], tx, t);
      TxState(WriteWorld(t.world, e.writes), Charge(t.used, tx.cyclesLimit, e.charges), t.events + e.events,
              t.canceled, e.mem)
  }

  /** What hook `i` does, where it runs. */
  function HookEffect<M>(sv: Services<M>, phase: Phase, i: nat, tx: Tx, s: TxState<M>): Effect<M>
    requires i < |sv.names|
  {
    sv.txHook(phase, sv.names[i], tx, Along(sv, phase, i, tx, s))
  }

  ghost predicate SomePanics<M>(sv: Services<M>, phase: Phase, k: nat, tx: Tx, s: TxState<M>)
    requires k <= |sv.names|
  {
    exists i | 0 <= i < k :: HookEffect(sv, phase, i, tx, s).panics
  }

  ghost predicate SomeErrs<M>(sv: Services<M>, phase: Phase, k: nat, tx: Tx, s: TxState<M>)
    requires k <= |sv.names|
  {
    exists i | 0 <= i < k :: HookEffect(sv, phase, i, tx, s).code != 0
  }

  /** Hooks fail if and only if one of them panics; otherwise they end in the state their effects lead
      to, and report an error if and only if one of them answered with one. */
  lemma {:induction false} HooksAre<M>(sv: Services<M>, phase: Phase, k: nat, tx: Tx, s: TxState<M>)
    requires k <= |sv.names|
    ensures var r := Hooks(sv, phase, k, tx, s);
            && (r.None? <==> SomePanics(sv, phase, k, tx, s))
            && (r.Some? ==> r.value.0 == Along(sv, phase, k, tx, s))
            && (r.Some? ==> (r.value.1 <==> SomeErrs(sv, phase, k, tx, s)))
  {
    if k > 0 {
      HooksAre(sv, phase, k - 1, tx, s);
      var e := HookEffect(sv, phase, k - 1, tx, s);
      assert SomePanics(sv, phase, k, tx, s) <==> SomePanics(sv, phase, k - 1, tx, s) || e.panics;
      assert SomeErrs(sv, phase, k, tx, s) <==> SomeErrs(sv, phase, k - 1, tx, s) || e.code != 0;
    }
  }

  /** Hooks add events and leave the mark of a failed call alone. */
  lemma {:induction false} AlongAdds<M>(sv: Services<M>, phase: Phase, k: nat, tx: Tx, s: TxState<M>)
    requires k <= |sv.names|
    ensures var t := Along(sv, phase, k, tx, s); s.events <= t.events && t.canceled == s.canceled
  {
    if k > 0 {
      AlongAdds(sv, phase, k - 1, tx, s);
    }
  }

  // ----- the whole transaction -----

  /** The state in which the call is to be made. */
  function AtCall<M>(sv: Services<M>, tx: Tx, world: World, mem: M): TxState<M> {
    Along(sv, Before, |sv.names|, tx, Start(world, mem))
  }

  ghost predicate Refused<M>(sv: Services<M>, tx: Tx, world: World, mem: M) {
    SomeErrs(sv, Before, |sv.names|, tx, Start(world, mem))
  }

  /** The end of a transaction: the after-hooks, which may panic, and may object and so take back all events
      but the first ones, those from before the call. */
  ghost predicate Closed<M>(sv: Services<M>, tx: Tx, s: TxState<M>, first: seq<Event>, r: Option<TxState<M>>) {
    var t := Along(sv, After, |sv.names|, tx, s);
    && (r.None? <==> SomePanics(sv, After, |sv.names|, tx, s))
    && (r.Some? ==> r.value == if SomeErrs(sv, After, |sv.names|, tx, s) then t.(events := first) else t)
  }

  /** The state that a transaction ends in, without its code. */
  function Ended<M>(r: Option<(TxState<M>, nat)>): Option<TxState<M>> {
    if r.None? then None else Some(r.value.0)
  }

  lemma ClosedIs<M>(sv: Services<M>, tx: Tx, s: TxState<M>, first: seq<Event>)
    requires first <= s.events
    ensures var r := Hooks(sv, After, |sv.names|, tx, s);
            if r.None? then Closed(sv, tx, s, first, None)
            else
              var (t, objected) := r.value;
              Closed(sv, tx, s, first, Some(if objected then t.(events := Truncate(t.events, |first|)) else t))
  {
    HooksAre(sv, After, |sv.names|, tx, s);
    AlongAdds(sv, After, |sv.names|, tx, s);
    var t := Along(sv, After, |sv.names|, tx, s);
    assert Truncate(t.events, |first|) == first;
  }

  /** How a transaction goes on from its call. */
  ghost predicate GoesOn<M>(sv: Services<M>, tx: Tx, world: World, mem: M, s: TxState<M>, code: nat) {
    var r := RunTx(sv, tx, world, mem);
    Closed(sv, tx, s, AtCall(sv, tx, world, mem).events, Ended(r)) && (r.Some? ==> r.value.1 == code)
  }

  lemma CallGoesOn<M>(sv: Services<M>, tx: Tx, world: World, mem: M)
    requires !SomePanics(sv, Before, |sv.names|, tx, Start(world, mem))
    ensures var s := AtCall(sv, tx, world, mem);
            var r := Call(sv, tx, s, Refused(sv, tx, world, mem));
            if r.None? then RunTx(sv, tx, world, mem).None?
            else s.events <= r.value.0.events ==> GoesOn(sv, tx, world, mem, r.value.0, r.value.1)
  {
    var n, s0 := |sv.names|, Start(world, mem);
    HooksAre(sv, Before, n, tx, s0);
    var s := AtCall(sv, tx, world, mem);
    var r := Call(sv, tx, s, Refused(sv, tx, world, mem));
    if r.Some? && s.events <= r.value.0.events {
      ClosedIs(sv, tx, r.value.0, s.events);
    }
  }

  /** A before-hook that panics fails the transaction, and with it the block. */
  lemma PanicFails<M>(sv: Services<M>, tx: Tx, world: World, mem: M)
    requires SomePanics(sv, Before, |sv.names|, tx, Start(world, mem))
    ensures RunTx(sv, tx, world, mem).None?
  {
    HooksAre(sv, Before, |sv.names|, tx, Start(world, mem));
  }

  /** If any before-hook answers with an error, the call is not made: the answer is the code for that, and
      neither the state nor events, cycles or memory have anything of it. */
  lemma RefusedIsSkipped<M>(sv: Services<M>, tx: Tx, world: World, mem: M)
    requires !SomePanics(sv, Before, |sv.names|, tx, Start(world, mem)) && Refused(sv, tx, world, mem)
    ensures GoesOn(sv, tx, world, mem, AtCall(sv, tx, world, mem).(canceled := true), SKIP_TX_RUN)
  {
    CallGoesOn(sv, tx, world, mem);
  }

  /** Likewise for a service that does not exist. */
  lemma UnknownIsSkipped<M>(sv: Services<M>, tx: Tx, world: World, mem: M)
    requires !SomePanics(sv, Before, |sv.names|, tx, Start(world, mem)) && !Refused(sv, tx, world, mem)
    requires tx.service !in sv.names
    ensures GoesOn(sv, tx, world, mem, AtCall(sv, tx, world, mem).(canceled := true), SERVICE_NOT_FOUND)
  {
    CallGoesOn(sv, tx, world, mem);
  }

  /** Otherwise the call is made. If it panics the transaction fails; if it answers with an error, its
      cycles and memory are kept and its writes and events are not; if it succeeds, all is kept. */
  lemma CallIsMade<M>(sv: Services<M>, tx: Tx, world: World, mem: M)
    requires !SomePanics(sv, Before, |sv.names|, tx, Start(world, mem)) && !Refused(sv, tx, world, mem)
    requires tx.service in sv.names
    ensures var s := AtCall(sv, tx, world, mem);
            var e := sv.call(tx, s);
            var used := Charge(s.used, tx.cyclesLimit, e.charges);
            if e.panics then RunTx(sv, tx, world, mem).None?
            else if e.code != 0 then
              GoesOn(sv, tx, world, mem, TxState(s.world, used, s.events, true, e.mem), e.code)
            else
              var after := TxState(WriteWorld(s.world, e.writes), used, s.events + e.events, s.canceled, e.mem);
              GoesOn(sv, tx, world, mem, after, 0)
  {
    CallGoesOn(sv, tx, world, mem);
  }

  // ----- blocks -----

  /** Each receipt is its transaction's own: hash, service, method, code, events and cycles, where the
      transaction ran. */
  lemma {:induction false} ReceiptsAre<M>(sv: Services<M>, txs: seq<Tx>, k: nat, world: World, mem: M, i: nat)
    requires i < k <= |txs| && RunTxs(sv, txs, k, world, mem).Some?
    ensures RunTxs(sv, txs, i, world, mem).Some? && |RunTxs(sv, txs, k, world, mem).value.receipts| == k
    ensures var x := RunTxs(sv, txs, i, world, mem).value;
            var r := RunTx(sv, txs[i], x.world, x.mem);
            var receipt := RunTxs(sv, txs, k, world, mem).value.receipts[i];
            && r.Some?
            && receipt.txHash == txs[i].hash && receipt.service == txs[i].service && receipt.method' == txs[i].method'
            && receipt.code == r.value.1 && receipt.events == r.value.0.events && receipt.cyclesUsed == r.value.0.used
  {
    ReceiptsMatch(sv, txs, k - 1, world, mem);
    if i < k - 1 {
      ReceiptsAre(sv, txs, k - 1, world, mem, i);
    }
  }

  /** The total of a block is the sum over its receipts. */
  lemma {:induction false} TotalAddsUp(a: seq<Receipt>, b: seq<Receipt>)
    ensures TotalCycles(a + b) == TotalCycles(a) + TotalCycles(b)
    ensures forall r :: TotalCycles([r]) == r.cyclesUsed
  {
    forall r
      ensures TotalCycles([r]) == r.cyclesUsed
    {
      assert [r][..0] == [];
      assert TotalCycles([r][..0]) == 0;
    }
    if b == [] {
      assert a + b == a;
    } else {
      TotalAddsUp(a, b[..|b| - 1]);
      assert (a + b)[..|a + b| - 1] == a + b[..|b| - 1];
    }
  }

  /** The receipts of a block get its state root and change in nothing else. */
  lemma {:induction false} RootedIs(receipts: seq<Receipt>, root: Bytes, i: nat)
    requires i < |receipts|
    ensures |Rooted(receipts, root)| == |receipts| && Rooted(receipts, root)[i] == receipts[i].(stateRoot := root)
  {
  }
}
