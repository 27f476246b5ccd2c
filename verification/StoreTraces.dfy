/** Services whose memory is a store map: the exact condition for a failing call to leave no trace in
    whatever follows it in the block, and what happens otherwise. */
module StoreTraces {
  import opened Types
  import opened ServiceState
  import opened StateMap
  import opened BlockSpec
  import opened Traces
  import opened StoreMap
  import opened StoreContents

  const NAME: string := "service"

  /** The entries the store map lives in. */
  function EntriesOf(w: World): Entries {
    if NAME in w then Present(w[NAME]) else map[]
  }

  function Look(l: Layout): (Memory, World) -> Seen {
    (mem, w) => SeenOf(l, mem, EntriesOf(w))
  }

  /** A service with this call, whose hooks do nothing. */
  function QuietService(l: Layout, call: (Tx, TxState<Memory>) -> Effect<Memory>): Services<Memory> {
    Services(
      [NAME],
      (phase: Phase, name: string, tx: Tx, s: TxState<Memory>) => Effect(false, map[], [], [], 0, s.mem),
      call,
      (phase: Phase, name: string, w: World, m: Memory) => BlockEffect(false, map[], m),
      (w: World) => Build(l, EntriesOf(w)),
      (w: World) => [])
  }

  /** A service that makes one operation for each transaction and answers with a code. */
  function OpService(l: Layout, opOf: Tx -> StoreOp, codeOf: (Tx, Answer) -> nat): Services<Memory> {
    QuietService(l, (tx: Tx, s: TxState<Memory>) => OpEffect(l, opOf(tx), codeOf, tx, s))
  }

  function OpEffect(l: Layout, op: StoreOp, codeOf: (Tx, Answer) -> nat, tx: Tx, s: TxState<Memory>): Effect<Memory> {
    var o := Do(l, s.mem, EntriesOf(s.world), op);
    Effect(o.answer == Panic, map[NAME := o.writes], [], [], codeOf(tx, o.answer), o.mem)
  }

  lemma EntriesAfter(w: World, ws: Entries)
    requires NAME in w
    ensures EntriesOf(WriteWorld(w, map[NAME := ws])) == Write(EntriesOf(w), ws)
    ensures Present(EntriesOf(w)) == EntriesOf(w)
  {
    PresentFirst(w[NAME], ws);
  }

  lemma OpEffectBlind(l: Layout, op: StoreOp, codeOf: (Tx, Answer) -> nat, tx: Tx, s: TxState<Memory>, m: Memory)
    requires l.Ok() && l.Fits(op) && Look(l)(s.mem, s.world) == Look(l)(m, s.world)
    ensures SameLook(Look(l), OpEffect(l, op, codeOf, tx, s), OpEffect(l, op, codeOf, tx, s.(mem := m)), s.world)
  {
    var e := EntriesOf(s.world);
    SeenDecides(l, s.mem, m, e, op);
    SeenAfter(l, s.mem, e, op);
    SeenAfter(l, m, e, op);
    var ws := Do(l, m, e, op).writes;
    if NAME in s.world {
      EntriesAfter(s.world, ws);
      OneMore(l, s.mem, m, e, op);
    } else {
      assert NAME !in WriteWorld(s.world, map[NAME := ws]);
    }
  }

  lemma NoWrites(w: World)
    ensures EntriesOf(WriteWorld(w, map[])) == EntriesOf(w)
  {
  }

  /** Such a service sees what its call sees. */
  lemma QuietServiceBlind(l: Layout, call: (Tx, TxState<Memory>) -> Effect<Memory>)
    requires forall tx, s, m :: CallBlind(QuietService(l, call), Look(l), tx, s, m)
    ensures Blind(QuietService(l, call), Look(l))
  {
    var sv, obs := QuietService(l, call), Look(l);
    forall phase, name, tx, s, m
      ensures HookBlind(sv, obs, phase, name, tx, s, m)
    {
      NoWrites(s.world);
    }
    forall phase, name, w, a, b
      ensures BlockBlind(sv, obs, phase, name, w, a, b)
    {
      NoWrites(w);
    }
  }

  lemma OpServiceBlind(l: Layout, opOf: Tx -> StoreOp, codeOf: (Tx, Answer) -> nat)
    requires l.Ok() && forall tx :: l.Fits(opOf(tx))
    ensures Blind(OpService(l, opOf, codeOf), Look(l))
  {
    var call := (tx: Tx, s: TxState<Memory>) => OpEffect(l, opOf(tx), codeOf, tx, s);
    var sv, obs := QuietService(l, call), Look(l);
    forall tx, s, m
      ensures CallBlind(sv, obs, tx, s, m)
    {
      if obs(s.mem, s.world) == obs(m, s.world) {
        OpEffectBlind(l, opOf(tx), codeOf, tx, s, m);
      }
    }
    QuietServiceBlind(l, call);
  }

  // ----- the exact condition -----

  /** Whatever such services do next, receipts and state come out the same on either memory. */
  ghost predicate NoDifference(l: Layout, world: World, a: Memory, b: Memory) {
    forall sv: Services<Memory>, txs: seq<Tx> | Blind(sv, Look(l)) ::
      SameOutcome(Look(l), RunTxs(sv, txs, |txs|, world, a), RunTxs(sv, txs, |txs|, world, b))
  }

  /** A transaction to the service, with this payload. */
  function To(payload: string): Tx {
    Tx([], [], 0, NAME, "", payload)
  }

  lemma QuietHooks(
      l: Layout, call: (Tx, TxState<Memory>) -> Effect<Memory>, phase: Phase, tx: Tx, s: TxState<Memory>)
    ensures Hooks(QuietService(l, call), phase, 1, tx, s) == Some((s, false))
  {
    var sv := QuietService(l, call);
    assert Hooks(sv, phase, 0, tx, s) == Some((s, false));
    var e: Effect<Memory> := Effect(false, map[], [], [], 0, s.mem);
    assert sv.txHook(phase, sv.names[0], tx, s) == e;
    assert Apply(s, tx.cyclesLimit, e) == s by {
      assert WriteWorld(s.world, map[]) == s.world;
      assert s.events + [] == s.events;
    }
  }

  /** One transaction of the service: its call, kept if its code is zero. */
  lemma OneCall(l: Layout, call: (Tx, TxState<Memory>) -> Effect<Memory>, tx: Tx, world: World, mem: Memory)
    requires tx.service == NAME
    ensures var e := call(tx, Start(world, mem));
            var r := RunTx(QuietService(l, call), tx, world, mem);
            if e.panics then r.None?
            else
              && r.Some? && r.value.1 == e.code && r.value.0.mem == e.mem
              && r.value.0.world == if e.code == 0 then WriteWorld(world, e.writes) else world
  {
    var sv := QuietService(l, call);
    var s := Start(world, mem);
    QuietHooks(l, call, Before, tx, s);
    var r := Call(sv, tx, s, false);
    if r.Some? {
      QuietHooks(l, call, After, tx, r.value.0);
    }
  }

  lemma OneTx(l: Layout, opOf: Tx -> StoreOp, codeOf: (Tx, Answer) -> nat, tx: Tx, world: World, mem: Memory)
    requires tx.service == NAME
    ensures var o := Do(l, mem, EntriesOf(world), opOf(tx));
            var code := codeOf(tx, o.answer);
            var r := RunTx(OpService(l, opOf, codeOf), tx, world, mem);
            if o.answer == Panic then r.None?
            else
              && r.Some? && r.value.1 == code && r.value.0.mem == o.mem
              && r.value.0.world == if code == 0 then WriteWorld(world, map[NAME := o.writes]) else world
  {
    OneCall(l, (tx: Tx, s: TxState<Memory>) => OpEffect(l, opOf(tx), codeOf, tx, s), tx, world, mem);
  }

  /** A block of one transaction. */
  lemma OneTxBlock(l: Layout, opOf: Tx -> StoreOp, codeOf: (Tx, Answer) -> nat, tx: Tx, world: World, mem: Memory)
    requires tx.service == NAME && Do(l, mem, EntriesOf(world), opOf(tx)).answer != Panic
    ensures var o := Do(l, mem, EntriesOf(world), opOf(tx));
            var code := codeOf(tx, o.answer);
            var r := RunTxs(OpService(l, opOf, codeOf), [tx], 1, world, mem);
            && r.Some? && |r.value.receipts| == 1 && r.value.receipts[0].code == code
            && r.value.world == if code == 0 then WriteWorld(world, map[NAME := o.writes]) else world
  {
    var sv := OpService(l, opOf, codeOf);
    OneTx(l, opOf, codeOf, tx, world, mem);
    assert RunTxs(sv, [tx], 0, world, mem) == Some(BlockState(world, mem, []));
  }

  /** Memories that look different are told apart by a transaction that makes one operation, unless the
      lists that differ hold every key that there is. */
  lemma DifferenceIsSeen(l: Layout, world: World, a: Memory, b: Memory)
    returns (opOf: Tx -> StoreOp, codeOf: (Tx, Answer) -> nat)
    requires l.Ok() && NAME in world && Look(l)(a, world) != Look(l)(b, world)
    requires Room(l, Look(l)(a, world), Look(l)(b, world))
    ensures var sv := OpService(l, opOf, codeOf);
            && Blind(sv, Look(l))
            && !SameOutcome(Look(l), RunTxs(sv, [To("")], 1, world, a), RunTxs(sv, [To("")], 1, world, b))
  {
    var e := EntriesOf(world);
    var op := DifferenceShows(l, a, b, e);
    var x, y := Do(l, a, e, op), Do(l, b, e, op);
    opOf := (tx: Tx) => op;
    codeOf := (tx: Tx, answer: Answer) => if answer.Unit? then 0 else if answer == x.answer then 1 else 2;
    var sv, tx := OpService(l, opOf, codeOf), To("");
    OpServiceBlind(l, opOf, codeOf);
    OneTxBlock(l, opOf, codeOf, tx, world, a);
    OneTxBlock(l, opOf, codeOf, tx, world, b);
    EntriesAfter(world, x.writes);
    EntriesAfter(world, y.writes);
    var p, q := RunTxs(sv, [tx], 1, world, a), RunTxs(sv, [tx], 1, world, b);
    assert p.value.receipts[0].code != q.value.receipts[0].code || p.value.world != q.value.world;
  }

  /** A call that writes nothing and answers whether the lists and the length are these. */
  function AnswerIf(l: Layout, seen: Seen): (Tx, TxState<Memory>) -> Effect<Memory> {
    (tx: Tx, s: TxState<Memory>) =>
      Effect(false, map[], [], [], if Look(l)(s.mem, s.world) == seen then 1 else 2, s.mem)
  }

  lemma AnswerIfBlind(l: Layout, seen: Seen)
    ensures Blind(QuietService(l, AnswerIf(l, seen)), Look(l))
  {
    var sv := QuietService(l, AnswerIf(l, seen));
    forall tx, s, m
      ensures CallBlind(sv, Look(l), tx, s, m)
    {
      NoWrites(s.world);
    }
    QuietServiceBlind(l, AnswerIf(l, seen));
  }

  lemma AnswersDiffer(l: Layout, world: World, a: Memory, b: Memory)
    requires Look(l)(a, world) != Look(l)(b, world)
    ensures !NoDifference(l, world, a, b)
  {
    var call := AnswerIf(l, Look(l)(a, world));
    var sv, tx := QuietService(l, call), To("");
    AnswerIfBlind(l, Look(l)(a, world));
    OneCall(l, call, tx, world, a);
    OneCall(l, call, tx, world, b);
    assert RunTxs(sv, [tx], 0, world, a) == Some(BlockState(world, a, []));
    assert RunTxs(sv, [tx], 0, world, b) == Some(BlockState(world, b, []));
    var p, q := RunTxs(sv, [tx], |[tx]|, world, a), RunTxs(sv, [tx], |[tx]|, world, b);
    assert p.value.receipts[0].code == 1 && q.value.receipts[0].code == 2;
    assert !SameOutcome(Look(l), p, q);
  }

  /** Two memories make no difference to anything that can follow if and only if they show the same
      key lists and length. */
  lemma NoDifferenceIff(l: Layout, world: World, a: Memory, b: Memory)
    ensures NoDifference(l, world, a, b) <==> Look(l)(a, world) == Look(l)(b, world)
  {
    if Look(l)(a, world) == Look(l)(b, world) {
      forall sv: Services<Memory>, txs: seq<Tx> | Blind(sv, Look(l))
        ensures SameOutcome(Look(l), RunTxs(sv, txs, |txs|, world, a), RunTxs(sv, txs, |txs|, world, b))
      {
        TxsAlike(sv, Look(l), txs, |txs|, world, a, b);
      }
    } else {
      AnswersDiffer(l, world, a, b);
    }
  }

  /** The exact condition: a call that fails after some operations on the store map leaves no trace, in
      any continuation of the block, if and only if the key lists and the length it goes by at its end
      are those it went by at its start. */
  lemma FailedCallTraceIff(l: Layout, world: World, mem: Memory, ops: seq<StoreOp>)
    requires l.NamesDiffer() && l.FitAll(ops)
    ensures var t := DoAll(l, mem, EntriesOf(world), ops);
            NoDifference(l, world, t.mem, mem) <==> SeenOf(l, t.mem, t.m) == SeenOf(l, mem, EntriesOf(world))
  {
    var e := EntriesOf(world);
    assert Present(e) == e;
    RevertKeepsSeen(l, mem, e, ops);
    NoDifferenceIff(l, world, DoAll(l, mem, e, ops).mem, mem);
  }

  /** If it started in step with the state: if and only if it left lists and length in the state as it
      found them. */
  lemma FailedCallInStep(l: Layout, world: World, mem: Memory, ops: seq<StoreOp>)
    requires l.Ok() && l.FitAll(ops) && InStep(l, mem, EntriesOf(world))
    ensures var t := DoAll(l, mem, EntriesOf(world), ops);
            NoDifference(l, world, t.mem, mem) <==> Stored(l, t.m) == Stored(l, EntriesOf(world))
  {
    var e := EntriesOf(world);
    assert Present(e) == e;
    FailedCallTraceIff(l, world, mem, ops);
    CallStaysInStep(l, mem, e, ops);
  }

  // ----- after an earlier trace -----

  /** What the first failing call leaves: it inserted a key into an empty map. */
  function Phantom(l: Layout, k: Key): Memory {
    Do(l, Build(l, map[]), map[], Insert(k, [1])).mem
  }

  lemma PhantomSeen(l: Layout, k: Key)
    ensures var s := SeenOf(l, Phantom(l, k), map[]);
            s == Seen(seq(16, i => if i == Index(k) then [k] else []), 1)
  {
    var none := SeenOf(l, Build(l, map[]), map[]);
    assert none == Seen(seq(16, _ => []), 0);
    SeenAfter(l, Build(l, map[]), map[], Insert(k, [1]));
    assert [] + [k] == [k];
  }

  /** The second inserts the key again, which only writes its value. */
  lemma PhantomInserted(l: Layout, k: Key)
    ensures Do(l, Phantom(l, k), map[], Insert(k, [1])) == Outcome(Unit, map[l.valueName(k) := [1]], Phantom(l, k))
    ensures Write(map[], map[l.valueName(k) := [1]]) == map[l.valueName(k) := [1]]
  {
    PhantomSeen(l, k);
    RecoverShowsNothing(l, Phantom(l, k), map[], Index(k));
    assert Phantom(l, k).recovered[Index(k)];
  }

  /** And removes it, which stores an empty list and no length: what an empty map has. */
  lemma PhantomRemoved(l: Layout, k: Key)
    requires l.Ok() && l.keys(k)
    ensures var m := map[l.valueName(k) := [1]];
            var o := Do(l, Phantom(l, k), m, Remove(k));
            && o.answer == Value(Some([1]))
            && Stored(l, Write(m, o.writes)) == Stored(l, map[])
            && SeenOf(l, o.mem, Write(m, o.writes)).len == 0
  {
    var m, mem := map[l.valueName(k) := [1]], Phantom(l, k);
    var i := Index(k);
    PhantomSeen(l, k);
    assert mem.recovered[i] && mem.keys[i] == [k] && mem.len == 1;
    var o := Do(l, mem, m, Remove(k));
    assert RemoveFirst([k], k) == [];
    assert o == Removed(l, mem, k, Some([1]));
    var m' := Write(m, o.writes);
    assert m'[l.lenName] == l.encodeLen(0) && m'[l.bucketName(i)] == l.encodeKeys([]);
    forall j | 0 <= j < BUCKETS
      ensures l.Bucket(m', j) == []
    {
      if j != i {
        assert l.bucketName(j) !in m';
      }
    }
  }

  /** The state is as if nothing had happened after both calls, and to itself the second call left lists
      and length in the state as it found them. Yet it leaves a trace: it took away the first one's. */
  lemma TraceUponTrace(l: Layout, k: Key)
    requires l.Ok() && l.keys(k)
    ensures var world: World := map[NAME := map[]];
            var t := DoAll(l, Phantom(l, k), EntriesOf(world), [Insert(k, [1]), Remove(k)]);
            && Stored(l, t.m) == Stored(l, EntriesOf(world))
            && !NoDifference(l, world, t.mem, Phantom(l, k))
  {
    var world: World := map[NAME := map[]];
    EmptyWorld();
    var mem, ops := Phantom(l, k), [Insert(k, [1]), Remove(k)];
    PhantomInserted(l, k);
    PhantomRemoved(l, k);
    PhantomSeen(l, k);
    assert ops[..1] == [Insert(k, [1])] && ops[..1][..0] == [];
    assert DoAll(l, mem, map[], ops[..1][..0]) == Trace([], map[], mem);
    assert DoAll(l, mem, map[], ops[..1]) == Trace([] + [Unit], map[l.valueName(k) := [1]], mem);
    FailedCallTraceIff(l, world, mem, ops);
  }

  // ----- an instance -----

  function Opening(k: Key): Tx -> StoreOp {
    (tx: Tx) => if tx.payload == "insert" then Insert(k, [1]) else Contains(k)
  }

  /** Insertions fail with code 1; a query answers 2 when the key is there. */
  function Codes(): (Tx, Answer) -> nat {
    (tx: Tx, answer: Answer) => if answer.Unit? then 1 else if answer == Bool(true) then 2 else 0
  }

  /** On an empty state: what the insertion leaves in memory, and what a query then answers. */
  lemma InsertThenQuery(l: Layout, k: Key)
    ensures var mem := Build(l, map[]);
            var o := Do(l, mem, map[], Insert(k, [1]));
            && o.answer == Unit
            && Do(l, o.mem, map[], Contains(k)).answer == Bool(true)
            && Do(l, mem, map[], Contains(k)).answer == Bool(false)
            && Do(l, o.mem, map[], Contains(k)).writes == Do(l, mem, map[], Contains(k)).writes == map[]
  {
    var mem := Build(l, map[]);
    RecoverShowsNothing(l, mem, map[], Index(k));
    SeenAfter(l, mem, map[], Insert(k, [1]));
    RecoverShowsNothing(l, Do(l, mem, map[], Insert(k, [1])).mem, map[], Index(k));
  }

  lemma EmptyWorld()
    ensures var world: World := map[NAME := map[]];
            EntriesOf(world) == map[] && WriteWorld(world, map[NAME := map[]]) == world
  {
  }

  lemma TwoTxs<M>(sv: Services<M>, a: Tx, b: Tx, world: World, mem: M)
    requires RunTx(sv, a, world, mem).Some?
    requires var s := RunTx(sv, a, world, mem).value.0; RunTx(sv, b, s.world, s.mem).Some?
    ensures var (s, c) := RunTx(sv, a, world, mem).value;
            var (t, d) := RunTx(sv, b, s.world, s.mem).value;
            RunTxs(sv, [a, b], 2, world, mem) ==
            Some(BlockState(t.world, t.mem, [ReceiptOf(a, s, c), ReceiptOf(b, t, d)]))
  {
    var (s, c) := RunTx(sv, a, world, mem).value;
    assert RunTxs(sv, [a, b], 0, world, mem) == Some(BlockState(world, mem, []));
    assert RunTxs(sv, [a, b], 1, world, mem) == Some(BlockState(s.world, s.mem, [] + [ReceiptOf(a, s, c)]));
    var (t, d) := RunTx(sv, b, s.world, s.mem).value;
    assert [] + [ReceiptOf(a, s, c)] + [ReceiptOf(b, t, d)] == [ReceiptOf(a, s, c), ReceiptOf(b, t, d)];
  }

  /** A transaction inserts a key and fails. Nothing of it is in the state, but a query in the same
      block finds the key, and the same query alone does not. */
  lemma FailedInsertShows(l: Layout, k: Key)
    ensures var sv := OpService(l, Opening(k), Codes());
            var world: World := map[NAME := map[]];
            var both := RunTxs(sv, [To("insert"), To("query")], 2, world, sv.build(world));
            var alone := RunTxs(sv, [To("query")], 1, world, sv.build(world));
            && both.Some? && alone.Some? && both.value.world == alone.value.world == world
            && |both.value.receipts| == 2 && |alone.value.receipts| == 1
            && both.value.receipts[0].code == 1
            && both.value.receipts[1].code == 2
            && alone.value.receipts[0].code == 0
  {
    var sv := OpService(l, Opening(k), Codes());
    var world: World := map[NAME := map[]];
    EmptyWorld();
    InsertThenQuery(l, k);
    var mem := sv.build(world);
    assert mem == Build(l, map[]);
    var o := Do(l, mem, map[], Insert(k, [1]));
    OneTx(l, Opening(k), Codes(), To("insert"), world, mem);
    OneTx(l, Opening(k), Codes(), To("query"), world, o.mem);
    TwoTxs(sv, To("insert"), To("query"), world, mem);
    OneTxBlock(l, Opening(k), Codes(), To("query"), world, mem);
  }

  /** And the next insertion into the bucket stores it, though it has no value. */
  lemma FailedInsertIsStored(l: Layout, m: Entries, k: Key, j: Key)
    requires l.Ok() && l.keys(k) && l.keys(j) && Present(m) == m && Index(k) == Index(j) && k != j
    requires k !in l.Bucket(m, Index(k)) && j !in l.Bucket(m, Index(k)) && LookUp(m, l.valueName(k)).None?
    ensures var undone := Do(l, Build(l, m), m, Insert(k, [1])).mem;
            var m' := Write(m, Do(l, undone, m, Insert(j, [1])).writes);
            k in l.Bucket(m', Index(k)) && LookUp(m', l.valueName(k)).None?
  {
    var undone := Do(l, Build(l, m), m, Insert(k, [1])).mem;
    SeenAfter(l, Build(l, m), m, Insert(k, [1]));
    InsertStoresList(l, undone, m, j, [1]);
    ValuesAfterInsert(l, undone, m, j, [1], k);
  }
}
