/** The asset service inside the executor: the list of assets is a store map, with its memory; balances
    are values of their own. It is a host in the sense of `AssetOnChain`. */
module AssetHost {
  import opened Types
  import opened ServiceState
  import opened StateMap
  import opened BlockSpec
  import opened StoreMap
  import opened StoreContents
  import opened StoreNames
  import opened Asset
  import opened AssetOnChain

  type Account = (Id, Address)

  /** Where things are stored and how: asset ids as keys of the store map, each account's balance under a
      name of its own. `layout.keys` and `accounts` tell which of them are in use. */
  datatype Codec = Codec(
    layout: Layout, keyOf: Id -> Key, idOf: Bytes -> Id,
    accounts: Account -> bool, accountName: Account -> Bytes, accountOf: Bytes -> Account,
    encodeAsset: Asset -> Bytes, decodeAsset: Bytes -> Asset,
    encodeBalance: Balance -> Bytes, decodeBalance: Bytes -> Balance)
  {
    /** The keys of the store map are encoded ids. */
    ghost predicate IdsOk() {
      && (forall k | layout.keys(k) :: k == keyOf(idOf(k)))
      && (forall id :: idOf(keyOf(id)) == id)
      && (forall a :: encodeAsset(a) != [] && decodeAsset(encodeAsset(a)) == a)
    }

    ghost predicate AccountsOk() {
      && (forall p | accounts(p) :: accountOf(accountName(p)) == p)
      && (forall b :: encodeBalance(b) != [] && decodeBalance(encodeBalance(b)) == b)
    }

    ghost predicate Ok() {
      layout.Ok() && IdsOk() && AccountsOk() && forall p | accounts(p) :: Foreign(layout, accountName(p))
    }

    function AccountsIn(m: Entries): set<Account> {
      set n | n in m && n == accountName(accountOf(n)) && accounts(accountOf(n)) :: accountOf(n)
    }

    function BalancesIn(m: Entries): Balances {
      map p | p in AccountsIn(m) :: decodeBalance(m[accountName(p)])
    }

    ghost function ContentsIn(m: Entries): map<Bytes, Bytes> {
      Contents(layout, Stored(layout, m), m)
    }

    ghost function AssetsOf(stored: map<Bytes, Bytes>): map<Id, Asset> {
      map id: Id | id in (set k | k in stored && k == keyOf(idOf(k)) :: idOf(k)) :: decodeAsset(stored[keyOf(id)])
    }

    /** The ledger as it is stored. */
    ghost function LedgerIn(m: Entries): Ledger {
      Ledger(AssetsOf(ContentsIn(m)), BalancesIn(m))
    }

    /** Lists, values and memory belong together. */
    ghost predicate Good(m: Entries, mem: Memory) {
      Present(m) == m && InStep(layout, mem, m) && Listed(layout, Stored(layout, m), m)
    }
  }

  /** What a ledger call does: entries to write, code, and the memory it leaves. */
  datatype Done = Done(writes: Entries, code: nat, mem: Memory)

  function IdOf(digest: Digest, caller: Address, op: Op): Id {
    if op.CreateAsset? then digest(op, caller) else op.id
  }

  /** The account that pays, grants or is issued to. */
  function Payer(digest: Digest, caller: Address, op: Op): Account {
    (IdOf(digest, caller, op), if op.TransferFrom? then op.sender else caller)
  }

  /** The account that is paid, if any. */
  function Payee(digest: Digest, caller: Address, op: Op): Account {
    (IdOf(digest, caller, op),
     match op
     case Transfer(_, to, _) => to
     case TransferFrom(_, _, recipient, _) => recipient
     case _ => caller)
  }

  /** A call on an asset and accounts in use. */
  predicate InUse(c: Codec, digest: Digest, caller: Address, op: Op) {
    && c.layout.keys(c.keyOf(IdOf(digest, caller, op)))
    && c.accounts(Payer(digest, caller, op)) && c.accounts(Payee(digest, caller, op))
  }

  function BalanceWrite(c: Codec, b: Balances, p: Account): Entries {
    if p in b then map[c.accountName(p) := c.encodeBalance(b[p])] else map[]
  }

  /** The two accounts a call may write. */
  function BalanceWrites(c: Codec, b: Balances, p: Account, q: Account): Entries {
    BalanceWrite(c, b, q) + BalanceWrite(c, b, p)
  }

  /** All that a call needs to know of the assets is whether the one it names exists. */
  function Known(known: bool, id: Id, caller: Address, b: Balances): Ledger {
    Ledger(if known then map[id := Asset("", "", 0, caller)] else map[], b)
  }

  function Serve(c: Codec, mem: Memory, m: Entries, digest: Digest, caller: Address, op: Op): Done {
    var id := IdOf(digest, caller, op);
    var asked := Do(c.layout, mem, m, Contains(c.keyOf(id)));
    var (l, code) := Step(Known(asked.answer == Bool(true), id, caller, c.BalancesIn(m)), digest, caller, op);
    var ws := BalanceWrites(c, l.balances, Payer(digest, caller, op), Payee(digest, caller, op));
    if op.CreateAsset? && code == OK then
      var asset := Asset(op.name, op.symbol, op.supply, caller);
      var o := Do(c.layout, asked.mem, m, Insert(c.keyOf(id), c.encodeAsset(asset)));
      Done(o.writes + ws, code, o.mem)
    else Done(ws, code, asked.mem)
  }

  lemma StepNeedsExistence(l: Ledger, known: Ledger, digest: Digest, caller: Address, op: Op)
    requires var id := IdOf(digest, caller, op); id in l.assets <==> id in known.assets
    requires l.balances == known.balances
    ensures var x, y := Step(l, digest, caller, op), Step(known, digest, caller, op);
            && x.1 == y.1 && x.0.balances == y.0.balances
            && x.0.assets ==
               if op.CreateAsset? && x.1 == OK
               then l.assets[digest(op, caller) := Asset(op.name, op.symbol, op.supply, caller)] else l.assets
  {
  }

  /** The second is the first with other balances for these two accounts only. */
  ghost predicate DiffersAt(b: Balances, d: Balances, p: Account, q: Account) {
    && (forall x | x in b :: x in d)
    && (forall x | x in d && x != p && x != q :: x in b && b[x] == d[x])
  }

  /** A call changes the balances of the accounts it touches. */
  lemma StepTouches(l: Ledger, digest: Digest, caller: Address, op: Op)
    ensures DiffersAt(l.balances, Step(l, digest, caller, op).0.balances,
                      Payer(digest, caller, op), Payee(digest, caller, op))
  {
  }

  // ----- balances are apart from the store map -----

  lemma WriteInTwo(m: Entries, w: Entries, v: Entries)
    ensures Write(m, w + v) == Write(Write(m, w), v)
  {
    assert m + (w + v) == m + w + v;
    PresentFirst(m + w, v);
  }

  lemma BalanceIs(c: Codec, m: Entries, p: Account)
    requires c.accounts(p) ==> c.accountOf(c.accountName(p)) == p
    ensures p in c.BalancesIn(m) <==> c.accounts(p) && c.accountName(p) in m
    ensures p in c.BalancesIn(m) ==> c.BalancesIn(m)[p] == c.decodeBalance(m[c.accountName(p)])
  {
  }

  lemma WrittenAt(m: Entries, name: Bytes, v: Bytes, n: Bytes)
    requires Present(m) == m && v != []
    ensures var m' := Write(m, map[name := v]);
            && (n in m' <==> n in m || n == name)
            && (n in m' ==> m'[n] == if n == name then v else m[n])
  {
  }

  lemma OneBalance(c: Codec, m: Entries, p: Account, v: Balance)
    requires c.AccountsOk() && c.accounts(p) && Present(m) == m
    ensures c.BalancesIn(Write(m, map[c.accountName(p) := c.encodeBalance(v)])) == c.BalancesIn(m)[p := v]
  {
    var name, e := c.accountName(p), c.encodeBalance(v);
    assert e != [] && c.decodeBalance(e) == v;
    var m' := Write(m, map[name := e]);
    var b, d := c.BalancesIn(m'), c.BalancesIn(m)[p := v];
    forall q
      ensures q in b <==> q in d
      ensures q in b ==> b[q] == d[q]
    {
      assert c.accounts(q) ==> c.accountOf(c.accountName(q)) == q;
      assert c.accountOf(name) == p;
      WrittenAt(m, name, e, c.accountName(q));
      BalanceIs(c, m', q);
      BalanceIs(c, m, q);
    }
  }

  lemma OneApart(c: Codec, m: Entries, mem: Memory, p: Account, v: Bytes)
    requires c.Ok() && c.Good(m, mem) && c.accounts(p)
    ensures var m' := Write(m, map[c.accountName(p) := v]); c.Good(m', mem) && c.ContentsIn(m') == c.ContentsIn(m)
  {
    var w := map[c.accountName(p) := v];
    assert Foreign(c.layout, c.accountName(p));
    ForeignWrite(c.layout, m, c.accountName(p), v);
    PresentTwice(m, w);
    SamePartsSame(c.layout, m, Write(m, w), mem);
  }

  lemma OneWrite(c: Codec, m: Entries, mem: Memory, d: Balances, p: Account)
    requires c.Ok() && c.Good(m, mem) && c.accounts(p)
    ensures var m' := Write(m, BalanceWrite(c, d, p));
            && c.Good(m', mem) && c.ContentsIn(m') == c.ContentsIn(m)
            && c.BalancesIn(m') == if p in d then c.BalancesIn(m)[p := d[p]] else c.BalancesIn(m)
  {
    if p in d {
      OneApart(c, m, mem, p, c.encodeBalance(d[p]));
      OneBalance(c, m, p, d[p]);
    } else {
      assert m + map[] == m;
    }
  }

  /** Writing balances leaves the store map alone. */
  lemma BalancesApart(c: Codec, m: Entries, mem: Memory, d: Balances, p: Account, q: Account)
    requires c.Ok() && c.Good(m, mem) && c.accounts(p) && c.accounts(q) && DiffersAt(c.BalancesIn(m), d, p, q)
    ensures var m' := Write(m, BalanceWrites(c, d, p, q));
            c.Good(m', mem) && c.ContentsIn(m') == c.ContentsIn(m) && c.BalancesIn(m') == d
  {
    OneWrite(c, m, mem, d, q);
    OneWrite(c, Write(m, BalanceWrite(c, d, q)), mem, d, p);
    WriteInTwo(m, BalanceWrite(c, d, q), BalanceWrite(c, d, p));
    TwoSet(c.BalancesIn(m), d, p, q);
  }

  lemma TwoSet(b: Balances, d: Balances, p: Account, q: Account)
    requires DiffersAt(b, d, p, q)
    ensures var o := if q in d then b[q := d[q]] else b;
            d == if p in d then o[p := d[p]] else o
  {
  }

  // ----- the store map is apart from balances -----

  /** An insertion writes none of the accounts' names. */
  lemma AccountNotWritten(c: Codec, m: Entries, mem: Memory, k: Key, v: Bytes, p: Account)
    requires Foreign(c.layout, c.accountName(p)) && c.layout.keys(k)
    ensures c.accountName(p) !in Do(c.layout, mem, m, Insert(k, v)).writes
  {
  }

  lemma UnwrittenStays(m: Entries, w: Entries, name: Bytes)
    requires Present(m) == m && name !in w
    ensures name in Write(m, w) <==> name in m
    ensures name in m ==> Write(m, w)[name] == m[name]
  {
  }

  lemma InsertKeepsBalances(c: Codec, m: Entries, mem: Memory, id: Id, v: Bytes)
    requires c.Ok() && c.layout.keys(c.keyOf(id)) && Present(m) == m
    ensures c.BalancesIn(Write(m, Do(c.layout, mem, m, Insert(c.keyOf(id), v)).writes)) == c.BalancesIn(m)
  {
    var ws := Do(c.layout, mem, m, Insert(c.keyOf(id), v)).writes;
    var m' := Write(m, ws);
    var b, d := c.BalancesIn(m'), c.BalancesIn(m);
    forall p
      ensures p in b <==> p in d
      ensures p in b ==> b[p] == d[p]
    {
      if c.accounts(p) {
        AccountNotWritten(c, m, mem, c.keyOf(id), v, p);
        UnwrittenStays(m, ws, c.accountName(p));
      }
      BalanceIs(c, m', p);
      BalanceIs(c, m, p);
    }
  }

  lemma AssetIs(c: Codec, stored: map<Bytes, Bytes>, id: Id)
    requires c.IdsOk()
    ensures id in c.AssetsOf(stored) <==> c.keyOf(id) in stored
    ensures id in c.AssetsOf(stored) ==> c.AssetsOf(stored)[id] == c.decodeAsset(stored[c.keyOf(id)])
  {
    assert c.idOf(c.keyOf(id)) == id;
  }

  lemma AskedInStep(c: Codec, m: Entries, mem: Memory, id: Id)
    requires c.Ok() && c.Good(m, mem) && c.layout.keys(c.keyOf(id))
    ensures var o := Do(c.layout, mem, m, Contains(c.keyOf(id)));
            c.Good(m, o.mem) && o.answer == Bool(c.keyOf(id) in c.ContentsIn(m))
  {
    ReadsAsMap(c.layout, mem, m, c.keyOf(id));
    SeenAfter(c.layout, mem, m, Contains(c.keyOf(id)));
  }

  lemma AssetsAfter(c: Codec, stored: map<Bytes, Bytes>, id: Id, v: Bytes)
    requires c.IdsOk()
    ensures c.AssetsOf(stored[c.keyOf(id) := v]) == c.AssetsOf(stored)[id := c.decodeAsset(v)]
  {
    var a, d := c.AssetsOf(stored[c.keyOf(id) := v]), c.AssetsOf(stored)[id := c.decodeAsset(v)];
    forall x
      ensures x in a <==> x in d
      ensures x in a ==> a[x] == d[x]
    {
      AssetIs(c, stored[c.keyOf(id) := v], x);
      AssetIs(c, stored, x);
      assert c.idOf(c.keyOf(x)) == x && c.idOf(c.keyOf(id)) == id;
    }
  }

  /** Listing a new asset adds it and leaves everything in step. */
  lemma ListAsset(c: Codec, m: Entries, mem: Memory, id: Id, asset: Asset)
    requires c.Ok() && c.Good(m, mem) && c.layout.keys(c.keyOf(id))
    ensures var o := Do(c.layout, mem, m, Insert(c.keyOf(id), c.encodeAsset(asset)));
            var m' := Write(m, o.writes);
            && c.Good(m', o.mem)
            && c.ContentsIn(m') == c.ContentsIn(m)[c.keyOf(id) := c.encodeAsset(asset)]
  {
    var k, v := c.keyOf(id), c.encodeAsset(asset);
    assert v != [];
    InsertSets(c.layout, mem, m, k, v);
    StaysInStep(c.layout, mem, m, Insert(k, v));
    PresentTwice(m, Do(c.layout, mem, m, Insert(k, v)).writes);
  }

  lemma ServeCreates(
      c: Codec, m: Entries, mem: Memory, id: Id, asset: Asset, d: Balances, p: Account, q: Account)
    requires c.Ok() && c.Good(m, mem) && c.layout.keys(c.keyOf(id))
    requires c.accounts(p) && c.accounts(q) && DiffersAt(c.BalancesIn(m), d, p, q)
    ensures var o := Do(c.layout, mem, m, Insert(c.keyOf(id), c.encodeAsset(asset)));
            var m' := Write(m, o.writes + BalanceWrites(c, d, p, q));
            c.Good(m', o.mem) && c.LedgerIn(m') == Ledger(c.LedgerIn(m).assets[id := asset], d)
  {
    ListAsset(c, m, mem, id, asset);
    InsertKeepsBalances(c, m, mem, id, c.encodeAsset(asset));
    var o := Do(c.layout, mem, m, Insert(c.keyOf(id), c.encodeAsset(asset)));
    BalancesApart(c, Write(m, o.writes), o.mem, d, p, q);
    AssetsAfter(c, c.ContentsIn(m), id, c.encodeAsset(asset));
    WriteInTwo(m, o.writes, BalanceWrites(c, d, p, q));
  }

  /** Serving a call does to the stored ledger what the call says, and leaves the memory in step; if it
      did not create an asset, also with the state before. */
  lemma ServeFollows(c: Codec, m: Entries, mem: Memory, digest: Digest, caller: Address, op: Op)
    requires c.Ok() && c.Good(m, mem) && InUse(c, digest, caller, op)
    ensures var d := Serve(c, mem, m, digest, caller, op);
            var (l, code) := Step(c.LedgerIn(m), digest, caller, op);
            && c.Good(Write(m, d.writes), d.mem)
            && c.LedgerIn(Write(m, d.writes)) == l
            && d.code == code
            && (l.assets == c.LedgerIn(m).assets ==> c.Good(m, d.mem))
  {
    var id := IdOf(digest, caller, op);
    AskedInStep(c, m, mem, id);
    AssetIs(c, c.ContentsIn(m), id);
    var asked := Do(c.layout, mem, m, Contains(c.keyOf(id)));
    var known := Known(asked.answer == Bool(true), id, caller, c.BalancesIn(m));
    StepNeedsExistence(c.LedgerIn(m), known, digest, caller, op);
    StepTouches(known, digest, caller, op);
    var (l, code) := Step(known, digest, caller, op);
    var p, q := Payer(digest, caller, op), Payee(digest, caller, op);
    if op.CreateAsset? && code == OK {
      var asset := Asset(op.name, op.symbol, op.supply, caller);
      ServeCreates(c, m, asked.mem, id, asset, l.balances, p, q);
      assert id !in c.LedgerIn(m).assets;
    } else {
      BalancesApart(c, m, asked.mem, l.balances, p, q);
    }
  }

  // ----- the service in the executor -----

  /** Transactions that make a ledger call, by whom and which. */
  type Requests = Tx -> Option<(Address, Op)>

  ghost predicate AllInUse(c: Codec, requests: Requests, digest: Digest) {
    forall tx | requests(tx).Some? :: InUse(c, digest, requests(tx).value.0, requests(tx).value.1)
  }

  function AssetCall(c: Codec, requests: Requests, digest: Digest, tx: Tx, s: TxState<Memory>): Effect<Memory> {
    if ASSET in s.world && requests(tx).Some? then
      var (caller, op) := requests(tx).value;
      var d := Serve(c, s.mem, s.world[ASSET], digest, caller, op);
      Effect(false, map[ASSET := d.writes], [], [], d.code, d.mem)
    else Effect(false, map[], [], [], OK, s.mem)
  }

  function AssetServices(c: Codec, requests: Requests, digest: Digest): Services<Memory> {
    Services(
      [ASSET],
      (phase: Phase, name: string, tx: Tx, s: TxState<Memory>) => Effect(false, map[], [], [], OK, s.mem),
      (tx: Tx, s: TxState<Memory>) => AssetCall(c, requests, digest, tx, s),
      (phase: Phase, name: string, w: World, m: Memory) => BlockEffect(false, map[], m),
      (w: World) => Build(c.layout, if ASSET in w then w[ASSET] else map[]),
      (w: World) => [])
  }

  ghost function BindingOf(c: Codec, requests: Requests, digest: Digest): Binding<Memory> {
    Binding(
      (m: Entries) => c.LedgerIn(m),
      (m: Entries, mem: Memory) => c.Good(m, mem),
      digest,
      (phase: Phase, name: string, tx: Tx, s: TxState<Memory>) => [],
      (tx: Tx, s: TxState<Memory>) => if requests(tx).Some? then [requests(tx).value] else [],
      (phase: Phase, name: string, w: World, m: Memory) => [])
  }

  /** One served call follows the ledger's step. */
  lemma OneCallFollows<M>(b: Binding<M>, w: World, mem: M, ws: Entries, after: M, call: (Address, Op))
    requires ASSET in w && b.inStep(Write(w[ASSET], ws), after)
    requires var l := Step(b.ledger(w[ASSET]), b.digest, call.0, call.1).0;
             && b.ledger(Write(w[ASSET], ws)) == l
             && (l.assets == b.ledger(w[ASSET]).assets ==> b.inStep(w[ASSET], after))
    ensures b.Follows(w, mem, map[ASSET := ws], after, [call])
  {
    assert [call][..0] == [];
    assert Run(b.ledger(w[ASSET]), b.digest, [call]) == Step(b.ledger(w[ASSET]), b.digest, call.0, call.1).0;
    var w' := WriteWorld(w, map[ASSET := ws]);
    assert ASSET in w' && w'[ASSET] == Write(w[ASSET], ws);
  }

  lemma ServedFollows(c: Codec, requests: Requests, digest: Digest, w: World, mem: Memory, call: (Address, Op))
    requires c.Ok() && ASSET in w && c.Good(w[ASSET], mem) && InUse(c, digest, call.0, call.1)
    ensures var d := Serve(c, mem, w[ASSET], digest, call.0, call.1);
            BindingOf(c, requests, digest).Follows(w, mem, map[ASSET := d.writes], d.mem, [call])
  {
    var b, m := BindingOf(c, requests, digest), w[ASSET];
    ServeFollows(c, m, mem, digest, call.0, call.1);
    var d := Serve(c, mem, m, digest, call.0, call.1);
    OneCallFollows(b, w, mem, d.writes, d.mem, call);
  }

  lemma QuietFollows(c: Codec, requests: Requests, digest: Digest, w: World, mem: Memory)
    ensures BindingOf(c, requests, digest).Follows(w, mem, map[], mem, [])
  {
    assert WriteWorld(w, map[]) == w;
  }

  lemma AssetCallFits(c: Codec, requests: Requests, digest: Digest, tx: Tx, s: TxState<Memory>)
    requires c.Ok() && AllInUse(c, requests, digest)
    ensures CallFits(AssetServices(c, requests, digest), BindingOf(c, requests, digest), tx, s)
  {
    var b := BindingOf(c, requests, digest);
    var e := AssetCall(c, requests, digest, tx, s);
    assert AssetServices(c, requests, digest).call(tx, s) == e;
    if ASSET in s.world && c.Good(s.world[ASSET], s.mem) && requests(tx).Some? {
      ServedFollows(c, requests, digest, s.world, s.mem, requests(tx).value);
      assert b.callCalls(tx, s) == [requests(tx).value];
    } else if ASSET in s.world && requests(tx).Some? {
      assert !b.Ready(s.world, s.mem);
    } else {
      QuietFollows(c, requests, digest, s.world, s.mem);
    }
  }

  /** The asset service is a host: what `AssetOnChain` says holds of it. */
  lemma AssetServiceHosts(c: Codec, requests: Requests, digest: Digest)
    requires c.Ok() && AllInUse(c, requests, digest)
    ensures Hosts(AssetServices(c, requests, digest), BindingOf(c, requests, digest))
  {
    var sv, b := AssetServices(c, requests, digest), BindingOf(c, requests, digest);
    forall tx, s
      ensures CallFits(sv, b, tx, s)
    {
      AssetCallFits(c, requests, digest, tx, s);
    }
    forall phase, name, tx, s
      ensures HookFits(sv, b, phase, name, tx, s)
    {
      QuietFollows(c, requests, digest, s.world, s.mem);
    }
    forall phase, name, w, m
      ensures BlockFits(sv, b, phase, name, w, m)
    {
      QuietFollows(c, requests, digest, w, m);
    }
    forall w, m
      ensures BuildFits(sv, b, w, m)
    {
      if b.Ready(w, m) {
        BuiltInStep(c.layout, w[ASSET]);
      }
    }
  }

  // ----- when the creation of an asset is undone -----

  lemma PhantomIsKnown(c: Codec, mem: Memory, m: Entries, k: Key, v: Bytes)
    ensures Do(c.layout, Do(c.layout, mem, m, Insert(k, v)).mem, m, Contains(k)).answer == Bool(true)
  {
    var undone := Do(c.layout, mem, m, Insert(k, v)).mem;
    SeenAfter(c.layout, mem, m, Insert(k, v));
    RecoverShowsNothing(c.layout, undone, m, Index(k));
  }

  /** What the memory is left with when the creation of an unknown asset is undone. */
  lemma CreationLeaves(c: Codec, m: Entries, mem: Memory, digest: Digest, a: Address, op: Op)
    requires c.Ok() && c.Good(m, mem) && op.CreateAsset? && InUse(c, digest, a, op)
    requires c.keyOf(digest(op, a)) !in c.ContentsIn(m)
    ensures var d := Serve(c, mem, m, digest, a, op);
            d.code == OK && Do(c.layout, d.mem, m, Contains(c.keyOf(digest(op, a)))).answer == Bool(true)
  {
    var id := digest(op, a);
    AskedInStep(c, m, mem, id);
    var asked := Do(c.layout, mem, m, Contains(c.keyOf(id)));
    PhantomIsKnown(c, asked.mem, m, c.keyOf(id), c.encodeAsset(Asset(op.name, op.symbol, op.supply, a)));
  }

  /** Approving a spending of an asset that seems to exist writes the grantor's balance of it. */
  lemma ApprovalWrites(c: Codec, m: Entries, mem: Memory, digest: Digest, id: Id, a: Address, to: Address)
    requires Do(c.layout, mem, m, Contains(c.keyOf(id))).answer == Bool(true) && a != to
    ensures var d := Serve(c, mem, m, digest, a, Approve(id, to, 5));
            var b := Allowed(c.BalancesIn(m), id, a, to, 5);
            d.code == OK && (id, a) in b && d.writes == BalanceWrites(c, b, (id, a), (id, a))
  {
  }

  /** A call that is undone leaves the memory in step if and only if it created no asset. */
  lemma UndoneGoodIff(c: Codec, m: Entries, mem: Memory, digest: Digest, caller: Address, op: Op)
    requires c.Ok() && c.Good(m, mem) && InUse(c, digest, caller, op)
    ensures c.Good(m, Serve(c, mem, m, digest, caller, op).mem) <==>
            Step(c.LedgerIn(m), digest, caller, op).0.assets == c.LedgerIn(m).assets
  {
    ServeFollows(c, m, mem, digest, caller, op);
    var id := IdOf(digest, caller, op);
    AssetIs(c, c.ContentsIn(m), id);
    if op.CreateAsset? && id !in c.LedgerIn(m).assets {
      CreationLeaves(c, m, mem, digest, caller, op);
      NotInStep(c, m, Serve(c, mem, m, digest, caller, op).mem, id);
      assert id in Step(c.LedgerIn(m), digest, caller, op).0.assets;
    } else {
      AssetsStay(c.LedgerIn(m), digest, caller, op);
    }
  }

  lemma AssetsStay(l: Ledger, digest: Digest, caller: Address, op: Op)
    requires op.CreateAsset? ==> digest(op, caller) in l.assets
    ensures Step(l, digest, caller, op).0.assets == l.assets
  {
  }

  /** A memory that knows an asset the state does not have is not in step. */
  lemma NotInStep(c: Codec, m: Entries, mem: Memory, id: Id)
    requires c.Ok() && c.layout.keys(c.keyOf(id)) && c.keyOf(id) !in c.ContentsIn(m)
    requires Do(c.layout, mem, m, Contains(c.keyOf(id))).answer == Bool(true)
    ensures !c.Good(m, mem)
  {
    if c.Good(m, mem) {
      AskedInStep(c, m, mem, id);
    }
  }

  lemma KnownIsRefused(c: Codec, m: Entries, mem: Memory, digest: Digest, a: Address, op: Op)
    requires op.CreateAsset? && Do(c.layout, mem, m, Contains(c.keyOf(digest(op, a)))).answer == Bool(true)
    ensures Serve(c, mem, m, digest, a, op).code == ASSET_EXISTS
  {
  }

  lemma PhantomBalance(c: Codec, m: Entries, mem: Memory, id: Id, a: Address, b: Balances)
    requires c.Ok() && c.Good(m, mem) && c.keyOf(id) !in c.ContentsIn(m)
    requires (id, a) in b && c.accounts((id, a)) && DiffersAt(c.BalancesIn(m), b, (id, a), (id, a))
    ensures !Conserved(c.LedgerIn(Write(m, BalanceWrites(c, b, (id, a), (id, a)))))
  {
    BalancesApart(c, m, mem, b, (id, a), (id, a));
    AssetIs(c, c.ContentsIn(m), id);
    var l := c.LedgerIn(Write(m, BalanceWrites(c, b, (id, a), (id, a))));
    assert (id, a) in l.balances && id !in l.assets;
  }

  /** Some service creates an asset and then fails. In the rest of the block, creating it is refused
      because it seems to exist, and approving a spending of it writes a balance of an asset that does
      not: the stored ledger is not conserved any more. */
  lemma UndoneCreationShows(c: Codec, m: Entries, mem: Memory, digest: Digest, a: Address, op: Op, to: Address)
    requires c.Ok() && c.Good(m, mem) && op.CreateAsset? && InUse(c, digest, a, op)
    requires c.keyOf(digest(op, a)) !in c.ContentsIn(m) && a != to
    ensures var undone := Serve(c, mem, m, digest, a, op).mem;
            var approved := Serve(c, undone, m, digest, a, Approve(digest(op, a), to, 5));
            && Serve(c, mem, m, digest, a, op).code == OK
            && Serve(c, undone, m, digest, a, op).code == ASSET_EXISTS
            && approved.code == OK
            && !Conserved(c.LedgerIn(Write(m, approved.writes)))
  {
    var id := digest(op, a);
    CreationLeaves(c, m, mem, digest, a, op);
    var undone := Serve(c, mem, m, digest, a, op).mem;
    KnownIsRefused(c, m, undone, digest, a, op);
    ApprovalWrites(c, m, undone, digest, id, a, to);
    PhantomBalance(c, m, mem, id, a, Allowed(c.BalancesIn(m), id, a, to, 5));
  }

  // ----- the names of the asset service -----

  /** `assets` */
  const ASSETS: Bytes := [0x61, 0x73, 0x73, 0x65, 0x74, 0x73]

  /** The service's own names: the store map is called `assets`, and an account's balance is kept under
      the digest of what identifies the account, encoded as asset ids are. */
  ghost predicate SourceNames(c: Codec, l: Layout, digest: Bytes -> Hash, account: Account -> Bytes) {
    && c.layout == Named(l, ASSETS, digest)
    && (forall p :: c.accountName(p) == c.keyOf(digest(account(p))))
  }

  lemma AccountIsForeign(c: Codec, l: Layout, digest: Bytes -> Hash, account: Account -> Bytes, n: nat, p: Account)
    requires SourceNames(c, l, digest, account)
    requires n >= 32 && (forall id :: |c.keyOf(id)| == n) && forall k | l.keys(k) :: |k| == n
    ensures Foreign(c.layout, c.accountName(p))
  {
    assert |c.accountName(p)| == n;
  }

  /** With the service's own names, and digests encoded in some fixed number of bytes, at least 32: names
      never collide as long as the digests in use differ, and all results about the service apply. */
  lemma SourceNamesOk(c: Codec, l: Layout, digest: Bytes -> Hash, account: Account -> Bytes, n: nat)
    requires SourceNames(c, l, digest, account) && l.RoundTrips() && c.IdsOk() && c.AccountsOk()
    requires n >= 32 && (forall id :: |c.keyOf(id)| == n) && (n > 32 ==> DigestsApart(l, ASSETS, digest))
    ensures c.Ok()
  {
    forall k | l.keys(k)
      ensures |k| == n
    {
      assert c.layout.keys(k);
    }
    FixedLengthIsOk(l, ASSETS, digest, n);
    forall p | c.accounts(p)
      ensures Foreign(c.layout, c.accountName(p))
    {
      AccountIsForeign(c, l, digest, account, n, p);
    }
  }
}
