/** The asset ledger: supplies, balances and allowances, with 64-bit amounts. */
module Asset {
  import opened Types

  type Address(==, !new)
  type Id = Hash

  const MAX: int := 0xffff_ffff_ffff_ffff

  datatype Asset = Asset(name: string, symbol: string, supply: U64, issuer: Address)
  datatype Balance = Balance(value: U64, allowance: map<Address, U64>)
  type Balances = map<(Id, Address), Balance>
  datatype Ledger = Ledger(assets: map<Id, Asset>, balances: Balances)

  const EMPTY: Ledger := Ledger(map[], map[])

  const OK: nat := 0
  const NO_ASSET: nat := 101
  const ASSET_EXISTS: nat := 102
  const APPROVE_SELF: nat := 104
  const NO_ALLOWANCE: nat := 105
  const TRANSFER_FAILED: nat := 106

  datatype Op =
    | CreateAsset(name: string, symbol: string, supply: U64)
    | Transfer(id: Id, to: Address, value: U64)
    | Approve(id: Id, to: Address, value: U64)
    | TransferFrom(id: Id, sender: Address, recipient: Address, value: U64)

  /** The digest that names a new asset. */
  type Digest = (Op, Address) -> Id

  function BalanceOf(b: Balances, id: Id, a: Address): Balance {
    if (id, a) in b then b[(id, a)] else Balance(0, map[])
  }

  function AllowanceOf(b: Balances, id: Id, grantor: Address, grantee: Address): U64 {
    var allowance := BalanceOf(b, id, grantor).allowance;
    if grantee in allowance then allowance[grantee] else 0
  }

  // ----- the operations as functions -----

  predicate CanMove(b: Balances, id: Id, sender: Address, recipient: Address, value: U64) {
    && recipient != sender
    && value <= BalanceOf(b, id, sender).value
    && BalanceOf(b, id, recipient).value as int + value as int <= MAX
  }

  function Moved(b: Balances, id: Id, sender: Address, recipient: Address, value: U64): Balances
    requires CanMove(b, id, sender, recipient, value)
  {
    var s, r := BalanceOf(b, id, sender), BalanceOf(b, id, recipient);
    b[(id, recipient) := r.(value := r.value + value)][(id, sender) := s.(value := s.value - value)]
  }

  function Allowed(b: Balances, id: Id, grantor: Address, grantee: Address, value: U64): Balances {
    var g := BalanceOf(b, id, grantor);
    b[(id, grantor) := g.(allowance := g.allowance[grantee := value])]
  }

  function Issued(l: Ledger, id: Id, asset: Asset): Ledger {
    Ledger(l.assets[id := asset], l.balances[(id, asset.issuer) := Balance(asset.supply, map[])])
  }

  /** One call, with what it leaves in the ledger whether or not it succeeds. */
  function Step(l: Ledger, digest: Digest, caller: Address, op: Op): (Ledger, nat) {
    match op
    case CreateAsset(name, symbol, supply) =>
      var id := digest(op, caller);
      if id in l.assets then (l, ASSET_EXISTS) else (Issued(l, id, Asset(name, symbol, supply, caller)), OK)
    case Transfer(id, to, value) =>
      if id !in l.assets then (l, NO_ASSET)
      else if !CanMove(l.balances, id, caller, to, value) then (l, TRANSFER_FAILED)
      else (l.(balances := Moved(l.balances, id, caller, to, value)), OK)
    case Approve(id, to, value) =>
      if caller == to then (l, APPROVE_SELF)
      else if id !in l.assets then (l, NO_ASSET)
      else (l.(balances := Allowed(l.balances, id, caller, to, value)), OK)
    case TransferFrom(id, sender, recipient, value) =>
      if id !in l.assets then (l, NO_ASSET)
      else if AllowanceOf(l.balances, id, sender, caller) < value then (l, NO_ALLOWANCE)
      else Spent(l, caller, id, sender, recipient, value)
  }

  /** The ledger with the allowance for a spending already taken off. */
  function Reduced(l: Ledger, caller: Address, id: Id, sender: Address, value: U64): Ledger
    requires value <= AllowanceOf(l.balances, id, sender, caller)
  {
    l.(balances := Allowed(l.balances, id, sender, caller, AllowanceOf(l.balances, id, sender, caller) - value))
  }

  /** The allowance is reduced first, and stays reduced when the transfer then fails. */
  function Spent(l: Ledger, caller: Address, id: Id, sender: Address, recipient: Address, value: U64): (Ledger, nat)
    requires value <= AllowanceOf(l.balances, id, sender, caller)
  {
    var m := Reduced(l, caller, id, sender, value);
    if !CanMove(m.balances, id, sender, recipient, value) then (m, TRANSFER_FAILED)
    else (m.(balances := Moved(m.balances, id, sender, recipient, value)), OK)
  }

  // ----- conservation -----

  function Part(b: Balances, id: Id, k: (Id, Address)): nat
    requires k in b
  {
    if k.0 == id then b[k].value as nat else 0
  }

  /** What all holders of an asset have together. */
  ghost function Total(b: Balances, id: Id): nat
    decreases b.Keys
  {
    if b == map[] then 0
    else
      var k :| k in b;
      Part(b, id, k) + Total(b - {k}, id)
  }

  lemma {:induction false} TotalWithout(b: Balances, id: Id, k: (Id, Address))
    requires k in b
    ensures Total(b, id) == Part(b, id, k) + Total(b - {k}, id)
    decreases b.Keys
  {
    var j :| j in b && Total(b, id) == Part(b, id, j) + Total(b - {j}, id);
    if j != k {
      var rest := b - {j} - {k};
      TotalWithout(b - {j}, id, k);
      TotalWithout(b - {k}, id, j);
      assert b - {k} - {j} == rest;
      assert Total(b - {j}, id) == Part(b, id, k) + Total(rest, id);
      assert Total(b - {k}, id) == Part(b, id, j) + Total(rest, id);
    }
  }

  /** Setting one balance changes the total by the difference. */
  lemma TotalAfterSet(b: Balances, id: Id, a: Address, balance: Balance, other: Id)
    ensures Total(b[(id, a) := balance], other) ==
            Total(b, other)
            + if id == other then balance.value as int - BalanceOf(b, id, a).value as int else 0
  {
    var after := b[(id, a) := balance];
    TotalWithout(after, other, (id, a));
    assert after - {(id, a)} == b - {(id, a)};
    if (id, a) in b {
      TotalWithout(b, other, (id, a));
    } else {
      assert b - {(id, a)} == b;
    }
  }

  lemma MoveKeepsTotal(b: Balances, id: Id, sender: Address, recipient: Address, value: U64, other: Id)
    requires CanMove(b, id, sender, recipient, value)
    ensures Total(Moved(b, id, sender, recipient, value), other) == Total(b, other)
  {
    var s, r := BalanceOf(b, id, sender), BalanceOf(b, id, recipient);
    var given := b[(id, recipient) := r.(value := r.value + value)];
    TotalAfterSet(b, id, recipient, r.(value := r.value + value), other);
    TotalAfterSet(given, id, sender, s.(value := s.value - value), other);
  }

  lemma AllowKeepsTotal(b: Balances, id: Id, grantor: Address, grantee: Address, value: U64, other: Id)
    ensures Total(Allowed(b, id, grantor, grantee, value), other) == Total(b, other)
  {
    var g := BalanceOf(b, id, grantor);
    TotalAfterSet(b, id, grantor, g.(allowance := g.allowance[grantee := value]), other);
  }

  lemma {:induction false} NoHoldersNoTotal(b: Balances, id: Id)
    requires forall k | k in b :: k.0 != id
    ensures Total(b, id) == 0
    decreases b.Keys
  {
    if b != map[] {
      var k :| k in b && Total(b, id) == Part(b, id, k) + Total(b - {k}, id);
      assert Part(b, id, k) == 0;
      NoHoldersNoTotal(b - {k}, id);
    }
  }

  /** Balances belong to existing assets and add up to their supply. */
  ghost predicate Conserved(l: Ledger) {
    && (forall k | k in l.balances :: k.0 in l.assets)
    && (forall id | id in l.assets :: Total(l.balances, id) == l.assets[id].supply as nat)
  }

  lemma IssueConserves(l: Ledger, id: Id, asset: Asset)
    requires Conserved(l) && id !in l.assets
    ensures Conserved(Issued(l, id, asset))
  {
    NoHoldersNoTotal(l.balances, id);
    forall other | other in Issued(l, id, asset).assets
      ensures Total(Issued(l, id, asset).balances, other) == Issued(l, id, asset).assets[other].supply as nat
    {
      TotalAfterSet(l.balances, id, asset.issuer, Balance(asset.supply, map[]), other);
    }
  }

  lemma BalancesConserve(l: Ledger, b: Balances, id: Id)
    requires Conserved(l) && id in l.assets
    requires forall k | k in b :: k in l.balances || k.0 == id
    requires forall other :: Total(b, other) == Total(l.balances, other)
    ensures Conserved(l.(balances := b))
  {
  }

  /** Every call, successful or failing, conserves. */
  lemma StepConserves(l: Ledger, digest: Digest, caller: Address, op: Op)
    requires Conserved(l)
    ensures Conserved(Step(l, digest, caller, op).0)
  {
    match op
    case CreateAsset(name, symbol, supply) =>
      if digest(op, caller) !in l.assets {
        IssueConserves(l, digest(op, caller), Asset(name, symbol, supply, caller));
      }
    case Transfer(id, to, value) =>
      if id in l.assets && CanMove(l.balances, id, caller, to, value) {
        TransferConserves(l, id, caller, to, value);
      }
    case Approve(id, to, value) =>
      if id in l.assets {
        AllowConserves(l, id, caller, to, value);
      }
    case TransferFrom(id, sender, recipient, value) =>
      if id in l.assets && value <= AllowanceOf(l.balances, id, sender, caller) {
        SpentConserves(l, caller, id, sender, recipient, value);
      }
  }

  lemma SpentConserves(l: Ledger, caller: Address, id: Id, sender: Address, recipient: Address, value: U64)
    requires Conserved(l) && id in l.assets && value <= AllowanceOf(l.balances, id, sender, caller)
    ensures Conserved(Spent(l, caller, id, sender, recipient, value).0)
  {
    AllowConserves(l, id, sender, caller, AllowanceOf(l.balances, id, sender, caller) - value);
    var m := Reduced(l, caller, id, sender, value);
    if CanMove(m.balances, id, sender, recipient, value) {
      TransferConserves(m, id, sender, recipient, value);
    }
  }

  lemma TransferConserves(l: Ledger, id: Id, sender: Address, recipient: Address, value: U64)
    requires Conserved(l) && id in l.assets && CanMove(l.balances, id, sender, recipient, value)
    ensures Conserved(l.(balances := Moved(l.balances, id, sender, recipient, value)))
  {
    forall other
      ensures Total(Moved(l.balances, id, sender, recipient, value), other) == Total(l.balances, other)
    {
      MoveKeepsTotal(l.balances, id, sender, recipient, value, other);
    }
    BalancesConserve(l, Moved(l.balances, id, sender, recipient, value), id);
  }

  lemma AllowConserves(l: Ledger, id: Id, grantor: Address, grantee: Address, value: U64)
    requires Conserved(l) && id in l.assets
    ensures Conserved(l.(balances := Allowed(l.balances, id, grantor, grantee, value)))
  {
    forall other
      ensures Total(Allowed(l.balances, id, grantor, grantee, value), other) == Total(l.balances, other)
    {
      AllowKeepsTotal(l.balances, id, grantor, grantee, value, other);
    }
    BalancesConserve(l, Allowed(l.balances, id, grantor, grantee, value), id);
  }

  lemma {:induction false} TwoHoldersAtMostTotal(b: Balances, id: Id, a: Address, c: Address)
    requires a != c
    ensures BalanceOf(b, id, a).value as nat + BalanceOf(b, id, c).value as nat <= Total(b, id)
  {
    if (id, a) in b {
      TotalWithout(b, id, (id, a));
      if (id, c) in b {
        TotalWithout(b - {(id, a)}, id, (id, c));
      }
    } else if (id, c) in b {
      TotalWithout(b, id, (id, c));
    }
  }

  /** In a conserved ledger the overflow branch of a transfer is never taken: moving fails only to
      oneself or without the balance. */
  lemma TransferNeverOverflows(l: Ledger, id: Id, sender: Address, recipient: Address, value: U64)
    requires Conserved(l) && id in l.assets
    ensures CanMove(l.balances, id, sender, recipient, value) <==>
            recipient != sender && value <= BalanceOf(l.balances, id, sender).value
  {
    if recipient != sender {
      TwoHoldersAtMostTotal(l.balances, id, sender, recipient);
    }
  }

  /** Calls made one after another, failing ones leaving what they wrote. */
  function Run(l: Ledger, digest: Digest, calls: seq<(Address, Op)>): Ledger {
    if calls == [] then l
    else
      var n := |calls| - 1;
      Step(Run(l, digest, calls[..n]), digest, calls[n].0, calls[n].1).0
  }

  lemma {:induction false} RunInTwo(l: Ledger, digest: Digest, a: seq<(Address, Op)>, b: seq<(Address, Op)>)
    ensures Run(l, digest, a + b) == Run(Run(l, digest, a), digest, b)
  {
    if b == [] {
      assert a + b == a;
    } else {
      var n := |b| - 1;
      RunInTwo(l, digest, a, b[..n]);
      assert (a + b)[..|a + b| - 1] == a + b[..n];
    }
  }

  lemma {:induction false} CallsConserve(l: Ledger, digest: Digest, calls: seq<(Address, Op)>)
    requires Conserved(l)
    ensures Conserved(Run(l, digest, calls))
  {
    if calls != [] {
      var n := |calls| - 1;
      CallsConserve(l, digest, calls[..n]);
      StepConserves(Run(l, digest, calls[..n]), digest, calls[n].0, calls[n].1);
    }
  }

  /** From genesis on, whatever is called, supplies are conserved. */
  lemma RunConserves(digest: Digest, id: Id, asset: Asset, calls: seq<(Address, Op)>)
    ensures Conserved(Run(Issued(EMPTY, id, asset), digest, calls))
  {
    IssueConserves(EMPTY, id, asset);
    CallsConserve(Issued(EMPTY, id, asset), digest, calls);
  }
}
