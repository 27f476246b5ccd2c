/** Allowances over whole runs. Spending writes the reduced allowance before the transfer can fail, so
    the books balance only because a failing transaction is rolled back. */
module Allowances {
  import opened Types
  import opened Asset

  /** One grant to watch. */
  datatype Grant = Grant(id: Id, grantor: Address, grantee: Address) {
    function In(l: Ledger): U64 {
      AllowanceOf(l.balances, id, grantor, grantee)
    }

    predicate GivenBy(caller: Address, op: Op) {
      op.Approve? && op.id == id && caller == grantor && op.to == grantee
    }

    predicate UsedBy(caller: Address, op: Op) {
      op.TransferFrom? && op.id == id && op.sender == grantor && caller == grantee
    }
  }

  /** A call under rollback: what it wrote is kept only if it succeeded. */
  function Settled(l: Ledger, digest: Digest, caller: Address, op: Op): Ledger {
    var (m, code) := Step(l, digest, caller, op);
    if code == OK then m else l
  }

  function SettledRun(l: Ledger, digest: Digest, calls: seq<(Address, Op)>): Ledger {
    if calls == [] then l
    else
      var n := |calls| - 1;
      Settled(SettledRun(l, digest, calls[..n]), digest, calls[n].0, calls[n].1)
  }

  predicate Succeeds(l: Ledger, digest: Digest, caller: Address, op: Op) {
    Step(l, digest, caller, op).1 == OK
  }

  /** What was last approved, and what the grantee moved since, read off the successful calls. */
  function Books(g: Grant, l: Ledger, digest: Digest, calls: seq<(Address, Op)>): (nat, nat) {
    if calls == [] then (g.In(l) as nat, 0)
    else
      var n := |calls| - 1;
      var (caller, op) := calls[n];
      var (approved, moved) := Books(g, l, digest, calls[..n]);
      if !Succeeds(SettledRun(l, digest, calls[..n]), digest, caller, op) then (approved, moved)
      else if g.GivenBy(caller, op) then (op.value as nat, 0)
      else if g.UsedBy(caller, op) then (approved, moved + op.value as nat)
      else (approved, moved)
  }

  // ----- one call -----

  lemma MoveKeepsGrants(b: Balances, id: Id, sender: Address, recipient: Address, value: U64, g: Grant)
    requires CanMove(b, id, sender, recipient, value)
    ensures AllowanceOf(Moved(b, id, sender, recipient, value), g.id, g.grantor, g.grantee) ==
            AllowanceOf(b, g.id, g.grantor, g.grantee)
  {
  }

  lemma AllowSetsOneGrant(b: Balances, id: Id, grantor: Address, grantee: Address, value: U64, g: Grant)
    ensures AllowanceOf(Allowed(b, id, grantor, grantee, value), g.id, g.grantor, g.grantee) ==
            if g == Grant(id, grantor, grantee) then value else AllowanceOf(b, g.id, g.grantor, g.grantee)
  {
  }

  /** What a call does to one grant when everything it wrote is kept. */
  lemma GrantAfterStep(l: Ledger, digest: Digest, caller: Address, op: Op, g: Grant)
    requires Conserved(l)
    ensures var (m, code) := Step(l, digest, caller, op);
            g.In(m) as int ==
            if g.GivenBy(caller, op) && code == OK then op.value as int
            else if g.UsedBy(caller, op) && (code == OK || code == TRANSFER_FAILED)
            then g.In(l) as int - op.value as int
            else g.In(l) as int
  {
    match op
    case CreateAsset(_, _, _) =>
    case Transfer(id, to, value) =>
      if id in l.assets && CanMove(l.balances, id, caller, to, value) {
        MoveKeepsGrants(l.balances, id, caller, to, value, g);
      }
    case Approve(id, to, value) => AllowSetsOneGrant(l.balances, id, caller, to, value, g);
    case TransferFrom(id, sender, recipient, value) =>
      if id in l.assets && value <= AllowanceOf(l.balances, id, sender, caller) {
        GrantAfterSpending(l, caller, id, sender, recipient, value, g);
      }
  }

  lemma GrantAfterSpending(
      l: Ledger, caller: Address, id: Id, sender: Address, recipient: Address, value: U64, g: Grant)
    requires value <= AllowanceOf(l.balances, id, sender, caller)
    ensures g.In(Spent(l, caller, id, sender, recipient, value).0) ==
            if g == Grant(id, sender, caller) then g.In(l) - value else g.In(l)
  {
    var left := AllowanceOf(l.balances, id, sender, caller) - value;
    AllowSetsOneGrant(l.balances, id, sender, caller, left, g);
    var b := Allowed(l.balances, id, sender, caller, left);
    if CanMove(b, id, sender, recipient, value) {
      MoveKeepsGrants(b, id, sender, recipient, value, g);
    }
  }

  lemma SettledConserves(l: Ledger, digest: Digest, caller: Address, op: Op)
    requires Conserved(l)
    ensures Conserved(Settled(l, digest, caller, op))
  {
    StepConserves(l, digest, caller, op);
  }

  lemma {:induction false} SettledRunConserves(l: Ledger, digest: Digest, calls: seq<(Address, Op)>)
    requires Conserved(l)
    ensures Conserved(SettledRun(l, digest, calls))
  {
    if calls != [] {
      var n := |calls| - 1;
      SettledRunConserves(l, digest, calls[..n]);
      SettledConserves(SettledRun(l, digest, calls[..n]), digest, calls[n].0, calls[n].1);
    }
  }

  // ----- whole runs -----

  /** Under rollback, after every run: what is left of a grant and what was moved by it since it was
      last approved add up to what was approved. */
  lemma {:induction false} BooksBalance(g: Grant, l: Ledger, digest: Digest, calls: seq<(Address, Op)>)
    requires Conserved(l)
    ensures var (approved, moved) := Books(g, l, digest, calls);
            g.In(SettledRun(l, digest, calls)) as nat + moved == approved
  {
    if calls != [] {
      var n := |calls| - 1;
      BooksBalance(g, l, digest, calls[..n]);
      SettledRunConserves(l, digest, calls[..n]);
      GrantAfterStep(SettledRun(l, digest, calls[..n]), digest, calls[n].0, calls[n].1, g);
    }
  }

  /** The same books for calls that all keep what they write: what was approved last, and since then
      what was moved by the grantee and what was lost to spendings whose transfer failed. */
  function RawBooks(g: Grant, l: Ledger, digest: Digest, calls: seq<(Address, Op)>): (nat, nat, nat) {
    if calls == [] then (g.In(l) as nat, 0, 0)
    else
      var n := |calls| - 1;
      var (caller, op) := calls[n];
      var (approved, moved, lost) := RawBooks(g, l, digest, calls[..n]);
      var code := Step(Run(l, digest, calls[..n]), digest, caller, op).1;
      if g.GivenBy(caller, op) && code == OK then (op.value as nat, 0, 0)
      else if g.UsedBy(caller, op) && code == OK then (approved, moved + op.value as nat, lost)
      else if g.UsedBy(caller, op) && code == TRANSFER_FAILED then (approved, moved, lost + op.value as nat)
      else (approved, moved, lost)
  }

  /** Without rollback, after every run: what is left, what was moved and what was lost add up to what
      was approved. So the books balance if and only if nothing was lost. */
  lemma {:induction false} RawBooksAddUp(g: Grant, l: Ledger, digest: Digest, calls: seq<(Address, Op)>)
    requires Conserved(l)
    ensures var (approved, moved, lost) := RawBooks(g, l, digest, calls);
            g.In(Run(l, digest, calls)) as nat + moved + lost == approved
  {
    if calls != [] {
      var n := |calls| - 1;
      RawBooksAddUp(g, l, digest, calls[..n]);
      CallsConserve(l, digest, calls[..n]);
      GrantAfterStep(Run(l, digest, calls[..n]), digest, calls[n].0, calls[n].1, g);
    }
  }

  /** Every call succeeds, where it is made. */
  ghost predicate AllSucceed(l: Ledger, digest: Digest, calls: seq<(Address, Op)>) {
    calls != [] ==>
      var n := |calls| - 1;
      && AllSucceed(l, digest, calls[..n])
      && Succeeds(Run(l, digest, calls[..n]), digest, calls[n].0, calls[n].1)
  }

  lemma {:induction false} NothingLost(g: Grant, l: Ledger, digest: Digest, calls: seq<(Address, Op)>)
    requires AllSucceed(l, digest, calls)
    ensures RawBooks(g, l, digest, calls).2 == 0
  {
    if calls != [] {
      NothingLost(g, l, digest, calls[..|calls| - 1]);
    }
  }

  /** In a conserved ledger an allowed spending fails exactly to the sender itself or beyond its
      balance. */
  lemma SpendingFailsIff(l: Ledger, caller: Address, id: Id, sender: Address, recipient: Address, value: U64)
    requires Conserved(l) && id in l.assets && value <= AllowanceOf(l.balances, id, sender, caller)
    ensures Spent(l, caller, id, sender, recipient, value).1 == TRANSFER_FAILED <==>
            recipient == sender || BalanceOf(l.balances, id, sender).value < value
  {
    AllowConserves(l, id, sender, caller, AllowanceOf(l.balances, id, sender, caller) - value);
    TransferNeverOverflows(Reduced(l, caller, id, sender, value), id, sender, recipient, value);
  }

  /** Without rollback one call keeps the books exactly when it is not a positive spending within the
      allowance that goes to the sender itself or exceeds the sender's balance. */
  lemma RawBooksBalanceIff(l: Ledger, digest: Digest, caller: Address, op: Op, g: Grant)
    requires Conserved(l)
    ensures g.In(Step(l, digest, caller, op).0) == g.In(Settled(l, digest, caller, op)) <==>
            !(&& g.UsedBy(caller, op) && op.id in l.assets && 0 < op.value <= g.In(l)
              && (op.recipient == op.sender || BalanceOf(l.balances, op.id, op.sender).value < op.value))
  {
    GrantAfterStep(l, digest, caller, op, g);
    if g.UsedBy(caller, op) && op.id in l.assets && op.value <= g.In(l) {
      SpendingFailsIff(l, caller, op.id, op.sender, op.recipient, op.value);
    }
  }

  /** For instance: a grant of five by a holder of nothing is used up by a spending that fails. */
  lemma RawSpendingLosesGrant(digest: Digest, id: Id, asset: Asset, a: Address, b: Address)
    requires a != b && asset.issuer != a
    ensures var l := Settled(Issued(EMPTY, id, asset), digest, a, Approve(id, b, 5));
            var (m, code) := Step(l, digest, b, TransferFrom(id, a, b, 5));
            && AllowanceOf(l.balances, id, a, b) == 5
            && code == TRANSFER_FAILED
            && AllowanceOf(m.balances, id, a, b) == 0
  {
  }
}
