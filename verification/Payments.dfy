/** What calls on the asset ledger do to balances, and how they are answered. */
module Payments {
  import opened Types
  import opened Asset
  import opened Allowances

  /** What an account holds of an asset. */
  function Held(l: Ledger, id: Id, a: Address): int {
    BalanceOf(l.balances, id, a).value as int
  }

  // ----- answers -----

  /** A new asset is refused exactly if its identifier is taken; otherwise it is stored as asked for. */
  lemma CreateIs(l: Ledger, digest: Digest, caller: Address, name: string, symbol: string, supply: U64)
    ensures var op := CreateAsset(name, symbol, supply);
            var (m, code) := Step(l, digest, caller, op);
            var id := digest(op, caller);
            && (code == ASSET_EXISTS <==> id in l.assets)
            && (code == OK <==> id !in l.assets)
            && (code == OK ==> m.assets == l.assets[id := Asset(name, symbol, supply, caller)])
            && (code == OK ==> Held(m, id, caller) == supply as int)
            && (code != OK ==> m == l)
  {
  }

  /** A transfer fails exactly without the asset, to oneself, or beyond what the caller holds. */
  lemma TransferAnswer(l: Ledger, digest: Digest, caller: Address, id: Id, to: Address, value: U64)
    requires Conserved(l)
    ensures var (m, code) := Step(l, digest, caller, Transfer(id, to, value));
            && (code == NO_ASSET <==> id !in l.assets)
            && (code == TRANSFER_FAILED <==> id in l.assets && (to == caller || Held(l, id, caller) < value as int))
            && (code == OK <==> id in l.assets && to != caller && value as int <= Held(l, id, caller))
            && (code != OK ==> m == l)
  {
    if id in l.assets {
      TransferNeverOverflows(l, id, caller, to, value);
    }
  }

  /** An approval fails exactly for oneself or without the asset. */
  lemma ApproveAnswer(l: Ledger, digest: Digest, caller: Address, id: Id, to: Address, value: U64)
    ensures var (m, code) := Step(l, digest, caller, Approve(id, to, value));
            && (code == APPROVE_SELF <==> caller == to)
            && (code == NO_ASSET <==> caller != to && id !in l.assets)
            && (code == OK <==> caller != to && id in l.assets)
            && (code != OK ==> m == l)
  {
  }

  /** A spending fails exactly without the asset, beyond the grant, to the sender itself, or beyond what
      the sender holds. */
  lemma SpendingAnswer(
      l: Ledger, digest: Digest, caller: Address, id: Id, sender: Address, recipient: Address, value: U64)
    requires Conserved(l)
    ensures var code := Step(l, digest, caller, TransferFrom(id, sender, recipient, value)).1;
            var granted := Grant(id, sender, caller).In(l);
            var able := recipient != sender && value as int <= Held(l, id, sender);
            && (code == NO_ASSET <==> id !in l.assets)
            && (code == NO_ALLOWANCE <==> id in l.assets && granted < value)
            && (code == TRANSFER_FAILED <==> id in l.assets && value <= granted && !able)
            && (code == OK <==> id in l.assets && value <= granted && able)
  {
    if id in l.assets && value <= Grant(id, sender, caller).In(l) {
      SpendingFailsIff(l, caller, id, sender, recipient, value);
    }
  }

  // ----- balances -----

  /** Value goes from one account to another and nowhere else. */
  ghost predicate Pays(l: Ledger, id: Id, sender: Address, recipient: Address, value: U64, m: Ledger) {
    && sender != recipient
    && Held(m, id, sender) == Held(l, id, sender) - value as int
    && Held(m, id, recipient) == Held(l, id, recipient) + value as int
    && forall i: Id, a: Address | (i, a) != (id, sender) && (i, a) != (id, recipient) :: Held(m, i, a) == Held(l, i, a)
  }

  ghost predicate NobodyPays(l: Ledger, m: Ledger) {
    forall i: Id, a: Address :: Held(m, i, a) == Held(l, i, a)
  }

  lemma MovedPays(l: Ledger, id: Id, sender: Address, recipient: Address, value: U64)
    requires CanMove(l.balances, id, sender, recipient, value)
    ensures Pays(l, id, sender, recipient, value, l.(balances := Moved(l.balances, id, sender, recipient, value)))
  {
  }

  lemma AllowedPaysNobody(l: Ledger, id: Id, grantor: Address, grantee: Address, value: U64)
    ensures NobodyPays(l, l.(balances := Allowed(l.balances, id, grantor, grantee, value)))
  {
  }

  /** A successful transfer takes exactly its value from the caller and gives it to the recipient; a failed
      one, and every approval, leaves all balances. */
  lemma TransferPays(l: Ledger, digest: Digest, caller: Address, op: Op)
    requires op.Transfer? || op.Approve?
    ensures var (m, code) := Step(l, digest, caller, op);
            if op.Transfer? && code == OK then Pays(l, op.id, caller, op.to, op.value, m) else NobodyPays(l, m)
  {
    if op.Transfer? {
      if op.id in l.assets && CanMove(l.balances, op.id, caller, op.to, op.value) {
        MovedPays(l, op.id, caller, op.to, op.value);
      }
    } else {
      AllowedPaysNobody(l, op.id, caller, op.to, op.value);
    }
  }

  /** A successful spending takes exactly its value from the sender, not from the caller; a failed one
      leaves all balances, though it may have reduced the grant. */
  lemma SpendingPays(l: Ledger, digest: Digest, caller: Address, op: Op)
    requires op.TransferFrom?
    ensures var (m, code) := Step(l, digest, caller, op);
            if code == OK then Pays(l, op.id, op.sender, op.recipient, op.value, m) else NobodyPays(l, m)
  {
    var granted := AllowanceOf(l.balances, op.id, op.sender, caller);
    if op.id in l.assets && op.value <= granted {
      AllowedPaysNobody(l, op.id, op.sender, caller, granted - op.value);
      var r := Reduced(l, caller, op.id, op.sender, op.value);
      if CanMove(r.balances, op.id, op.sender, op.recipient, op.value) {
        MovedPays(r, op.id, op.sender, op.recipient, op.value);
      }
    }
  }

  /** What a successful call brings account `a` of asset `id`, read off the call alone. */
  function Flow(digest: Digest, caller: Address, op: Op, id: Id, a: Address): int {
    match op
    case CreateAsset(_, _, supply) => if digest(op, caller) == id && caller == a then supply as int else 0
    case Transfer(i, to, value) => if i != id then 0 else In(value, a, to) - In(value, a, caller)
    case Approve(_, _, _) => 0
    case TransferFrom(i, sender, recipient, value) =>
      if i != id then 0 else In(value, a, recipient) - In(value, a, sender)
  }

  function In(value: U64, a: Address, b: Address): int {
    if a == b then value as int else 0
  }

  /** Every balance after a call is the one before and what the call brought. */
  lemma HeldAfterStep(l: Ledger, digest: Digest, caller: Address, op: Op, id: Id, a: Address)
    requires Conserved(l)
    ensures var (m, code) := Step(l, digest, caller, op);
            Held(m, id, a) == Held(l, id, a) + if code == OK then Flow(digest, caller, op, id, a) else 0
  {
    if op.TransferFrom? {
      SpendingPays(l, digest, caller, op);
    } else if !op.CreateAsset? {
      TransferPays(l, digest, caller, op);
    }
  }

  // ----- whole runs -----

  /** What the successful calls of a run brought account `a`, under rollback. */
  function Flows(l: Ledger, digest: Digest, calls: seq<(Address, Op)>, id: Id, a: Address): int {
    if calls == [] then 0
    else
      var n := |calls| - 1;
      var (caller, op) := calls[n];
      Flows(l, digest, calls[..n], id, a)
      + if Succeeds(SettledRun(l, digest, calls[..n]), digest, caller, op) then Flow(digest, caller, op, id, a) else 0
  }

  /** The same without rollback. */
  function RawFlows(l: Ledger, digest: Digest, calls: seq<(Address, Op)>, id: Id, a: Address): int {
    if calls == [] then 0
    else
      var n := |calls| - 1;
      var (caller, op) := calls[n];
      RawFlows(l, digest, calls[..n], id, a)
      + if Succeeds(Run(l, digest, calls[..n]), digest, caller, op) then Flow(digest, caller, op, id, a) else 0
  }

  /** After every run each balance is the first one and what the successful calls brought. */
  lemma {:induction false} HeldAfterRun(l: Ledger, digest: Digest, calls: seq<(Address, Op)>, id: Id, a: Address)
    requires Conserved(l)
    ensures Held(SettledRun(l, digest, calls), id, a) == Held(l, id, a) + Flows(l, digest, calls, id, a)
    ensures Held(Run(l, digest, calls), id, a) == Held(l, id, a) + RawFlows(l, digest, calls, id, a)
  {
    if calls != [] {
      var n := |calls| - 1;
      HeldAfterRun(l, digest, calls[..n], id, a);
      SettledRunConserves(l, digest, calls[..n]);
      CallsConserve(l, digest, calls[..n]);
      HeldAfterStep(SettledRun(l, digest, calls[..n]), digest, calls[n].0, calls[n].1, id, a);
      HeldAfterStep(Run(l, digest, calls[..n]), digest, calls[n].0, calls[n].1, id, a);
    }
  }

  // ----- the books are kept in money -----

  /** What left the grantor through this grant since it was last approved, and what reached the
      recipients: differences of balances, over the calls made with the grant, whatever they answered. */
  function Through(g: Grant, l: Ledger, digest: Digest, calls: seq<(Address, Op)>): (int, int) {
    if calls == [] then (0, 0)
    else
      var n := |calls| - 1;
      var (caller, op) := calls[n];
      var (paid, received) := Through(g, l, digest, calls[..n]);
      var before := SettledRun(l, digest, calls[..n]);
      var after := SettledRun(l, digest, calls);
      if g.GivenBy(caller, op) && Succeeds(before, digest, caller, op) then (0, 0)
      else if g.UsedBy(caller, op) then
        (paid + Held(before, g.id, g.grantor) - Held(after, g.id, g.grantor),
         received + Held(after, g.id, op.recipient) - Held(before, g.id, op.recipient))
      else (paid, received)
  }

  function RawThrough(g: Grant, l: Ledger, digest: Digest, calls: seq<(Address, Op)>): (int, int) {
    if calls == [] then (0, 0)
    else
      var n := |calls| - 1;
      var (caller, op) := calls[n];
      var (paid, received) := RawThrough(g, l, digest, calls[..n]);
      var before := Run(l, digest, calls[..n]);
      var after := Run(l, digest, calls);
      if g.GivenBy(caller, op) && Succeeds(before, digest, caller, op) then (0, 0)
      else if g.UsedBy(caller, op) then
        (paid + Held(before, g.id, g.grantor) - Held(after, g.id, g.grantor),
         received + Held(after, g.id, op.recipient) - Held(before, g.id, op.recipient))
      else (paid, received)
  }

  /** A spending takes from the sender what it gives to the recipient. */
  lemma SpendingMoves(l: Ledger, digest: Digest, caller: Address, op: Op)
    requires op.TransferFrom?
    ensures var (m, code) := Step(l, digest, caller, op);
            var moved := if code == OK then op.value as int else 0;
            && Held(l, op.id, op.sender) - Held(m, op.id, op.sender) == moved
            && Held(m, op.id, op.recipient) - Held(l, op.id, op.recipient) == moved
  {
    SpendingPays(l, digest, caller, op);
  }

  /** What the books call moved is what the grantor's balance lost and what the recipients' gained. */
  lemma {:induction false} MovedIsPaid(g: Grant, l: Ledger, digest: Digest, calls: seq<(Address, Op)>)
    ensures var moved := Books(g, l, digest, calls).1; Through(g, l, digest, calls) == (moved, moved)
  {
    if calls != [] {
      var n := |calls| - 1;
      MovedIsPaid(g, l, digest, calls[..n]);
      if g.UsedBy(calls[n].0, calls[n].1) {
        SpendingMoves(SettledRun(l, digest, calls[..n]), digest, calls[n].0, calls[n].1);
      }
    }
  }

  lemma {:induction false} RawMovedIsPaid(g: Grant, l: Ledger, digest: Digest, calls: seq<(Address, Op)>)
    ensures var moved := RawBooks(g, l, digest, calls).1; RawThrough(g, l, digest, calls) == (moved, moved)
  {
    if calls != [] {
      var n := |calls| - 1;
      RawMovedIsPaid(g, l, digest, calls[..n]);
      if g.UsedBy(calls[n].0, calls[n].1) {
        SpendingMoves(Run(l, digest, calls[..n]), digest, calls[n].0, calls[n].1);
      }
    }
  }

  /** Under rollback, after every run: what is left of a grant and what the grantor's balance lost
      through it since it was last approved are what was approved. */
  lemma LeftAndPaid(g: Grant, l: Ledger, digest: Digest, calls: seq<(Address, Op)>)
    requires Conserved(l)
    ensures g.In(SettledRun(l, digest, calls)) as int + Through(g, l, digest, calls).0 ==
            Books(g, l, digest, calls).0
  {
    BooksBalance(g, l, digest, calls);
    MovedIsPaid(g, l, digest, calls);
  }
}
