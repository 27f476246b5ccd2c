/** The asset service as it runs: balances are read, changed and stored one at a time. */
module AssetService {
  import opened Types
  import opened Asset

  function OverflowingAdd(a: U64, b: U64): (U64, bool) {
    var sum := a as int + b as int;
    if sum > MAX then ((sum - MAX - 1) as U64, true) else (sum as U64, false)
  }

  class Service {
    const digest: Digest
    var assets: map<Id, Asset>
    var balances: Balances

    function View(): Ledger
      reads this
    {
      Ledger(assets, balances)
    }

    constructor (digest: Digest)
      ensures this.digest == digest && View() == EMPTY
    {
      this.digest, assets, balances := digest, map[], map[];
    }

    method InitGenesis(id: Id, asset: Asset)
      modifies this
      ensures View() == Issued(old(View()), id, asset)
    {
      assets := assets[id := asset];
      balances := balances[(id, asset.issuer) := Balance(asset.supply, map[])];
    }

    method Create(caller: Address, op: Op) returns (code: nat)
      requires op.CreateAsset?
      modifies this
      ensures (View(), code) == Step(old(View()), digest, caller, op)
    {
      var id := digest(op, caller);
      if id in assets {
        return ASSET_EXISTS;
      }
      InitGenesis(id, Asset(op.name, op.symbol, op.supply, caller));
      return OK;
    }

    method TransferTo(caller: Address, op: Op) returns (code: nat)
      requires op.Transfer?
      modifies this
      ensures (View(), code) == Step(old(View()), digest, caller, op)
    {
      if op.id !in assets {
        return NO_ASSET;
      }
      var ok := Move(caller, op.to, op.id, op.value);
      return if ok then OK else TRANSFER_FAILED;
    }

    method Approve(caller: Address, op: Op) returns (code: nat)
      requires op.Approve?
      modifies this
      ensures (View(), code) == Step(old(View()), digest, caller, op)
    {
      if caller == op.to {
        return APPROVE_SELF;
      }
      if op.id !in assets {
        return NO_ASSET;
      }
      var balance := BalanceOf(balances, op.id, caller);
      balance := balance.(allowance := balance.allowance[op.to := op.value]);
      balances := balances[(op.id, caller) := balance];
      return OK;
    }

    method TransferFrom(caller: Address, op: Op) returns (code: nat)
      requires op.TransferFrom?
      modifies this
      ensures (View(), code) == Step(old(View()), digest, caller, op)
    {
      if op.id !in assets {
        return NO_ASSET;
      }
      var balance := BalanceOf(balances, op.id, op.sender);
      var allowed := if caller in balance.allowance then balance.allowance[caller] else 0;
      if allowed < op.value {
        return NO_ALLOWANCE;
      }
      balance := balance.(allowance := balance.allowance[caller := allowed - op.value]);
      balances := balances[(op.id, op.sender) := balance];
      var ok := Move(op.sender, op.recipient, op.id, op.value);
      return if ok then OK else TRANSFER_FAILED;
    }

    /** Moves value between two holders; when it cannot, nothing changes. The subtraction never wraps
        because the balance was compared first. */
    method Move(sender: Address, recipient: Address, id: Id, value: U64) returns (ok: bool)
      modifies this
      ensures assets == old(assets) && ok == CanMove(old(balances), id, sender, recipient, value)
      ensures balances == if ok then Moved(old(balances), id, sender, recipient, value) else old(balances)
      ensures ok ==>
                && BalanceOf(balances, id, sender).value as int ==
                   BalanceOf(old(balances), id, sender).value as int - value as int
                && BalanceOf(balances, id, recipient).value as int ==
                   BalanceOf(old(balances), id, recipient).value as int + value as int
    {
      if recipient == sender {
        return false;
      }
      var from := BalanceOf(balances, id, sender);
      if from.value < value {
        return false;
      }
      var to := BalanceOf(balances, id, recipient);
      var (v, overflow) := OverflowingAdd(to.value, value);
      if overflow {
        return false;
      }
      balances := balances[(id, recipient) := to.(value := v)];
      balances := balances[(id, sender) := from.(value := from.value - value)];
      return true;
    }
  }
}
