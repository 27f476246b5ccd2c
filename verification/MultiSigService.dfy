/** The multi-signature service as it runs: permissions are read from the store, changed in place and
    written back, with 8-bit weights and 32-bit sums. */
module MultiSigService {
  import opened Types
  import opened Signatures
  import opened MultiSig

  /** The 32-bit sum of the weights; with at most 16 accounts it cannot overflow. */
  method WeightSum(accounts: seq<Account>) returns (sum: U32)
    requires |accounts| <= MAX_PERMISSION_ACCOUNTS
    ensures sum as nat == SumWeights(accounts)
  {
    sum := 0;
    for i := 0 to |accounts|
      invariant sum as nat == SumWeights(accounts[..i]) <= 255 * i
    {
      assert accounts[..i + 1][..i] == accounts[..i];
      sum := sum + accounts[i].weight as U32;
    }
    assert accounts[..|accounts|] == accounts;
  }

  datatype RemoveResult = Removed(account: Account) | NoAccount | BelowThreshold
  datatype WeightResult = Success | NoSuchAccount | InvalidNewWeight

  class MultiSigPermission {
    var owner: Address
    var accounts: seq<Account>
    var threshold: U32
    var memo: string

    function Value(): Permission
      reads this
    {
      Permission(owner, accounts, threshold, memo)
    }

    constructor (p: Permission)
      ensures Value() == p
    {
      owner, accounts, threshold, memo := p.owner, p.accounts, p.threshold, p.memo;
    }

    method Find(address: Address) returns (i: nat)
      ensures i == Index(accounts, address)
    {
      i := 0;
      while i < |accounts|
        invariant i <= |accounts| && i + Index(accounts[i..], address) == Index(accounts, address)
      {
        if accounts[i].address == address {
          return;
        }
        assert accounts[i..][1..] == accounts[i + 1..];
        i := i + 1;
      }
    }

    /** Takes out the first account with this address, unless the rest would weigh too little. */
    method RemoveAccount(address: Address) returns (r: RemoveResult)
      requires Sound(Value())
      modifies this
      ensures Value() ==
              if MultiSig.Removed(old(Value()), address).Done?
              then MultiSig.Removed(old(Value()), address).permission
              else old(Value())
      ensures match MultiSig.Removed(old(Value()), address)
              case Done(_) => r == Removed(old(accounts)[Index(old(accounts), address)])
              case Refused(AccountNotExist) => r == NoAccount
              case Refused(_) => r == BelowThreshold
    {
      var weightSum := WeightSum(accounts);
      var i := Find(address);
      if i == |accounts| {
        return NoAccount;
      }
      SumAround(accounts, i);
      if weightSum - accounts[i].weight as U32 < threshold {
        return BelowThreshold;
      }
      r := Removed(accounts[i]);
      accounts := accounts[..i] + accounts[i + 1..];
    }

    /** Gives the first account with this address a new weight, unless the sum would be too little. */
    method SetAccountWeight(address: Address, weight: Byte) returns (r: WeightResult)
      requires Sound(Value())
      modifies this
      ensures Value() ==
              if Reweighted(old(Value()), address, weight).Done?
              then Reweighted(old(Value()), address, weight).permission
              else old(Value())
      ensures match Reweighted(old(Value()), address, weight)
              case Done(_) => r == Success
              case Refused(AccountNotExist) => r == NoSuchAccount
              case Refused(_) => r == InvalidNewWeight
    {
      var weightSum := WeightSum(accounts);
      var i := Find(address);
      if i == |accounts| {
        return NoSuchAccount;
      }
      SumAround(accounts, i);
      SumBounded(accounts);
      if weightSum + weight as U32 - accounts[i].weight as U32 < threshold {
        return InvalidNewWeight;
      }
      accounts := accounts[i := accounts[i].(weight := weight)];
      return Success;
    }
  }

  class Service {
    var store: Store

    ghost predicate Valid()
      reads this
    {
      SoundStore(store)
    }

    constructor ()
      ensures Valid() && store == map[]
    {
      store := map[];
    }

    /** Genesis panics, and stores nothing, unless its one account is well formed. */
    method InitGenesis(address: Address, owner: Address, members: seq<Member>, threshold: U32, memo: string)
      returns (ok: bool)
      requires Valid()
      modifies this
      ensures Valid() && ok == (GoodLength(members) && GoodWeights(members, threshold))
      ensures store ==
              if ok then old(store)[address := Permission(owner, Unmarked(members), threshold, memo)] else old(store)
    {
      if |members| == 0 || |members| > MAX_PERMISSION_ACCOUNTS {
        return false;
      }
      var weightSum := WeightSum(Unmarked(members));
      if threshold == 0 || weightSum < threshold {
        return false;
      }
      NewIsSound(map[], members, 0, owner, threshold, memo);
      store := store[address := Permission(owner, Unmarked(members), threshold, memo)];
      return true;
    }

    /** The checks that generation and update share, in the order they are made. */
    method Judge(members: seq<Member>, threshold: U32) returns (r: Result)
      ensures r == if !GoodLength(members) then Err(InvalidAccountLength)
                   else if !GoodWeights(members, threshold) then Err(InvalidAccountWeights)
                   else if TooDeep(store, members) then Err(AboveMaxRecursionDepth)
                   else Ok
    {
      if |members| == 0 || |members| > MAX_PERMISSION_ACCOUNTS {
        return Err(InvalidAccountLength);
      }
      var weightSum := WeightSum(Unmarked(members));
      if threshold == 0 || weightSum < threshold {
        return Err(InvalidAccountWeights);
      }
      for i := 0 to |members|
        invariant forall j | 0 <= j < i :: !DepthOverflow(store, members[j].address, Levels(0))
      {
        if DepthOverflow(store, members[i].address, Levels(0)) {
          return Err(AboveMaxRecursionDepth);
        }
      }
      return Ok;
    }

    /** Looks the members up one by one while the budget lasts. */
    method Mark(members: seq<Member>, budget: nat) returns (accounts: seq<Account>)
      ensures accounts == Marked(store, members, budget)
    {
      accounts := [];
      var left := budget;
      for i := 0 to |members|
        invariant accounts == Marked(store, members, budget)[..i]
        invariant if i * LOOKUP_CYCLES <= budget then left == budget - i * LOOKUP_CYCLES else left < LOOKUP_CYCLES
      {
        var paid := LOOKUP_CYCLES <= left;
        if paid {
          left := left - LOOKUP_CYCLES;
        }
        accounts := accounts + [Account(members[i].address, members[i].weight, paid && members[i].address in store)];
      }
    }

    method GenerateAccount(env: Env, call: Call) returns (r: Result)
      requires Valid() && call.Generate?
      modifies this
      ensures Valid() && (store, r) == Step(old(store), env, call)
    {
      StepIsSound(store, env, call);
      r := Judge(call.members, call.threshold);
      if r != Ok {
        return;
      }
      if call.txHash.None? {
        return Err(CtxMissingTxHash);
      }
      var address := env.derive(call.txHash.value);
      if address.None? {
        return Err(GenerateAddressFailed);
      }
      var accounts := Mark(call.members, env.budget);
      var owner := if call.autonomy then address.value else call.owner;
      store := store[address.value := Permission(owner, accounts, call.threshold, call.memo)];
    }

    /** The other calls: the account must exist and its owner must be calling. */
    method EditAccount(env: Env, call: Call) returns (r: Result)
      requires Valid() && !call.Generate?
      modifies this
      ensures Valid() && (store, r) == Step(old(store), env, call)
    {
      StepIsSound(store, env, call);
      if call.account !in store {
        return Err(AccountNotExist);
      }
      var permission := new MultiSigPermission(store[call.account]);
      if env.caller != permission.owner {
        return Err(InvalidOwner);
      }
      r := Change(env, permission, call);
      if r == Ok {
        store := store[call.account := permission.Value()];
      }
    }

    /** Changes the permission in place as the call says. */
    method Change(env: Env, permission: MultiSigPermission, call: Call) returns (r: Result)
      requires !call.Generate? && Sound(permission.Value())
      modifies permission
      ensures match Edit(store, env.budget, old(permission.Value()), call)
              case Done(p) => r == Ok && permission.Value() == p
              case Refused(error) => r == Err(error)
    {
      match call {
        case Update(account, owner, members, threshold, memo) =>
          if exists m | m in members :: m.address == account {
            return Err(AccountSelfContained);
          }
          r := Judge(members, threshold);
          if r == Ok {
            permission.accounts := Mark(members, env.budget);
            permission.owner, permission.threshold, permission.memo := owner, threshold, memo;
          }
        case ChangeOwner(_, owner) =>
          if DepthOverflow(store, owner, Levels(0)) {
            return Err(AboveMaxRecursionDepth);
          }
          permission.owner := owner;
          return Ok;
        case ChangeMemo(_, memo) =>
          permission.memo := memo;
          return Ok;
        case AddAccount(_, member) =>
          if |permission.accounts| == MAX_PERMISSION_ACCOUNTS {
            return Err(AccountCountReachMaxValue);
          }
          if DepthOverflow(store, member.address, Levels(1)) {
            return Err(AboveMaxRecursionDepth);
          }
          permission.accounts := permission.accounts + [member];
          return Ok;
        case RemoveAccount(_, address) =>
          var removed := permission.RemoveAccount(address);
          return match removed
            case Removed(_) => Ok
            case BelowThreshold => Err(InvalidAccountWeights)
            case NoAccount => Err(AccountNotExist);
        case SetWeight(_, address, weight) =>
          var weighed := permission.SetAccountWeight(address, weight);
          return match weighed
            case Success => Ok
            case InvalidNewWeight => Err(InvalidAccountWeights)
            case NoSuchAccount => Err(AccountNotExist);
        case SetThreshold(_, threshold) =>
          var weightSum := WeightSum(permission.accounts);
          if weightSum < threshold {
            return Err(InvalidAccountWeights);
          }
          permission.threshold := threshold;
          return Ok;
      }
    }
  }
}
