/** The account-changing calls of the multi-signature service. */
module MultiSig {
  import opened Types
  import opened Signatures

  const LOOKUP_CYCLES: nat := 10_000

  datatype Member = Member(address: Address, weight: Byte)

  datatype Call =
    | Generate(
        owner: Address, autonomy: bool, members: seq<Member>, threshold: U32, memo: string, txHash: Option<Bytes>)
    | Update(account: Address, owner: Address, members: seq<Member>, threshold: U32, memo: string)
    | ChangeOwner(account: Address, owner: Address)
    | ChangeMemo(account: Address, memo: string)
    | AddAccount(account: Address, member: Account)
    | RemoveAccount(account: Address, address: Address)
    | SetWeight(account: Address, address: Address, weight: Byte)
    | SetThreshold(account: Address, threshold: U32)

  /** `derive` gives the address of a transaction hash; `budget` is what the call may still spend on
      look-ups of its members. */
  datatype Env = Env(derive: Bytes -> Option<Address>, caller: Address, budget: nat)

  datatype Edited = Done(permission: Permission) | Refused(error: Error)

  // ----- the calls as functions -----

  /** Members as accounts; one is marked as nested when its look-up was paid for and found it. */
  function Marked(store: Store, members: seq<Member>, budget: nat): seq<Account> {
    seq(|members|, i requires 0 <= i < |members| =>
      Account(members[i].address, members[i].weight,
              (i + 1) * LOOKUP_CYCLES <= budget && members[i].address in store))
  }

  function Unmarked(members: seq<Member>): seq<Account> {
    Marked(map[], members, 0)
  }

  predicate TooDeep(store: Store, members: seq<Member>) {
    exists m | m in members :: DepthOverflow(store, m.address, Levels(0))
  }

  predicate GoodLength(members: seq<Member>) {
    0 < |members| <= MAX_PERMISSION_ACCOUNTS
  }

  predicate GoodWeights(members: seq<Member>, threshold: U32) {
    0 < threshold as nat <= SumWeights(Unmarked(members))
  }

  function Index(accounts: seq<Account>, address: Address): (i: nat)
    ensures i <= |accounts|
    ensures i < |accounts| ==> accounts[i].address == address
    ensures forall j | 0 <= j < i :: accounts[j].address != address
  {
    if accounts == [] || accounts[0].address == address then 0 else 1 + Index(accounts[1..], address)
  }

  function Removed(p: Permission, address: Address): Edited {
    var i := Index(p.accounts, address);
    if i == |p.accounts| then Refused(AccountNotExist)
    else if SumWeights(p.accounts) - p.accounts[i].weight as int < p.threshold as int then
      Refused(InvalidAccountWeights)
    else Done(p.(accounts := p.accounts[..i] + p.accounts[i + 1..]))
  }

  function Reweighted(p: Permission, address: Address, weight: Byte): Edited {
    var i := Index(p.accounts, address);
    if i == |p.accounts| then Refused(AccountNotExist)
    else if SumWeights(p.accounts) + weight as int - p.accounts[i].weight as int < p.threshold as int then
      Refused(InvalidAccountWeights)
    else Done(p.(accounts := p.accounts[i := p.accounts[i].(weight := weight)]))
  }

  /** A call of the owner on permission `p`. */
  function Edit(store: Store, budget: nat, p: Permission, call: Call): Edited
    requires !call.Generate?
  {
    match call
    case Update(account, owner, members, threshold, memo) =>
      if exists m | m in members :: m.address == account then Refused(AccountSelfContained)
      else if !GoodLength(members) then Refused(InvalidAccountLength)
      else if !GoodWeights(members, threshold) then Refused(InvalidAccountWeights)
      else if TooDeep(store, members) then Refused(AboveMaxRecursionDepth)
      else Done(Permission(owner, Marked(store, members, budget), threshold, memo))
    case ChangeOwner(_, owner) =>
      if DepthOverflow(store, owner, Levels(0)) then Refused(AboveMaxRecursionDepth) else Done(p.(owner := owner))
    case ChangeMemo(_, memo) => Done(p.(memo := memo))
    case AddAccount(_, member) =>
      if |p.accounts| == MAX_PERMISSION_ACCOUNTS then Refused(AccountCountReachMaxValue)
      else if DepthOverflow(store, member.address, Levels(1)) then Refused(AboveMaxRecursionDepth)
      else Done(p.(accounts := p.accounts + [member]))
    case RemoveAccount(_, address) => Removed(p, address)
    case SetWeight(_, address, weight) => Reweighted(p, address, weight)
    case SetThreshold(_, threshold) =>
      if SumWeights(p.accounts) < threshold as nat then Refused(InvalidAccountWeights)
      else Done(p.(threshold := threshold))
  }

  function Generated(store: Store, env: Env, call: Call): (Store, Result)
    requires call.Generate?
  {
    if !GoodLength(call.members) then (store, Err(InvalidAccountLength))
    else if !GoodWeights(call.members, call.threshold) then (store, Err(InvalidAccountWeights))
    else if TooDeep(store, call.members) then (store, Err(AboveMaxRecursionDepth))
    else if call.txHash.None? then (store, Err(CtxMissingTxHash))
    else if env.derive(call.txHash.value).None? then (store, Err(GenerateAddressFailed))
    else
      var address := env.derive(call.txHash.value).value;
      var owner := if call.autonomy then address else call.owner;
      (store[address := Permission(owner, Marked(store, call.members, env.budget), call.threshold, call.memo)], Ok)
  }

  function Step(store: Store, env: Env, call: Call): (Store, Result) {
    if call.Generate? then Generated(store, env, call)
    else if call.account !in store then (store, Err(AccountNotExist))
    else if env.caller != store[call.account].owner then (store, Err(InvalidOwner))
    else
      match Edit(store, env.budget, store[call.account], call)
      case Refused(error) => (store, Err(error))
      case Done(p) => (store[call.account := p], Ok)
  }

  function Run(store: Store, calls: seq<(Env, Call)>): Store {
    if calls == [] then store
    else Step(Run(store, calls[..|calls| - 1]), calls[|calls| - 1].0, calls[|calls| - 1].1).0
  }

  // ----- what every call keeps -----

  lemma {:induction false} SumOfTwo(a: seq<Account>, b: seq<Account>)
    ensures SumWeights(a + b) == SumWeights(a) + SumWeights(b)
  {
    if b == [] {
      assert a + b == a;
    } else {
      var n := |b| - 1;
      SumOfTwo(a, b[..n]);
      assert (a + b)[..|a + b| - 1] == a + b[..n];
    }
  }

  lemma SumAround(accounts: seq<Account>, i: nat)
    requires i < |accounts|
    ensures SumWeights(accounts) ==
            SumWeights(accounts[..i]) + accounts[i].weight as nat + SumWeights(accounts[i + 1..])
  {
    assert accounts == accounts[..i] + [accounts[i]] + accounts[i + 1..];
    SumOfTwo(accounts[..i] + [accounts[i]], accounts[i + 1..]);
    SumOfTwo(accounts[..i], [accounts[i]]);
    assert [accounts[i]][..0] == [];
  }

  lemma {:induction false} SumBounded(accounts: seq<Account>)
    ensures SumWeights(accounts) <= 255 * |accounts|
  {
    if accounts != [] {
      SumBounded(accounts[..|accounts| - 1]);
    }
  }

  /** Marks do not change weights. */
  lemma {:induction false} SumOfMarked(store: Store, members: seq<Member>, budget: nat, k: nat)
    requires k <= |members|
    ensures SumWeights(Marked(store, members, budget)[..k]) == SumWeights(Unmarked(members)[..k])
  {
    if k > 0 {
      var a, b := Marked(store, members, budget)[..k], Unmarked(members)[..k];
      SumOfMarked(store, members, budget, k - 1);
      assert a[..k - 1] == Marked(store, members, budget)[..k - 1];
      assert b[..k - 1] == Unmarked(members)[..k - 1];
    }
  }

  lemma NewIsSound(store: Store, members: seq<Member>, budget: nat, owner: Address, threshold: U32, memo: string)
    requires GoodLength(members) && GoodWeights(members, threshold)
    ensures Sound(Permission(owner, Marked(store, members, budget), threshold, memo))
  {
    SumOfMarked(store, members, budget, |members|);
    var a, b := Marked(store, members, budget), Unmarked(members);
    assert a[..|members|] == a && b[..|members|] == b;
  }

  lemma RemovedIsSound(p: Permission, address: Address)
    requires Sound(p) && Removed(p, address).Done?
    ensures Sound(Removed(p, address).permission)
  {
    var i := Index(p.accounts, address);
    SumAround(p.accounts, i);
    SumOfTwo(p.accounts[..i], p.accounts[i + 1..]);
  }

  lemma ReweightedIsSound(p: Permission, address: Address, weight: Byte)
    requires Sound(p) && Reweighted(p, address, weight).Done?
    ensures Sound(Reweighted(p, address, weight).permission)
  {
    var i := Index(p.accounts, address);
    var q := Reweighted(p, address, weight).permission;
    SumAround(p.accounts, i);
    SumAround(q.accounts, i);
    assert q.accounts[..i] == p.accounts[..i] && q.accounts[i + 1..] == p.accounts[i + 1..];
  }

  lemma EditIsSound(store: Store, budget: nat, p: Permission, call: Call)
    requires Sound(p) && !call.Generate? && Edit(store, budget, p, call).Done?
    ensures Sound(Edit(store, budget, p, call).permission)
  {
    match call
    case Update(_, owner, members, threshold, memo) => NewIsSound(store, members, budget, owner, threshold, memo);
    case AddAccount(_, member) => SumOfTwo(p.accounts, [member]);
    case RemoveAccount(_, address) => RemovedIsSound(p, address);
    case SetWeight(_, address, weight) => ReweightedIsSound(p, address, weight);
    case _ =>
  }

  lemma StepIsSound(store: Store, env: Env, call: Call)
    requires SoundStore(store)
    ensures SoundStore(Step(store, env, call).0)
  {
    if Step(store, env, call).1 == Ok {
      if call.Generate? {
        var address := env.derive(call.txHash.value).value;
        var owner := if call.autonomy then address else call.owner;
        NewIsSound(store, call.members, env.budget, owner, call.threshold, call.memo);
      } else {
        EditIsSound(store, env.budget, store[call.account], call);
      }
    }
  }

  /** After every sequence of calls each permission has at most sixteen accounts, whose weights reach
      its threshold. */
  lemma {:induction false} RunIsSound(store: Store, calls: seq<(Env, Call)>)
    requires SoundStore(store)
    ensures SoundStore(Run(store, calls))
  {
    if calls != [] {
      var n := |calls| - 1;
      RunIsSound(store, calls[..n]);
      StepIsSound(Run(store, calls[..n]), calls[n].0, calls[n].1);
    }
  }

  /** No call deletes an account, a refused call changes nothing, and an accepted one changes just the
      account it names: its owner called, or the account was generated from this transaction. */
  lemma OnlyTheOwnerChanges(store: Store, env: Env, call: Call, a: Address)
    requires a in store
    ensures var (after, r) := Step(store, env, call);
            && a in after
            && (r != Ok ==> after == store)
            && (after[a] != store[a] ==>
                  || (call.Generate? && call.txHash.Some? && env.derive(call.txHash.value) == Some(a))
                  || (!call.Generate? && call.account == a && env.caller == store[a].owner))
  {
  }

  /** Whether `calls` hold one that may touch `a`: a generation of that very address, or a call by
      whoever owns `a` at that point. */
  ghost predicate Touched(store: Store, calls: seq<(Env, Call)>, a: Address, k: nat)
    requires a in store
  {
    && k < |calls|
    && var (env, call) := calls[k];
       || (call.Generate? && call.txHash.Some? && env.derive(call.txHash.value) == Some(a))
       || (!call.Generate? && call.account == a && env.caller == store[a].owner)
  }

  /** Over whole runs: an account that nobody entitled touches is still exactly as it was. */
  lemma {:induction false} UntouchedStays(store: Store, calls: seq<(Env, Call)>, a: Address)
    requires a in store && forall k: nat :: !Touched(store, calls, a, k)
    ensures a in Run(store, calls) && Run(store, calls)[a] == store[a]
  {
    if calls != [] {
      var n := |calls| - 1;
      forall k: nat
        ensures !Touched(store, calls[..n], a, k)
      {
        assert !Touched(store, calls, a, k);
      }
      UntouchedStays(store, calls[..n], a);
      assert !Touched(store, calls, a, n);
      OnlyTheOwnerChanges(Run(store, calls[..n]), calls[n].0, calls[n].1, a);
    }
  }

  // ----- zero thresholds -----

  /** Only an owner who sets it makes a threshold zero: generation and update refuse it, and no other
      call touches a threshold. */
  lemma OnlySetThresholdMakesZero(store: Store, env: Env, call: Call, a: Address)
    requires var after := Step(store, env, call).0; a in after && after[a].threshold == 0
    ensures || (a in store && store[a].threshold == 0)
            || (call == SetThreshold(a, 0) && a in store && env.caller == store[a].owner)
  {
  }

  /** Over whole runs: an account is without threshold only if it was from the start or some call set
      it to zero. */
  lemma {:induction false} ZeroWasSet(store: Store, calls: seq<(Env, Call)>, a: Address)
    requires a in Run(store, calls) && Run(store, calls)[a].threshold == 0
    ensures (a in store && store[a].threshold == 0) || exists k | 0 <= k < |calls| :: calls[k].1 == SetThreshold(a, 0)
  {
    if calls != [] {
      var n := |calls| - 1;
      OnlySetThresholdMakesZero(Run(store, calls[..n]), calls[n].0, calls[n].1, a);
      if calls[n].1 != SetThreshold(a, 0) {
        ZeroWasSet(store, calls[..n], a);
      }
    }
  }

  /** An instance: after its owner sets the threshold of an account with members to zero, the account
      is verified without any signature. */
  lemma ZeroThresholdVerifies(store: Store, env: Env, a: Address)
    requires a in store && store[a].accounts != [] && env.caller == store[a].owner
    ensures var (after, r) := Step(store, env, SetThreshold(a, 0));
            r == Ok && Verdict(after, iset{}, a, Levels(0)) == Ok
  {
    OpenNeedsNothing(Step(store, env, SetThreshold(a, 0)).0, iset{}, a, Levels(0));
  }
}
