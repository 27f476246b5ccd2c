/** What each call of the multi-signature service does to the account it names, and how it is answered. */
module MultiSigCalls {
  import opened Types
  import opened Signatures
  import opened MultiSig

  // ----- chains of nested accounts -----

  ghost predicate LongChain(store: Store, address: Address, n: nat) {
    exists path: seq<Address> :: |path| == n > 0 && path[0] == address && Chain(store, path)
  }

  lemma OverflowIffChain(store: Store, address: Address, levels: nat)
    ensures DepthOverflow(store, address, levels) <==> LongChain(store, address, levels + 1)
  {
    if DepthOverflow(store, address, levels) {
      var path := OverflowMeansChain(store, address, levels);
      assert |path| == levels + 1 > 0 && path[0] == address && Chain(store, path);
    }
    if LongChain(store, address, levels + 1) {
      var path: seq<Address> :| |path| == levels + 1 > 0 && path[0] == address && Chain(store, path);
      ChainMeansOverflow(store, path);
    }
  }

  /** Some member starts a chain of eight accounts. */
  ghost predicate DeepMember(store: Store, members: seq<Member>) {
    exists i | 0 <= i < |members| :: LongChain(store, members[i].address, 8)
  }

  lemma TooDeepIff(store: Store, members: seq<Member>)
    ensures TooDeep(store, members) <==> DeepMember(store, members)
  {
    forall i | 0 <= i < |members|
      ensures DepthOverflow(store, members[i].address, 7) <==> LongChain(store, members[i].address, 8)
    {
      OverflowIffChain(store, members[i].address, 7);
    }
    if DeepMember(store, members) {
      var i :| 0 <= i < |members| && LongChain(store, members[i].address, 8);
      assert members[i] in members;
    }
  }

  // ----- members of a new permission -----

  function TotalWeight(members: seq<Member>): nat {
    if members == [] then 0 else members[0].weight as nat + TotalWeight(members[1..])
  }

  lemma {:induction false} TotalWeightIs(members: seq<Member>)
    ensures SumWeights(Unmarked(members)) == TotalWeight(members)
  {
    if members != [] {
      var a, b := Unmarked(members), Unmarked(members[1..]);
      TotalWeightIs(members[1..]);
      assert a == [a[0]] + b;
      SumOfTwo([a[0]], b);
      assert [a[0]][..0] == [];
      assert SumWeights([a[0]]) == a[0].weight as nat;
    }
  }

  /** Members are taken over in order; one is nested when it is an account and the cycles sufficed to
      look it up. */
  ghost predicate TakenOver(store: Store, members: seq<Member>, budget: nat, accounts: seq<Account>) {
    && |accounts| == |members|
    && forall i | 0 <= i < |members| ::
         && accounts[i].address == members[i].address
         && accounts[i].weight == members[i].weight
         && (accounts[i].isMultiple <==> members[i].address in store && 10_000 * (i + 1) <= budget)
  }

  /** Why a list of members and a threshold are refused, if they are. */
  ghost predicate ListAnswer(store: Store, members: seq<Member>, threshold: U32, r: Result) {
    && (r == Err(InvalidAccountLength) <==> |members| == 0 || |members| > 16)
    && (r == Err(InvalidAccountWeights) <==>
          1 <= |members| <= 16 && (threshold == 0 || TotalWeight(members) < threshold as nat))
    && (r == Err(AboveMaxRecursionDepth) <==>
          1 <= |members| <= 16 && 0 < threshold as nat <= TotalWeight(members) && DeepMember(store, members))
  }

  // ----- calls on an existing account -----

  /** The call reaches the account: it exists and its owner calls. */
  ghost predicate Reaches(store: Store, env: Env, a: Address) {
    a in store && store[a].owner == env.caller
  }

  /** Otherwise the answer is that there is no such account or that it is not the caller's. */
  lemma UnreachedIsRefused(store: Store, env: Env, call: Call)
    requires !call.Generate?
    ensures var (after, r) := Step(store, env, call);
            && (call.account !in store ==> r == Err(AccountNotExist) && after == store)
            && (call.account in store && !Reaches(store, env, call.account) ==>
                  r == Err(InvalidOwner) && after == store)
            && (r == Err(InvalidOwner) ==> call.account in store && !Reaches(store, env, call.account))
  {
  }

  /** Nothing but account `a` changed, and only if the call was accepted. */
  ghost predicate OnlyAt(store: Store, a: Address, after: Store, r: Result) {
    && (r != Ok ==> after == store)
    && (r == Ok ==> after.Keys == store.Keys + {a} && forall b | b in store && b != a :: after[b] == store[b])
  }

  /** Refused if the new owner starts a chain of eight accounts; otherwise the account has the new owner
      and is as it was in all else. */
  lemma ChangeOwnerIs(store: Store, env: Env, a: Address, owner: Address)
    requires Reaches(store, env, a)
    ensures var (after, r) := Step(store, env, ChangeOwner(a, owner));
            && OnlyAt(store, a, after, r)
            && r == (if LongChain(store, owner, 8) then Err(AboveMaxRecursionDepth) else Ok)
            && (r == Ok ==>
                  && after[a].owner == owner
                  && after[a].accounts == store[a].accounts
                  && after[a].threshold == store[a].threshold
                  && after[a].memo == store[a].memo)
  {
    OverflowIffChain(store, owner, 7);
  }

  /** Once an account is handed over, its former owner is refused and the new one is heard. */
  lemma HandedOver(store: Store, env: Env, a: Address, owner: Address, later: Env, call: Call)
    requires Reaches(store, env, a) && owner != env.caller && Step(store, env, ChangeOwner(a, owner)).1 == Ok
    requires !call.Generate? && call.account == a
    ensures var after := Step(store, env, ChangeOwner(a, owner)).0;
            && (later.caller == env.caller ==> Step(after, later, call) == (after, Err(InvalidOwner)))
            && (later.caller == owner ==> Step(after, later, call).1 != Err(InvalidOwner))
  {
    ChangeOwnerIs(store, env, a, owner);
    UnreachedIsRefused(Step(store, env, ChangeOwner(a, owner)).0, later, call);
  }

  /** Always accepted; nothing but the memo changes. */
  lemma ChangeMemoIs(store: Store, env: Env, a: Address, memo: string)
    requires Reaches(store, env, a)
    ensures var (after, r) := Step(store, env, ChangeMemo(a, memo));
            && OnlyAt(store, a, after, r)
            && r == Ok
            && after[a].memo == memo
            && after[a].owner == store[a].owner
            && after[a].accounts == store[a].accounts
            && after[a].threshold == store[a].threshold
  {
  }

  /** Refused if the weights do not reach it; otherwise nothing but the threshold changes. */
  lemma SetThresholdIs(store: Store, env: Env, a: Address, threshold: U32)
    requires Reaches(store, env, a)
    ensures var (after, r) := Step(store, env, SetThreshold(a, threshold));
            && OnlyAt(store, a, after, r)
            && r == (if SumWeights(store[a].accounts) < threshold as nat then Err(InvalidAccountWeights) else Ok)
            && (r == Ok ==>
                  && after[a].threshold == threshold
                  && after[a].owner == store[a].owner
                  && after[a].accounts == store[a].accounts
                  && after[a].memo == store[a].memo)
  {
  }

  /** Refused if there are sixteen members already, or the new one starts a chain of seven accounts;
      otherwise it is the last member. */
  lemma AddAccountIs(store: Store, env: Env, a: Address, member: Account)
    requires Reaches(store, env, a)
    ensures var (after, r) := Step(store, env, AddAccount(a, member));
            && OnlyAt(store, a, after, r)
            && (r == Err(AccountCountReachMaxValue) <==> |store[a].accounts| == 16)
            && (r == Err(AboveMaxRecursionDepth) <==>
                  |store[a].accounts| != 16 && LongChain(store, member.address, 7))
            && (r == Ok <==> |store[a].accounts| != 16 && !LongChain(store, member.address, 7))
            && (r == Ok ==>
                  && |after[a].accounts| == |store[a].accounts| + 1
                  && after[a].accounts[|store[a].accounts|] == member
                  && after[a].accounts[..|store[a].accounts|] == store[a].accounts
                  && after[a].owner == store[a].owner
                  && after[a].threshold == store[a].threshold
                  && after[a].memo == store[a].memo)
  {
    OverflowIffChain(store, member.address, 6);
  }

  /** Position `i` holds the first member with this address. */
  ghost predicate FirstAt(accounts: seq<Account>, address: Address, i: nat) {
    && i < |accounts| && accounts[i].address == address
    && forall j | 0 <= j < i :: accounts[j].address != address
  }

  ghost predicate NoMember(accounts: seq<Account>, address: Address) {
    forall j | 0 <= j < |accounts| :: accounts[j].address != address
  }

  lemma IndexIs(accounts: seq<Account>, address: Address, i: nat)
    ensures FirstAt(accounts, address, i) ==> Index(accounts, address) == i
    ensures NoMember(accounts, address) <==> Index(accounts, address) == |accounts|
  {
    var k := Index(accounts, address);
    if FirstAt(accounts, address, i) {
      assert k <= i;
    }
  }

  lemma RemovedIs(p: Permission, address: Address, i: nat)
    requires FirstAt(p.accounts, address, i)
    ensures var rest := SumWeights(p.accounts[..i]) + SumWeights(p.accounts[i + 1..]);
            Removed(p, address) ==
            if rest < p.threshold as nat then Refused(InvalidAccountWeights)
            else Done(p.(accounts := p.accounts[..i] + p.accounts[i + 1..]))
  {
    IndexIs(p.accounts, address, i);
    SumAround(p.accounts, i);
  }

  /** Removing the first member with that address: refused exactly if the rest weighs too little. Each
      member before it stays where it was and each one behind moves up by one. */
  lemma RemoveAccountIs(store: Store, env: Env, a: Address, address: Address, i: nat)
    requires Reaches(store, env, a) && FirstAt(store[a].accounts, address, i)
    ensures var (after, r) := Step(store, env, RemoveAccount(a, address));
            var accounts := store[a].accounts;
            var rest := SumWeights(accounts[..i]) + SumWeights(accounts[i + 1..]);
            && OnlyAt(store, a, after, r)
            && r == (if rest < store[a].threshold as nat then Err(InvalidAccountWeights) else Ok)
            && (r == Ok ==>
                  && |after[a].accounts| == |accounts| - 1
                  && (forall j | 0 <= j < i :: after[a].accounts[j] == accounts[j])
                  && (forall j | i <= j < |accounts| - 1 :: after[a].accounts[j] == accounts[j + 1])
                  && after[a].owner == store[a].owner
                  && after[a].threshold == store[a].threshold
                  && after[a].memo == store[a].memo)
  {
    RemovedIs(store[a], address, i);
  }

  /** Reweighting the first member with that address: refused exactly if all would weigh too little. No
      other member changes, nor does this one in anything else. */
  lemma SetWeightIs(store: Store, env: Env, a: Address, address: Address, weight: Byte, i: nat)
    requires Reaches(store, env, a) && FirstAt(store[a].accounts, address, i)
    ensures var (after, r) := Step(store, env, SetWeight(a, address, weight));
            var accounts := store[a].accounts;
            var total := SumWeights(accounts[..i]) + weight as nat + SumWeights(accounts[i + 1..]);
            && OnlyAt(store, a, after, r)
            && r == (if total < store[a].threshold as nat then Err(InvalidAccountWeights) else Ok)
            && (r == Ok ==>
                  && |after[a].accounts| == |accounts|
                  && (forall j | 0 <= j < |accounts| && j != i :: after[a].accounts[j] == accounts[j])
                  && after[a].accounts[i] == Account(address, weight, accounts[i].isMultiple)
                  && after[a].owner == store[a].owner
                  && after[a].threshold == store[a].threshold
                  && after[a].memo == store[a].memo)
  {
    IndexIs(store[a].accounts, address, i);
    SumAround(store[a].accounts, i);
  }

  /** Without such a member both are refused. */
  lemma NoSuchMember(store: Store, env: Env, a: Address, address: Address, weight: Byte)
    requires Reaches(store, env, a) && NoMember(store[a].accounts, address)
    ensures Step(store, env, RemoveAccount(a, address)) == (store, Err(AccountNotExist))
    ensures Step(store, env, SetWeight(a, address, weight)) == (store, Err(AccountNotExist))
  {
    IndexIs(store[a].accounts, address, 0);
  }

  ghost predicate Inside(members: seq<Member>, a: Address) {
    exists i | 0 <= i < |members| :: members[i].address == a
  }

  lemma InsideIff(members: seq<Member>, a: Address)
    ensures Inside(members, a) <==> exists m | m in members :: m.address == a
  {
    if i :| 0 <= i < |members| && members[i].address == a {
      assert members[i] in members;
    }
  }

  /** All four fields are replaced, unless the account is a member of itself or the list is refused. */
  lemma UpdateIs(
      store: Store, env: Env, a: Address, owner: Address, members: seq<Member>, threshold: U32, memo: string)
    requires Reaches(store, env, a)
    ensures var (after, r) := Step(store, env, Update(a, owner, members, threshold, memo));
            var inside := Inside(members, a);
            && OnlyAt(store, a, after, r)
            && (r == Err(AccountSelfContained) <==> inside)
            && (!inside ==> ListAnswer(store, members, threshold, r))
            && (r == Ok <==>
                  && !inside && 1 <= |members| <= 16 && 0 < threshold as nat <= TotalWeight(members)
                  && !DeepMember(store, members))
            && (r == Ok ==>
                  && TakenOver(store, members, env.budget, after[a].accounts)
                  && after[a].owner == owner
                  && after[a].threshold == threshold
                  && after[a].memo == memo)
  {
    TooDeepIff(store, members);
    TotalWeightIs(members);
    InsideIff(members, a);
  }

  /** A new account, at the address derived from its transaction, owned by itself if it is to be
      autonomous and by the named owner otherwise. */
  lemma GenerateIs(store: Store, env: Env, call: Call)
    requires call.Generate?
    ensures var (after, r) := Step(store, env, call);
            var derived := if call.txHash.Some? then env.derive(call.txHash.value) else None;
            var listed := && 1 <= |call.members| <= 16
                          && 0 < call.threshold as nat <= TotalWeight(call.members)
                          && !DeepMember(store, call.members);
            && ListAnswer(store, call.members, call.threshold, r)
            && (r == Err(CtxMissingTxHash) <==> listed && call.txHash.None?)
            && (r == Err(GenerateAddressFailed) <==> listed && call.txHash.Some? && derived.None?)
            && (r == Ok <==> listed && derived.Some?)
            && (r != Ok ==> after == store)
            && (r == Ok ==>
                  && OnlyAt(store, derived.value, after, r)
                  && var p := after[derived.value];
                  && TakenOver(store, call.members, env.budget, p.accounts)
                  && p.owner == (if call.autonomy then derived.value else call.owner)
                  && p.threshold == call.threshold
                  && p.memo == call.memo)
  {
    TooDeepIff(store, call.members);
    TotalWeightIs(call.members);
  }

  // ----- whole runs -----

  /** The owner that a call gives to account `a`, if it gives one. */
  function GivenOwner(env: Env, call: Call, a: Address): Option<Address> {
    match call
    case Generate(owner, autonomy, _, _, _, txHash) =>
      if txHash.Some? && env.derive(txHash.value) == Some(a) then Some(if autonomy then a else owner) else None
    case Update(account, owner, _, _, _) => if account == a then Some(owner) else None
    case ChangeOwner(account, owner) => if account == a then Some(owner) else None
    case _ => None
  }

  /** The owner that the last accepted call to give one gave. */
  function LastGiven(store: Store, calls: seq<(Env, Call)>, a: Address): Option<Address> {
    if calls == [] then None
    else
      var before := calls[..|calls| - 1];
      var (env, call) := calls[|calls| - 1];
      var given := GivenOwner(env, call, a);
      if given.Some? && Step(Run(store, before), env, call).1 == Ok then given else LastGiven(store, before, a)
  }

  lemma OwnerAfterStep(store: Store, env: Env, call: Call, a: Address)
    requires a in Step(store, env, call).0
    ensures var (after, r) := Step(store, env, call);
            var given := GivenOwner(env, call, a);
            && (r == Ok && given.Some? ==> after[a].owner == given.value)
            && (r != Ok || given.None? ==> a in store && after[a].owner == store[a].owner)
  {
  }

  /** After every run an account belongs to whom the last accepted call that names an owner named, or
      to its first owner if there was none. */
  lemma {:induction false} OwnerIsLastGiven(store: Store, calls: seq<(Env, Call)>, a: Address)
    requires a in Run(store, calls)
    ensures var last := LastGiven(store, calls, a);
            if last.Some? then Run(store, calls)[a].owner == last.value
            else a in store && Run(store, calls)[a].owner == store[a].owner
  {
    if calls != [] {
      var n := |calls| - 1;
      OwnerAfterStep(Run(store, calls[..n]), calls[n].0, calls[n].1, a);
      if a in Run(store, calls[..n]) {
        OwnerIsLastGiven(store, calls[..n], a);
      }
    }
  }
}
