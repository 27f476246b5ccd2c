/** Multi-signature accounts: verification by weight over a graph of accounts that may be cyclic. */
module Signatures {
  import opened Types

  type Address(==, !new)

  datatype Account = Account(address: Address, weight: Byte, isMultiple: bool)
  datatype Permission = Permission(owner: Address, accounts: seq<Account>, threshold: U32, memo: string)
  type Store = map<Address, Permission>

  const MAX_RECURSION_DEPTH: Byte := 8
  const MAX_PERMISSION_ACCOUNTS: nat := 16

  datatype Error =
    | InvalidAccountLength | InvalidAccountWeights | AboveMaxRecursionDepth | CtxMissingTxHash
    | GenerateAddressFailed | AccountNotExist | InvalidOwner | AccountSelfContained
    | AccountCountReachMaxValue | PubkeyAndSignatureMismatch | InvalidPublicKey | VerifyFailed

  datatype Result = Ok | Err(error: Error)

  /** Key recovery and signature checking belong to the curve library. */
  datatype Crypto = Crypto(addressOf: Bytes -> Option<Address>, verify: (Bytes, Bytes, Bytes) -> bool)

  function SumWeights(accounts: seq<Account>): nat {
    if accounts == [] then 0 else SumWeights(accounts[..|accounts| - 1]) + accounts[|accounts| - 1].weight as nat
  }

  /** What every stored permission satisfies. */
  ghost predicate Sound(p: Permission) {
    |p.accounts| <= MAX_PERMISSION_ACCOUNTS && p.threshold as nat <= SumWeights(p.accounts)
  }

  ghost predicate SoundStore(store: Store) {
    forall a | a in store :: Sound(store[a])
  }

  // ----- what verification means -----

  /** Levels of nesting that a call at this depth may still use. */
  function Levels(depth: nat): nat {
    if depth + 1 >= MAX_RECURSION_DEPTH as nat then 0 else MAX_RECURSION_DEPTH as nat - 1 - depth
  }

  ghost predicate Satisfied(store: Store, good: iset<Address>, a: Account, levels: nat)
    decreases levels, 1
  {
    if a.isMultiple then Verdict(store, good, a.address, levels) == Ok else a.address in good
  }

  /** Total weight of the satisfied members. */
  ghost function Weight(store: Store, good: iset<Address>, accounts: seq<Account>, levels: nat): nat
    decreases levels, 2, |accounts|
  {
    if accounts == [] then 0
    else
      var last := accounts[|accounts| - 1];
      Weight(store, good, accounts[..|accounts| - 1], levels)
      + if Satisfied(store, good, last, levels) then last.weight as nat else 0
  }

  /** An account is verified when it has members and the satisfied ones reach its threshold; a nested
      account is satisfied when it is verified one level deeper. */
  ghost function Verdict(store: Store, good: iset<Address>, address: Address, levels: nat): Result
    decreases levels, 0
  {
    if levels == 0 then Err(AboveMaxRecursionDepth)
    else if address !in store then Err(AccountNotExist)
    else
      var p := store[address];
      if p.accounts != [] && Weight(store, good, p.accounts, levels - 1) >= p.threshold as nat then Ok
      else Err(VerifyFailed)
  }

  // ----- the recursive, early-exit loop -----

  type Witnesses = map<Address, (Bytes, Bytes)>

  ghost predicate HasSigned(crypto: Crypto, txHash: Bytes, wits: Witnesses, a: Address) {
    a in wits && crypto.verify(txHash, wits[a].1, wits[a].0)
  }

  /** The addresses holding a valid signature. */
  ghost function Good(crypto: Crypto, txHash: Bytes, wits: Witnesses): iset<Address> {
    iset a | HasSigned(crypto, txHash, wits, a)
  }

  lemma {:induction false} WeightGrows(store: Store, good: iset<Address>, accounts: seq<Account>, levels: nat, k: nat)
    requires k <= |accounts|
    ensures Weight(store, good, accounts[..k], levels) <= Weight(store, good, accounts, levels)
  {
    if k < |accounts| {
      var init := accounts[..|accounts| - 1];
      assert init[..k] == accounts[..k];
      WeightGrows(store, good, init, levels, k);
    } else {
      assert accounts[..k] == accounts;
    }
  }

  /** The loop with its early exit, on every graph: it ends, never overflows its 32-bit accumulator,
      and answers what the weights say. */
  method VerifyMultiSignature(
      crypto: Crypto, store: Store, txHash: Bytes, wits: Witnesses, sender: Address, depth: Byte)
    returns (r: Result)
    requires SoundStore(store) && depth < 255
    ensures r == Verdict(store, Good(crypto, txHash, wits), sender, Levels(depth as nat))
    decreases 255 - depth as int
  {
    var deeper := depth + 1;
    if deeper >= MAX_RECURSION_DEPTH {
      return Err(AboveMaxRecursionDepth);
    }
    if sender !in store {
      return Err(AccountNotExist);
    }
    var p := store[sender];
    assert Sound(p);
    ghost var good := Good(crypto, txHash, wits);
    var acc: U32 := 0;
    for i := 0 to |p.accounts|
      invariant acc as nat == Weight(store, good, p.accounts[..i], Levels(deeper as nat)) <= 255 * i
      invariant i > 0 ==> acc < p.threshold
    {
      var account := p.accounts[i];
      assert p.accounts[..i + 1][..i] == p.accounts[..i];
      if !account.isMultiple {
        if account.address in wits {
          var (pk, sig) := wits[account.address];
          if crypto.verify(txHash, sig, pk) {
            acc := acc + account.weight as U32;
          }
        }
      } else {
        var nested := VerifyMultiSignature(crypto, store, txHash, wits, account.address, deeper);
        if nested == Ok {
          acc := acc + account.weight as U32;
        }
      }
      if acc >= p.threshold {
        WeightGrows(store, good, p.accounts, Levels(deeper as nat), i + 1);
        return Ok;
      }
    }
    assert p.accounts[..|p.accounts|] == p.accounts;
    return Err(VerifyFailed);
  }

  // ----- more signatures never hurt -----

  lemma {:induction false} VerdictMonotone(
      store: Store, good: iset<Address>, more: iset<Address>, address: Address, levels: nat)
    requires good <= more && Verdict(store, good, address, levels) == Ok
    ensures Verdict(store, more, address, levels) == Ok
    decreases levels, 0
  {
    var p := store[address];
    WeightMonotone(store, good, more, p.accounts, levels - 1);
  }

  lemma {:induction false} WeightMonotone(
      store: Store, good: iset<Address>, more: iset<Address>, accounts: seq<Account>, levels: nat)
    requires good <= more
    ensures Weight(store, good, accounts, levels) <= Weight(store, more, accounts, levels)
    decreases levels, |accounts| + 1
  {
    if accounts != [] {
      var last := accounts[|accounts| - 1];
      WeightMonotone(store, good, more, accounts[..|accounts| - 1], levels);
      if last.isMultiple && Satisfied(store, good, last, levels) {
        VerdictMonotone(store, good, more, last.address, levels);
      }
    }
  }

  // ----- no success without a signature, except by a zero threshold -----

  predicate Nests(store: Store, a: Address, b: Address) {
    a in store && exists m | m in store[a].accounts :: m.isMultiple && m.address == b
  }

  predicate Chain(store: Store, path: seq<Address>) {
    forall i | 0 < i < |path| :: Nests(store, path[i - 1], path[i])
  }

  /** An account that any request satisfies: it has members and asks for no weight. */
  ghost predicate Open(store: Store, a: Address) {
    a in store && store[a].accounts != [] && store[a].threshold == 0
  }

  /** A chain of nested accounts, within the levels, from `address` to such an account. */
  ghost predicate OpenPath(store: Store, address: Address, levels: nat, path: seq<Address>) {
    && 0 < |path| <= levels && path[0] == address && Chain(store, path)
    && Open(store, path[|path| - 1])
  }

  lemma LongerPath(store: Store, address: Address, m: Account, levels: nat, path: seq<Address>)
    requires address in store && m in store[address].accounts && m.isMultiple
    requires OpenPath(store, m.address, levels, path)
    ensures OpenPath(store, address, levels + 1, [address] + path)
  {
    var longer := [address] + path;
    forall i | 0 < i < |longer|
      ensures Nests(store, longer[i - 1], longer[i])
    {
      if i > 1 {
        assert Nests(store, path[i - 2], path[i - 1]);
      }
    }
  }

  /** Nothing is verified without a valid signature unless an account that asks for no weight can be
      reached by nesting within the levels. */
  lemma {:induction false} NeedsASignature(store: Store, address: Address, levels: nat)
    requires forall path :: !OpenPath(store, address, levels, path)
    ensures Verdict(store, iset{}, address, levels) != Ok
    decreases levels, 0
  {
    if levels > 0 && address in store {
      assert !OpenPath(store, address, levels, [address]);
      NothingWeighs(store, address, store[address].accounts, levels - 1, levels);
    }
  }

  lemma {:induction false} NothingWeighs(
      store: Store, address: Address, accounts: seq<Account>, levels: nat, above: nat)
    requires address in store && forall m | m in accounts :: m in store[address].accounts
    requires above == levels + 1 && forall path :: !OpenPath(store, address, above, path)
    ensures Weight(store, iset{}, accounts, levels) == 0
    decreases levels, |accounts| + 1
  {
    if accounts != [] {
      var last := accounts[|accounts| - 1];
      NothingWeighs(store, address, accounts[..|accounts| - 1], levels, above);
      if last.isMultiple {
        forall path
          ensures !OpenPath(store, last.address, levels, path)
        {
          if OpenPath(store, last.address, levels, path) {
            LongerPath(store, address, last, levels, path);
          }
        }
        NeedsASignature(store, last.address, levels);
      }
    }
  }

  /** And such an account itself is verified by anybody, within any levels. */
  lemma OpenNeedsNothing(store: Store, good: iset<Address>, address: Address, levels: nat)
    requires Open(store, address) && levels > 0
    ensures Verdict(store, good, address, levels) == Ok
  {
  }

  /** The exact condition: some account is verified without any signature if and only if some account
      has members and asks for no weight. */
  lemma UnsignedIffOpen(store: Store, levels: nat)
    requires levels > 0
    ensures (exists a :: Verdict(store, iset{}, a, levels) == Ok) <==> (exists a :: Open(store, a))
  {
    if a :| Open(store, a) {
      OpenNeedsNothing(store, iset{}, a, levels);
    } else {
      forall a
        ensures Verdict(store, iset{}, a, levels) != Ok
      {
        forall path
          ensures !OpenPath(store, a, levels, path)
        {
        }
        NeedsASignature(store, a, levels);
      }
    }
  }

  // ----- the depth check -----

  /** A chain of nested accounts at least as long as the levels left. */
  predicate DepthOverflow(store: Store, address: Address, levels: nat)
    decreases levels, 0
  {
    || levels == 0
    || (address in store && AnyOverflow(store, store[address].accounts, levels - 1))
  }

  predicate AnyOverflow(store: Store, accounts: seq<Account>, levels: nat)
    decreases levels, |accounts| + 1
  {
    accounts != [] &&
    (|| (accounts[0].isMultiple && DepthOverflow(store, accounts[0].address, levels))
     || AnyOverflow(store, accounts[1..], levels))
  }

  lemma {:induction false} AnyOverflowMeans(store: Store, accounts: seq<Account>, levels: nat)
    ensures AnyOverflow(store, accounts, levels) <==>
            exists m | m in accounts :: m.isMultiple && DepthOverflow(store, m.address, levels)
    decreases |accounts|
  {
    if accounts != [] {
      AnyOverflowMeans(store, accounts[1..], levels);
      assert accounts == [accounts[0]] + accounts[1..];
    }
  }

  /** The depth check fails exactly when some chain of nested accounts uses up all the levels. */
  lemma {:induction false} OverflowMeansChain(store: Store, address: Address, levels: nat) returns (path: seq<Address>)
    requires DepthOverflow(store, address, levels)
    ensures |path| == levels + 1 && path[0] == address && Chain(store, path)
    decreases levels
  {
    if levels == 0 {
      return [address];
    }
    AnyOverflowMeans(store, store[address].accounts, levels - 1);
    var m :| m in store[address].accounts && m.isMultiple && DepthOverflow(store, m.address, levels - 1);
    var rest := OverflowMeansChain(store, m.address, levels - 1);
    path := [address] + rest;
    assert Nests(store, path[0], path[1]);
    forall i | 0 < i < |path|
      ensures Nests(store, path[i - 1], path[i])
    {
      if i > 1 {
        assert Nests(store, rest[i - 2], rest[i - 1]);
      }
    }
  }

  lemma {:induction false} ChainMeansOverflow(store: Store, path: seq<Address>)
    requires path != [] && Chain(store, path)
    ensures DepthOverflow(store, path[0], |path| - 1)
    decreases |path|
  {
    if |path| > 1 {
      var rest := path[1..];
      assert Chain(store, rest) by {
        forall i | 0 < i < |rest|
          ensures Nests(store, rest[i - 1], rest[i])
        {
          assert Nests(store, path[i], path[i + 1]);
        }
      }
      ChainMeansOverflow(store, rest);
      assert Nests(store, path[0], path[1]);
      AnyOverflowMeans(store, store[path[0]].accounts, |path| - 2);
    }
  }

  /** When the depth check passes, the depth limit plays no part in verification: any larger limit
      gives the same verdict. */
  lemma {:induction false} LimitPlaysNoPart(store: Store, good: iset<Address>, address: Address, levels: nat, more: nat)
    requires levels <= more && !DepthOverflow(store, address, levels)
    ensures Verdict(store, good, address, more) == Verdict(store, good, address, levels)
    decreases levels, 0
  {
    if address in store {
      LimitPlaysNoPartIn(store, good, store[address].accounts, levels - 1, more - 1);
    }
  }

  lemma {:induction false} LimitPlaysNoPartIn(
      store: Store, good: iset<Address>, accounts: seq<Account>, levels: nat, more: nat)
    requires levels <= more && !AnyOverflow(store, accounts, levels)
    ensures Weight(store, good, accounts, more) == Weight(store, good, accounts, levels)
    decreases levels, |accounts| + 1
  {
    if accounts != [] {
      var n := |accounts| - 1;
      AnyOverflowMeans(store, accounts, levels);
      AnyOverflowMeans(store, accounts[..n], levels);
      LimitPlaysNoPartIn(store, good, accounts[..n], levels, more);
      if accounts[n].isMultiple {
        LimitPlaysNoPart(store, good, accounts[n].address, levels, more);
      }
    }
  }

  /** An account on a cycle is refused at every limit. */
  lemma {:induction false} CycleOverflows(store: Store, cycle: seq<Address>, i: nat, levels: nat)
    requires |cycle| > 1 && Chain(store, cycle) && cycle[0] == cycle[|cycle| - 1] && i < |cycle|
    ensures DepthOverflow(store, cycle[i], levels)
    decreases levels
  {
    if levels > 0 {
      var j := if i + 1 < |cycle| then i + 1 else 1;
      CycleOverflows(store, cycle, j, levels - 1);
      assert Nests(store, cycle[j - 1], cycle[j]);
      AnyOverflowMeans(store, store[cycle[i]].accounts, levels - 1);
    }
  }

  lemma {:induction false} OverflowAlong(store: Store, path: seq<Address>, levels: nat)
    requires path != [] && Chain(store, path) && DepthOverflow(store, path[|path| - 1], levels)
    ensures DepthOverflow(store, path[0], levels + |path| - 1)
    decreases |path|
  {
    if |path| > 1 {
      var n := |path| - 1;
      assert Nests(store, path[n - 1], path[n]);
      AnyOverflowMeans(store, store[path[n - 1]].accounts, levels);
      assert DepthOverflow(store, path[n - 1], levels + 1);
      OverflowAlong(store, path[..n], levels + 1);
    }
  }

  lemma {:induction false} OverflowDownward(store: Store, address: Address, levels: nat, fewer: nat)
    requires fewer <= levels && DepthOverflow(store, address, levels)
    ensures DepthOverflow(store, address, fewer)
  {
    var path := OverflowMeansChain(store, address, levels);
    ChainMeansOverflow(store, path[..fewer + 1]);
  }

  /** Distinct members of a set are no more than the set has. */
  lemma {:induction false} DistinctAreFew(path: seq<Address>, all: set<Address>)
    requires forall i | 0 <= i < |path| :: path[i] in all
    requires forall i, j | 0 <= i < j < |path| :: path[i] != path[j]
    ensures |path| <= |all|
  {
    if path != [] {
      var n := |path| - 1;
      DistinctAreFew(path[..n], all - {path[n]});
    }
  }

  ghost predicate Repeats(store: Store, path: seq<Address>, i: nat, j: nat) {
    Chain(store, path) && i < j < |path| && path[i] == path[j]
  }

  ghost predicate ReachesCycle(store: Store, address: Address) {
    exists path: seq<Address>, i, j :: Repeats(store, path, i, j) && path[0] == address
  }

  /** Nesting exceeds every limit exactly when a cycle can be reached, and one limit above the number
      of accounts already tells. */
  lemma EndlessIffCycle(store: Store, address: Address, levels: nat)
    requires levels > |store|
    ensures DepthOverflow(store, address, levels) <==> ReachesCycle(store, address)
  {
    if DepthOverflow(store, address, levels) {
      var path := OverflowMeansChain(store, address, levels);
      var inner := path[..levels];
      forall i | 0 <= i < levels
        ensures inner[i] in store.Keys
      {
        assert Nests(store, path[i], path[i + 1]);
      }
      if forall i, j | 0 <= i < j < levels :: inner[i] != inner[j] {
        DistinctAreFew(inner, store.Keys);
        assert false;
      }
      var i, j :| 0 <= i < j < levels && inner[i] == inner[j];
      assert Repeats(store, path, i, j);
    }
    if ReachesCycle(store, address) {
      var path: seq<Address>, i: nat, j: nat :| Repeats(store, path, i, j) && path[0] == address;
      CycleOverflows(store, path[i..j + 1], 0, levels);
      OverflowAlong(store, path[..i + 1], levels);
      OverflowDownward(store, address, levels + i, levels);
    }
  }

  // ----- the entry point -----

  /** The last of the keys that has this address. */
  ghost predicate IsLast(crypto: Crypto, pks: seq<Bytes>, i: nat, a: Address) {
    && i < |pks|
    && crypto.addressOf(pks[i]) == Some(a)
    && forall j | i < j < |pks| :: crypto.addressOf(pks[j]) != Some(a)
  }

  ghost predicate Signed(crypto: Crypto, txHash: Bytes, pks: seq<Bytes>, sigs: seq<Bytes>, a: Address)
    requires |pks| == |sigs|
  {
    exists i: nat :: IsLast(crypto, pks, i, a) && crypto.verify(txHash, sigs[i], pks[i])
  }

  ghost function Signers(crypto: Crypto, txHash: Bytes, pks: seq<Bytes>, sigs: seq<Bytes>): iset<Address>
    requires |pks| == |sigs|
  {
    iset a | Signed(crypto, txHash, pks, sigs, a)
  }

  /** Witnesses by address; of several keys with one address the last counts. */
  method IntoAddrMap(crypto: Crypto, pks: seq<Bytes>, sigs: seq<Bytes>) returns (wits: Witnesses)
    requires |pks| == |sigs|
    ensures forall a, i: nat | IsLast(crypto, pks, i, a) :: a in wits && wits[a] == (pks[i], sigs[i])
    ensures forall a | a in wits :: exists i: nat :: IsLast(crypto, pks, i, a)
  {
    wits := map[];
    for n := 0 to |pks|
      invariant forall a, i: nat | IsLast(crypto, pks[..n], i, a) :: a in wits && wits[a] == (pks[i], sigs[i])
      invariant forall a | a in wits :: exists i: nat :: IsLast(crypto, pks[..n], i, a)
    {
      var address := crypto.addressOf(pks[n]);
      if address.Some? {
        wits := wits[address.value := (pks[n], sigs[n])];
      }
      ghost var seen := pks[..n + 1];
      forall a | a in wits
        ensures exists i: nat :: IsLast(crypto, seen, i, a)
      {
        if address == Some(a) {
          assert IsLast(crypto, seen, n, a);
        } else {
          var i: nat :| IsLast(crypto, pks[..n], i, a);
          assert IsLast(crypto, seen, i, a);
        }
      }
      forall a, i: nat | IsLast(crypto, seen, i, a)
        ensures a in wits && wits[a] == (pks[i], sigs[i])
      {
        if i < n {
          assert seen[n] == pks[n];
          assert IsLast(crypto, pks[..n], i, a);
        }
      }
    }
    assert pks[..|pks|] == pks;
  }

  /** One key of the sender itself is checked alone; everything else goes by weight. */
  method VerifySignature(
      crypto: Crypto, store: Store, txHash: Bytes, pks: seq<Bytes>, sigs: seq<Bytes>, sender: Address)
    returns (r: Result)
    requires SoundStore(store)
    ensures r == Err(PubkeyAndSignatureMismatch) <==> |pks| != |sigs|
    ensures |pks| == |sigs| == 1 && crypto.addressOf(pks[0]) == None ==> r == Err(InvalidPublicKey)
    ensures |pks| == |sigs| == 1 && crypto.addressOf(pks[0]) == Some(sender) ==>
              r == if crypto.verify(txHash, sigs[0], pks[0]) then Ok else Err(VerifyFailed)
    ensures |pks| == |sigs| &&
            (|pks| == 1 ==> crypto.addressOf(pks[0]).Some? && crypto.addressOf(pks[0]).value != sender) ==>
              r == Verdict(store, Signers(crypto, txHash, pks, sigs), sender, 7)
  {
    if |pks| != |sigs| {
      return Err(PubkeyAndSignatureMismatch);
    }
    if |pks| == 1 {
      var address := crypto.addressOf(pks[0]);
      if address.None? {
        return Err(InvalidPublicKey);
      }
      if address.value == sender {
        return if crypto.verify(txHash, sigs[0], pks[0]) then Ok else Err(VerifyFailed);
      }
    }
    var wits := IntoAddrMap(crypto, pks, sigs);
    assert Good(crypto, txHash, wits) == Signers(crypto, txHash, pks, sigs) by {
      forall a
        ensures HasSigned(crypto, txHash, wits, a) <==> Signed(crypto, txHash, pks, sigs, a)
      {
        if a in wits {
          var i: nat :| IsLast(crypto, pks, i, a);
          assert wits[a] == (pks[i], sigs[i]);
        }
      }
    }
    r := VerifyMultiSignature(crypto, store, txHash, wits, sender, 0);
  }
}
