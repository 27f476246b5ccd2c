/** Verification by evidence: trees that show which members of an account vouch for it. */
module SignatureTrees {
  import opened Types
  import opened Signatures

  /** For each member of an account, what vouches for it, if anything does: for a nested account a tree
      of its own, for any other its signature, and then the tree is not looked at. */
  datatype Tree = Tree(parts: seq<Option<Tree>>)

  /** What the members that are vouched for weigh together, among the first `k`. */
  ghost function Backed(accounts: seq<Account>, parts: seq<Option<Tree>>, k: nat): nat
    requires k <= |accounts| == |parts|
  {
    if k == 0 then 0
    else Backed(accounts, parts, k - 1) + if parts[k - 1].Some? then accounts[k - 1].weight as nat else 0
  }

  ghost predicate Vouched(store: Store, good: iset<Address>, m: Account, t: Tree, levels: nat)
    decreases levels, 1
  {
    if m.isMultiple then Attests(store, good, m.address, t, levels) else m.address in good
  }

  /** The tree shows that the account is to be accepted. */
  ghost predicate Attests(store: Store, good: iset<Address>, address: Address, t: Tree, levels: nat)
    decreases levels, 0
  {
    && levels > 0 && address in store
    && var p := store[address];
    && |t.parts| == |p.accounts| > 0
    && (forall i | 0 <= i < |p.accounts| && t.parts[i].Some? ::
          Vouched(store, good, p.accounts[i], t.parts[i].value, levels - 1))
    && p.threshold as nat <= Backed(p.accounts, t.parts, |p.accounts|)
  }

  // ----- every tree convinces -----

  lemma {:induction false} TreeConvinces(store: Store, good: iset<Address>, address: Address, t: Tree, levels: nat)
    requires Attests(store, good, address, t, levels)
    ensures Verdict(store, good, address, levels) == Ok
    decreases levels, 0
  {
    var p := store[address];
    BackedWeighs(store, good, p.accounts, t.parts, levels - 1, |p.accounts|);
    assert p.accounts[..|p.accounts|] == p.accounts;
  }

  lemma {:induction false} BackedWeighs(
      store: Store, good: iset<Address>, accounts: seq<Account>, parts: seq<Option<Tree>>, levels: nat, k: nat)
    requires k <= |accounts| == |parts|
    requires forall i | 0 <= i < |accounts| && parts[i].Some? ::
               Vouched(store, good, accounts[i], parts[i].value, levels)
    ensures Backed(accounts, parts, k) <= Weight(store, good, accounts[..k], levels)
    decreases levels, k + 1
  {
    if k > 0 {
      var m := accounts[k - 1];
      BackedWeighs(store, good, accounts, parts, levels, k - 1);
      assert accounts[..k][..k - 1] == accounts[..k - 1];
      if parts[k - 1].Some? {
        assert Vouched(store, good, m, parts[k - 1].value, levels);
        if m.isMultiple {
          TreeConvinces(store, good, m.address, parts[k - 1].value, levels);
        }
      }
    }
  }

  // ----- and whatever is accepted has one -----

  lemma {:induction false} TreeOf(store: Store, good: iset<Address>, address: Address, levels: nat) returns (t: Tree)
    requires Verdict(store, good, address, levels) == Ok
    ensures Attests(store, good, address, t, levels)
    decreases levels, 0
  {
    var parts := PartsOf(store, good, store[address].accounts, levels - 1);
    t := Tree(parts);
  }

  lemma {:induction false} PartsOf(store: Store, good: iset<Address>, accounts: seq<Account>, levels: nat)
    returns (parts: seq<Option<Tree>>)
    ensures |parts| == |accounts|
    ensures forall i | 0 <= i < |accounts| && parts[i].Some? ::
              Vouched(store, good, accounts[i], parts[i].value, levels)
    ensures Backed(accounts, parts, |accounts|) == Weight(store, good, accounts, levels)
    decreases levels, |accounts| + 1
  {
    if accounts == [] {
      return [];
    }
    var n := |accounts| - 1;
    var before := PartsOf(store, good, accounts[..n], levels);
    var last: Option<Tree> := None;
    if Satisfied(store, good, accounts[n], levels) {
      var t := Tree([]);
      if accounts[n].isMultiple {
        t := TreeOf(store, good, accounts[n].address, levels);
      }
      last := Some(t);
    }
    parts := before + [last];
    BackedOfPrefix(accounts, parts, n, n);
    assert parts[..n] == before;
  }

  lemma {:induction false} BackedOfPrefix(accounts: seq<Account>, parts: seq<Option<Tree>>, n: nat, k: nat)
    requires k <= n <= |accounts| == |parts|
    ensures Backed(accounts, parts, k) == Backed(accounts[..n], parts[..n], k)
  {
    if k > 0 {
      BackedOfPrefix(accounts, parts, n, k - 1);
    }
  }

  /** An account is verified if and only if there is a tree of members, no deeper than the levels, in which
      every plain member has signed and the members picked at each account weigh as much as it asks for. */
  lemma VerifiedIffTree(store: Store, good: iset<Address>, address: Address, levels: nat)
    ensures Verdict(store, good, address, levels) == Ok <==> exists t :: Attests(store, good, address, t, levels)
  {
    if Verdict(store, good, address, levels) == Ok {
      var t := TreeOf(store, good, address, levels);
      assert Attests(store, good, address, t, levels);
    } else {
      forall t
        ensures !Attests(store, good, address, t, levels)
      {
        if Attests(store, good, address, t, levels) {
          TreeConvinces(store, good, address, t, levels);
        }
      }
    }
  }

  /** And otherwise the answer says why: no levels are left, there is no such account, or no tree. */
  lemma RefusalSaysWhy(store: Store, good: iset<Address>, address: Address, levels: nat)
    ensures var r := Verdict(store, good, address, levels);
            && (r == Err(AboveMaxRecursionDepth) <==> levels == 0)
            && (r == Err(AccountNotExist) <==> levels > 0 && address !in store)
            && (r == Err(VerifyFailed) <==>
                  levels > 0 && address in store && forall t :: !Attests(store, good, address, t, levels))
  {
    VerifiedIffTree(store, good, address, levels);
  }

  // ----- members that all agree -----

  lemma {:induction false} AllBacked(accounts: seq<Account>, parts: seq<Option<Tree>>, k: nat)
    requires k <= |accounts| == |parts| && forall i | 0 <= i < |parts| :: parts[i].Some?
    ensures Backed(accounts, parts, k) == SumWeights(accounts[..k])
  {
    if k > 0 {
      AllBacked(accounts, parts, k - 1);
      assert accounts[..k][..k - 1] == accounts[..k - 1];
    }
  }

  /** All members of a stored account together always suffice. */
  lemma AllMembersSuffice(store: Store, good: iset<Address>, address: Address, levels: nat)
    requires levels > 0 && address in store && Sound(store[address]) && store[address].accounts != []
    requires forall m | m in store[address].accounts ::
               if m.isMultiple then Verdict(store, good, m.address, levels - 1) == Ok else m.address in good
    ensures Verdict(store, good, address, levels) == Ok
  {
    var accounts := store[address].accounts;
    var parts: seq<Option<Tree>> := [];
    while |parts| < |accounts|
      invariant |parts| <= |accounts|
      invariant forall i | 0 <= i < |parts| ::
                  parts[i].Some? && Vouched(store, good, accounts[i], parts[i].value, levels - 1)
    {
      var m := accounts[|parts|];
      var t := Tree([]);
      assert m in accounts;
      if m.isMultiple {
        t := TreeOf(store, good, m.address, levels - 1);
      }
      parts := parts + [Some(t)];
    }
    AllBacked(accounts, parts, |accounts|);
    assert accounts[..|accounts|] == accounts;
    assert Attests(store, good, address, Tree(parts), levels);
    TreeConvinces(store, good, address, Tree(parts), levels);
  }
}
