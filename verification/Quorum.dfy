/** The weight check of a block's proof, and why two proofs always share voters. */
module Quorum {
  import opened Types

  type Address(==, !new)

  type Weights = map<Address, U32>

  datatype Verdict = Accepted | UnknownVoter | TooLight

  /** The weight of a set of validators. */
  ghost function SetWeight(m: Weights, s: set<Address>): nat
    requires s <= m.Keys
    decreases s
  {
    if s == {} then 0
    else
      var x :| x in s;
      m[x] as nat + SetWeight(m, s - {x})
  }

  lemma {:induction false} SetWeightWithout(m: Weights, s: set<Address>, x: Address)
    requires s <= m.Keys && x in s
    ensures SetWeight(m, s) == m[x] as nat + SetWeight(m, s - {x})
    decreases s
  {
    var y :| y in s && SetWeight(m, s) == m[y] as nat + SetWeight(m, s - {y});
    if x != y {
      SetWeightWithout(m, s - {y}, x);
      SetWeightWithout(m, s - {x}, y);
      assert s - {x} - {y} == s - {y} - {x};
    }
  }

  /** The weight a list adds up to, counting repeated voters each time. */
  function ListWeight(m: Weights, voters: seq<Address>): nat
    requires forall v | v in voters :: v in m
  {
    if voters == [] then 0
    else ListWeight(m, voters[..|voters| - 1]) + m[voters[|voters| - 1]] as nat
  }

  /** Accepts exactly the lists of known validators that weigh more than two thirds of the total. */
  method VerifyProofWeight(m: Weights, voters: seq<Address>) returns (r: Verdict)
    ensures r == UnknownVoter <==> exists v | v in voters :: v !in m
    ensures r == Accepted <==>
            (forall v | v in voters :: v in m) && 3 * ListWeight(m, voters) > 2 * SetWeight(m, m.Keys)
  {
    var total := TotalWeight(m);
    var accumulator := 0;
    for i := 0 to |voters|
      invariant forall v | v in voters[..i] :: v in m
      invariant accumulator == ListWeight(m, voters[..i])
    {
      if voters[i] !in m {
        return UnknownVoter;
      }
      assert voters[..i + 1][..i] == voters[..i];
      assert forall v | v in voters[..i + 1] :: v in voters[..i] || v == voters[i];
      accumulator := accumulator + m[voters[i]] as nat;
    }
    assert voters[..|voters|] == voters;
    return if 3 * accumulator <= 2 * total then TooLight else Accepted;
  }

  method TotalWeight(m: Weights) returns (total: nat)
    ensures total == SetWeight(m, m.Keys)
  {
    total := 0;
    var todo := m.Keys;
    while todo != {}
      invariant todo <= m.Keys && total + SetWeight(m, todo) == SetWeight(m, m.Keys)
    {
      var x :| x in todo;
      SetWeightWithout(m, todo, x);
      total := total + m[x] as nat;
      todo := todo - {x};
    }
  }

  // ----- intersection -----

  ghost predicate Distinct(voters: seq<Address>) {
    forall i, j | 0 <= i < j < |voters| :: voters[i] != voters[j]
  }

  ghost predicate Accepts(m: Weights, voters: seq<Address>) {
    (forall v | v in voters :: v in m) && 3 * ListWeight(m, voters) > 2 * SetWeight(m, m.Keys)
  }

  ghost function Set(voters: seq<Address>): set<Address> {
    set v | v in voters
  }

  /** No voter of positive weight is named twice. */
  ghost predicate NoWeightTwice(m: Weights, voters: seq<Address>)
    requires forall v | v in voters :: v in m
  {
    forall i, j | 0 <= i < j < |voters| && voters[i] == voters[j] :: m[voters[i]] == 0
  }

  /** A list weighs as much as the voters it names exactly when no weight is counted twice, and more
      otherwise. */
  lemma {:induction false} WeighsAsSetIff(m: Weights, voters: seq<Address>)
    requires forall v | v in voters :: v in m
    ensures SetWeight(m, Set(voters)) <= ListWeight(m, voters)
    ensures ListWeight(m, voters) == SetWeight(m, Set(voters)) <==> NoWeightTwice(m, voters)
  {
    if voters != [] {
      var n := |voters| - 1;
      var init, last := voters[..n], voters[n];
      WeighsAsSetIff(m, init);
      assert voters == init + [last];
      if last in init {
        assert Set(voters) == Set(init);
        var i :| 0 <= i < n && init[i] == last;
        assert NoWeightTwice(m, voters) ==> m[voters[i]] == 0;
        assert NoWeightTwice(m, init) && m[last] == 0 ==> NoWeightTwice(m, voters);
      } else {
        assert Set(voters) - {last} == Set(init);
        SetWeightWithout(m, Set(voters), last);
        assert NoWeightTwice(m, init) <==> NoWeightTwice(m, voters) by {
          assert forall i | 0 <= i < n :: voters[i] == init[i] != last;
        }
      }
    }
  }

  lemma {:induction false} UnionAndIntersection(m: Weights, a: set<Address>, b: set<Address>)
    requires a <= m.Keys && b <= m.Keys
    ensures SetWeight(m, a) + SetWeight(m, b) == SetWeight(m, a + b) + SetWeight(m, a * b)
    decreases a
  {
    if a == {} {
      assert a + b == b && a * b == {};
    } else {
      var x :| x in a;
      UnionAndIntersection(m, a - {x}, b);
      SetWeightWithout(m, a, x);
      if x in b {
        assert (a - {x}) + b == a + b && (a * b) - {x} == (a - {x}) * b;
        SetWeightWithout(m, a * b, x);
      } else {
        assert (a + b) - {x} == (a - {x}) + b && a * b == (a - {x}) * b;
        SetWeightWithout(m, a + b, x);
      }
    }
  }

  lemma {:induction false} SubsetWeighsLess(m: Weights, a: set<Address>, b: set<Address>)
    requires a <= b <= m.Keys
    ensures SetWeight(m, a) <= SetWeight(m, b)
    decreases b
  {
    if b != a {
      var x :| x in b && x !in a;
      SubsetWeighsLess(m, a, b - {x});
      SetWeightWithout(m, b, x);
    }
  }

  /** Two accepted lists in which no weight counts twice, lists without repetitions among them, share
      voters holding more than a third of the weight. */
  lemma QuorumsIntersect(m: Weights, p: seq<Address>, q: seq<Address>)
    requires Accepts(m, p) && Accepts(m, q) && NoWeightTwice(m, p) && NoWeightTwice(m, q)
    ensures Set(p) * Set(q) <= m.Keys
    ensures 3 * SetWeight(m, Set(p) * Set(q)) > SetWeight(m, m.Keys)
  {
    WeighsAsSetIff(m, p);
    WeighsAsSetIff(m, q);
    UnionAndIntersection(m, Set(p), Set(q));
    SubsetWeighsLess(m, Set(p) + Set(q), m.Keys);
  }

  /** A list without repetitions is such a list. */
  lemma DistinctCountsOnce(m: Weights, voters: seq<Address>)
    requires (forall v | v in voters :: v in m) && Distinct(voters)
    ensures NoWeightTwice(m, voters) && ListWeight(m, voters) == SetWeight(m, Set(voters))
  {
    WeighsAsSetIff(m, voters);
  }

  /** With repetitions the lists need share nobody: the check counts a repeated voter each time. */
  lemma RepetitionsNeedNotIntersect(a: Address, b: Address, c: Address)
    requires a != b && b != c && a != c
    ensures var m: Weights := map[a := 1, b := 1, c := 1];
            Accepts(m, [a, a, a]) && Accepts(m, [b, b, b]) && Set([a, a, a]) * Set([b, b, b]) == {}
  {
    var m: Weights := map[a := 1, b := 1, c := 1];
    SetWeightWithout(m, m.Keys, a);
    SetWeightWithout(m, m.Keys - {a}, b);
    assert m.Keys - {a} - {b} == {c};
    SetWeightWithout(m, {c}, c);
    assert {c} - {c} == {};
    ThreeTimes(m, a);
    ThreeTimes(m, b);
  }

  lemma ThreeTimes(m: Weights, a: Address)
    requires a in m
    ensures ListWeight(m, [a, a, a]) == 3 * m[a] as nat
  {
    assert [a][..0] == [] && [a, a][..1] == [a] && [a, a, a][..2] == [a, a];
    assert ListWeight(m, [a]) == m[a] as nat;
    assert ListWeight(m, [a, a]) == 2 * m[a] as nat;
  }
}
