/** The bound on insertions under way at once is exact: with one more, a transaction can be packaged,
    dropped, inserted again and packaged again. */
module PoolOverflow {
  import opened Types
  import C = TxCache
  import M = TxMap
  import opened PoolRuns
  import opened PoolPackages
  import opened PoolLimit

  // ----- steps of the pool -----

  lemma {:induction false} WatchInTwo(v: Watched, n: nat, a: seq<Action>, b: seq<Action>)
    ensures WatchAll(v, n, a + b) == WatchAll(WatchAll(v, n, a), n, b)
  {
    if b == [] {
      assert a + b == a;
    } else {
      WatchInTwo(v, n, a, b[..|b| - 1]);
      assert (a + b)[..|a + b| - 1] == a + b[..|b| - 1];
    }
  }

  lemma WatchOne(v: Watched, n: nat, a: Action)
    ensures WatchAll(v, n, [a]) == Watch(v, n, a)
  {
    assert [a][..0] == [];
    assert WatchAll(v, n, [a][..0]) == v;
  }

  /** The pool after these entries have been pushed. */
  function With(s: Pool, es: seq<Entry>): Pool {
    s.SetQueue(s.isZero, s.Incumbent() + es)
     .(keys := s.keys + Hashes(es), inserters := s.inserters + seq(|es|, _ => Accepted))
  }

  function Hashes(es: seq<Entry>): set<Hash> {
    set e | e in es :: e.hash
  }

  /** What is left of an insertion once its key is in the map: counted, queue chosen, pushed, released,
      accepted. */
  function Finish(i: nat): seq<Action> {
    [Advance(i), Advance(i), Advance(i), Advance(i), Advance(i)]
  }

  lemma FinishSteps(s: Pool, i: nat, e: Entry) returns (s2: Pool, s3: Pool, s4: Pool, s5: Pool)
    requires i < |s.inserters| && s.inserters[i] == Mapped(e) && |s.Incumbent()| < s.capacity
    ensures |s2.inserters| == |s3.inserters| == |s4.inserters| == |s5.inserters| == |s.inserters|
    ensures AdvanceStep(s, i) == s2 && AdvanceStep(s2, i) == s3 && AdvanceStep(s3, i) == s4
    ensures AdvanceStep(s4, i) == s5
    ensures AdvanceStep(s5, i) ==
            s.SetQueue(s.isZero, s.Incumbent() + [e]).(inserters := s.inserters[i := Accepted])
  {
    var xs := s.inserters;
    s2 := s.(count := s.count + 1, inserters := xs[i := Counted(e)]);
    s3 := s2.(inserters := xs[i := Chosen(e, s.isZero)]);
    s4 := s3.SetQueue(s.isZero, s.Incumbent() + [e]).(inserters := xs[i := Pushed(e, true)]);
    s5 := s4.(count := s.count, inserters := xs[i := Released(e, true)]);
    assert xs[i := Counted(e)][i := Chosen(e, s.isZero)] == xs[i := Chosen(e, s.isZero)];
    assert xs[i := Chosen(e, s.isZero)][i := Pushed(e, true)] == xs[i := Pushed(e, true)];
    assert xs[i := Pushed(e, true)][i := Released(e, true)] == xs[i := Released(e, true)];
    assert xs[i := Released(e, true)][i := Accepted] == xs[i := Accepted];
  }

  lemma WatchAdvance(v: Watched, n: nat, i: nat, s: Pool)
    requires i < |v.pool.inserters| && AdvanceStep(v.pool, i) == s
    ensures Watch(v, n, Advance(i)) == v.(pool := s)
  {
  }

  lemma Finished(v: Watched, n: nat, i: nat, e: Entry)
    requires i < |v.pool.inserters| && v.pool.inserters[i] == Mapped(e) && |v.pool.Incumbent()| < v.pool.capacity
    ensures var s := v.pool;
            WatchAll(v, n, Finish(i)) ==
            v.(pool := s.SetQueue(s.isZero, s.Incumbent() + [e]).(inserters := s.inserters[i := Accepted]))
  {
    var a := Advance(i);
    var s2, s3, s4, s5 := FinishSteps(v.pool, i, e);
    var s6 := AdvanceStep(s5, i);
    WatchAdvance(v, n, i, s2);
    WatchAdvance(v.(pool := s2), n, i, s3);
    WatchAdvance(v.(pool := s3), n, i, s4);
    WatchAdvance(v.(pool := s4), n, i, s5);
    WatchAdvance(v.(pool := s5), n, i, s6);
    FiveMore(v, n, a, v.(pool := s2), v.(pool := s3), v.(pool := s4), v.(pool := s5), v.(pool := s6));
  }

  lemma FiveMore(
      v: Watched, n: nat, a: Action, v2: Watched, v3: Watched, v4: Watched, v5: Watched, v6: Watched)
    requires Watch(v, n, a) == v2 && Watch(v2, n, a) == v3 && Watch(v3, n, a) == v4
    requires Watch(v4, n, a) == v5 && Watch(v5, n, a) == v6
    ensures WatchAll(v, n, [a, a, a, a, a]) == v6
  {
    WatchOne(v, n, a);
    WatchOne(v2, n, a);
    WatchInTwo(v, n, [a], [a]);
    assert [a] + [a] == [a, a];
    WatchOne(v3, n, a);
    WatchInTwo(v, n, [a, a], [a]);
    assert [a, a] + [a] == [a, a, a];
    WatchOne(v4, n, a);
    WatchInTwo(v, n, [a, a, a], [a]);
    assert [a, a, a] + [a] == [a, a, a, a];
    WatchOne(v5, n, a);
    WatchInTwo(v, n, [a, a, a, a], [a]);
    assert [a, a, a, a] + [a] == [a, a, a, a, a];
  }

  // ----- packaging -----

  function HashList(q: seq<Entry>): seq<Hash> {
    seq(|q|, i requires 0 <= i < |q| => q[i].hash)
  }

  const COLLECTING: Packager := Popping(0, 9, [])

  /** Live while a package collects with height 0 and limit 9. */
  predicate Live(e: Entry) {
    !e.IsTimeout(0, 9)
  }

  /** Two steps move the oldest entry to the other queue and into the package. */
  lemma PackTwo(v: Watched, n: nat)
    requires v.pool.packager == COLLECTING && v.stage == C.OrderTxs && v.count < n
    requires v.pool.Incumbent() != [] && Live(v.pool.Incumbent()[0]) && |v.pool.Retired()| < v.pool.capacity
    ensures var s := v.pool;
            var e := s.Incumbent()[0];
            WatchAll(v, n, [Pack] + [Pack]) ==
            v.(pool := s.SetQueue(s.isZero, s.Incumbent()[1..]).SetQueue(!s.isZero, s.Retired() + [e]),
               count := v.count + 1, order := v.order + [e.hash])
  {
    var s := v.pool;
    var e := s.Incumbent()[0];
    WatchOne(v, n, Pack);
    WatchInTwo(v, n, [Pack], [Pack]);
    var u := v.(pool := s.SetQueue(s.isZero, s.Incumbent()[1..]).(packager := Holding(e, 0, 9, [])),
                count := v.count + 1, order := v.order + [e.hash]);
    assert Watch(v, n, Pack) == u;
    WatchOne(u, n, Pack);
  }

  /** The whole queue packaged and moved. */
  function Collected(v: Watched): Watched {
    var s := v.pool;
    v.(pool := s.SetQueue(s.isZero, []).SetQueue(!s.isZero, s.Retired() + s.Incumbent()),
       count := v.count + |s.Incumbent()|, order := v.order + HashList(s.Incumbent()))
  }

  lemma CollectedNone(v: Watched)
    requires v.pool.Incumbent() == []
    ensures Collected(v) == v
  {
    assert v.pool.Retired() + [] == v.pool.Retired() && v.order + HashList([]) == v.order;
  }

  lemma CollectedNext(v: Watched, u: Watched)
    requires v.pool.Incumbent() != []
    requires var s := v.pool;
             var e := s.Incumbent()[0];
             u == v.(pool := s.SetQueue(s.isZero, s.Incumbent()[1..]).SetQueue(!s.isZero, s.Retired() + [e]),
                     count := v.count + 1, order := v.order + [e.hash])
    ensures Collected(u) == Collected(v)
    ensures u.pool.Incumbent() == v.pool.Incumbent()[1..] && |u.pool.Retired()| == |v.pool.Retired()| + 1
  {
    var q, r := v.pool.Incumbent(), v.pool.Retired();
    assert r + [q[0]] + q[1..] == r + q;
    assert v.order + [q[0].hash] + HashList(q[1..]) == v.order + HashList(q);
  }

  lemma {:induction false} PackQueue(v: Watched, n: nat) returns (actions: seq<Action>)
    requires v.pool.packager == COLLECTING && v.stage == C.OrderTxs && v.count + |v.pool.Incumbent()| <= n
    requires forall e | e in v.pool.Incumbent() :: Live(e)
    requires |v.pool.Incumbent()| + |v.pool.Retired()| <= v.pool.capacity
    ensures forall a | a in actions :: a.Pack?
    ensures WatchAll(v, n, actions) == Collected(v)
    decreases |v.pool.Incumbent()|
  {
    if v.pool.Incumbent() == [] {
      CollectedNone(v);
      return [];
    }
    PackTwo(v, n);
    var u := WatchAll(v, n, [Pack] + [Pack]);
    CollectedNext(v, u);
    var rest := PackQueue(u, n);
    WatchInTwo(v, n, [Pack] + [Pack], rest);
    return [Pack] + [Pack] + rest;
  }

  /** Three steps package the only entry and drop it, the other queue being full. */
  lemma PackAndDrop(v: Watched, n: nat, e: Entry)
    requires v.pool.packager == COLLECTING && v.stage == C.OrderTxs && v.count < n
    requires v.pool.Incumbent() == [e] && Live(e) && |v.pool.Retired()| >= v.pool.capacity
    ensures var s := v.pool;
            WatchAll(v, n, [Pack] + [Pack] + [Pack]) ==
            v.(pool := s.SetQueue(s.isZero, []).(keys := s.keys - {e.hash}), count := v.count + 1,
               order := v.order + [e.hash], dropped := v.dropped + [e.hash])
  {
    var s := v.pool;
    assert [e][1..] == [];
    var t := s.SetQueue(s.isZero, []);
    var u := v.(pool := t.(packager := Holding(e, 0, 9, [])), count := v.count + 1, order := v.order + [e.hash]);
    assert Watch(v, n, Pack) == u;
    var w := u.(pool := t.(packager := Dropping(e, 0, 9, [])));
    assert Watch(u, n, Pack) == w;
    WatchOne(v, n, Pack);
    WatchInTwo(v, n, [Pack], [Pack]);
    WatchOne(u, n, Pack);
    WatchInTwo(v, n, [Pack] + [Pack], [Pack]);
    WatchOne(w, n, Pack);
  }

  /** One step packages the only entry. */
  lemma PackOne(v: Watched, n: nat, e: Entry)
    requires v.pool.packager == COLLECTING && v.stage == C.OrderTxs && v.count < n
    requires v.pool.Incumbent() == [e] && Live(e)
    ensures WatchAll(v, n, [Pack]).order == v.order + [e.hash] && WatchAll(v, n, [Pack]).dropped == v.dropped
  {
    WatchOne(v, n, Pack);
  }

  // ----- moves of the limited pool -----

  /** At most `c` insertions at once, and none unchecked. */
  ghost predicate Modest(p: nat, n: nat, c: nat, moves: seq<Move>) {
    Peak(New(p), p, n, moves) <= c && LooseMoves(moves) == 0
  }

  function Reached(p: nat, n: nat, moves: seq<Move>): Limited {
    PoolLimit.Run(New(p), p, n, moves)
  }

  lemma OneMove(p: nat, n: nat, c: nat, moves: seq<Move>, move: Move)
    requires Modest(p, n, c, moves) && !move.InsertLoose?
    requires |PoolLimit.Step(Reached(p, n, moves), p, n, move).UnderWay()| <= c
    ensures Modest(p, n, c, moves + [move])
    ensures Reached(p, n, moves + [move]) == PoolLimit.Step(Reached(p, n, moves), p, n, move)
  {
    assert (moves + [move])[..|moves|] == moves;
  }

  /** These insertions have passed their checks. */
  ghost predicate Ready(x: Limited, lo: nat, hi: nat) {
    forall i: nat | lo <= i < hi :: i in x.checks && x.checks[i].status.Passed?
  }

  /** All insertions but these are where they were. */
  ghost predicate Onward(x: Limited, y: Limited, lo: nat, hi: nat) {
    && y.next == x.next && y.checks.Keys == x.checks.Keys
    && forall i | i in x.checks && !(lo <= i < hi) :: y.checks[i].status == x.checks[i].status
  }

  lemma OnwardBoth(x: Limited, y: Limited, z: Limited, lo: nat, hi: nat)
    requires Onward(x, y, lo, hi) && Onward(y, z, 0, 0)
    ensures Onward(x, z, lo, hi)
    ensures forall a: nat, b: nat :: Ready(y, a, b) ==> Ready(z, a, b)
  {
    assert forall i | i in x.checks :: i in y.checks && i in z.checks;
  }

  /** Steps of the pool other than insertions and flushes. */
  lemma {:induction false} Actions(p: nat, n: nat, c: nat, moves: seq<Move>, actions: seq<Action>)
    returns (more: seq<Move>)
    requires Modest(p, n, c, moves) && |Reached(p, n, moves).UnderWay()| <= c
    requires forall a | a in actions :: !a.Begin? && !a.Flush?
    ensures Modest(p, n, c, more)
    ensures var x, y := Reached(p, n, moves), Reached(p, n, more);
            && y.watched == WatchAll(x.watched, n, actions) && Onward(x, y, 0, 0)
            && y.UnderWay() == x.UnderWay()
  {
    if actions == [] {
      return moves;
    }
    var k := |actions| - 1;
    more := Actions(p, n, c, moves, actions[..k]);
    var y := Reached(p, n, more);
    assert PoolLimit.Step(y, p, n, Act(actions[k])) == Acted(y, n, actions[k]);
    assert Acted(y, n, actions[k]).UnderWay() == y.UnderWay();
    OneMove(p, n, c, more, Act(actions[k]));
    more := more + [Act(actions[k])];
  }

  lemma StartsBelow(p: nat, n: nat, c: nat, moves: seq<Move>)
    requires Modest(p, n, c, moves)
    ensures forall i | i in Reached(p, n, moves).checks :: i < Reached(p, n, moves).next
  {
    RunLimitInv(p, n, c, moves);
    forall i | i in Reached(p, n, moves).checks
      ensures i < Reached(p, n, moves).next
    {
      assert CheckOk(Reached(p, n, moves), p, c, i);
    }
  }

  /** A new insertion starts to count. */
  lemma Starts(p: nat, n: nat, c: nat, moves: seq<Move>)
    requires Modest(p, n, c, moves) && |Reached(p, n, moves).UnderWay()| < c
    ensures var x := Reached(p, n, moves);
            var y := Reached(p, n, moves + [Start]);
            && Modest(p, n, c, moves + [Start])
            && y == PoolLimit.Step(x, p, n, Start)
            && |y.UnderWay()| == |x.UnderWay()| + 1
            && x.next !in x.checks
  {
    var x := Reached(p, n, moves);
    StartsBelow(p, n, c, moves);
    var y := PoolLimit.Step(x, p, n, Start);
    assert y.UnderWay() == x.UnderWay() + {x.next};
    OneMove(p, n, c, moves, Start);
  }

  /** Having read `r` buckets while nothing changed. */
  function HasRead(x: Limited, id: nat, r: nat): Limited
    requires id in x.checks
  {
    SetStatus(x, id, Counting(r, |Below(x.Keys(), r)|))
  }

  lemma ReadOne(x: Limited, p: nat, n: nat, id: nat, r: nat)
    requires id in x.checks && x.checks[id].UnderWay() && r < M.BUCKETS
    ensures PoolLimit.Step(HasRead(x, id, r), p, n, Read(id)) == HasRead(x, id, r + 1)
  {
    NextBucket(x.Keys(), r);
    var y := HasRead(x, id, r);
    assert y.checks[id].status == Counting(r, |Below(x.Keys(), r)|) && y.Keys() == x.Keys();
    assert y.checks[id := y.checks[id].(status := Counting(r + 1, |Below(x.Keys(), r + 1)|))] ==
           x.checks[id := x.checks[id].(status := Counting(r + 1, |Below(x.Keys(), r + 1)|))];
  }

  lemma ReadNone(x: Limited, id: nat)
    requires id in x.checks && x.checks[id].status == Counting(0, 0)
    ensures HasRead(x, id, 0) == x
  {
    assert Below(x.Keys(), 0) == {};
    assert x.checks[id := x.checks[id].(status := Counting(0, 0))] == x.checks;
  }

  /** An insertion reads the first `r` buckets at a time when nothing changes. */
  lemma {:induction false} Reads(p: nat, n: nat, c: nat, moves: seq<Move>, id: nat, r: nat) returns (more: seq<Move>)
    requires Modest(p, n, c, moves) && |Reached(p, n, moves).UnderWay()| <= c && r <= M.BUCKETS
    requires var x := Reached(p, n, moves); id in x.checks && x.checks[id].status == Counting(0, 0)
    ensures Modest(p, n, c, more)
    ensures var x, y := Reached(p, n, moves), Reached(p, n, more);
            y == HasRead(x, id, r) && y.UnderWay() == x.UnderWay()
    decreases r
  {
    var x := Reached(p, n, moves);
    if r == 0 {
      ReadNone(x, id);
      return moves;
    }
    more := Reads(p, n, c, moves, id, r - 1);
    ReadOne(x, p, n, id, r - 1);
    UnderWayStays(x, id, Counting(r, |Below(x.Keys(), r)|));
    OneMove(p, n, c, more, Read(id));
    more := more + [Read(id)];
  }

  /** An insertion that has counted fewer than the limit passes. */
  lemma Passes(p: nat, n: nat, c: nat, moves: seq<Move>, id: nat, sum: nat)
    requires Modest(p, n, c, moves) && |Reached(p, n, moves).UnderWay()| <= c && sum < p
    requires var x := Reached(p, n, moves); id in x.checks && x.checks[id].status == Counting(M.BUCKETS, sum)
    ensures Modest(p, n, c, moves + [Pass(id)])
    ensures var x, y := Reached(p, n, moves), Reached(p, n, moves + [Pass(id)]);
            y == SetStatus(x, id, Passed) && y.UnderWay() == x.UnderWay()
  {
    var x := Reached(p, n, moves);
    assert PoolLimit.Step(x, p, n, Pass(id)) == SetStatus(x, id, Passed);
    UnderWayStays(x, id, Passed);
    OneMove(p, n, c, moves, Pass(id));
  }

  /** A new insertion that has started, counted and passed. */
  function Admitted(x: Limited, p: nat, n: nat): Limited {
    SetStatus(HasRead(PoolLimit.Step(x, p, n, Start), x.next, M.BUCKETS), x.next, Passed)
  }

  lemma AdmittedIs(x: Limited, p: nat, n: nat, lo: nat)
    requires Ready(x, lo, x.next)
    ensures var y := Admitted(x, p, n); y.watched == x.watched && y.next == x.next + 1 && Ready(y, lo, y.next)
  {
  }

  lemma AllCounted(x: Limited, p: nat, n: nat)
    ensures var y := HasRead(PoolLimit.Step(x, p, n, Start), x.next, M.BUCKETS);
            y.checks[x.next].status == Counting(M.BUCKETS, |x.Keys()|)
  {
    assert Below(x.Keys(), M.BUCKETS) == x.Keys();
  }

  /** An insertion starts, counts and passes. */
  lemma Admit(p: nat, n: nat, c: nat, moves: seq<Move>, lo: nat) returns (more: seq<Move>)
    requires Modest(p, n, c, moves) && |Reached(p, n, moves).UnderWay()| < c
    requires |Reached(p, n, moves).Keys()| < p && Ready(Reached(p, n, moves), lo, Reached(p, n, moves).next)
    ensures Modest(p, n, c, more)
    ensures var x, y := Reached(p, n, moves), Reached(p, n, more);
            && y.watched == x.watched && y.next == x.next + 1 && Ready(y, lo, y.next)
            && |y.UnderWay()| == |x.UnderWay()| + 1
  {
    var x := Reached(p, n, moves);
    Starts(p, n, c, moves);
    more := Reads(p, n, c, moves + [Start], x.next, M.BUCKETS);
    AllCounted(x, p, n);
    Passes(p, n, c, more, x.next, |x.Keys()|);
    more := more + [Pass(x.next)];
    AdmittedIs(x, p, n, lo);
  }

  lemma {:induction false} AdmitMany(p: nat, n: nat, c: nat, moves: seq<Move>, lo: nat, k: nat)
    returns (more: seq<Move>)
    requires Modest(p, n, c, moves) && |Reached(p, n, moves).UnderWay()| + k <= c
    requires |Reached(p, n, moves).Keys()| < p && Ready(Reached(p, n, moves), lo, Reached(p, n, moves).next)
    ensures Modest(p, n, c, more)
    ensures var x, y := Reached(p, n, moves), Reached(p, n, more);
            && y.watched == x.watched && y.next == x.next + k && Ready(y, lo, y.next)
            && |y.UnderWay()| == |x.UnderWay()| + k
    decreases k
  {
    if k == 0 {
      return moves;
    }
    more := AdmitMany(p, n, c, moves, lo, k - 1);
    more := Admit(p, n, c, more, lo);
  }

  /** The next insertion puts its key into the map. */
  lemma PutKey(p: nat, n: nat, c: nat, moves: seq<Move>, lo: nat, hi: nat, e: Entry)
    requires Modest(p, n, c, moves) && |Reached(p, n, moves).UnderWay()| <= c
    requires Ready(Reached(p, n, moves), lo, hi) && lo < hi && e.hash !in Reached(p, n, moves).Keys()
    ensures Modest(p, n, c, moves + [Insert(lo, e)])
    ensures var x, y := Reached(p, n, moves), Reached(p, n, moves + [Insert(lo, e)]);
            && y.watched == x.watched.(pool := BeginStep(x.watched.pool, e))
            && Onward(x, y, lo, lo + 1) && Ready(y, lo + 1, hi) && |y.UnderWay()| == |x.UnderWay()| - 1
  {
    var x := Reached(p, n, moves);
    var y := PoolLimit.Step(x, p, n, Insert(lo, e));
    assert lo in x.UnderWay();
    assert y.UnderWay() == x.UnderWay() - {lo};
    OneMove(p, n, c, moves, Insert(lo, e));
  }

  /** An insertion that has passed, to its end. */
  lemma InsertNext(p: nat, n: nat, c: nat, moves: seq<Move>, lo: nat, hi: nat, e: Entry) returns (more: seq<Move>)
    requires Modest(p, n, c, moves) && |Reached(p, n, moves).UnderWay()| <= c
    requires Ready(Reached(p, n, moves), lo, hi) && lo < hi && e.hash !in Reached(p, n, moves).Keys()
    requires var s := Reached(p, n, moves).watched.pool; |s.Incumbent()| < s.capacity
    ensures Modest(p, n, c, more)
    ensures var x, y := Reached(p, n, moves), Reached(p, n, more);
            && y.watched == x.watched.(pool := With(x.watched.pool, [e]))
            && Onward(x, y, lo, lo + 1) && Ready(y, lo + 1, hi) && |y.UnderWay()| == |x.UnderWay()| - 1
  {
    var s := Reached(p, n, moves).watched.pool;
    PutKey(p, n, c, moves, lo, hi, e);
    var i := |s.inserters|;
    Finished(Reached(p, n, moves + [Insert(lo, e)]).watched, n, i, e);
    more := Actions(p, n, c, moves + [Insert(lo, e)], Finish(i));
    OnwardBoth(Reached(p, n, moves), Reached(p, n, moves + [Insert(lo, e)]), Reached(p, n, more), lo, lo + 1);
    WithOne(s, e);
  }

  lemma WithOne(s: Pool, e: Entry)
    requires e.hash !in s.keys
    ensures var t := BeginStep(s, e);
            t.SetQueue(t.isZero, t.Incumbent() + [e]).(inserters := t.inserters[|s.inserters| := Accepted])
            == With(s, [e])
  {
    assert Hashes([e]) == {e.hash};
    assert (s.inserters + [Mapped(e)])[|s.inserters| := Accepted] == s.inserters + seq(1, _ => Accepted);
  }

  lemma WithMore(s: Pool, es: seq<Entry>, e: Entry)
    ensures With(With(s, es), [e]) == With(s, es + [e])
  {
    assert s.Incumbent() + es + [e] == s.Incumbent() + (es + [e]);
    assert s.keys + Hashes(es) + Hashes([e]) == s.keys + Hashes(es + [e]);
    assert s.inserters + seq(|es|, _ => Accepted) + seq(1, _ => Accepted) ==
           s.inserters + seq(|es| + 1, _ => Accepted);
  }

  lemma WithNone(s: Pool)
    ensures With(s, []) == s
  {
    assert s.Incumbent() + [] == s.Incumbent() && s.inserters + [] == s.inserters && s.keys + Hashes([]) == s.keys;
  }

  ghost predicate Different(es: seq<Entry>) {
    forall i, j | 0 <= i < j < |es| :: es[i].hash != es[j].hash
  }

  lemma {:induction false} InsertMany(p: nat, n: nat, c: nat, moves: seq<Move>, lo: nat, hi: nat, es: seq<Entry>)
    returns (more: seq<Move>)
    requires Modest(p, n, c, moves) && |Reached(p, n, moves).UnderWay()| <= c
    requires Ready(Reached(p, n, moves), lo, hi) && lo + |es| <= hi && Different(es)
    requires forall e | e in es :: e.hash !in Reached(p, n, moves).Keys()
    requires var s := Reached(p, n, moves).watched.pool; |s.Incumbent()| + |es| <= s.capacity
    ensures Modest(p, n, c, more)
    ensures var x, y := Reached(p, n, moves), Reached(p, n, more);
            && y.watched == x.watched.(pool := With(x.watched.pool, es))
            && Onward(x, y, lo, hi) && Ready(y, lo + |es|, hi) && |y.UnderWay()| == |x.UnderWay()| - |es|
    decreases |es|
  {
    var s := Reached(p, n, moves).watched.pool;
    if es == [] {
      WithNone(s);
      return moves;
    }
    var init, e := es[..|es| - 1], es[|es| - 1];
    more := InsertMany(p, n, c, moves, lo, hi, init);
    assert e.hash !in Hashes(init);
    more := InsertNext(p, n, c, more, lo + |init|, hi, e);
    WithMore(s, init, e);
    assert init + [e] == es;
  }

  // ----- one insertion too many -----

  lemma {:induction false} FewHashes(es: seq<Entry>)
    ensures |Hashes(es)| <= |es|
  {
    if es != [] {
      var init, e := es[..|es| - 1], es[|es| - 1];
      FewHashes(init);
      assert es == init + [e];
      assert Hashes(es) == Hashes(init) + {e.hash};
    }
  }

  /** Transactions for the run: `early` ones below the limit, `late` ones to fill a queue with them, and
      one more, whose key is in the last bucket, where no late one's is. */
  ghost predicate Cast(p: nat, early: seq<Entry>, late: seq<Entry>, h: Entry) {
    && p > 0 && |early| == p - 1 && |late| == 3 * p + 1
    && Different(early + late + [h]) && (forall e | e in early + late + [h] :: Live(e))
    && M.GetIndex(h.hash) == 15 && forall e | e in late :: M.GetIndex(e.hash) < 15
  }

  lemma CastApart(p: nat, early: seq<Entry>, late: seq<Entry>, h: Entry)
    requires Cast(p, early, late, h)
    ensures Different(early) && Different(late) && h.hash !in Hashes(early) && h.hash !in Hashes(late)
    ensures forall e | e in late :: e.hash !in Hashes(early) + {h.hash}
    ensures forall e | e in early + late :: Live(e) && e.hash != h.hash
    ensures Live(h)
  {
    var all := early + late + [h];
    assert forall i | 0 <= i < |early| :: all[i] == early[i];
    assert forall i | 0 <= i < |late| :: all[|early| + i] == late[i];
    assert all[|early| + |late|] == h;
  }

  /** The early ones are inserted, and then as many are let pass as may be under way. */
  lemma LetPass(p: nat, early: seq<Entry>, late: seq<Entry>, h: Entry) returns (moves: seq<Move>)
    requires Cast(p, early, late, h)
    ensures var n, c := 4 * p + 2, 3 * p + 2;
            var x := Reached(p, n, moves);
            && Modest(p, n, c, moves) && Ready(x, p - 1, 4 * p + 1) && x.next == 4 * p + 1
            && |x.UnderWay()| == 3 * p + 2
            && x.watched == Fresh(4 * p).(pool := With(Empty(4 * p), early))
  {
    var n, c := 4 * p + 2, 3 * p + 2;
    CastApart(p, early, late, h);
    assert Reached(p, n, []) == New(p) && New(p).UnderWay() == {};
    moves := AdmitMany(p, n, c, [], 0, p - 1);
    moves := InsertMany(p, n, c, moves, 0, p - 1, early);
    FewHashes(early);
    assert Reached(p, n, moves).Keys() == Hashes(early);
    moves := AdmitMany(p, n, c, moves, p - 1, 3 * p + 2);
  }

  function Filled(p: nat, early: seq<Entry>, late: seq<Entry>, h: Entry): Pool {
    With(BeginStep(With(Empty(4 * p), early), h), late)
  }

  lemma FilledIs(p: nat, early: seq<Entry>, late: seq<Entry>, h: Entry)
    requires Cast(p, early, late, h)
    ensures var s := Filled(p, early, late, h);
            && s.Incumbent() == early + late && s.Retired() == [] && s.capacity == 4 * p && s.packager.Idle?
            && s.keys == Hashes(early) + {h.hash} + Hashes(late) && s.isZero
            && |s.inserters| == 4 * p + 1 && s.inserters[p - 1] == Mapped(h)
  {
    CastApart(p, early, late, h);
    var t := With(Empty(4 * p), early);
    assert t.keys == Hashes(early) && t.Incumbent() == [] + early;
    assert [] + early == early;
  }

  /** The straggler: an insertion that has still to read the last bucket, and has found early keys only. */
  ghost predicate Straggler(x: Limited, d: nat, early: seq<Entry>) {
    d in x.checks && x.checks[d].status == Counting(15, |Below(Hashes(early), 15)|)
  }

  /** One puts its key into the map and rests there. */
  lemma Rest(p: nat, early: seq<Entry>, late: seq<Entry>, h: Entry) returns (moves: seq<Move>)
    requires Cast(p, early, late, h)
    ensures var n, c := 4 * p + 2, 3 * p + 2;
            var x := Reached(p, n, moves);
            && Modest(p, n, c, moves) && |x.UnderWay()| == 3 * p + 1 && Ready(x, p, 4 * p + 1)
            && x.next == 4 * p + 1 && x.Keys() == Hashes(early) + {h.hash}
            && x.watched == Fresh(4 * p).(pool := BeginStep(With(Empty(4 * p), early), h))
  {
    var n, c := 4 * p + 2, 3 * p + 2;
    CastApart(p, early, late, h);
    moves := LetPass(p, early, late, h);
    assert With(Empty(4 * p), early).keys == Hashes(early);
    PutKey(p, n, c, moves, p - 1, 4 * p + 1, h);
    moves := moves + [Insert(p - 1, h)];
  }

  /** Another insertion starts and counts all buckets but the last. */
  lemma RestAndCount(p: nat, early: seq<Entry>, late: seq<Entry>, h: Entry) returns (moves: seq<Move>)
    requires Cast(p, early, late, h)
    ensures var n, c := 4 * p + 2, 3 * p + 2;
            var x := Reached(p, n, moves);
            && Modest(p, n, c, moves) && |x.UnderWay()| == 3 * p + 2 && Ready(x, p, 4 * p + 1)
            && Straggler(x, 4 * p + 1, early)
            && x.watched == Fresh(4 * p).(pool := BeginStep(With(Empty(4 * p), early), h))
  {
    var n, c := 4 * p + 2, 3 * p + 2;
    moves := Rest(p, early, late, h);
    assert Below(Hashes(early) + {h.hash}, 15) == Below(Hashes(early), 15);
    Starts(p, n, c, moves);
    moves := Reads(p, n, c, moves + [Start], 4 * p + 1, 15);
  }

  lemma RestingIs(p: nat, early: seq<Entry>, h: Entry)
    requires h.hash !in Hashes(early)
    ensures var s := BeginStep(With(Empty(4 * p), early), h);
            s.keys == Hashes(early) + {h.hash} && s.Incumbent() == early && s.capacity == 4 * p
  {
    assert With(Empty(4 * p), early).keys == Hashes(early);
    assert [] + early == early;
  }

  /** Then the late ones are inserted. */
  lemma Fill(p: nat, early: seq<Entry>, late: seq<Entry>, h: Entry) returns (moves: seq<Move>)
    requires Cast(p, early, late, h)
    ensures var n, c := 4 * p + 2, 3 * p + 2;
            var x := Reached(p, n, moves);
            && Modest(p, n, c, moves) && |x.UnderWay()| == 1 && Straggler(x, 4 * p + 1, early)
            && x.watched == Fresh(4 * p).(pool := Filled(p, early, late, h))
  {
    var n, c := 4 * p + 2, 3 * p + 2;
    CastApart(p, early, late, h);
    moves := RestAndCount(p, early, late, h);
    RestingIs(p, early, h);
    moves := InsertMany(p, n, c, moves, p, 4 * p + 1, late);
  }

  /** What has been packaged when the queue is empty: everything but the one that rests. */
  function Full(p: nat, early: seq<Entry>, late: seq<Entry>, h: Entry): Watched {
    Collected(Fresh(4 * p).(pool := Filled(p, early, late, h).(packager := COLLECTING)))
  }

  lemma StartAndPack(p: nat, early: seq<Entry>, late: seq<Entry>, h: Entry) returns (actions: seq<Action>)
    requires Cast(p, early, late, h)
    ensures forall a | a in actions :: !a.Begin? && !a.Flush?
    ensures actions != []
    ensures WatchAll(Fresh(4 * p).(pool := Filled(p, early, late, h)), 4 * p + 2, actions) == Full(p, early, late, h)
  {
    var n, v := 4 * p + 2, Fresh(4 * p).(pool := Filled(p, early, late, h));
    FilledIs(p, early, late, h);
    CastApart(p, early, late, h);
    var u := Fresh(4 * p).(pool := Filled(p, early, late, h).(packager := COLLECTING));
    WatchOne(v, n, StartPackage(0, 9));
    assert Watch(v, n, StartPackage(0, 9)) == u;
    var packs := PackQueue(u, n);
    WatchInTwo(v, n, [StartPackage(0, 9)], packs);
    actions := [StartPackage(0, 9)] + packs;
  }

  lemma FullIs(p: nat, early: seq<Entry>, late: seq<Entry>, h: Entry)
    requires Cast(p, early, late, h)
    ensures var v := Full(p, early, late, h);
            var s := v.pool;
            && s.Incumbent() == [] && |s.Retired()| == 4 * p == s.capacity && s.packager == COLLECTING
            && s.keys == Hashes(early) + {h.hash} + Hashes(late) && s.isZero
            && |s.inserters| == 4 * p + 1 && s.inserters[p - 1] == Mapped(h)
            && v.stage == C.OrderTxs && v.count == 4 * p && v.dropped == []
            && v.order == HashList(early + late)
  {
    FilledIs(p, early, late, h);
    assert [] + HashList(early + late) == HashList(early + late);
    assert [] + (early + late) == early + late;
  }

  /** The one that rests is pushed, packaged and dropped. */
  lemma PushAndDrop(p: nat, early: seq<Entry>, late: seq<Entry>, h: Entry)
    returns (actions: seq<Action>, v: Watched)
    requires Cast(p, early, late, h)
    ensures forall a | a in actions :: !a.Begin? && !a.Flush?
    ensures actions != [] && v == WatchAll(Full(p, early, late, h), 4 * p + 2, actions)
    ensures v.pool.Incumbent() == [] && v.pool.packager == COLLECTING && v.pool.capacity == 4 * p
    ensures v.pool.keys == Hashes(early) + Hashes(late)
    ensures v.stage == C.OrderTxs && v.count == 4 * p + 1
    ensures v.order == HashList(early + late) + [h.hash] && v.dropped == [h.hash]
  {
    var n, u := 4 * p + 2, Full(p, early, late, h);
    CastApart(p, early, late, h);
    FullIs(p, early, late, h);
    Finished(u, n, p - 1, h);
    var w := WatchAll(u, n, Finish(p - 1));
    assert w.pool.Incumbent() == [] + [h] && [] + [h] == [h];
    PackAndDrop(w, n, h);
    WatchInTwo(u, n, Finish(p - 1), [Pack] + [Pack] + [Pack]);
    actions := Finish(p - 1) + ([Pack] + [Pack] + [Pack]);
    v := WatchAll(u, n, actions);
    assert Hashes(early) + {h.hash} + Hashes(late) - {h.hash} == Hashes(early) + Hashes(late);
  }

  lemma StragglerReads(x: Limited, p: nat, n: nat, d: nat, early: seq<Entry>, late: seq<Entry>)
    requires Straggler(x, d, early) && x.Keys() == Hashes(early) + Hashes(late)
    requires forall e | e in late :: M.GetIndex(e.hash) < 15
    ensures var y := PoolLimit.Step(x, p, n, Read(d));
            && y == SetStatus(x, d, Counting(M.BUCKETS, |Hashes(early)|)) && y.UnderWay() == x.UnderWay()
  {
    assert Bucket(x.Keys(), 15) == Bucket(Hashes(early), 15);
    NextBucket(Hashes(early), 15);
    assert Below(Hashes(early), 16) == Hashes(early);
    assert OneMore(x.checks[d].status, x.Keys()) == Counting(M.BUCKETS, |Hashes(early)|);
    UnderWayStays(x, d, Counting(M.BUCKETS, |Hashes(early)|));
  }

  lemma UnderWayStays(x: Limited, id: nat, status: Status)
    requires id in x.checks && x.checks[id].UnderWay() && (status.Counting? || status.Passed?)
    ensures SetStatus(x, id, status).UnderWay() == x.UnderWay()
  {
  }

  /** The straggler reads the last bucket, now that the key it did not count there is gone, and passes. */
  lemma StragglerPasses(p: nat, n: nat, c: nat, moves: seq<Move>, d: nat, early: seq<Entry>, late: seq<Entry>)
    requires Modest(p, n, c, moves) && |Reached(p, n, moves).UnderWay()| <= c && |early| < p
    requires Straggler(Reached(p, n, moves), d, early)
    requires Reached(p, n, moves).Keys() == Hashes(early) + Hashes(late)
    requires forall e | e in late :: M.GetIndex(e.hash) < 15
    ensures var more := moves + [Read(d)] + [Pass(d)];
            var x, y := Reached(p, n, moves), Reached(p, n, more);
            && Modest(p, n, c, more)
            && y.watched == x.watched && Ready(y, d, d + 1) && y.UnderWay() == x.UnderWay()
  {
    StragglerReads(Reached(p, n, moves), p, n, d, early, late);
    FewHashes(early);
    OneMove(p, n, c, moves, Read(d));
    Passes(p, n, c, moves + [Read(d)], d, |Hashes(early)|);
  }

  /** Everything up to the drop. */
  lemma UpToDrop(p: nat, early: seq<Entry>, late: seq<Entry>, h: Entry) returns (moves: seq<Move>)
    requires Cast(p, early, late, h)
    ensures var n, c := 4 * p + 2, 3 * p + 2;
            var x := Reached(p, n, moves);
            var v := x.watched;
            && Modest(p, n, c, moves) && |x.UnderWay()| == 1
            && Straggler(x, 4 * p + 1, early)
            && v.pool.Incumbent() == [] && v.pool.packager == COLLECTING && v.pool.capacity == 4 * p
            && x.Keys() == Hashes(early) + Hashes(late)
            && v.stage == C.OrderTxs && v.count == 4 * p + 1
            && v.order == HashList(early + late) + [h.hash] && v.dropped == [h.hash]
  {
    var n, c := 4 * p + 2, 3 * p + 2;
    moves := Fill(p, early, late, h);
    var first := StartAndPack(p, early, late, h);
    moves := Actions(p, n, c, moves, first);
    var second, v := PushAndDrop(p, early, late, h);
    moves := Actions(p, n, c, moves, second);
  }

  /** An instance, for every size of the pool: with one more insertion under way at once than is safe, a
      transaction is packaged, dropped because the other queue is full, inserted again and packaged
      again. */
  lemma TwicePackaged(p: nat, early: seq<Entry>, late: seq<Entry>, h: Entry) returns (moves: seq<Move>)
    requires Cast(p, early, late, h)
    ensures var v := Reached(p, 4 * p + 2, moves).watched;
            && Modest(p, 4 * p + 2, 3 * p + 2, moves)
            && v.dropped == [h.hash] && v.order == HashList(early + late) + [h.hash] + [h.hash]
            && v.Packaged(h.hash) >= 2
  {
    var n, c, d := 4 * p + 2, 3 * p + 2, 4 * p + 1;
    CastApart(p, early, late, h);
    moves := UpToDrop(p, early, late, h);
    StragglerPasses(p, n, c, moves, d, early, late);
    moves := moves + [Read(d)] + [Pass(d)];
    moves := InsertNext(p, n, c, moves, d, d + 1, h);
    var v := Reached(p, n, moves).watched;
    assert v.pool.Incumbent() == [] + [h] && [] + [h] == [h];
    PackOne(v, n, h);
    moves := Actions(p, n, c, moves, [Pack]);
    LateAppend(HashList(early + late), h.hash, h.hash);
    LateAppend(HashList(early + late) + [h.hash], h.hash, h.hash);
  }

  /** The exact condition: however packages, flushes and insertions interleave, no transaction is dropped
      or packaged twice while at most `c` insertions are under way at once, if and only if `c` is at most
      three times the pool's size and one. */
  lemma NoneTwiceIff(p: nat, c: nat, early: seq<Entry>, late: seq<Entry>, h: Entry)
    requires Cast(p, early, late, h)
    ensures c <= 3 * p + 1 <==>
            forall n, moves | Modest(p, n, c, moves) :: Reached(p, n, moves).watched.dropped == []
    ensures c <= 3 * p + 1 <==>
            forall n, moves, k | Modest(p, n, c, moves) :: Reached(p, n, moves).watched.Packaged(k) <= 1
  {
    if c <= 3 * p + 1 {
      forall n, moves, k | Modest(p, n, c, moves)
        ensures Reached(p, n, moves).watched.dropped == [] && Reached(p, n, moves).watched.Packaged(k) <= 1
      {
        NothingDropped(p, n, moves, k);
      }
      forall n, moves | Modest(p, n, c, moves)
        ensures Reached(p, n, moves).watched.dropped == []
      {
        NothingDropped(p, n, moves, h.hash);
      }
    } else {
      var moves := TwicePackaged(p, early, late, h);
      assert Modest(p, 4 * p + 2, c, moves);
    }
  }
}
