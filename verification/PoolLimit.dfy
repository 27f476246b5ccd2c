/** The limit on the pool's size. An insertion first counts the keys and gives up if they are too many;
    then it is checked in other ways, and may give up for that; then it puts its key into the map. Any
    number of insertions may be anywhere on that way at once.

    Counting adds up the sixteen buckets one after the other, while others insert and delete, so the sum
    need not be the number of keys at any time. All that is certain is that it counts those keys that
    were there all the time. */
module PoolLimit {
  import opened Types
  import M = TxMap
  import opened PoolRuns
  import opened PoolPackages
  import opened PoolRoom

  /** `sum` keys are in the first `read` buckets, each counted at its own time. */
  datatype Status = Counting(read: nat, sum: nat) | Passed | Inserted | Gone

  /** An insertion: the keys that were there when it began and ever since, and the insertions that were
      under way when it began, itself included. */
  datatype Check = Check(before: set<Hash>, with: set<nat>, status: Status) {
    predicate UnderWay() { status.Counting? || status.Passed? }
  }

  /** `owner` tells which insertion put a key into the map, `loose` are the keys put there without being
      checked, as happens at start-up. */
  datatype Limited = Limited(
    watched: Watched, next: nat, checks: map<nat, Check>, owner: map<Hash, nat>, loose: set<Hash>)
  {
    function Keys(): set<Hash> { watched.pool.keys }

    function UnderWay(): set<nat> {
      set i | i in checks && checks[i].UnderWay()
    }
  }

  datatype Move =
    | Start
    | Read(id: nat)
    | Pass(id: nat)
    | GiveUp(id: nat)
    | Insert(id: nat, e: Entry)
    | InsertLoose(e: Entry)
    | Act(a: Action)

  function Below(keys: set<Hash>, n: nat): set<Hash> {
    set k | k in keys && M.GetIndex(k) < n
  }

  function Bucket(keys: set<Hash>, n: nat): set<Hash> {
    set k | k in keys && M.GetIndex(k) == n
  }

  /** Keys that have gone are not there all the time. */
  function Shrunk(checks: map<nat, Check>, keys: set<Hash>): map<nat, Check> {
    map i | i in checks :: checks[i].(before := checks[i].before * keys)
  }

  /** A step of the pool. */
  function Acted(x: Limited, n: nat, a: Action): Limited {
    var v := Watch(x.watched, n, a);
    x.(watched := v, checks := Shrunk(x.checks, v.pool.keys))
  }

  /** The next bucket is counted. */
  function OneMore(status: Status, keys: set<Hash>): Status
    requires status.Counting?
  {
    Counting(status.read + 1, status.sum + |Bucket(keys, status.read)|)
  }

  function SetStatus(x: Limited, id: nat, status: Status): Limited
    requires id in x.checks
  {
    x.(checks := x.checks[id := x.checks[id].(status := status)])
  }

  /** One move, for a pool of size `p`; a flush waits for all insertions. */
  function Step(x: Limited, p: nat, n: nat, move: Move): Limited {
    match move
    case Start =>
      x.(next := x.next + 1, checks := x.checks[x.next := Check(x.Keys(), x.UnderWay() + {x.next}, Counting(0, 0))])
    case Read(id) =>
      if id in x.checks && x.checks[id].status.Counting? && x.checks[id].status.read < M.BUCKETS
      then SetStatus(x, id, OneMore(x.checks[id].status, x.Keys())) else x
    case Pass(id) =>
      if id in x.checks && x.checks[id].status.Counting? && x.checks[id].status.read == M.BUCKETS
         && x.checks[id].status.sum < p
      then SetStatus(x, id, Passed) else x
    case GiveUp(id) =>
      if id in x.checks && x.checks[id].UnderWay() then SetStatus(x, id, Gone) else x
    case Insert(id, e) =>
      if id !in x.checks || !x.checks[id].status.Passed? then x
      else if e.hash in x.Keys() then Acted(SetStatus(x, id, Gone), n, Begin(e))
      else
        var y := Acted(SetStatus(x, id, Inserted), n, Begin(e));
        y.(owner := y.owner[e.hash := id], loose := y.loose - {e.hash})
    case InsertLoose(e) =>
      var y := Acted(x, n, Begin(e));
      if e.hash in x.Keys() then y else y.(loose := y.loose + {e.hash})
    case Act(a) =>
      if a.Begin? || (a.Flush? && x.UnderWay() != {}) then x else Acted(x, n, a)
  }

  /** What a move does to the pool. */
  function Does(x: Limited, move: Move): Option<Action> {
    match move
    case Insert(id, e) => if id in x.checks && x.checks[id].status.Passed? then Some(Begin(e)) else None
    case InsertLoose(e) => Some(Begin(e))
    case Act(a) => if a.Begin? || (a.Flush? && x.UnderWay() != {}) then None else Some(a)
    case _ => None
  }

  lemma StepDoes(x: Limited, p: nat, n: nat, move: Move)
    ensures var d := Does(x, move);
            Step(x, p, n, move).watched == if d.Some? then Watch(x.watched, n, d.value) else x.watched
  {
  }

  function Run(x: Limited, p: nat, n: nat, moves: seq<Move>): Limited {
    if moves == [] then x else Step(Run(x, p, n, moves[..|moves| - 1]), p, n, moves[|moves| - 1])
  }

  /** A pool of size `p` has queues of four times as many places. */
  function New(p: nat): Limited {
    Limited(Fresh(4 * p), 0, map[], map[], {})
  }

  function Max(a: nat, b: nat): nat { if a > b then a else b }

  /** The most insertions that are under way at once. */
  function Peak(x: Limited, p: nat, n: nat, moves: seq<Move>): nat {
    if moves == [] then |x.UnderWay()|
    else Max(Peak(x, p, n, moves[..|moves| - 1]), |Run(x, p, n, moves).UnderWay()|)
  }

  function LooseMoves(moves: seq<Move>): nat {
    if moves == [] then 0
    else LooseMoves(moves[..|moves| - 1]) + if moves[|moves| - 1].InsertLoose? then 1 else 0
  }

  // ----- what every move keeps -----

  predicate HasOwner(x: Limited, k: Hash) {
    k in x.Keys() && k !in x.loose
  }

  /** A key in the map is loose or belongs to an insertion that is over. */
  ghost predicate Owned(x: Limited, k: Hash) {
    HasOwner(x, k) ==> k in x.owner && x.owner[k] in x.checks && x.checks[x.owner[k]].status.Inserted?
  }

  /** And to no other key's. */
  ghost predicate Single(x: Limited, j: Hash, k: Hash) {
    HasOwner(x, j) && HasOwner(x, k) && j != k && j in x.owner && k in x.owner ==> x.owner[j] != x.owner[k]
  }

  /** A key that was not there all the time was put there by an insertion that was under way then, or
      began later. */
  ghost predicate Explained(x: Limited, id: nat, k: Hash) {
    id in x.checks && HasOwner(x, k) && k !in x.checks[id].before && k in x.owner ==>
      x.owner[k] in x.checks[id].with || x.owner[k] > id
  }

  /** Insertions under way that began before were under way then. */
  ghost predicate Together(x: Limited, id: nat, j: nat) {
    id in x.checks && j in x.checks && x.checks[j].UnderWay() && j <= id ==> j in x.checks[id].with
  }

  ghost predicate CheckOk(x: Limited, p: nat, c: nat, id: nat) {
    id in x.checks ==>
      && id < x.next
      && x.checks[id].before <= x.Keys()
      && |x.checks[id].with| <= c
      && StatusOk(x.checks[id].before, p, x.checks[id].status)
  }

  /** Keys that were there all the time are counted, and are below the limit once that is passed. */
  ghost predicate StatusOk(before: set<Hash>, p: nat, status: Status) {
    match status
    case Counting(read, sum) => |Below(before, read)| <= sum
    case Passed => |before| < p
    case Inserted => |before| < p
    case Gone => true
  }

  /** What is kept while at most `c` insertions are under way at once. */
  ghost predicate LimitInv(x: Limited, p: nat, c: nat) {
    && (forall k :: Owned(x, k))
    && (forall j, k :: Single(x, j, k))
    && (forall id :: CheckOk(x, p, c, id))
    && (forall id, k :: Explained(x, id, k))
    && (forall id, j :: Together(x, id, j))
  }

  lemma KeysShrink(s: Pool, a: Action)
    requires !a.Begin?
    ensures PoolRuns.Next(s, a).keys <= s.keys
  {
  }

  lemma Fewer(a: set<Hash>, b: set<Hash>)
    ensures |a * b| <= |a|
  {
    assert a == a * b + (a - b);
  }

  lemma FewerThan(a: set<Hash>, b: set<Hash>)
    requires a <= b
    ensures |a| <= |b|
  {
    Fewer(b, a);
    assert b * a == a;
  }

  lemma StatusStaysOk(before: set<Hash>, keys: set<Hash>, p: nat, status: Status)
    requires StatusOk(before, p, status)
    ensures StatusOk(before * keys, p, status)
  {
    Fewer(before, keys);
    if status.Counting? {
      FewerThan(Below(before * keys, status.read), Below(before, status.read));
    }
  }

  lemma NextBucket(keys: set<Hash>, n: nat)
    ensures Below(keys, n + 1) == Below(keys, n) + Bucket(keys, n) && Below(keys, n) !! Bucket(keys, n)
    ensures |Below(keys, n + 1)| == |Below(keys, n)| + |Bucket(keys, n)|
  {
  }

  lemma CountsWhatStays(before: set<Hash>, keys: set<Hash>, p: nat, status: Status)
    requires status.Counting? && StatusOk(before, p, status) && before <= keys
    ensures StatusOk(before, p, OneMore(status, keys))
  {
    NextBucket(before, status.read);
    FewerThan(Bucket(before, status.read), Bucket(keys, status.read));
  }

  /** Deleting keys, or none. */
  lemma ActedInv(x: Limited, p: nat, n: nat, c: nat, a: Action)
    requires LimitInv(x, p, c) && !a.Begin?
    ensures LimitInv(Acted(x, n, a), p, c)
  {
    var y := Acted(x, n, a);
    KeysShrink(x.watched.pool, a);
    forall k
      ensures Owned(y, k)
    {
      assert Owned(x, k);
    }
    forall j, k
      ensures Single(y, j, k)
    {
      assert Single(x, j, k);
    }
    forall id
      ensures CheckOk(y, p, c, id)
    {
      assert CheckOk(x, p, c, id);
      if id in x.checks {
        StatusStaysOk(x.checks[id].before, y.Keys(), p, x.checks[id].status);
      }
    }
    forall id, k
      ensures Explained(y, id, k)
    {
      assert Explained(x, id, k);
    }
    forall id, j
      ensures Together(y, id, j)
    {
      assert Together(x, id, j);
    }
  }

  lemma StartOk(x: Limited, p: nat, n: nat, c: nat, id: nat)
    requires LimitInv(x, p, c) && |Step(x, p, n, Start).UnderWay()| <= c && x.next !in x.checks
    ensures CheckOk(Step(x, p, n, Start), p, c, id)
  {
    var y := Step(x, p, n, Start);
    assert y.UnderWay() == x.UnderWay() + {x.next};
    assert Below(x.Keys(), 0) == {};
    assert CheckOk(x, p, c, id);
  }

  lemma StartTogether(x: Limited, p: nat, n: nat, c: nat, id: nat, j: nat)
    requires LimitInv(x, p, c) && x.next !in x.checks
    ensures Together(Step(x, p, n, Start), id, j)
  {
    assert Together(x, id, j);
    assert CheckOk(x, p, c, id);
  }

  lemma StartInv(x: Limited, p: nat, n: nat, c: nat)
    requires LimitInv(x, p, c) && |Step(x, p, n, Start).UnderWay()| <= c
    ensures LimitInv(Step(x, p, n, Start), p, c)
  {
    var y := Step(x, p, n, Start);
    assert CheckOk(x, p, c, x.next);
    forall k
      ensures Owned(y, k)
    {
      assert Owned(x, k);
    }
    forall j, k
      ensures Single(y, j, k)
    {
      assert Single(x, j, k);
    }
    forall id
      ensures CheckOk(y, p, c, id)
    {
      StartOk(x, p, n, c, id);
    }
    forall id, k
      ensures Explained(y, id, k)
    {
      assert Explained(x, id, k);
    }
    forall id, j
      ensures Together(y, id, j)
    {
      StartTogether(x, p, n, c, id, j);
    }
  }

  /** An insertion gets on, or gives up. */
  lemma StatusInv(x: Limited, p: nat, c: nat, id: nat, status: Status)
    requires LimitInv(x, p, c) && id in x.checks && x.checks[id].UnderWay()
    requires !status.Inserted? && StatusOk(x.checks[id].before, p, status)
    ensures LimitInv(SetStatus(x, id, status), p, c)
  {
    var y := SetStatus(x, id, status);
    forall k
      ensures Owned(y, k)
    {
      assert Owned(x, k);
    }
    forall j, k
      ensures Single(y, j, k)
    {
      assert Single(x, j, k);
    }
    forall i
      ensures CheckOk(y, p, c, i)
    {
      assert CheckOk(x, p, c, i);
    }
    forall i, k
      ensures Explained(y, i, k)
    {
      assert Explained(x, i, k);
    }
    forall i, j
      ensures Together(y, i, j)
    {
      assert Together(x, i, j);
    }
  }

  /** Trying to insert a key that is there. */
  lemma RepeatedInv(x: Limited, p: nat, n: nat, c: nat, e: Entry)
    requires LimitInv(x, p, c) && e.hash in x.Keys()
    ensures LimitInv(Acted(x, n, Begin(e)), p, c)
  {
    var y := Acted(x, n, Begin(e));
    assert y.Keys() == x.Keys();
    forall id | id in x.checks
      ensures y.checks[id] == x.checks[id]
    {
      assert CheckOk(x, p, c, id);
      assert x.checks[id].before * x.Keys() == x.checks[id].before;
    }
    assert y.checks == x.checks;
    SameLimits(x, y, p, c);
  }

  lemma SameLimits(x: Limited, y: Limited, p: nat, c: nat)
    requires LimitInv(x, p, c) && y.Keys() == x.Keys()
    requires y.checks == x.checks && y.owner == x.owner && y.loose == x.loose && y.next == x.next
    ensures LimitInv(y, p, c)
  {
    forall k
      ensures Owned(y, k)
    {
      assert Owned(x, k);
    }
    forall j, k
      ensures Single(y, j, k)
    {
      assert Single(x, j, k);
    }
    forall id
      ensures CheckOk(y, p, c, id)
    {
      assert CheckOk(x, p, c, id);
    }
    forall id, k
      ensures Explained(y, id, k)
    {
      assert Explained(x, id, k);
    }
    forall id, j
      ensures Together(y, id, j)
    {
      assert Together(x, id, j);
    }
  }

  /** A new key: the insertion that puts it there was under way when all later ones began. */
  lemma InsertedInv(x: Limited, p: nat, n: nat, c: nat, id: nat, e: Entry)
    requires LimitInv(x, p, c) && id in x.checks && x.checks[id].status.Passed? && e.hash !in x.Keys()
    ensures LimitInv(Step(x, p, n, Insert(id, e)), p, c)
  {
    var y := Step(x, p, n, Insert(id, e));
    assert y.Keys() == x.Keys() + {e.hash};
    KeptBefore(x, y, p, c, id);
    forall k
      ensures Owned(y, k)
    {
      assert Owned(x, k);
    }
    forall j, k
      ensures Single(y, j, k)
    {
      assert Single(x, j, k) && Owned(x, j) && Owned(x, k);
    }
    forall i
      ensures CheckOk(y, p, c, i)
    {
      assert CheckOk(x, p, c, i);
    }
    forall i, k
      ensures Explained(y, i, k)
    {
      assert Explained(x, i, k) && Together(x, i, id);
    }
    forall i, j
      ensures Together(y, i, j)
    {
      assert Together(x, i, j);
    }
  }

  /** More keys do not change what was there all the time. */
  lemma KeptBefore(x: Limited, y: Limited, p: nat, c: nat, id: nat)
    requires LimitInv(x, p, c) && x.Keys() <= y.Keys() && id in x.checks
    requires y.checks == Shrunk(x.checks[id := x.checks[id].(status := Inserted)], y.Keys())
    ensures y.checks == x.checks[id := x.checks[id].(status := Inserted)]
  {
    forall i | i in x.checks
      ensures x.checks[i].before * y.Keys() == x.checks[i].before
    {
      assert CheckOk(x, p, c, i);
    }
  }

  lemma LooseInv(x: Limited, p: nat, n: nat, c: nat, e: Entry)
    requires LimitInv(x, p, c) && e.hash !in x.Keys()
    ensures LimitInv(Step(x, p, n, InsertLoose(e)), p, c)
  {
    var y := Step(x, p, n, InsertLoose(e));
    assert y.Keys() == x.Keys() + {e.hash};
    forall i | i in x.checks
      ensures y.checks[i] == x.checks[i]
    {
      assert CheckOk(x, p, c, i);
      assert x.checks[i].before * y.Keys() == x.checks[i].before;
    }
    assert y.checks == x.checks;
    forall k
      ensures Owned(y, k)
    {
      assert Owned(x, k);
    }
    forall j, k
      ensures Single(y, j, k)
    {
      assert Single(x, j, k);
    }
    forall i
      ensures CheckOk(y, p, c, i)
    {
      assert CheckOk(x, p, c, i);
    }
    forall i, k
      ensures Explained(y, i, k)
    {
      assert Explained(x, i, k);
    }
    forall i, j
      ensures Together(y, i, j)
    {
      assert Together(x, i, j);
    }
  }

  lemma StepLimitInv(x: Limited, p: nat, n: nat, c: nat, move: Move)
    requires LimitInv(x, p, c) && |Step(x, p, n, move).UnderWay()| <= c
    ensures LimitInv(Step(x, p, n, move), p, c)
  {
    match move
    case Start => StartInv(x, p, n, c);
    case Read(id) =>
      if id in x.checks && x.checks[id].status.Counting? {
        assert CheckOk(x, p, c, id);
        CountsWhatStays(x.checks[id].before, x.Keys(), p, x.checks[id].status);
        StatusInv(x, p, c, id, OneMore(x.checks[id].status, x.Keys()));
      }
    case Pass(id) =>
      if id in x.checks && x.checks[id].status.Counting? && x.checks[id].status.read == M.BUCKETS {
        assert CheckOk(x, p, c, id);
        assert Below(x.checks[id].before, M.BUCKETS) == x.checks[id].before;
        if x.checks[id].status.sum < p {
          StatusInv(x, p, c, id, Passed);
        }
      }
    case GiveUp(id) =>
      if id in x.checks && x.checks[id].UnderWay() {
        StatusInv(x, p, c, id, Gone);
      }
    case Insert(id, e) =>
      if id in x.checks && x.checks[id].status.Passed? {
        if e.hash in x.Keys() {
          StatusInv(x, p, c, id, Gone);
          RepeatedInv(SetStatus(x, id, Gone), p, n, c, e);
        } else {
          InsertedInv(x, p, n, c, id, e);
        }
      }
    case InsertLoose(e) =>
      if e.hash in x.Keys() {
        RepeatedInv(x, p, n, c, e);
      } else {
        LooseInv(x, p, n, c, e);
      }
    case Act(a) =>
      if !a.Begin? {
        ActedInv(x, p, n, c, a);
      }
  }

  lemma {:induction false} RunLimitInv(p: nat, n: nat, c: nat, moves: seq<Move>)
    requires Peak(New(p), p, n, moves) <= c
    ensures LimitInv(Run(New(p), p, n, moves), p, c)
  {
    if moves != [] {
      var k := |moves| - 1;
      RunLimitInv(p, n, c, moves[..k]);
      StepLimitInv(Run(New(p), p, n, moves[..k]), p, n, c, moves[k]);
    }
  }

  lemma StepLoose(x: Limited, p: nat, n: nat, move: Move)
    ensures |Step(x, p, n, move).loose| <= |x.loose| + if move.InsertLoose? then 1 else 0
  {
    if move.Insert? {
      FewerThan(x.loose - {move.e.hash}, x.loose);
    }
  }

  lemma {:induction false} LooseCounted(p: nat, n: nat, moves: seq<Move>)
    ensures |Run(New(p), p, n, moves).loose| <= LooseMoves(moves)
  {
    if moves != [] {
      var k := |moves| - 1;
      LooseCounted(p, n, moves[..k]);
      StepLoose(Run(New(p), p, n, moves[..k]), p, n, moves[k]);
    }
  }

  // ----- how many keys there can be -----

  /** Keys with different owners among `ids` are no more than those. */
  lemma {:induction false} OwnersCount(x: Limited, some: set<Hash>, ids: set<nat>)
    requires forall j, k :: Single(x, j, k)
    requires forall k | k in some :: HasOwner(x, k) && k in x.owner && x.owner[k] in ids
    ensures |some| <= |ids|
    decreases some
  {
    if k :| k in some {
      forall j | j in some - {k}
        ensures x.owner[j] in ids - {x.owner[k]}
      {
        assert Single(x, j, k);
      }
      OwnersCount(x, some - {k}, ids - {x.owner[k]});
      assert |some| == |some - {k}| + 1 && |ids| == |ids - {x.owner[k]}| + 1;
    }
  }

  /** Among keys with owners, one whose insertion began last. */
  lemma {:induction false} LastBegun(x: Limited, some: set<Hash>) returns (k: Hash)
    requires some != {} && forall j | j in some :: j in x.owner
    ensures k in some && forall j | j in some :: x.owner[j] <= x.owner[k]
    decreases some
  {
    k :| k in some;
    if some != {k} {
      var j := LastBegun(x, some - {k});
      if x.owner[j] > x.owner[k] {
        k := j;
      }
    }
  }

  lemma UnionCounts(a: set<Hash>, b: set<Hash>)
    ensures |a + b| <= |a| + |b|
  {
    assert a + b == a + (b - a);
    Fewer(b, b - a);
    assert b * (b - a) == b - a;
  }

  /** Take the insertion that began last of those whose keys are in the map. What was there all the time
      since is below the limit, and everything else was put there by insertions that were under way when
      it began. */
  lemma KeysBounded(x: Limited, p: nat, c: nat)
    requires LimitInv(x, p, c) && p > 0
    ensures |x.Keys()| <= p - 1 + c + |x.loose|
  {
    var mine := set k | k in x.Keys() && k !in x.loose;
    UnionCounts(mine, x.Keys() - mine);
    assert mine + (x.Keys() - mine) == x.Keys();
    Fewer(x.loose, x.Keys() - mine);
    assert x.loose * (x.Keys() - mine) == x.Keys() - mine;
    forall k | k in mine
      ensures k in x.owner
    {
      assert Owned(x, k);
    }
    if mine != {} {
      var last := LastBegun(x, mine);
      var id := x.owner[last];
      assert Owned(x, last) && CheckOk(x, p, c, id);
      var old', new' := mine * x.checks[id].before, mine - x.checks[id].before;
      forall k | k in new'
        ensures x.owner[k] in x.checks[id].with
      {
        assert Explained(x, id, k);
      }
      OwnersCount(x, new', x.checks[id].with);
      Fewer(x.checks[id].before, mine);
      assert x.checks[id].before * mine == old';
      UnionCounts(old', new');
      assert old' + new' == mine;
    }
  }

  // ----- the results -----

  lemma PeakGrows(x: Limited, p: nat, n: nat, moves: seq<Move>)
    requires moves != []
    ensures Peak(x, p, n, moves[..|moves| - 1]) <= Peak(x, p, n, moves)
  {
    var before, now := Peak(x, p, n, moves[..|moves| - 1]), |Run(x, p, n, moves).UnderWay()|;
    assert Peak(x, p, n, moves) == Max(before, now);
  }

  lemma {:induction false} PeakOfPart(x: Limited, p: nat, n: nat, moves: seq<Move>, k: nat)
    requires k <= |moves|
    ensures Peak(x, p, n, moves[..k]) <= Peak(x, p, n, moves)
    decreases |moves|
  {
    if k < |moves| {
      var m := |moves| - 1;
      PeakOfPart(x, p, n, moves[..m], k);
      assert moves[..m][..k] == moves[..k];
      PeakGrows(x, p, n, moves);
    } else {
      assert moves[..k] == moves;
    }
  }

  lemma {:induction false} LooseOfPart(moves: seq<Move>, k: nat)
    requires k <= |moves|
    ensures LooseMoves(moves[..k]) <= LooseMoves(moves)
  {
    if k < |moves| {
      var m := |moves| - 1;
      LooseOfPart(moves[..m], k);
      assert moves[..m][..k] == moves[..k];
    } else {
      assert moves[..k] == moves;
    }
  }

  /** The pool stays a pool. */
  lemma {:induction false} RunPoolInv(p: nat, n: nat, moves: seq<Move>)
    ensures var s := Run(New(p), p, n, moves).watched.pool; Inv(s) && s.capacity == 4 * p
  {
    if moves == [] {
      EmptyInv(4 * p);
    } else {
      var k := |moves| - 1;
      RunPoolInv(p, n, moves[..k]);
      var x := Run(New(p), p, n, moves[..k]);
      StepDoes(x, p, n, moves[k]);
      if Does(x, moves[k]).Some? {
        StepPoolInv(x.watched.pool, Does(x, moves[k]).value);
      }
    }
  }

  lemma StepPoolInv(s: Pool, a: Action)
    requires Inv(s)
    ensures Inv(PoolRuns.Next(s, a)) && PoolRuns.Next(s, a).capacity == s.capacity
  {
    PoolRuns.NextInv(s, a);
    assert [a][..0] == [];
    CapacityFixed(s, [a]);
    assert PoolRuns.Run(s, [a][..0]) == s;
  }

  /** The condition: insertions under way at once, and unchecked ones in all, are at most three times the
      pool's size and one. */
  ghost predicate FewEnough(p: nat, n: nat, moves: seq<Move>) {
    p > 0 && Peak(New(p), p, n, moves) + LooseMoves(moves) <= 3 * p + 1
  }

  lemma PartIsFew(p: nat, n: nat, moves: seq<Move>, k: nat)
    requires FewEnough(p, n, moves) && k <= |moves|
    ensures FewEnough(p, n, moves[..k])
  {
    PeakOfPart(New(p), p, n, moves, k);
    LooseOfPart(moves, k);
  }

  /** Then the map never holds more keys than a queue has places. */
  lemma FewKeys(p: nat, n: nat, moves: seq<Move>)
    requires FewEnough(p, n, moves)
    ensures var s := Run(New(p), p, n, moves).watched.pool; |s.keys| <= s.capacity && Roomy(s)
  {
    var x, c := Run(New(p), p, n, moves), Peak(New(p), p, n, moves);
    RunLimitInv(p, n, c, moves);
    LooseCounted(p, n, moves);
    KeysBounded(x, p, c);
    RunPoolInv(p, n, moves);
    FewKeysRoomy(x.watched.pool);
  }

  lemma {:induction false} RunSmooth(p: nat, n: nat, moves: seq<Move>)
    requires FewEnough(p, n, moves)
    ensures Smooth(Run(New(p), p, n, moves).watched)
  {
    if moves != [] {
      var k := |moves| - 1;
      PartIsFew(p, n, moves, k);
      RunSmooth(p, n, moves[..k]);
      FewKeys(p, n, moves[..k]);
      var x := Run(New(p), p, n, moves[..k]);
      StepDoes(x, p, n, moves[k]);
      if Does(x, moves[k]).Some? {
        WatchSmooth(x.watched, n, Does(x, moves[k]).value);
      }
    }
  }

  lemma {:induction false} RunBoundedHere(p: nat, n: nat, moves: seq<Move>, h: Hash)
    ensures Bounded(Run(New(p), p, n, moves).watched, h)
  {
    if moves != [] {
      var k := |moves| - 1;
      RunBoundedHere(p, n, moves[..k], h);
      RunPoolInv(p, n, moves[..k]);
      var x := Run(New(p), p, n, moves[..k]);
      StepDoes(x, p, n, moves[k]);
      if Does(x, moves[k]).Some? {
        WatchBounded(x.watched, n, Does(x, moves[k]).value, h);
      }
    }
  }

  /** In every run with few enough insertions at once: nothing is ever dropped, no insertion that got to
      the queues is refused, and no transaction is packaged twice. */
  lemma NothingDropped(p: nat, n: nat, moves: seq<Move>, h: Hash)
    requires FewEnough(p, n, moves)
    ensures var v := Run(New(p), p, n, moves).watched; Smooth(v) && v.Packaged(h) <= 1
  {
    RunSmooth(p, n, moves);
    RunBoundedHere(p, n, moves, h);
  }

  // ----- nothing accepted is lost -----

  /** The move makes the transaction time out, or flushes it. */
  predicate AgesIn(x: Limited, move: Move, e: Entry) {
    Does(x, move).Some? && Ages(x.watched.pool, Does(x, move).value, e)
  }

  lemma MoveKeeps(x: Limited, p: nat, n: nat, move: Move, e: Entry)
    requires Inv(x.watched.pool) && Roomy(x.watched.pool) && Alive(x.watched.pool, e) && !AgesIn(x, move, e)
    ensures Alive(Step(x, p, n, move).watched.pool, e)
  {
    StepDoes(x, p, n, move);
    if Does(x, move).Some? {
      RoomyKeeps(x.watched.pool, Does(x, move).value, e);
    }
  }

  /** From move `m` on the transaction neither times out nor is flushed. */
  ghost predicate NeverAges(p: nat, n: nat, moves: seq<Move>, m: nat, e: Entry) {
    m < |moves| ==>
      && NeverAges(p, n, moves[..|moves| - 1], m, e)
      && !AgesIn(Run(New(p), p, n, moves[..|moves| - 1]), moves[|moves| - 1], e)
  }

  lemma OneMoreKeeps(p: nat, n: nat, init: seq<Move>, move: Move, e: Entry)
    requires FewEnough(p, n, init) && Alive(Run(New(p), p, n, init).watched.pool, e)
    requires !AgesIn(Run(New(p), p, n, init), move, e)
    ensures Alive(Step(Run(New(p), p, n, init), p, n, move).watched.pool, e)
  {
    FewKeys(p, n, init);
    RunPoolInv(p, n, init);
    MoveKeeps(Run(New(p), p, n, init), p, n, move, e);
  }

  lemma {:induction false} RunKeepsHere(p: nat, n: nat, moves: seq<Move>, m: nat, e: Entry)
    requires m <= |moves| && FewEnough(p, n, moves) && Alive(Run(New(p), p, n, moves[..m]).watched.pool, e)
    requires NeverAges(p, n, moves, m, e)
    ensures Alive(Run(New(p), p, n, moves).watched.pool, e)
  {
    if m == |moves| {
      assert moves[..m] == moves;
    } else {
      var j := |moves| - 1;
      assert moves[..j][..m] == moves[..m];
      PartIsFew(p, n, moves, j);
      RunKeepsHere(p, n, moves[..j], m, e);
      OneMoreKeeps(p, n, moves[..j], moves[j], e);
    }
  }

  lemma PushIsAlive(s: Pool, i: nat, e: Entry)
    requires Roomy(s) && i < |s.inserters| && s.inserters[i].Chosen? && s.inserters[i].e == e
    ensures Alive(PoolRuns.Next(s, Advance(i)), e)
  {
    var zero := s.inserters[i].zero;
    assert AdvanceStep(s, i).Queue(zero) == s.Queue(zero) + [e];
  }

  lemma JustPushed(p: nat, n: nat, moves: seq<Move>, m: nat, i: nat, e: Entry)
    requires m < |moves| && moves[m] == Act(Advance(i)) && FewEnough(p, n, moves)
    requires var s := Run(New(p), p, n, moves[..m]).watched.pool;
             i < |s.inserters| && s.inserters[i].Chosen? && s.inserters[i].e == e
    ensures Alive(Run(New(p), p, n, moves[..m + 1]).watched.pool, e)
  {
    var x := Run(New(p), p, n, moves[..m]);
    PartIsFew(p, n, moves, m);
    FewKeys(p, n, moves[..m]);
    assert moves[..m + 1][..m] == moves[..m] && moves[..m + 1][m] == moves[m];
    StepDoes(x, p, n, moves[m]);
    PushIsAlive(x.watched.pool, i, e);
  }

  lemma AliveIsQueued(s: Pool, e: Entry)
    requires Inv(s) && Alive(s, e) && s.packager.Idle?
    ensures e in s.Incumbent() && InQueue(s.Incumbent(), e.hash) == 1 && e.hash in s.keys
  {
    QueuedIsCounted(s.Incumbent(), e);
    assert Held(s, e.hash) == InMap(s, e.hash);
  }

  /** With few enough insertions at once, an insertion that has chosen its queue succeeds, and whatever
      happens afterwards, unless it times out or is flushed the transaction is queued exactly once and
      its key is in the map whenever no package is running. */
  lemma AcceptedStays(p: nat, n: nat, moves: seq<Move>, m: nat, i: nat)
    requires m < |moves| && moves[m] == Act(Advance(i)) && FewEnough(p, n, moves)
    requires var s := Run(New(p), p, n, moves[..m]).watched.pool; i < |s.inserters| && s.inserters[i].Chosen?
    requires NeverAges(p, n, moves, m + 1, Run(New(p), p, n, moves[..m]).watched.pool.inserters[i].e)
    requires Run(New(p), p, n, moves).watched.pool.packager.Idle?
    ensures var e := Run(New(p), p, n, moves[..m]).watched.pool.inserters[i].e;
            var u := Run(New(p), p, n, moves).watched.pool;
            e in u.Incumbent() && InQueue(u.Incumbent(), e.hash) == 1 && e.hash in u.keys
  {
    var e := Run(New(p), p, n, moves[..m]).watched.pool.inserters[i].e;
    JustPushed(p, n, moves, m, i, e);
    RunKeepsHere(p, n, moves, m + 1, e);
    RunPoolInv(p, n, moves);
    AliveIsQueued(Run(New(p), p, n, moves).watched.pool, e);
  }
}
