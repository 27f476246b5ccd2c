/** The mempool cache: two bounded queues in insertion order beside a map for lookup and removal.

    The methods here run alone; their interleaving with concurrent inserters is module PoolRuns. */
module TxCache {
  import opened Types
  import opened TxMap

  /** A transaction with its two marks; queue and map share the object. */
  class TxWrapper {
    const hash: Hash
    const timeout: nat
    const proposed: bool
    var removed: bool

    constructor (hash: Hash, timeout: nat, proposed: bool)
      ensures this.hash == hash && this.timeout == timeout && this.proposed == proposed && !removed
    {
      this.hash, this.timeout, this.proposed, this.removed := hash, timeout, proposed, false;
    }

    predicate IsTimeout(currentHeight: nat, limit: nat) {
      timeout <= currentHeight || timeout > limit
    }
  }

  datatype Stage = OrderTxs | ProposeTxs | Finished {
    function Next(): Stage
      requires !Finished?
    {
      if OrderTxs? then ProposeTxs else Finished
    }
  }

  function Hashes(q: seq<TxWrapper>): (hs: seq<Hash>)
    ensures |hs| == |q|
  {
    seq(|q|, i requires 0 <= i < |q| => q[i].hash)
  }

  /** The map after deleting the hashes of `q` one after another. */
  ghost function Without(m: map<Hash, TxWrapper>, q: seq<TxWrapper>): map<Hash, TxWrapper> {
    if q == [] then m else Without(m, q[..|q| - 1]) - {q[|q| - 1].hash}
  }

  /** It loses exactly those hashes. */
  lemma {:induction false} WithoutLoses(m: map<Hash, TxWrapper>, q: seq<TxWrapper>)
    ensures Without(m, q) == m - set h | h in Hashes(q)
  {
    if q != [] {
      var init, w := q[..|q| - 1], q[|q| - 1];
      WithoutLoses(m, init);
      assert Hashes(q) == Hashes(init) + [w.hash];
      assert (set h | h in Hashes(q)) == (set h | h in Hashes(init)) + {w.hash};
    }
  }

  ghost function RemovedOf(q: seq<TxWrapper>): set<TxWrapper>
    reads q
  {
    set w | w in q && w.removed
  }

  /** Of the first `k` entries, those neither removed nor timed out, in queue order. */
  ghost function Live(q: seq<TxWrapper>, k: nat, removed: set<TxWrapper>, height: nat, limit: nat): seq<TxWrapper>
    requires k <= |q|
  {
    if k == 0 then []
    else
      var init, w := Live(q, k - 1, removed, height, limit), q[k - 1];
      if w in removed || w.IsTimeout(height, limit) then init else init + [w]
  }

  /** Of the first `k` entries, those timed out and not removed. */
  ghost function TimedOut(q: seq<TxWrapper>, k: nat, removed: set<TxWrapper>, height: nat, limit: nat): seq<TxWrapper>
    requires k <= |q|
  {
    if k == 0 then []
    else
      var init, w := TimedOut(q, k - 1, removed, height, limit), q[k - 1];
      if w !in removed && w.IsTimeout(height, limit) then init + [w] else init
  }

  ghost function Unproposed(q: seq<TxWrapper>): (r: seq<TxWrapper>)
    ensures |r| <= |q|
  {
    if q == [] then []
    else
      var init, w := Unproposed(q[..|q| - 1]), q[|q| - 1];
      if w.proposed then init else init + [w]
  }

  /** The prefix of `xs` that still fits behind `q` in a queue of size `cap`, and the rest. */
  function Room(q: seq<TxWrapper>, xs: seq<TxWrapper>, cap: nat): (n: nat)
    ensures n <= |xs|
  {
    if |q| + |xs| <= cap then |xs| else if |q| <= cap then cap - |q| else 0
  }

  function Admitted(q: seq<TxWrapper>, xs: seq<TxWrapper>, cap: nat): seq<TxWrapper> {
    q + xs[..Room(q, xs, cap)]
  }

  function Refused(q: seq<TxWrapper>, xs: seq<TxWrapper>, cap: nat): seq<TxWrapper> {
    xs[Room(q, xs, cap)..]
  }

  // ----- what a package contains -----

  function Min(a: nat, b: nat): nat { if a < b then a else b }

  /** The first `n` live transactions are ordered. */
  ghost function OrderPart(live: seq<TxWrapper>, n: nat): seq<TxWrapper> {
    live[..Min(n, |live|)]
  }

  /** Then come proposals: the next live transaction whatever its mark, and after it the
      transactions that no one proposed yet, `n` in all (one when `n` is zero). */
  ghost function ProposePart(live: seq<TxWrapper>, n: nat): seq<TxWrapper> {
    if |live| <= n then []
    else
      var rest := Unproposed(live[n + 1..]);
      [live[n]] + rest[..Min(if n == 0 then 0 else n - 1, |rest|)]
  }

  /** How far packaging has got after `live`: the stage and its counter. */
  ghost function Progress(live: seq<TxWrapper>, n: nat): (Stage, nat) {
    if |live| <= n then (OrderTxs, |live|)
    else
      var k := |Unproposed(live[n + 1..])|;
      if k <= (if n == 0 then 0 else n - 1) then (ProposeTxs, 1 + k) else (Finished, 1)
  }

  /** One more live transaction while ordering. */
  lemma NextOrdered(live: seq<TxWrapper>, w: TxWrapper, n: nat)
    requires |live| <= n
    ensures Progress(live, n) == (OrderTxs, |live|)
    ensures Progress(live + [w], n) == if |live| < n then (OrderTxs, |live| + 1) else (ProposeTxs, 1)
    ensures OrderPart(live + [w], n) == OrderPart(live, n) + if |live| < n then [w] else []
    ensures ProposePart(live + [w], n) == ProposePart(live, n) + if |live| < n then [] else [w]
  {
    if |live| == n {
      assert (live + [w])[n + 1..] == [];
    }
  }

  /** One more live transaction while proposing or after. */
  lemma NextProposed(live: seq<TxWrapper>, w: TxWrapper, n: nat)
    requires n < |live|
    ensures OrderPart(live + [w], n) == OrderPart(live, n)
    ensures var k := |Unproposed(live[n + 1..])|;
            var spare := if n == 0 then 0 else n - 1;
            if w.proposed || spare < k then
              && Progress(live + [w], n) == Progress(live, n)
              && ProposePart(live + [w], n) == ProposePart(live, n)
            else
              && Progress(live, n) == (ProposeTxs, k + 1)
              && Progress(live + [w], n) == (if k < spare then (ProposeTxs, k + 2) else (Finished, 1))
              && ProposePart(live + [w], n) == ProposePart(live, n) + (if k < spare then [w] else [])
  {
    var rest := live[n + 1..];
    assert (live + [w])[n + 1..] == rest + [w];
    assert (rest + [w])[..|rest|] == rest;
  }

  /** One turn of the stage machine: the stage and counter it leaves, and the list the transaction
      goes to (none when `put` is `Finished`). */
  datatype Turn = Turn(stage: Stage, count: nat, put: Stage)

  function TurnOf(stage: Stage, count: nat, proposed: bool, n: nat): Turn {
    if stage == Finished || (stage == ProposeTxs && proposed) then Turn(stage, count, Finished)
    else if count + 1 <= n then Turn(stage, count + 1, stage)
    else Turn(stage.Next(), 1, stage.Next())
  }

  /** The machine does on the next live transaction what the package asks. */
  ghost predicate TurnFits(live: seq<TxWrapper>, w: TxWrapper, n: nat) {
    var t := TurnOf(Progress(live, n).0, Progress(live, n).1, w.proposed, n);
    && Progress(live + [w], n) == (t.stage, t.count)
    && OrderPart(live + [w], n) == OrderPart(live, n) + (if t.put == OrderTxs then [w] else [])
    && ProposePart(live + [w], n) == ProposePart(live, n) + (if t.put == ProposeTxs then [w] else [])
  }

  lemma TurnWhileOrdering(live: seq<TxWrapper>, w: TxWrapper, n: nat)
    requires |live| <= n
    ensures TurnFits(live, w, n)
  {
    NextOrdered(live, w, n);
  }

  lemma TurnWhileProposing(live: seq<TxWrapper>, w: TxWrapper, n: nat)
    requires n < |live|
    ensures TurnFits(live, w, n)
  {
    NextProposed(live, w, n);
  }

  lemma HashesAppend(q: seq<TxWrapper>, w: TxWrapper)
    ensures Hashes(q + [w]) == Hashes(q) + [w.hash] && Hashes(q + []) == Hashes(q)
  {
    assert q + [] == q;
  }

  /** The part of the packaging loop that picks one live transaction. */
  method Pick(stage: Stage, count: nat, order: seq<Hash>, propose: seq<Hash>, w: TxWrapper, n: nat,
              ghost live: seq<TxWrapper>)
    returns (stage': Stage, count': nat, order': seq<Hash>, propose': seq<Hash>)
    requires Progress(live, n) == (stage, count)
    requires order == Hashes(OrderPart(live, n))
    requires propose == Hashes(ProposePart(live, n))
    ensures Progress(live + [w], n) == (stage', count')
    ensures order' == Hashes(OrderPart(live + [w], n))
    ensures propose' == Hashes(ProposePart(live + [w], n))
  {
    if |live| <= n {
      TurnWhileOrdering(live, w, n);
    } else {
      TurnWhileProposing(live, w, n);
    }
    HashesAppend(OrderPart(live, n), w);
    HashesAppend(ProposePart(live, n), w);
    stage', count', order', propose' := TurnTaken(stage, count, order, propose, w, n);
  }

  /** The turn itself. */
  method TurnTaken(stage: Stage, count: nat, order: seq<Hash>, propose: seq<Hash>, w: TxWrapper, n: nat)
    returns (stage': Stage, count': nat, order': seq<Hash>, propose': seq<Hash>)
    ensures var t := TurnOf(stage, count, w.proposed, n);
            && (stage', count') == (t.stage, t.count)
            && order' == (if t.put == OrderTxs then order + [w.hash] else order)
            && propose' == (if t.put == ProposeTxs then propose + [w.hash] else propose)
  {
    stage', count', order', propose' := stage, count, order, propose;
    if stage == Finished || (stage == ProposeTxs && w.proposed) {
      return;
    }
    count' := count' + 1;
    if count' > n {
      stage' := stage'.Next();
      count' := 1;
    }
    match stage'
    case OrderTxs => order' := order' + [w.hash];
    case ProposeTxs => propose' := propose' + [w.hash];
    case Finished =>
  }

  // ----- queue and map agree -----

  /** The map's keys are exactly the hashes of the entries not removed, each queued once. */
  ghost predicate Owned(flat: map<Hash, TxWrapper>, q: seq<TxWrapper>, removed: set<TxWrapper>) {
    && (forall i, j | 0 <= i < j < |q| && q[i] !in removed && q[j] !in removed :: q[i].hash != q[j].hash)
    && (forall w | w in q && w !in removed :: w.hash in flat && flat[w.hash] == w)
    && (forall h | h in flat :: flat[h] in q && flat[h] !in removed && flat[h].hash == h)
  }

  /** Every entry is live, timed out or removed, and live entries keep their order. */
  lemma {:induction false} Partition(q: seq<TxWrapper>, k: nat, removed: set<TxWrapper>, height: nat, limit: nat)
    requires k <= |q|
    requires forall i, j | 0 <= i < j < |q| && q[i] !in removed && q[j] !in removed :: q[i].hash != q[j].hash
    ensures var live := Live(q, k, removed, height, limit);
            && |live| <= k
            && (forall w | w in live :: w in q[..k] && w !in removed && height < w.timeout <= limit)
            && (forall w | w in q[..k] && w !in removed && height < w.timeout <= limit :: w in live)
            && (forall i, j | 0 <= i < j < |live| :: live[i].hash != live[j].hash)
    ensures forall w :: w in TimedOut(q, k, removed, height, limit)
                   <==> w in q[..k] && w !in removed && !(height < w.timeout <= limit)
  {
    if k > 0 {
      Partition(q, k - 1, removed, height, limit);
      var live, w := Live(q, k - 1, removed, height, limit), q[k - 1];
      assert q[..k] == q[..k - 1] + [w];
      if w !in removed {
        forall u | u in live
          ensures u.hash != w.hash
        {
          var i :| 0 <= i < k - 1 && q[..k - 1][i] == u;
          assert q[i] == u;
        }
      }
    }
  }

  ghost predicate HashesDiffer(q: seq<TxWrapper>) {
    forall i, j | 0 <= i < j < |q| :: q[i].hash != q[j].hash
  }

  lemma DifferJoin(a: seq<TxWrapper>, b: seq<TxWrapper>)
    requires HashesDiffer(a) && HashesDiffer(b) && forall u, v | u in a && v in b :: u.hash != v.hash
    ensures HashesDiffer(a + b)
  {
    var ab := a + b;
    forall i, j | 0 <= i < j < |ab|
      ensures ab[i].hash != ab[j].hash
    {
      if i < |a| <= j {
        assert ab[i] in a && ab[j] in b;
      }
    }
  }

  lemma PartsDiffer(q: seq<TxWrapper>, k: nat)
    requires HashesDiffer(q) && k <= |q|
    ensures HashesDiffer(q[..k]) && HashesDiffer(q[k..])
    ensures forall u, v | u in q[..k] && v in q[k..] :: u.hash != v.hash
  {
    forall u, v | u in q[..k] && v in q[k..]
      ensures u.hash != v.hash
    {
      var i :| 0 <= i < k && q[..k][i] == u;
      var j :| 0 <= j < |q| - k && q[k..][j] == v;
      assert q[i].hash != q[k + j].hash;
    }
  }

  lemma {:induction false} UnproposedDiffer(q: seq<TxWrapper>)
    requires HashesDiffer(q)
    ensures HashesDiffer(Unproposed(q)) && forall w | w in Unproposed(q) :: w in q && !w.proposed
  {
    if q != [] {
      var n := |q| - 1;
      PartsDiffer(q, n);
      UnproposedDiffer(q[..n]);
      assert q[n] in q[n..];
      DifferJoin(Unproposed(q[..n]), [q[n]]);
    }
  }

  lemma TakenOnce(live: seq<TxWrapper>, m: nat, k: nat)
    requires HashesDiffer(live) && m <= |live| && k <= |Unproposed(live[m..])|
    ensures var taken := live[..m] + Unproposed(live[m..])[..k];
            HashesDiffer(taken) && forall w | w in taken :: w in live
  {
    var rest := Unproposed(live[m..]);
    PartsDiffer(live, m);
    UnproposedDiffer(live[m..]);
    PartsDiffer(rest, k);
    forall w | w in rest[..k]
      ensures w in live[m..]
    {
      assert w in rest;
    }
    DifferJoin(live[..m], rest[..k]);
  }

  /** What is packaged, written as one cut of the live transactions and one of the unproposed rest. */
  lemma PackagedIs(live: seq<TxWrapper>, n: nat) returns (k: nat)
    requires n < |live|
    ensures k <= |Unproposed(live[n + 1..])|
    ensures OrderPart(live, n) + ProposePart(live, n) == live[..n + 1] + Unproposed(live[n + 1..])[..k]
  {
    var rest := Unproposed(live[n + 1..]);
    k := Min(if n == 0 then 0 else n - 1, |rest|);
    assert live[..n] + ([live[n]] + rest[..k]) == live[..n + 1] + rest[..k];
  }

  /** A package names live transactions only, and none of them twice. */
  lemma PackagedOnce(live: seq<TxWrapper>, n: nat)
    requires HashesDiffer(live)
    ensures HashesDiffer(OrderPart(live, n) + ProposePart(live, n))
    ensures forall w | w in OrderPart(live, n) + ProposePart(live, n) :: w in live
  {
    if n < |live| {
      var k := PackagedIs(live, n);
      TakenOnce(live, n + 1, k);
    } else {
      assert OrderPart(live, n) + ProposePart(live, n) == live;
    }
  }

  lemma HashIn(q: seq<TxWrapper>, h: Hash)
    ensures h in Hashes(q) <==> exists w | w in q :: w.hash == h
  {
    if h in Hashes(q) {
      var i :| 0 <= i < |q| && Hashes(q)[i] == h;
      assert q[i] in q;
    }
    if w :| w in q && w.hash == h {
      var i :| 0 <= i < |q| && q[i] == w;
      assert Hashes(q)[i] == h;
    }
  }

  /** Keeping the live entries and deleting the timed-out ones keeps queue and map in agreement. */
  lemma DrainKeepsOwned(flat: map<Hash, TxWrapper>, q: seq<TxWrapper>, removed: set<TxWrapper>, height: nat, limit: nat)
    requires Owned(flat, q, removed)
    ensures Owned(Without(flat, TimedOut(q, |q|, removed, height, limit)), Live(q, |q|, removed, height, limit), {})
  {
    var live, late := Live(q, |q|, removed, height, limit), TimedOut(q, |q|, removed, height, limit);
    Partition(q, |q|, removed, height, limit);
    assert q[..|q|] == q;
    WithoutLoses(flat, late);
    forall h
      ensures h in Hashes(late) <==> h in flat && flat[h].IsTimeout(height, limit)
    {
      HashIn(late, h);
      assert h in flat && flat[h].IsTimeout(height, limit) ==> flat[h] in late;
      if h in Hashes(late) {
        var w :| w in late && w.hash == h;
        assert w in q[..|q|];
      }
    }
  }

  // ----- in time -----

  /** An entry is live if and only if it was not removed and its timeout lies above the height and not
      above the limit; with any other timeout it is timed out. */
  lemma {:induction false} LiveIff(
      q: seq<TxWrapper>, k: nat, removed: set<TxWrapper>, height: nat, limit: nat, w: TxWrapper)
    requires k <= |q|
    ensures w in Live(q, k, removed, height, limit) <==> w in q[..k] && w !in removed && height < w.timeout <= limit
    ensures w in TimedOut(q, k, removed, height, limit) <==>
            w in q[..k] && w !in removed && (w.timeout <= height || w.timeout > limit)
  {
    if k > 0 {
      LiveIff(q, k - 1, removed, height, limit, w);
      assert q[..k] == q[..k - 1] + [q[k - 1]];
    }
  }

  lemma {:induction false} UnproposedIff(q: seq<TxWrapper>, w: TxWrapper)
    ensures w in Unproposed(q) <==> w in q && !w.proposed
  {
    if q != [] {
      UnproposedIff(q[..|q| - 1], w);
      assert q == q[..|q| - 1] + [q[|q| - 1]];
    }
  }

  /** Each hash of a package is that of a queued transaction that was not removed and is in time. */
  ghost predicate AllInTime(hs: seq<Hash>, q: seq<TxWrapper>, removed: set<TxWrapper>, height: nat, limit: nat) {
    forall h | h in hs :: exists w | w in q && w.hash == h :: w !in removed && height < w.timeout <= limit
  }

  lemma PackagedInTime(q: seq<TxWrapper>, removed: set<TxWrapper>, height: nat, limit: nat, n: nat)
    ensures var live := Live(q, |q|, removed, height, limit);
            AllInTime(Hashes(OrderPart(live, n)) + Hashes(ProposePart(live, n)), q, removed, height, limit)
  {
    var live := Live(q, |q|, removed, height, limit);
    var order, propose := OrderPart(live, n), ProposePart(live, n);
    forall h | h in Hashes(order) + Hashes(propose)
      ensures exists w | w in q && w.hash == h :: w !in removed && height < w.timeout <= limit
    {
      HashIn(order, h);
      HashIn(propose, h);
      var w :| (w in order || w in propose) && w.hash == h;
      if n < |live| {
        UnproposedIff(live[n + 1..], w);
      }
      assert w in live;
      LiveIff(q, |q|, removed, height, limit, w);
      assert q[..|q|] == q;
    }
  }

  /** The queue holds the entries of `q` that were not removed and are in time, and no others. */
  ghost predicate JustInTime(
      kept: seq<TxWrapper>, q: seq<TxWrapper>, removed: set<TxWrapper>, height: nat, limit: nat)
  {
    && (forall w | w in kept :: w in q && w !in removed && height < w.timeout <= limit)
    && (forall w | w in q && w !in removed && height < w.timeout <= limit :: w in kept)
  }

  /** With room for all, the new queue holds the transactions in time, no others, and the map loses just
      the hashes of those that are not. */
  lemma QueuedInTime(q: seq<TxWrapper>, removed: set<TxWrapper>, height: nat, limit: nat, cap: nat)
    requires |q| <= cap
    ensures var live := Live(q, |q|, removed, height, limit);
            && Refused([], live, cap) == []
            && JustInTime(Admitted([], live, cap), q, removed, height, limit)
  {
    var live := Live(q, |q|, removed, height, limit);
    LiveIsShort(q, |q|, removed, height, limit);
    assert Admitted([], live, cap) == live;
    assert q[..|q|] == q;
    forall w | w in live
      ensures w in q && w !in removed && height < w.timeout <= limit
    {
      LiveIff(q, |q|, removed, height, limit, w);
    }
    forall w | w in q && w !in removed && height < w.timeout <= limit
      ensures w in live
    {
      LiveIff(q, |q|, removed, height, limit, w);
    }
  }

  lemma {:induction false} LiveIsShort(q: seq<TxWrapper>, k: nat, removed: set<TxWrapper>, height: nat, limit: nat)
    requires k <= |q|
    ensures |Live(q, k, removed, height, limit)| <= k
  {
    if k > 0 {
      LiveIsShort(q, k - 1, removed, height, limit);
    }
  }

  /** And the map keeps a hash exactly if its transaction is in time. */
  lemma MappedInTime(flat: map<Hash, TxWrapper>, q: seq<TxWrapper>, removed: set<TxWrapper>,
                     height: nat, limit: nat, cap: nat, h: Hash)
    requires Owned(flat, q, removed) && |q| <= cap
    ensures var live, late := Live(q, |q|, removed, height, limit), TimedOut(q, |q|, removed, height, limit);
            h in Without(Without(flat, Refused([], live, cap)), late) <==>
            h in flat && height < flat[h].timeout <= limit
  {
    var late := TimedOut(q, |q|, removed, height, limit);
    QueuedInTime(q, removed, height, limit, cap);
    WithoutLoses(flat, late);
    HashIn(late, h);
    assert q[..|q|] == q;
    if h in Hashes(late) {
      var w :| w in late && w.hash == h;
      LiveIff(q, |q|, removed, height, limit, w);
      assert flat[h] == w;
    } else if h in flat {
      LiveIff(q, |q|, removed, height, limit, flat[h]);
    }
  }

  class TxCache {
    const capacity: nat
    const map': Map<TxWrapper>
    var queue0: seq<TxWrapper>
    var queue1: seq<TxWrapper>
    var isZero: bool

    function QueueOf(zero: bool): seq<TxWrapper>
      reads this
    {
      if zero then queue0 else queue1
    }

    function Incumbent(): seq<TxWrapper>
      reads this
    {
      QueueOf(isZero)
    }

    function Candidate(): seq<TxWrapper>
      reads this
    {
      QueueOf(!isZero)
    }

    ghost predicate Valid()
      reads this, map', map'.buckets
    {
      && map'.Valid()
      && |queue0| <= capacity
      && |queue1| <= capacity
    }

    /** The queue received `xs` behind `q` as far as they fit; the rest was deleted from `base`. */
    ghost predicate Received(zero: bool, q: seq<TxWrapper>, xs: seq<TxWrapper>, base: map<Hash, TxWrapper>)
      reads this, map', map'.buckets
    {
      && |q| <= capacity
      && QueueOf(zero) == Admitted(q, xs, capacity)
      && map'.Flat() == Without(base, Refused(q, xs, capacity))
    }

    constructor (poolSize: nat)
      ensures Valid() && fresh(map') && fresh(map'.buckets)
      ensures capacity == poolSize * 2 && map'.Flat() == map[] && queue0 == queue1 == [] && isZero
    {
      capacity := poolSize * 2;
      map' := new Map<TxWrapper>();
      queue0, queue1, isZero := [], [], true;
    }

    method Push(zero: bool, w: TxWrapper) returns (ok: bool)
      modifies `queue0, `queue1
      ensures ok == (|old(QueueOf(zero))| < capacity)
      ensures QueueOf(zero) == old(QueueOf(zero)) + if ok then [w] else []
      ensures QueueOf(!zero) == old(QueueOf(!zero))
    {
      ok := |QueueOf(zero)| < capacity;
      if ok {
        if zero { queue0 := queue0 + [w]; } else { queue1 := queue1 + [w]; }
      }
    }

    method Pop(zero: bool) returns (w: TxWrapper)
      requires QueueOf(zero) != []
      modifies `queue0, `queue1
      ensures [w] + QueueOf(zero) == old(QueueOf(zero))
      ensures QueueOf(!zero) == old(QueueOf(!zero))
    {
      w := QueueOf(zero)[0];
      if zero { queue0 := queue0[1..]; } else { queue1 := queue1[1..]; }
    }

    /** Push, or delete from the map when the queue is full. */
    method PushOrDelete(zero: bool, w: TxWrapper, ghost q: seq<TxWrapper>, ghost xs: seq<TxWrapper>,
                        ghost base: map<Hash, TxWrapper>)
      requires Valid() && Received(zero, q, xs, base)
      modifies `queue0, `queue1, map'.buckets
      ensures Valid() && Received(zero, q, xs + [w], base)
      ensures QueueOf(!zero) == old(QueueOf(!zero))
    {
      AdmitNext(q, xs, w, capacity);
      ghost var refused := Refused(q, xs, capacity);
      assert (refused + [w])[..|refused|] == refused;
      var ok := Push(zero, w);
      if !ok {
        map'.Remove(w.hash);
      }
    }

    /** The first `k` entries of the retired queue `ret` are settled behind the incumbent `inc`. */
    ghost predicate Omitting(inc: seq<TxWrapper>, ret: seq<TxWrapper>, k: nat, base: map<Hash, TxWrapper>)
      reads this, map', map'.buckets
    {
      && Valid()
      && k <= |ret|
      && QueueOf(!isZero) == ret[k..]
      && Received(isZero, inc, ret[..k], base)
    }

    method OmitOne(ghost inc: seq<TxWrapper>, ghost ret: seq<TxWrapper>, ghost k: nat, ghost base: map<Hash, TxWrapper>)
      requires Omitting(inc, ret, k, base) && QueueOf(!isZero) != []
      modifies `queue0, `queue1, map'.buckets
      ensures Omitting(inc, ret, k + 1, base)
    {
      var w := Pop(!isZero);
      assert w == ret[k] && QueueOf(!isZero) == ret[k + 1..];
      assert ret[..k + 1] == ret[..k] + [w];
      PushOrDelete(isZero, w, inc, ret[..k], base);
    }

    /** Moves what is left in the retired queue behind the incumbent one. */
    method ProcessOmissionTxs()
      requires Valid()
      modifies `queue0, `queue1, map'.buckets
      ensures Valid() && Candidate() == []
      ensures Received(isZero, old(Incumbent()), old(Candidate()), old(map'.Flat()))
    {
      ghost var inc, ret, base := Incumbent(), Candidate(), map'.Flat();
      ghost var k := 0;
      NothingOmitted(inc, capacity);
      while QueueOf(!isZero) != []
        invariant Omitting(inc, ret, k, base)
        decreases |ret| - k
      {
        OmitOne(inc, ret, k, base);
        k := k + 1;
      }
      assert ret[..k] == ret;
    }

    /** Switches the roles, and deletes the timed-out entries once the old queue is settled. */
    method SwitchAndSettle(timeouts: seq<Hash>, ghost late: seq<TxWrapper>, ghost q: seq<TxWrapper>,
                           ghost live: seq<TxWrapper>, ghost base: map<Hash, TxWrapper>)
      requires Valid() && Incumbent() == [] && Received(!isZero, q, live, base)
      requires timeouts == Hashes(late)
      modifies `queue0, `queue1, `isZero, map'.buckets
      ensures Valid() && isZero != old(isZero) && Candidate() == []
      ensures Incumbent() == Admitted(q, live, capacity)
      ensures map'.Flat() == Without(Without(base, Refused(q, live, capacity)), late)
    {
      ghost var moved, kept := Candidate(), map'.Flat();
      isZero := !isZero;
      ProcessOmissionTxs();
      assert Incumbent() == moved && map'.Flat() == kept by {
        NothingOmitted(moved, capacity);
      }
      WithoutLoses(kept, late);
      map'.RemoveBatch(timeouts);
    }

    /** The first `k` entries of the old incumbent queue `inc` are processed: live ones moved behind
        `cand` in the other queue, timed-out ones noted. */
    ghost predicate Drained(inc: seq<TxWrapper>, k: nat, removed: set<TxWrapper>, height: nat, limit: nat,
                            timeouts: seq<Hash>, cand: seq<TxWrapper>, base: map<Hash, TxWrapper>)
      reads this, map', map'.buckets, inc
    {
      && Valid()
      && k <= |inc|
      && QueueOf(isZero) == inc[k..]
      && (forall w | w in inc :: w.removed <==> w in removed)
      && Received(!isZero, cand, Live(inc, k, removed, height, limit), base)
      && timeouts == Hashes(TimedOut(inc, k, removed, height, limit))
    }

    /** Processes one entry; `kept` tells whether it was live. */
    method DrainOne(height: nat, limit: nat, timeouts: seq<Hash>, ghost inc: seq<TxWrapper>, ghost k: nat,
                    ghost removed: set<TxWrapper>, ghost cand: seq<TxWrapper>, ghost base: map<Hash, TxWrapper>)
      returns (w: TxWrapper, kept: bool, timeouts': seq<Hash>)
      requires Drained(inc, k, removed, height, limit, timeouts, cand, base) && QueueOf(isZero) != []
      modifies `queue0, `queue1, map'.buckets
      ensures k < |inc| && w == inc[k]
      ensures Drained(inc, k + 1, removed, height, limit, timeouts', cand, base)
      ensures kept <==> w !in removed && height < w.timeout <= limit
    {
      ghost var live := Live(inc, k, removed, height, limit);
      w := Pop(isZero);
      assert w == inc[k];
      if w.removed {
        return w, false, timeouts;
      }
      if w.IsTimeout(height, limit) {
        return w, false, timeouts + [w.hash];
      }
      PushOrDelete(!isZero, w, cand, live, base);
      return w, true, timeouts;
    }

    /** Moves the live entries of the incumbent queue to the other queue, which then takes over.
        Timed-out and superfluous entries leave the map. */
    method FlushIncumbentQueue(height: nat, limit: nat)
      requires Valid()
      modifies `queue0, `queue1, `isZero, map'.buckets
      ensures Valid() && isZero != old(isZero) && Candidate() == []
      ensures old(Candidate()) == [] ==>
                JustInTime(Incumbent(), old(Incumbent()), old(RemovedOf(Incumbent())), height, limit)
      ensures var inc := old(Incumbent());
              var removed := old(RemovedOf(Incumbent()));
              var live := Live(inc, |inc|, removed, height, limit);
              && Incumbent() == Admitted(old(Candidate()), live, capacity)
              && map'.Flat() == Without(Without(old(map'.Flat()), Refused(old(Candidate()), live, capacity)),
                                        TimedOut(inc, |inc|, removed, height, limit))
    {
      ghost var inc, cand, base, removed := Incumbent(), Candidate(), map'.Flat(), RemovedOf(Incumbent());
      var timeouts := [];
      ghost var k := 0;
      NothingOmitted(cand, capacity);
      while QueueOf(isZero) != []
        invariant isZero == old(isZero)
        invariant Drained(inc, k, removed, height, limit, timeouts, cand, base)
        decreases |QueueOf(isZero)|
      {
        var w, kept, timeouts' := DrainOne(height, limit, timeouts, inc, k, removed, cand, base);
        timeouts, k := timeouts', k + 1;
      }
      QueuedInTime(inc, removed, height, limit, capacity);
      SwitchAndSettle(timeouts, TimedOut(inc, |inc|, removed, height, limit), cand,
                      Live(inc, |inc|, removed, height, limit), base);
    }

    /** As `Drained`, with the package filled as far as the first `k` entries say. */
    ghost predicate Packed(inc: seq<TxWrapper>, k: nat, removed: set<TxWrapper>, height: nat, limit: nat,
                           timeouts: seq<Hash>, cand: seq<TxWrapper>, base: map<Hash, TxWrapper>,
                           n: nat, stage: Stage, count: nat, order: seq<Hash>, propose: seq<Hash>)
      reads this, map', map'.buckets, inc
    {
      && Drained(inc, k, removed, height, limit, timeouts, cand, base)
      && var live := Live(inc, k, removed, height, limit);
         && Progress(live, n) == (stage, count)
         && order == Hashes(OrderPart(live, n))
         && propose == Hashes(ProposePart(live, n))
    }

    /** One turn of the packaging loop. */
    method PackOne(height: nat, limit: nat, timeouts: seq<Hash>, n: nat, stage: Stage, count: nat,
                   order: seq<Hash>, propose: seq<Hash>, ghost inc: seq<TxWrapper>, ghost k: nat,
                   ghost removed: set<TxWrapper>, ghost cand: seq<TxWrapper>, ghost base: map<Hash, TxWrapper>)
      returns (timeouts': seq<Hash>, stage': Stage, count': nat, order': seq<Hash>, propose': seq<Hash>)
      requires Packed(inc, k, removed, height, limit, timeouts, cand, base, n, stage, count, order, propose)
      requires QueueOf(isZero) != []
      modifies `queue0, `queue1, map'.buckets
      ensures Packed(inc, k + 1, removed, height, limit, timeouts', cand, base, n, stage', count', order', propose')
    {
      ghost var live := Live(inc, k, removed, height, limit);
      var w, kept, late := DrainOne(height, limit, timeouts, inc, k, removed, cand, base);
      timeouts', stage', count', order', propose' := late, stage, count, order, propose;
      if kept {
        stage', count', order', propose' := Pick(stage, count, order, propose, w, n, live);
      }
    }

    /** The packaging loop: the incumbent queue is emptied. */
    method PackAll(n: nat, height: nat, limit: nat, ghost inc: seq<TxWrapper>, ghost removed: set<TxWrapper>,
                   ghost cand: seq<TxWrapper>, ghost base: map<Hash, TxWrapper>)
      returns (timeouts: seq<Hash>, order: seq<Hash>, propose: seq<Hash>)
      requires Valid() && inc == Incumbent() && removed == RemovedOf(inc)
      requires cand == Candidate() && base == map'.Flat()
      modifies `queue0, `queue1, map'.buckets
      ensures Drained(inc, |inc|, removed, height, limit, timeouts, cand, base)
      ensures var live := Live(inc, |inc|, removed, height, limit);
              order == Hashes(OrderPart(live, n)) && propose == Hashes(ProposePart(live, n))
    {
      timeouts, order, propose := [], [], [];
      var count, stage := 0, OrderTxs;
      ghost var k := 0;
      NothingOmitted(cand, capacity);
      assert inc[0..] == inc && Live(inc, 0, removed, height, limit) == [];
      assert Drained(inc, k, removed, height, limit, timeouts, cand, base);
      while QueueOf(isZero) != []
        invariant Packed(inc, k, removed, height, limit, timeouts, cand, base, n, stage, count, order, propose)
        decreases |inc| - k
      {
        timeouts, stage, count, order, propose :=
          PackOne(height, limit, timeouts, n, stage, count, order, propose, inc, k, removed, cand, base);
        k := k + 1;
      }
      assert k == |inc|;
    }

    /** Packaging alone: the package holds the live transactions described by `OrderPart` and
        `ProposePart`, all live transactions stay queued in order, and the map loses exactly the
        timed-out ones and those the other queue had no room for. */
    method Package(txNumLimit: nat, height: nat, limit: nat) returns (order: seq<Hash>, propose: seq<Hash>)
      requires Valid()
      modifies `queue0, `queue1, `isZero, map'.buckets
      ensures Valid() && isZero != old(isZero) && Candidate() == []
      ensures AllInTime(order + propose, old(Incumbent()), old(RemovedOf(Incumbent())), height, limit)
      ensures old(Candidate()) == [] ==>
                JustInTime(Incumbent(), old(Incumbent()), old(RemovedOf(Incumbent())), height, limit)
      ensures var inc := old(Incumbent());
              var removed := old(RemovedOf(Incumbent()));
              var live := Live(inc, |inc|, removed, height, limit);
              && order == Hashes(OrderPart(live, txNumLimit))
              && propose == Hashes(ProposePart(live, txNumLimit))
              && Incumbent() == Admitted(old(Candidate()), live, capacity)
              && map'.Flat() == Without(Without(old(map'.Flat()), Refused(old(Candidate()), live, capacity)),
                                        TimedOut(inc, |inc|, removed, height, limit))
    {
      ghost var inc, cand, base, removed := Incumbent(), Candidate(), map'.Flat(), RemovedOf(Incumbent());
      var timeouts;
      timeouts, order, propose := PackAll(txNumLimit, height, limit, inc, removed, cand, base);
      PackagedInTime(inc, removed, height, limit, txNumLimit);
      QueuedInTime(inc, removed, height, limit, capacity);
      SwitchAndSettle(timeouts, TimedOut(inc, |inc|, removed, height, limit), cand,
                      Live(inc, |inc|, removed, height, limit), base);
    }

    /** Insertion alone. A known hash is refused, and so is a transaction that finds the queue full;
        otherwise it is queued last. */
    method Insert(w: TxWrapper) returns (ok: bool)
      requires Valid()
      modifies `queue0, `queue1, map'.buckets
      ensures Valid() && Candidate() == old(Candidate())
      ensures ok <==> w.hash !in old(map'.Flat()) && |old(Incumbent())| < capacity
      ensures Incumbent() == old(Incumbent()) + if ok then [w] else []
      ensures map'.Flat() == if ok then old(map'.Flat())[w.hash := w] else old(map'.Flat())
    {
      ghost var flat := map'.Flat();
      var rejected := map'.Insert(w.hash, w);
      if rejected.Some? {
        return false;
      }
      ok := Push(isZero, w);
      if !ok {
        map'.Remove(w.hash);
        assert map'.Flat() == flat;
      }
    }

    /** Marks the map's entries under the given hashes. */
    method MarkRemoved(txHashes: seq<Hash>, ghost q: seq<TxWrapper>, ghost removed: set<TxWrapper>)
      requires map'.Valid() && Owned(map'.Flat(), q, removed)
      requires forall w | w in q :: w.removed <==> w in removed
      modifies q`removed
      ensures forall w | w in q :: w.removed <==> w in removed || w.hash in txHashes
    {
      ghost var flat := map'.Flat();
      for k := 0 to |txHashes|
        invariant map'.Valid() && map'.Flat() == flat
        invariant forall w | w in q :: w.removed <==> w in removed || w.hash in txHashes[..k]
      {
        var h := txHashes[k];
        assert txHashes[..k + 1] == txHashes[..k] + [h];
        var r := map'.Get(h);
        if r.Some? {
          assert r.value in q && r.value.hash == h;
          r.value.removed := true;
        }
      }
      assert txHashes[..|txHashes|] == txHashes;
    }

    /** Flushing: the given transactions leave map and queue, and so do the timed-out ones. */
    method Flush(txHashes: seq<Hash>, height: nat, limit: nat)
      requires Valid() && Owned(map'.Flat(), Incumbent(), RemovedOf(Incumbent()))
      modifies `queue0, `queue1, `isZero, map'.buckets, Incumbent()`removed
      ensures Valid() && isZero != old(isZero) && Candidate() == []
      ensures old(Candidate()) == [] ==>
                var inc := old(Incumbent());
                var removed := old(RemovedOf(Incumbent())) + set w | w in inc && w.hash in txHashes;
                JustInTime(Incumbent(), inc, removed, height, limit)
      ensures var inc := old(Incumbent());
              var removed := old(RemovedOf(Incumbent())) + set w | w in inc && w.hash in txHashes;
              var live := Live(inc, |inc|, removed, height, limit);
              && Incumbent() == Admitted(old(Candidate()), live, capacity)
              && map'.Flat() == Without(Without(old(map'.Flat()) - (set h | h in txHashes),
                                                Refused(old(Candidate()), live, capacity)),
                                        TimedOut(inc, |inc|, removed, height, limit))
    {
      ghost var inc, removed := Incumbent(), RemovedOf(Incumbent());
      MarkRemoved(txHashes, inc, removed);
      map'.RemoveBatch(txHashes);
      assert RemovedOf(inc) == removed + set w | w in inc && w.hash in txHashes;
      FlushIncumbentQueue(height, limit);
    }
  }

  /** One more entry is admitted when there is room and refused otherwise. */
  lemma AdmitNext(q: seq<TxWrapper>, xs: seq<TxWrapper>, w: TxWrapper, cap: nat)
    requires |q| <= cap
    ensures var fits := |Admitted(q, xs, cap)| < cap;
            && Admitted(q, xs + [w], cap) == Admitted(q, xs, cap) + (if fits then [w] else [])
            && Refused(q, xs + [w], cap) == Refused(q, xs, cap) + (if fits then [] else [w])
  {
  }

  lemma NothingOmitted(q: seq<TxWrapper>, cap: nat)
    ensures Admitted(q, [], cap) == q && Refused(q, [], cap) == []
  {
  }

  /** An accepted insertion keeps queue and map in agreement. */
  lemma InsertKeepsOwned(flat: map<Hash, TxWrapper>, q: seq<TxWrapper>, removed: set<TxWrapper>, w: TxWrapper)
    requires Owned(flat, q, removed) && w.hash !in flat && w !in removed
    ensures Owned(flat[w.hash := w], q + [w], removed)
  {
    var q', flat' := q + [w], flat[w.hash := w];
    forall i, j | 0 <= i < j < |q'| && q'[i] !in removed && q'[j] !in removed
      ensures q'[i].hash != q'[j].hash
    {
      assert q'[i] in q;
    }
    forall h | h in flat'
      ensures flat'[h] in q' && flat'[h] !in removed && flat'[h].hash == h
    {
      assert h == w.hash || flat[h] in q;
    }
  }

  /** Packaging with the other queue empty refuses nothing: the new queue is the live entries in
      order, the map loses exactly the timed-out ones, and both still agree. */
  lemma PackageKeepsOwned(flat: map<Hash, TxWrapper>, q: seq<TxWrapper>, removed: set<TxWrapper>,
                          height: nat, limit: nat, cap: nat)
    requires Owned(flat, q, removed) && |q| <= cap
    ensures var live, late := Live(q, |q|, removed, height, limit), TimedOut(q, |q|, removed, height, limit);
            && Admitted([], live, cap) == live
            && Refused([], live, cap) == []
            && Owned(Without(Without(flat, Refused([], live, cap)), late), live, {})
  {
    Partition(q, |q|, removed, height, limit);
    DrainKeepsOwned(flat, q, removed, height, limit);
  }

  /** So does flushing; and afterwards no flushed hash is in the map. */
  lemma FlushKeepsOwned(flat: map<Hash, TxWrapper>, q: seq<TxWrapper>, removed: set<TxWrapper>,
                        hashes: seq<Hash>, height: nat, limit: nat, cap: nat)
    requires Owned(flat, q, removed) && |q| <= cap
    ensures var removed' := removed + set w | w in q && w.hash in hashes;
            var live, late := Live(q, |q|, removed', height, limit), TimedOut(q, |q|, removed', height, limit);
            var flat' := Without(Without(flat - (set h | h in hashes), Refused([], live, cap)), late);
            && Admitted([], live, cap) == live
            && Owned(flat', live, {})
            && forall h | h in hashes :: h !in flat'
  {
    var removed' := removed + set w | w in q && w.hash in hashes;
    var flat1 := flat - set h | h in hashes;
    assert Owned(flat1, q, removed');
    PackageKeepsOwned(flat1, q, removed', height, limit, cap);
    WithoutLoses(flat1, TimedOut(q, |q|, removed', height, limit));
  }
}
