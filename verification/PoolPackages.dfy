/** What a package contains while inserters run: the same interleaving, with the package watched. */
module PoolPackages {
  import opened Types
  import C = TxCache
  import opened PoolRuns

  /** The pool with the package being filled, and the hashes dropped on the way because the other queue
      was full. */
  datatype Watched = Watched(
    pool: Pool, stage: C.Stage, count: nat, order: seq<Hash>, propose: seq<Hash>, dropped: seq<Hash>)
  {
    /** How often a hash was packaged. */
    function Packaged(h: Hash): nat {
      Occurs(order, h) + Occurs(propose, h)
    }
  }

  /** Whether this step pops a live entry. */
  predicate Pops(s: Pool, a: Action) {
    && a.Pack? && s.packager.Popping? && s.Incumbent() != []
    && !s.Incumbent()[0].IsTimeout(s.packager.height, s.packager.limit)
  }

  function Picked(v: Watched, e: Entry, n: nat): Watched {
    var t := C.TurnOf(v.stage, v.count, e.proposed, n);
    v.(stage := t.stage, count := t.count,
       order := if t.put.OrderTxs? then v.order + [e.hash] else v.order,
       propose := if t.put.ProposeTxs? then v.propose + [e.hash] else v.propose)
  }

  /** One step of the pool, with a limit of `n` transactions. */
  function Watch(v: Watched, n: nat, a: Action): Watched {
    var s := v.pool;
    var u :=
      if a.StartPackage? && s.packager.Idle? then
        v.(stage := C.OrderTxs, count := 0, order := [], propose := [], dropped := [])
      else if Pops(s, a) then Picked(v, s.Incumbent()[0], n)
      else if a.Pack? && s.packager.Dropping? then v.(dropped := v.dropped + [s.packager.e.hash])
      else v;
    u.(pool := Next(s, a))
  }

  function WatchAll(v: Watched, n: nat, actions: seq<Action>): Watched {
    if actions == [] then v else Watch(WatchAll(v, n, actions[..|actions| - 1]), n, actions[|actions| - 1])
  }

  function Fresh(capacity: nat): Watched {
    Watched(Empty(capacity), C.OrderTxs, 0, [], [], [])
  }

  lemma {:induction false} WatchingChangesNothing(v: Watched, n: nat, actions: seq<Action>)
    ensures WatchAll(v, n, actions).pool == Run(v.pool, actions)
  {
    if actions != [] {
      WatchingChangesNothing(v, n, actions[..|actions| - 1]);
    }
  }

  // ----- how often a hash is packaged -----

  predicate Collecting(p: Packager) {
    p.Popping? || p.Holding? || p.Dropping?
  }

  /** The entry in the packager's hands. */
  function InHand(p: Packager, h: Hash): nat {
    if p.Holding? || p.Dropping? then One(p.e, h) else 0
  }

  /** While entries are collected, each packaged hash is in the other queue, in hand, or was dropped. */
  ghost predicate Bounded(v: Watched, h: Hash) {
    && v.Packaged(h) <= 1 + Occurs(v.dropped, h)
    && (Collecting(v.pool.packager) ==>
          v.Packaged(h) <= InQueue(v.pool.Retired(), h) + InHand(v.pool.packager, h) + Occurs(v.dropped, h))
  }

  lemma PickedOnce(v: Watched, e: Entry, n: nat, h: Hash)
    ensures Picked(v, e, n).Packaged(h) <= v.Packaged(h) + One(e, h)
    ensures Picked(v, e, n).dropped == v.dropped && Picked(v, e, n).pool == v.pool
  {
    LateAppend(v.order, e.hash, h);
    LateAppend(v.propose, e.hash, h);
  }

  /** What queue and hand hold is in the map, where nothing is twice. */
  lemma AtMostOne(s: Pool, h: Hash)
    requires Inv(s) && Collecting(s.packager)
    ensures InQueue(s.Retired(), h) + InHand(s.packager, h) <= 1
  {
    assert Held(s, h) == InMap(s, h);
  }

  lemma PopBounded(v: Watched, n: nat, h: Hash)
    requires Inv(v.pool) && Bounded(v, h) && Pops(v.pool, Pack)
    ensures Bounded(Watch(v, n, Pack), h)
  {
    NextInv(v.pool, Pack);
    PickedOnce(v, v.pool.Incumbent()[0], n, h);
    AtMostOne(Watch(v, n, Pack).pool, h);
  }

  lemma HoldBounded(v: Watched, n: nat, h: Hash)
    requires Inv(v.pool) && Bounded(v, h) && v.pool.packager.Holding?
    ensures Bounded(Watch(v, n, Pack), h)
  {
    QueueAppend(v.pool.Retired(), v.pool.packager.e, h);
    NextInv(v.pool, Pack);
    AtMostOne(Watch(v, n, Pack).pool, h);
  }

  lemma PackBounded(v: Watched, n: nat, h: Hash)
    requires Inv(v.pool) && Bounded(v, h) && Collecting(v.pool.packager)
    ensures Bounded(Watch(v, n, Pack), h)
  {
    if Pops(v.pool, Pack) {
      PopBounded(v, n, h);
    } else if v.pool.packager.Holding? {
      HoldBounded(v, n, h);
    } else if v.pool.packager.Dropping? {
      LateAppend(v.dropped, v.pool.packager.e.hash, h);
    }
  }

  /** Insertions leave the packager alone, and the other queue at least as it was. */
  lemma AdvanceGrows(s: Pool, i: nat, h: Hash)
    requires i < |s.inserters|
    ensures var t := AdvanceStep(s, i);
            t.packager == s.packager && InQueue(t.Retired(), h) >= InQueue(s.Retired(), h)
  {
    if s.inserters[i].Chosen? {
      QueueAppend(s.Queue(s.inserters[i].zero), s.inserters[i].e, h);
    }
  }

  lemma AdvanceBounded(v: Watched, n: nat, i: nat, h: Hash)
    requires Bounded(v, h) && i < |v.pool.inserters|
    ensures Bounded(Watch(v, n, Advance(i)), h)
  {
    AdvanceGrows(v.pool, i, h);
  }

  /** Settling and clearing package nothing. */
  lemma SettleBounded(v: Watched, n: nat, h: Hash)
    requires Bounded(v, h) && !Collecting(v.pool.packager)
    ensures Bounded(Watch(v, n, Pack), h)
  {
    assert !Collecting(PackStep(v.pool).packager);
  }

  lemma BeginBounded(v: Watched, n: nat, e: Entry, h: Hash)
    requires Bounded(v, h)
    ensures Bounded(Watch(v, n, Begin(e)), h)
  {
  }

  lemma StartBounded(v: Watched, n: nat, height: nat, limit: nat, h: Hash)
    requires Bounded(v, h)
    ensures Bounded(Watch(v, n, StartPackage(height, limit)), h)
  {
  }

  lemma FlushBounded(v: Watched, n: nat, hashes: seq<Hash>, height: nat, limit: nat, h: Hash)
    requires Bounded(v, h)
    ensures Bounded(Watch(v, n, Flush(hashes, height, limit)), h)
  {
  }

  lemma WatchBounded(v: Watched, n: nat, a: Action, h: Hash)
    requires Inv(v.pool) && Bounded(v, h)
    ensures Bounded(Watch(v, n, a), h)
  {
    match a
    case Begin(e) => BeginBounded(v, n, e, h);
    case Advance(i) =>
      if i < |v.pool.inserters| {
        AdvanceBounded(v, n, i, h);
      }
    case StartPackage(height, limit) => StartBounded(v, n, height, limit, h);
    case Pack =>
      if Collecting(v.pool.packager) {
        PackBounded(v, n, h);
      } else {
        SettleBounded(v, n, h);
      }
    case Flush(hashes, height, limit) => FlushBounded(v, n, hashes, height, limit, h);
  }

  lemma {:induction false} RunBounded(capacity: nat, n: nat, actions: seq<Action>, h: Hash)
    ensures Inv(WatchAll(Fresh(capacity), n, actions).pool) && Bounded(WatchAll(Fresh(capacity), n, actions), h)
  {
    if actions == [] {
      EmptyInv(capacity);
    } else {
      var init := actions[..|actions| - 1];
      RunBounded(capacity, n, init, h);
      var v := WatchAll(Fresh(capacity), n, init);
      WatchBounded(v, n, actions[|actions| - 1], h);
      NextInv(v.pool, actions[|actions| - 1]);
    }
  }

  /** In every interleaving a hash is packaged at most once more than it was dropped in that package. */
  lemma PackagedAtMost(capacity: nat, n: nat, actions: seq<Action>, h: Hash)
    ensures var v := WatchAll(Fresh(capacity), n, actions);
            && v.pool == Run(Empty(capacity), actions)
            && v.Packaged(h) <= 1 + Occurs(v.dropped, h)
            && (v.dropped == [] ==> v.Packaged(h) <= 1)
  {
    WatchingChangesNothing(Fresh(capacity), n, actions);
    RunBounded(capacity, n, actions, h);
  }
}
