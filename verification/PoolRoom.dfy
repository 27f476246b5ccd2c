/** While the map holds no more keys than a queue has places, no queue is ever full: nothing is dropped,
    nothing is packaged twice, and only time and flushes take transactions away. */
module PoolRoom {
  import opened Types
  import opened PoolRuns
  import opened PoolPackages

  // ----- queues are no longer than the map is large -----

  /** Entries whose keys are in the map, each once, are no more than the keys. */
  lemma {:induction false} QueueFits(q: seq<Entry>, keys: set<Hash>)
    requires forall h :: InQueue(q, h) <= if h in keys then 1 else 0
    ensures |q| <= |keys|
  {
    if q != [] {
      var init, x := q[..|q| - 1], q[|q| - 1].hash;
      forall h
        ensures InQueue(init, h) <= if h in keys - {x} then 1 else 0
      {
        assert InQueue(q, h) == InQueue(init, h) + One(q[|q| - 1], h);
        assert InQueue(q, h) <= if h in keys then 1 else 0;
      }
      assert InQueue(q, x) == InQueue(init, x) + 1;
      QueueFits(init, keys - {x});
    }
  }

  /** The same with one entry more that is on its way into the queue. */
  lemma OneMoreFits(s: Pool, q: seq<Entry>, e: Entry)
    requires Inv(s) && forall h :: InQueue(q, h) + One(e, h) <= Held(s, h)
    ensures |q| < |s.keys|
  {
    forall h
      ensures InQueue(q + [e], h) <= if h in s.keys then 1 else 0
    {
      QueueAppend(q, e, h);
      assert Held(s, h) == InMap(s, h);
    }
    QueueFits(q + [e], s.keys);
  }

  lemma {:induction false} HeldByOne(xs: seq<Inserter>, i: nat, h: Hash)
    requires i < |xs|
    ensures xs[i].Holds(h) <= InFlight(xs, h)
  {
    if i < |xs| - 1 {
      HeldByOne(xs[..|xs| - 1], i, h);
    }
  }

  /** Whoever is about to push finds room. */
  ghost predicate Roomy(s: Pool) {
    && (s.packager.Holding? ==> |s.Retired()| < s.capacity)
    && (s.packager.Moving? ==> |s.Incumbent()| < s.capacity)
    && (forall i | 0 <= i < |s.inserters| && s.inserters[i].Chosen? ::
          |s.Queue(s.inserters[i].zero)| < s.capacity)
  }

  lemma FewKeysRoomy(s: Pool)
    requires Inv(s) && |s.keys| <= s.capacity
    ensures Roomy(s)
  {
    if s.packager.Holding? {
      OneMoreFits(s, s.Retired(), s.packager.e);
    } else if s.packager.Moving? {
      OneMoreFits(s, s.Incumbent(), s.packager.e);
    }
    forall i | 0 <= i < |s.inserters| && s.inserters[i].Chosen?
      ensures |s.Queue(s.inserters[i].zero)| < s.capacity
    {
      ChosenFits(s, i);
    }
  }

  lemma ChosenFits(s: Pool, i: nat)
    requires Inv(s) && i < |s.inserters| && s.inserters[i].Chosen?
    ensures |s.Queue(s.inserters[i].zero)| < |s.keys|
  {
    var Chosen(e, zero) := s.inserters[i];
    forall h
      ensures InQueue(s.Queue(zero), h) + One(e, h) <= Held(s, h)
    {
      HeldByOne(s.inserters, i, h);
    }
    OneMoreFits(s, s.Queue(zero), e);
  }

  // ----- so nothing is ever dropped -----

  predicate Refused(x: Inserter) {
    (x.Pushed? || x.Released?) && !x.ok
  }

  /** No push has failed. */
  ghost predicate Smooth(v: Watched) {
    && v.dropped == []
    && !v.pool.packager.Dropping? && !v.pool.packager.Deleting?
    && forall i | 0 <= i < |v.pool.inserters| :: !Refused(v.pool.inserters[i])
  }

  lemma AdvanceSmooth(v: Watched, n: nat, i: nat)
    requires Smooth(v) && Roomy(v.pool)
    ensures Smooth(Watch(v, n, Advance(i)))
  {
  }

  lemma PackSmooth(v: Watched, n: nat)
    requires Smooth(v) && Roomy(v.pool)
    ensures Smooth(Watch(v, n, Pack))
  {
    PackLeavesInserters(v.pool);
  }

  lemma PackLeavesInserters(s: Pool)
    ensures PackStep(s).inserters == s.inserters
  {
  }

  lemma WatchSmooth(v: Watched, n: nat, a: Action)
    requires Smooth(v) && Roomy(v.pool)
    ensures Smooth(Watch(v, n, a))
  {
    match a
    case Begin(e) =>
    case Advance(i) => AdvanceSmooth(v, n, i);
    case StartPackage(_, _) =>
    case Pack => PackSmooth(v, n);
    case Flush(_, _, _) =>
  }

  // ----- and only time and flushes take transactions away -----

  /** The transaction times out or is flushed. */
  predicate Ages(s: Pool, a: Action, e: Entry) {
    match a
    case Pack => s.packager.Popping? && !(s.packager.height < e.timeout <= s.packager.limit)
    case Flush(hashes, height, limit) => e.hash in hashes || !(height < e.timeout <= limit)
    case _ => false
  }

  lemma RoomyKeeps(s: Pool, a: Action, e: Entry)
    requires Inv(s) && Roomy(s) && Alive(s, e) && !Ages(s, a, e)
    ensures Alive(Next(s, a), e)
  {
    StepKeeps(s, a, e);
  }
}
