/** Which transactions packages and flushes take, in terms of their timeouts and marks. */
module PoolTimes {
  import opened Types
  import C = TxCache
  import opened PoolRuns
  import opened PoolAlone
  import opened PoolPackages

  // ----- packages -----

  function CountUnproposed(q: seq<C.TxWrapper>): nat {
    if q == [] then 0 else (if q[0].proposed then 0 else 1) + CountUnproposed(q[1..])
  }

  lemma {:induction false} CountLast(q: seq<C.TxWrapper>)
    requires q != []
    ensures CountUnproposed(q) == CountUnproposed(q[..|q| - 1]) + if q[|q| - 1].proposed then 0 else 1
  {
    if |q| > 1 {
      CountLast(q[1..]);
      assert q[1..][..|q| - 2] == q[..|q| - 1][1..];
    }
  }

  lemma {:induction false} UnproposedCounts(q: seq<C.TxWrapper>)
    ensures |C.Unproposed(q)| == CountUnproposed(q)
  {
    if q != [] {
      UnproposedCounts(q[..|q| - 1]);
      CountLast(q);
    }
  }

  /** Of the live transactions the first `n` are ordered. If there are more, the next one is proposed,
      and with it as many of the unproposed ones behind it as there are, up to `n` in all. */
  lemma PackageTakes(live: seq<C.TxWrapper>, n: nat)
    ensures var order, propose := C.OrderPart(live, n), C.ProposePart(live, n);
            && (|live| <= n ==> order == live && propose == [])
            && (n < |live| ==>
                  && |order| == n && order == live[..n]
                  && propose != [] && propose[0] == live[n]
                  && (forall w | w in propose[1..] :: w in live[n + 1..] && !w.proposed)
                  && |propose| == 1 + C.Min(if n == 0 then 0 else n - 1, CountUnproposed(live[n + 1..])))
  {
    if n < |live| {
      var rest := C.Unproposed(live[n + 1..]);
      UnproposedCounts(live[n + 1..]);
      forall w | w in C.ProposePart(live, n)[1..]
        ensures w in live[n + 1..] && !w.proposed
      {
        assert w in rest;
        C.UnproposedIff(live[n + 1..], w);
      }
    }
  }

  /** Under every interleaving: a step that lengthens the package adds one hash, that of the transaction
      in front of the queue, which is in time for the package. */
  lemma PickedInTime(v: Watched, n: nat, a: Action)
    requires var u := Watch(v, n, a); |u.order| + |u.propose| > |v.order| + |v.propose|
    ensures var s, u := v.pool, Watch(v, n, a);
            && a == Pack && s.packager.Popping? && s.Incumbent() != []
            && s.packager.height < s.Incumbent()[0].timeout <= s.packager.limit
            && (|| (u.order == v.order + [s.Incumbent()[0].hash] && u.propose == v.propose)
                || (u.order == v.order && u.propose == v.propose + [s.Incumbent()[0].hash]))
  {
  }

  // ----- what is left -----

  lemma {:induction false} QueuedIff(q: seq<Entry>, h: Hash)
    ensures InQueue(q, h) > 0 <==> exists e | e in q :: e.hash == h
  {
    if q != [] {
      var init, last := q[..|q| - 1], q[|q| - 1];
      QueuedIff(init, h);
      assert q == init + [last];
      assert last in q;
      if e :| e in init && e.hash == h {
        assert e in q;
      }
    }
  }

  /** A flush keeps exactly the transactions that it does not name and that are in time, and the map
      keeps their hashes and no others. */
  lemma FlushLeaves(s: Pool, hashes: seq<Hash>, height: nat, limit: nat)
    requires Inv(s) && Quiet(s)
    ensures var t := FlushStep(s, hashes, height, limit);
            && t.Retired() == []
            && (forall e :: e in t.Incumbent() <==>
                       e in s.Incumbent() && e.hash !in hashes && height < e.timeout <= limit)
            && (forall h :: h in t.keys <==> exists e | e in t.Incumbent() :: e.hash == h)
  {
    var t := FlushStep(s, hashes, height, limit);
    KeptFits(s.Incumbent(), hashes, height, limit);
    FlushInv(s, hashes, height, limit);
    forall h
      ensures h in t.keys <==> exists e | e in t.Incumbent() :: e.hash == h
    {
      assert Held(t, h) == InMap(t, h);
      NothingInFlight(t.inserters, h);
      QueuedIff(t.Incumbent(), h);
    }
  }

  /** So does a package that runs alone, naming none. */
  lemma PackageLeaves(s: Pool, height: nat, limit: nat) returns (n: nat)
    requires Inv(s) && Quiet(s)
    ensures var t := Packs(Next(s, StartPackage(height, limit)), n);
            && t.packager.Idle? && t.Retired() == []
            && (forall e :: e in t.Incumbent() <==> e in s.Incumbent() && height < e.timeout <= limit)
            && (forall h :: h in t.keys <==> exists e | e in t.Incumbent() :: e.hash == h)
  {
    n := PackageAlone(s, height, limit);
    FlushLeaves(s, [], height, limit);
  }
}
