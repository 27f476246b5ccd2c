/** What the check of a proposed header and the commit of a header let through, for any header at all. */
module HeaderChecks {
  import opened Types
  import opened Blocks
  import opened ConsensusStatus
  import opened CommitPipeline

  /** Lists that hold the results of the blocks from `lo` on, as far as they go, and not beyond `e`. */
  ghost predicate ConfirmsFrom(w: World, chain: seq<Block>, lo: nat, e: nat, roots: seq<Root>)
    requires e <= |chain|
  {
    lo + |roots| <= e && roots == Confirms(w, chain, lo, lo + |roots|)
  }

  ghost predicate ReceiptsFrom(w: World, chain: seq<Block>, lo: nat, e: nat, roots: seq<Root>)
    requires e <= |chain|
  {
    lo + |roots| <= e && roots == Receipts(w, chain, lo, lo + |roots|)
  }

  ghost predicate CyclesFrom(w: World, chain: seq<Block>, lo: nat, e: nat, cycles: seq<nat>)
    requires e <= |chain|
  {
    lo + |cycles| <= e && cycles == Cycles(w, chain, lo, lo + |cycles|)
  }

  ghost predicate ListsFrom(w: World, chain: seq<Block>, lo: nat, e: nat, h: Header)
    requires e <= |chain|
  {
    && ConfirmsFrom(w, chain, lo, e, h.confirmRoots)
    && ReceiptsFrom(w, chain, lo, e, h.receiptRoots)
    && CyclesFrom(w, chain, lo, e, h.cyclesUsed)
  }

  lemma PrefixIffFrom(w: World, chain: seq<Block>, lo: nat, e: nat, h: Header)
    requires lo <= e <= |chain|
    ensures h.confirmRoots <= Confirms(w, chain, lo, e) <==> ConfirmsFrom(w, chain, lo, e, h.confirmRoots)
    ensures h.receiptRoots <= Receipts(w, chain, lo, e) <==> ReceiptsFrom(w, chain, lo, e, h.receiptRoots)
    ensures h.cyclesUsed <= Cycles(w, chain, lo, e) <==> CyclesFrom(w, chain, lo, e, h.cyclesUsed)
  {
    if lo + |h.confirmRoots| <= e {
      SplitLists(w, chain, lo, lo + |h.confirmRoots|, e);
    }
    if lo + |h.receiptRoots| <= e {
      SplitLists(w, chain, lo, lo + |h.receiptRoots|, e);
    }
    if lo + |h.cyclesUsed| <= e {
      SplitLists(w, chain, lo, lo + |h.cyclesUsed|, e);
    }
  }

  /** A state between the last confirmed one and the last executed one. */
  ghost predicate StateWithin(w: World, chain: seq<Block>, lo: nat, e: nat, root: Root)
    requires e <= |chain|
  {
    exists k | lo <= k <= e :: root == StateAfter(w, chain, k)
  }

  lemma KnownStateIff(w: World, chain: seq<Block>, lo: nat, e: nat, root: Root)
    requires lo <= e <= |chain|
    ensures root == StateAfter(w, chain, lo) || root in States(w, chain, lo, e) <==> StateWithin(w, chain, lo, e, root)
  {
    var states := States(w, chain, lo, e);
    if root in states {
      var i :| 0 <= i < |states| && states[i] == root;
      assert root == StateAfter(w, chain, lo + i + 1);
    }
    if StateWithin(w, chain, lo, e, root) {
      var k :| lo <= k <= e && root == StateAfter(w, chain, k);
      assert k == lo || states[k - lo - 1] == root;
    }
  }

  /** On a status of the chain any header whatever passes the check if and only if it names the committed
      block, each of its lists holds the true results of the blocks that come next, and its state is the one
      after some block executed since; the lists need not have the same length, nor the state be theirs. */
  lemma CheckIff(w: World, chain: seq<Block>, c: nat, e: nat, h: Header)
    requires ValidChain(w, chain) && InRange(w, chain, c, e)
    ensures var lo := HeaderAt(w, chain, c).execHeight;
            CheckBlockRoots(StatusAt(w, chain, c, e), h) <==>
            && h.prevHash == w.hash(HeaderAt(w, chain, c))
            && ListsFrom(w, chain, lo, e, h)
            && StateWithin(w, chain, lo, e, h.stateRoot)
  {
    var lo := HeaderAt(w, chain, c).execHeight;
    HeaderBounds(w, chain, c);
    PrefixIffFrom(w, chain, lo, e, h);
    KnownStateIff(w, chain, lo, e, h.stateRoot);
  }

  /** Any header commits if and only if it has the next height and three true lists of one length; then
      the confirmed results are dropped and the header's state is taken as it is. */
  lemma CommitIff(w: World, chain: seq<Block>, c: nat, e: nat, h: Header, hash: Hash)
    requires ValidChain(w, chain) && InRange(w, chain, c, e)
    ensures var lo, n := HeaderAt(w, chain, c).execHeight, |h.confirmRoots|;
            var r := Committed(StatusAt(w, chain, c, e), h, hash);
            && (r.Some? <==>
                  && h.height == c + 1 && |h.receiptRoots| == |h.cyclesUsed| == n
                  && ListsFrom(w, chain, lo, e, h))
            && (r.Some? ==>
                  r.value == Status(c + 1, e, hash, h.stateRoot,
                                    Confirms(w, chain, lo + n, e), States(w, chain, lo + n, e),
                                    Receipts(w, chain, lo + n, e), Cycles(w, chain, lo + n, e)))
  {
    var lo, n := HeaderAt(w, chain, c).execHeight, |h.confirmRoots|;
    PrefixIffFrom(w, chain, lo, e, h);
    if lo + n <= e {
      SplitLists(w, chain, lo, lo + n, e);
    }
  }

  /** So a header that passed the check, at the next height, commits if and only if its lists have one
      length. */
  lemma CheckedCommitsIff(w: World, chain: seq<Block>, c: nat, e: nat, h: Header, hash: Hash)
    requires ValidChain(w, chain) && InRange(w, chain, c, e)
    requires h.height == c + 1 && CheckBlockRoots(StatusAt(w, chain, c, e), h)
    ensures Committed(StatusAt(w, chain, c, e), h, hash).Some? <==>
            |h.confirmRoots| == |h.receiptRoots| == |h.cyclesUsed|
  {
    CheckIff(w, chain, c, e, h);
    CommitIff(w, chain, c, e, h, hash);
  }

  /** And after that commit the node goes on from the state it has executed if and only if results are left
      over or the header's state is that one. */
  lemma CheckedKeepsLatestIff(w: World, chain: seq<Block>, c: nat, e: nat, h: Header, hash: Hash)
    requires ValidChain(w, chain) && InRange(w, chain, c, e)
    requires Committed(StatusAt(w, chain, c, e), h, hash).Some?
    ensures var after := Committed(StatusAt(w, chain, c, e), h, hash).value;
            after.LatestStateRoot() == StateAfter(w, chain, e) <==>
            HeaderAt(w, chain, c).execHeight + |h.confirmRoots| < e || h.stateRoot == StateAfter(w, chain, e)
  {
    CommitIff(w, chain, c, e, h, hash);
  }
}
