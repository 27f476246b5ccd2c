/** What one node's status must be, as a function of the decided chain.

    `StatusAt(w, chain, c, e)` is defined from plain sequential execution, without mentioning any
    update: a node that committed `c` headers and executed `e` blocks has exactly this status. */
module CommitPipeline {
  import opened Types
  import opened Blocks
  import opened ConsensusStatus

  /** The header at height `h` is one that a proposer builds: it extends the previous header and
      confirms exactly the results between the previous header's execution height and its own. */
  ghost predicate BlockOk(w: World, chain: seq<Block>, h: nat)
    requires 0 < h <= |chain|
  {
    var p, b := HeaderAt(w, chain, h - 1), chain[h - 1].header;
    && b.height == h
    && b.prevHash == w.hash(p)
    && p.execHeight <= b.execHeight < h
    && b.stateRoot == StateAfter(w, chain, b.execHeight)
    && b.confirmRoots == Confirms(w, chain, p.execHeight, b.execHeight)
    && b.receiptRoots == Receipts(w, chain, p.execHeight, b.execHeight)
    && b.cyclesUsed == Cycles(w, chain, p.execHeight, b.execHeight)
  }

  ghost predicate ValidChain(w: World, chain: seq<Block>) {
    && ValidGenesis(w)
    && forall h | 0 < h <= |chain| :: BlockOk(w, chain, h)
  }

  ghost predicate InRange(w: World, chain: seq<Block>, c: nat, e: nat) {
    && c <= |chain|
    && e <= |chain|
    && HeaderAt(w, chain, c).execHeight <= e
  }

  function StatusAt(w: World, chain: seq<Block>, c: nat, e: nat): Status
    requires InRange(w, chain, c, e)
  {
    var h := HeaderAt(w, chain, c);
    Status(c, e, w.hash(h), h.stateRoot,
           Confirms(w, chain, h.execHeight, e),
           States(w, chain, h.execHeight, e),
           Receipts(w, chain, h.execHeight, e),
           Cycles(w, chain, h.execHeight, e))
  }

  /** A header never claims more executed blocks than its height, and never fewer than before. */
  lemma HeaderBounds(w: World, chain: seq<Block>, h: nat)
    requires ValidChain(w, chain) && h <= |chain|
    ensures HeaderAt(w, chain, h).height == h
    ensures HeaderAt(w, chain, h).execHeight <= h
    ensures h > 0 ==> HeaderAt(w, chain, h).execHeight < h
    ensures HeaderAt(w, chain, h).stateRoot == StateAfter(w, chain, HeaderAt(w, chain, h).execHeight)
    ensures h < |chain| ==> HeaderAt(w, chain, h).execHeight <= HeaderAt(w, chain, h + 1).execHeight
  {
    assert h > 0 ==> BlockOk(w, chain, h);
    assert h < |chain| ==> BlockOk(w, chain, h + 1);
  }

  /** The latest state root is the state after `e` blocks, however many are committed: a commit
      cannot change it. */
  lemma LatestRootIsExecuted(w: World, chain: seq<Block>, c: nat, e: nat)
    requires ValidChain(w, chain) && InRange(w, chain, c, e)
    ensures StatusAt(w, chain, c, e).LatestStateRoot() == StateAfter(w, chain, e)
  {
    HeaderBounds(w, chain, c);
  }

  /** A restarted process begins with the status of the latest stored header. */
  lemma BootStatus(w: World, chain: seq<Block>, c: nat)
    requires ValidChain(w, chain) && c <= |chain|
    ensures InRange(w, chain, c, HeaderAt(w, chain, c).execHeight)
    ensures FromHeader(w, HeaderAt(w, chain, c)) == StatusAt(w, chain, c, HeaderAt(w, chain, c).execHeight)
  {
    HeaderBounds(w, chain, c);
  }

  /** Executing the next block from the executed state moves to the next execution height. */
  lemma ExecuteNext(w: World, chain: seq<Block>, c: nat, e: nat)
    requires ValidChain(w, chain) && InRange(w, chain, c, e) && e < |chain|
    ensures Executed(StatusAt(w, chain, c, e), InfoOf(w, StateAfter(w, chain, e), chain[e]))
         == Some(StatusAt(w, chain, c, e + 1))
  {
    assert BlockOk(w, chain, e + 1);
    var lo := HeaderAt(w, chain, c).execHeight;
    assert OutcomeAt(w, chain, e + 1) == w.exec(StateAfter(w, chain, e), chain[e]);
    assert Confirms(w, chain, lo, e + 1) == Confirms(w, chain, lo, e) + [chain[e].header.orderRoot];
    assert StateAfter(w, chain, e + 1) == OutcomeAt(w, chain, e + 1).stateRoot;
    assert States(w, chain, lo, e + 1) == States(w, chain, lo, e) + [StateAfter(w, chain, e + 1)];
    assert Receipts(w, chain, lo, e + 1) == Receipts(w, chain, lo, e) + [OutcomeAt(w, chain, e + 1).receiptRoot];
    assert Cycles(w, chain, lo, e + 1) == Cycles(w, chain, lo, e) + [OutcomeAt(w, chain, e + 1).cycles];
  }

  /** A result for a block that is already executed changes nothing, whatever state it ran on. */
  lemma ExecuteAgain(w: World, chain: seq<Block>, c: nat, e: nat, h: nat, base: Root)
    requires ValidChain(w, chain) && InRange(w, chain, c, e) && 0 < h <= e
    ensures Executed(StatusAt(w, chain, c, e), InfoOf(w, base, chain[h - 1]))
         == Some(StatusAt(w, chain, c, e))
  {
    assert BlockOk(w, chain, h);
  }

  /** The result lists over one interval are those over two adjacent ones, joined. */
  lemma SplitLists(w: World, chain: seq<Block>, lo: nat, mid: nat, hi: nat)
    requires lo <= mid <= hi <= |chain|
    ensures Confirms(w, chain, lo, hi) == Confirms(w, chain, lo, mid) + Confirms(w, chain, mid, hi)
    ensures States(w, chain, lo, hi) == States(w, chain, lo, mid) + States(w, chain, mid, hi)
    ensures Receipts(w, chain, lo, hi) == Receipts(w, chain, lo, mid) + Receipts(w, chain, mid, hi)
    ensures Cycles(w, chain, lo, hi) == Cycles(w, chain, lo, mid) + Cycles(w, chain, mid, hi)
  {
  }

  /** Committing the next header succeeds exactly when the node executed at least as many blocks
      as the header confirms, and then drops exactly the confirmed results. */
  lemma CommitNext(w: World, chain: seq<Block>, c: nat, e: nat)
    requires ValidChain(w, chain) && InRange(w, chain, c, e) && c < |chain|
    ensures var h := HeaderAt(w, chain, c + 1);
            var r := Committed(StatusAt(w, chain, c, e), h, w.hash(h));
            if h.execHeight <= e
            then InRange(w, chain, c + 1, e) && r == Some(StatusAt(w, chain, c + 1, e))
            else r.None?
  {
    assert BlockOk(w, chain, c + 1);
    var lo, mid := HeaderAt(w, chain, c).execHeight, HeaderAt(w, chain, c + 1).execHeight;
    if mid <= e {
      SplitLists(w, chain, lo, mid, e);
    }
  }

  /** A header built on a node's status passes the checks of another node at the same committed
      block exactly when that node has executed at least as many blocks as the proposer. */
  lemma CheckPassesIffExecuted(w: World, chain: seq<Block>, c: nat, proposer: nat, checker: nat, order: Root)
    requires ValidChain(w, chain)
    requires InRange(w, chain, c, proposer) && InRange(w, chain, c, checker)
    ensures CheckBlockRoots(StatusAt(w, chain, c, checker), BuildHeader(StatusAt(w, chain, c, proposer), order))
       <==> proposer <= checker
  {
    LatestRootIsExecuted(w, chain, c, proposer);
    HeaderBounds(w, chain, c);
    var lo := HeaderAt(w, chain, c).execHeight;
    if proposer <= checker {
      SplitLists(w, chain, lo, proposer, checker);
      if proposer > lo {
        assert States(w, chain, lo, checker)[proposer - lo - 1] == StateAfter(w, chain, proposer);
      }
    } else {
      assert |Confirms(w, chain, lo, proposer)| > |Confirms(w, chain, lo, checker)|;
    }
  }

  /** Appending a block leaves the old headers, results and statuses alone. */
  lemma Extend(w: World, chain: seq<Block>, b: Block, c: nat, e: nat)
    requires InRange(w, chain, c, e)
    ensures InRange(w, chain + [b], c, e)
    ensures StatusAt(w, chain + [b], c, e) == StatusAt(w, chain, c, e)
    ensures StateAfter(w, chain + [b], e) == StateAfter(w, chain, e)
  {
    var d := chain + [b];
    StateOfPrefix(w, chain, d, e);
    ListsOfPrefix(w, chain, d, HeaderAt(w, chain, c).execHeight, e);
  }

  lemma ExtendBlockOk(w: World, chain: seq<Block>, b: Block, h: nat)
    requires ValidChain(w, chain) && 0 < h <= |chain|
    ensures BlockOk(w, chain + [b], h)
  {
    assert BlockOk(w, chain, h);
    var d := chain + [b];
    var lo, hi := HeaderAt(w, chain, h - 1).execHeight, HeaderAt(w, chain, h).execHeight;
    StateOfPrefix(w, chain, d, hi);
    ListsOfPrefix(w, chain, d, lo, hi);
  }

  /** A block proposed on the status of an up-to-date node extends the chain to a valid one. */
  lemma ProposalExtends(w: World, chain: seq<Block>, e: nat, order: Root, txs: seq<Tx>)
    requires ValidChain(w, chain) && InRange(w, chain, |chain|, e)
    ensures ValidChain(w, chain + [Block(BuildHeader(StatusAt(w, chain, |chain|, e), order), txs)])
  {
    var c := |chain|;
    var b := Block(BuildHeader(StatusAt(w, chain, c, e), order), txs);
    var d := chain + [b];
    forall h | 0 < h <= |d|
      ensures BlockOk(w, d, h)
    {
      if h <= c {
        ExtendBlockOk(w, chain, b, h);
      } else {
        LatestRootIsExecuted(w, chain, c, e);
        Extend(w, chain, b, c, e);
        ListsOfPrefix(w, chain, d, HeaderAt(w, chain, c).execHeight, e);
      }
    }
  }

  /** Two chains that agree up to the heights of a status agree on the status. */
  lemma StatusOfPrefix(w: World, a: seq<Block>, b: seq<Block>, c: nat, e: nat)
    requires InRange(w, a, c, e) && c <= |b| && e <= |b|
    requires forall i | 0 <= i < c || 0 <= i < e :: a[i] == b[i]
    ensures InRange(w, b, c, e)
    ensures StatusAt(w, a, c, e) == StatusAt(w, b, c, e)
  {
    assert HeaderAt(w, a, c) == HeaderAt(w, b, c);
    ListsOfPrefix(w, a, b, HeaderAt(w, a, c).execHeight, e);
  }
}
