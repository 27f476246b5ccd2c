/** Runs of the whole network: nodes propose, check, decide and process blocks in any order. */
module Network {
  import opened Types
  import opened Blocks
  import opened ConsensusStatus
  import opened CommitPipeline
  import opened Nodes

  /** `chain` is the sequence of decided blocks, `proposals` the candidates for the next height. */
  datatype System = System(chain: seq<Block>, proposals: set<Block>, nodes: map<nat, Node>)

  datatype Action =
    | Local(id: nat, step: NodeAction)
    | Propose(id: nat, order: Root, txs: seq<Tx>)
    | CheckProposal(id: nat, block: Block)
    | Decide(block: Block)

  predicate CanPropose(s: System, n: Node) {
    n.Up() && n.status.committedHeight == |s.chain|
  }

  predicate CanPass(s: System, n: Node, b: Block) {
    && n.Up()
    && b.header.height == n.status.committedHeight + 1
    && (b in s.proposals
        || (n.status.committedHeight < |s.chain| && b == s.chain[n.status.committedHeight]))
    && CheckBlockRoots(n.status, b.header)
  }

  /** One step; an action that is not enabled does nothing. A proposer does not check its own
      block again. */
  function Next(w: World, s: System, a: Action): System {
    match a
    case Local(id, step) =>
      if id in s.nodes
      then s.(nodes := s.nodes[id := NodeStep(w, s.chain, s.nodes[id], step)]) else s
    case Propose(id, order, txs) =>
      if id in s.nodes && CanPropose(s, s.nodes[id]) then
        var n := s.nodes[id];
        var b := Block(BuildHeader(n.status, order), txs);
        s.(proposals := s.proposals + {b}, nodes := s.nodes[id := n.(passed := n.passed + {b})])
      else s
    case CheckProposal(id, b) =>
      if id in s.nodes && CanPass(s, s.nodes[id], b)
      then s.(nodes := s.nodes[id := s.nodes[id].(passed := s.nodes[id].passed + {b})]) else s
    case Decide(b) =>
      if b in s.proposals then System(s.chain + [b], {}, s.nodes) else s
  }

  function Run(w: World, s: System, actions: seq<Action>): System {
    if actions == [] then s else Next(w, Run(w, s, actions[..|actions| - 1]), actions[|actions| - 1])
  }

  /** At the start every node is down and has stored the genesis block. */
  predicate Initial(s: System) {
    && s.chain == []
    && s.proposals == {}
    && forall id | id in s.nodes ::
         s.nodes[id] == Crashed(s.nodes[id]) && s.nodes[id].stored == 0
  }

  ghost predicate Inv(w: World, s: System) {
    && ValidChain(w, s.chain)
    && (forall b | b in s.proposals :: ValidChain(w, s.chain + [b]))
    && (forall id | id in s.nodes :: NodeInv(w, s.chain, s.nodes[id]))
  }

  /** A decided or proposed header is the one built on the status it was proposed from. */
  lemma HeaderIsBuilt(w: World, chain: seq<Block>, c: nat)
    requires ValidChain(w, chain) && c < |chain|
    ensures var h := HeaderAt(w, chain, c + 1);
            && InRange(w, chain, c, h.execHeight)
            && h == BuildHeader(StatusAt(w, chain, c, h.execHeight), h.orderRoot)
  {
    var h := HeaderAt(w, chain, c + 1);
    assert BlockOk(w, chain, c + 1);
    LatestRootIsExecuted(w, chain, c, h.execHeight);
  }

  /** Checking a decided header passes exactly on the nodes that executed what it confirms. */
  lemma CheckDecided(w: World, chain: seq<Block>, c: nat, e: nat)
    requires ValidChain(w, chain) && InRange(w, chain, c, e) && c < |chain|
    ensures CheckBlockRoots(StatusAt(w, chain, c, e), HeaderAt(w, chain, c + 1))
       <==> HeaderAt(w, chain, c + 1).execHeight <= e
  {
    HeaderIsBuilt(w, chain, c);
    var h := HeaderAt(w, chain, c + 1);
    CheckPassesIffExecuted(w, chain, c, h.execHeight, e, h.orderRoot);
  }

  lemma PassedGrows(w: World, chain: seq<Block>, n: Node, b: Block)
    requires NodeInv(w, chain, n) && n.Up()
    requires b.header.height == n.status.committedHeight + 1
    requires b.header.execHeight <= n.status.execHeight
    ensures NodeInv(w, chain, n.(passed := n.passed + {b}))
  {
    assert n.(passed := n.passed + {b}).Pending() == n.Pending();
  }

  lemma ExtendNode(w: World, chain: seq<Block>, b: Block, n: Node)
    requires ValidChain(w, chain) && NodeInv(w, chain, n)
    ensures NodeInv(w, chain + [b], n)
  {
    if !n.job.Down? {
      Extend(w, chain, b, n.status.committedHeight, n.status.execHeight);
      if n.job.SyncReady? || n.job.SyncExecuted? || n.job.SyncCommitted? || n.job.SyncSaved? {
        Extend(w, chain, b, n.job.agent.committedHeight, n.job.agent.execHeight);
      }
    }
  }

  lemma CheckInv(w: World, s: System, n: Node, b: Block)
    requires Inv(w, s) && NodeInv(w, s.chain, n) && CanPass(s, n, b)
    ensures NodeInv(w, s.chain, n.(passed := n.passed + {b}))
  {
    var c, e := n.status.committedHeight, n.status.execHeight;
    if b in s.proposals {
      var d := s.chain + [b];
      assert BlockOk(w, d, |d|);
      Extend(w, s.chain, b, c, e);
      CheckDecided(w, d, c, e);
    } else {
      CheckDecided(w, s.chain, c, e);
    }
    PassedGrows(w, s.chain, n, b);
  }

  lemma ProposeInv(w: World, s: System, id: nat, order: Root, txs: seq<Tx>)
    requires Inv(w, s) && id in s.nodes && CanPropose(s, s.nodes[id])
    ensures Inv(w, Next(w, s, Propose(id, order, txs)))
  {
    var n := s.nodes[id];
    var b := Block(BuildHeader(n.status, order), txs);
    ProposalExtends(w, s.chain, n.status.execHeight, order, txs);
    PassedGrows(w, s.chain, n, b);
  }

  lemma DecideInv(w: World, s: System, b: Block)
    requires Inv(w, s) && b in s.proposals
    ensures Inv(w, Next(w, s, Decide(b)))
  {
    forall id | id in s.nodes
      ensures NodeInv(w, s.chain + [b], s.nodes[id])
    {
      ExtendNode(w, s.chain, b, s.nodes[id]);
    }
  }

  lemma NextInv(w: World, s: System, a: Action)
    requires Inv(w, s)
    ensures Inv(w, Next(w, s, a))
  {
    match a
    case Local(id, step) =>
      if id in s.nodes {
        NodeStepInv(w, s.chain, s.nodes[id], step);
      }
    case Propose(id, order, txs) =>
      if id in s.nodes && CanPropose(s, s.nodes[id]) {
        ProposeInv(w, s, id, order, txs);
      }
    case CheckProposal(id, b) =>
      if id in s.nodes && CanPass(s, s.nodes[id], b) {
        CheckInv(w, s, s.nodes[id], b);
      }
    case Decide(b) =>
      if b in s.proposals {
        DecideInv(w, s, b);
      }
  }

  lemma {:induction false} RunInv(w: World, s: System, actions: seq<Action>)
    requires ValidGenesis(w) && Initial(s)
    ensures Inv(w, Run(w, s, actions))
  {
    if actions == [] {
      forall id | id in s.nodes
        ensures NodeInv(w, s.chain, s.nodes[id])
      {
        CrashedInv(w, s.chain, s.nodes[id]);
      }
    } else {
      RunInv(w, s, actions[..|actions| - 1]);
      NextInv(w, Run(w, s, actions[..|actions| - 1]), actions[|actions| - 1]);
    }
  }

  // ----- the results -----

  /** In every reachable state of every node, whatever was abandoned, failed or crashed before, the
      pending lists are the results of exactly the executed and unconfirmed blocks, and the latest
      state root is the state after the executed blocks. */
  lemma PendingListsAreExact(w: World, s: System, actions: seq<Action>, id: nat)
    requires ValidGenesis(w) && Initial(s)
    requires id in Run(w, s, actions).nodes && !Run(w, s, actions).nodes[id].job.Down?
    ensures var t := Run(w, s, actions);
            var st := t.nodes[id].status;
            && InRange(w, t.chain, st.committedHeight, st.execHeight)
            && st == StatusAt(w, t.chain, st.committedHeight, st.execHeight)
            && st.LatestStateRoot() == StateAfter(w, t.chain, st.execHeight)
  {
    RunInv(w, s, actions);
    var t := Run(w, s, actions);
    var st := t.nodes[id].status;
    LatestRootIsExecuted(w, t.chain, st.committedHeight, st.execHeight);
  }

  /** Confluence: any two runs, of any two networks, that decided the same blocks so far leave any
      two nodes with equal heights in the same status, whichever way each node got there. */
  lemma Confluence(w: World, s1: System, as1: seq<Action>, id1: nat, s2: System, as2: seq<Action>, id2: nat)
    requires ValidGenesis(w) && Initial(s1) && Initial(s2)
    requires id1 in Run(w, s1, as1).nodes && !Run(w, s1, as1).nodes[id1].job.Down?
    requires id2 in Run(w, s2, as2).nodes && !Run(w, s2, as2).nodes[id2].job.Down?
    requires var t1, t2 := Run(w, s1, as1), Run(w, s2, as2);
             var a, b := t1.nodes[id1].status, t2.nodes[id2].status;
             && a.committedHeight == b.committedHeight
             && a.execHeight == b.execHeight
             && (forall i | 0 <= i < a.committedHeight || 0 <= i < a.execHeight ::
                   i < |t1.chain| && i < |t2.chain| ==> t1.chain[i] == t2.chain[i])
    ensures Run(w, s1, as1).nodes[id1].status == Run(w, s2, as2).nodes[id2].status
  {
    var t1, t2 := Run(w, s1, as1), Run(w, s2, as2);
    var a := t1.nodes[id1].status;
    PendingListsAreExact(w, s1, as1, id1);
    PendingListsAreExact(w, s2, as2, id2);
    StatusOfPrefix(w, t1.chain, t2.chain, a.committedHeight, a.execHeight);
  }

  /** The next decided block can be committed on this status without a panic, and afterwards the
      executed height does not exceed the committed one. */
  ghost predicate CommitsSafely(w: World, chain: seq<Block>, st: Status) {
    && st.committedHeight < |chain|
    && var h := chain[st.committedHeight].header;
       var r := Committed(st, h, w.hash(h));
       r.Some? && r.value.execHeight <= r.value.committedHeight
  }

  lemma SavedCommitIsSafe(w: World, chain: seq<Block>, n: Node)
    requires ValidChain(w, chain) && NodeInv(w, chain, n) && n.job.CommitSaved?
    ensures CommitsSafely(w, chain, n.status)
  {
    var c := n.status.committedHeight;
    assert BlockOk(w, chain, c + 1);
    CommitNext(w, chain, c, n.status.execHeight);
  }

  lemma SyncCommitIsSafe(w: World, chain: seq<Block>, n: Node)
    requires ValidChain(w, chain) && NodeInv(w, chain, n) && n.job.SyncExecuted?
    ensures CommitsSafely(w, chain, n.job.agent)
  {
    var c := n.job.agent.committedHeight;
    assert BlockOk(w, chain, c + 1);
    CommitNext(w, chain, c, c + 1);
  }

  /** No commit ever panics: whenever a node is about to record a commit, by consensus or by
      synchronization, the header confirms a prefix of the node's results. */
  lemma CommitNeverPanics(w: World, s: System, actions: seq<Action>, id: nat)
    requires ValidGenesis(w) && Initial(s)
    requires id in Run(w, s, actions).nodes
    ensures var t := Run(w, s, actions);
            var n := t.nodes[id];
            && (n.job.CommitSaved? ==> CommitsSafely(w, t.chain, n.status))
            && (n.job.SyncExecuted? ==> CommitsSafely(w, t.chain, n.job.agent))
  {
    RunInv(w, s, actions);
    var t := Run(w, s, actions);
    var n := t.nodes[id];
    if n.job.CommitSaved? {
      SavedCommitIsSafe(w, t.chain, n);
    } else if n.job.SyncExecuted? {
      SyncCommitIsSafe(w, t.chain, n);
    }
  }

  /** The daemon never panics on a gap in heights unless an execution failed before. */
  lemma DaemonNeverPanics(w: World, s: System, actions: seq<Action>, id: nat)
    requires ValidGenesis(w) && Initial(s)
    requires id in Run(w, s, actions).nodes
    requires var n := Run(w, s, actions).nodes[id]; n.Up() && !n.failed && n.daemon.Running?
    ensures var t := Run(w, s, actions);
            var n := t.nodes[id];
            && 0 < n.daemon.height <= |t.chain|
            && Executed(n.status, InfoOf(w, n.daemon.base, t.chain[n.daemon.height - 1])).Some?
  {
    RunInv(w, s, actions);
    var t := Run(w, s, actions);
    var n := t.nodes[id];
    OldestIsNext(w, t.chain, n);
    assert n.Pending()[0] == n.daemon.height;
    assert BlockOk(w, t.chain, n.daemon.height);
  }

  /** A header that passed a node's checks still passes them after any further execution. */
  lemma CheckStaysPassed(w: World, chain: seq<Block>, c: nat, e: nat, later: nat)
    requires ValidChain(w, chain) && c < |chain|
    requires InRange(w, chain, c, e) && InRange(w, chain, c, later) && e <= later
    requires CheckBlockRoots(StatusAt(w, chain, c, e), HeaderAt(w, chain, c + 1))
    ensures CheckBlockRoots(StatusAt(w, chain, c, later), HeaderAt(w, chain, c + 1))
    ensures var h := HeaderAt(w, chain, c + 1);
            Committed(StatusAt(w, chain, c, later), h, w.hash(h)).Some?
  {
    CheckDecided(w, chain, c, e);
    CheckDecided(w, chain, c, later);
    CommitNext(w, chain, c, later);
  }

  // ----- the execution backlog -----

  /** A list that holds every height of an interval is at least as long as the interval. */
  lemma {:induction false} CoverIsLong(q: seq<nat>, lo: nat, hi: nat)
    requires forall k: nat | lo < k <= hi :: k in q
    ensures hi <= lo + |q|
    decreases hi
  {
    if lo < hi {
      assert hi in q;
      var i :| 0 <= i < |q| && q[i] == hi;
      var rest := q[..i] + q[i + 1..];
      forall k: nat | lo < k <= hi - 1
        ensures k in rest
      {
        assert k in q;
        var j :| 0 <= j < |q| && q[j] == k;
        assert rest[if j < i then j else j - 1] == k;
      }
      CoverIsLong(rest, lo, hi - 1);
    }
  }

  /** The execution queue is bounded, so a running node never falls further behind than the queue's
      capacity plus the block being executed, unless an execution failed. */
  lemma BacklogIsBounded(w: World, s: System, actions: seq<Action>, id: nat)
    requires ValidGenesis(w) && Initial(s)
    requires id in Run(w, s, actions).nodes
    requires var n := Run(w, s, actions).nodes[id]; n.Up() && !n.failed
    ensures var n := Run(w, s, actions).nodes[id];
            n.status.committedHeight <= n.status.execHeight + n.gap + 1
  {
    RunInv(w, s, actions);
    var n := Run(w, s, actions).nodes[id];
    CoverIsLong(n.Pending(), n.status.execHeight, n.status.committedHeight);
  }

  // ----- a commit abandoned after its block was executed -----

  /** Idle, with the next block executed but not committed. */
  predicate Ahead(n: Node) {
    && n.Up() && (n.job.Free? || n.job.SyncWaiting?)
    && n.status.execHeight == n.status.committedHeight + 1
  }

  lemma AheadDaemonStep(w: World, chain: seq<Block>, n: Node, a: NodeAction)
    requires ValidChain(w, chain) && NodeInv(w, chain, n) && Ahead(n)
    ensures var m := DaemonStep(w, chain, n, a); Ahead(m) && m.status == n.status
  {
    if a.DaemonDone? && n.daemon.Running? {
      DropDaemon(chain, n);
      var c, h := n.status.committedHeight, n.daemon.height;
      assert n.Pending()[0] == h <= c + 1;
      assert BlockOk(w, chain, h);
      ExecuteAgain(w, chain, c, c + 1, h, n.daemon.base);
    }
  }

  lemma AheadStep(w: World, chain: seq<Block>, n: Node, a: NodeAction)
    requires ValidChain(w, chain) && NodeInv(w, chain, n) && Ahead(n) && !a.Crash?
    ensures var m := NodeStep(w, chain, n, a); Ahead(m) && m.status == n.status
  {
    if a.DaemonTake? || a.DaemonRead? || a.DaemonDone? || a.DaemonFail? {
      AheadDaemonStep(w, chain, n, a);
    }
  }

  lemma RunOneMore(w: World, s: System, actions: seq<Action>, a: Action)
    ensures Run(w, s, actions + [a]) == Next(w, Run(w, s, actions), a)
  {
    assert (actions + [a])[..|actions|] == actions;
  }

  lemma AheadNext(w: World, t: System, a: Action, id: nat)
    requires Inv(w, t) && id in t.nodes && Ahead(t.nodes[id]) && a != Local(id, Crash)
    ensures id in Next(w, t, a).nodes
    ensures var m := Next(w, t, a).nodes[id]; Ahead(m) && m.status == t.nodes[id].status
  {
    if a.Local? && a.id == id {
      AheadStep(w, t.chain, t.nodes[id], a.step);
    }
  }

  /** Such a node neither commits nor synchronizes again until it restarts: a commit of that height
      returns early and synchronization waits for equal heights, which never come. */
  lemma {:induction false} AheadUntilRestart(w: World, s: System, actions: seq<Action>, more: seq<Action>, id: nat)
    requires ValidGenesis(w) && Initial(s)
    requires id in Run(w, s, actions).nodes && Ahead(Run(w, s, actions).nodes[id])
    requires Local(id, Crash) !in more
    ensures id in Run(w, s, actions + more).nodes
    ensures var n, m := Run(w, s, actions).nodes[id], Run(w, s, actions + more).nodes[id];
            Ahead(m) && m.status == n.status
  {
    if more == [] {
      assert actions + more == actions;
    } else {
      var k := |more| - 1;
      var init := actions + more[..k];
      AheadUntilRestart(w, s, actions, more[..k], id);
      RunInv(w, s, init);
      assert actions + more == init + [more[k]];
      RunOneMore(w, s, init, more[k]);
      AheadNext(w, Run(w, s, init), more[k], id);
    }
  }
}
