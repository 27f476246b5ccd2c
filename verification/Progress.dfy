/** When a node that is up and idle can still make progress, and when it cannot until it restarts. */
module Progress {
  import opened Blocks
  import opened ConsensusStatus
  import opened CommitPipeline
  import opened Nodes
  import opened Network

  // ----- steps of one node -----

  function LocalRun(w: World, chain: seq<Block>, n: Node, steps: seq<NodeAction>): Node {
    if steps == [] then n
    else NodeStep(w, chain, LocalRun(w, chain, n, steps[..|steps| - 1]), steps[|steps| - 1])
  }

  function Locals(id: nat, steps: seq<NodeAction>): (r: seq<Action>)
    ensures |r| == |steps|
  {
    seq(|steps|, i requires 0 <= i < |steps| => Local(id, steps[i]))
  }

  lemma {:induction false} LocalRunInTwo(w: World, chain: seq<Block>, n: Node, a: seq<NodeAction>, b: seq<NodeAction>)
    ensures LocalRun(w, chain, n, a + b) == LocalRun(w, chain, LocalRun(w, chain, n, a), b)
  {
    if b == [] {
      assert a + b == a;
    } else {
      LocalRunInTwo(w, chain, n, a, b[..|b| - 1]);
      assert (a + b)[..|a + b| - 1] == a + b[..|b| - 1];
    }
  }

  lemma LocalOne(w: World, chain: seq<Block>, n: Node, a: NodeAction)
    ensures LocalRun(w, chain, n, [a]) == NodeStep(w, chain, n, a)
  {
    assert [a][..0] == [];
    assert LocalRun(w, chain, n, [a][..0]) == n;
  }

  lemma LocalThree(w: World, chain: seq<Block>, n: Node, a: NodeAction, b: NodeAction, c: NodeAction)
    ensures LocalRun(w, chain, n, [a] + [b] + [c]) ==
            NodeStep(w, chain, NodeStep(w, chain, NodeStep(w, chain, n, a), b), c)
  {
    LocalOne(w, chain, n, a);
    LocalRunInTwo(w, chain, n, [a], [b]);
    LocalOne(w, chain, NodeStep(w, chain, n, a), b);
    LocalRunInTwo(w, chain, n, [a] + [b], [c]);
    LocalOne(w, chain, NodeStep(w, chain, NodeStep(w, chain, n, a), b), c);
  }

  /** The steps of one node, taken in the network. */
  lemma {:induction false} LocalsRun(w: World, s: System, actions: seq<Action>, id: nat, steps: seq<NodeAction>)
    requires id in Run(w, s, actions).nodes
    ensures var t, u := Run(w, s, actions), Run(w, s, actions + Locals(id, steps));
            && u.chain == t.chain && id in u.nodes
            && u.nodes[id] == LocalRun(w, t.chain, t.nodes[id], steps)
  {
    if steps == [] {
      assert actions + Locals(id, steps) == actions;
    } else {
      var n := |steps| - 1;
      LocalsRun(w, s, actions, id, steps[..n]);
      var before, last := actions + Locals(id, steps[..n]), Local(id, steps[n]);
      assert actions + Locals(id, steps) == before + [last];
      RunOneMore(w, s, before, last);
    }
  }

  // ----- executing what is pending -----

  predicate Idle(n: Node) {
    n.Up() && (n.job.Free? || n.job.SyncWaiting?) && !n.failed
  }

  ghost predicate SameButDaemon(n: Node, m: Node) {
    m.Pending() == n.Pending() && m.status == n.status && m.job == n.job && m.failed == n.failed && m.gap == n.gap
  }

  lemma TakeOldest(w: World, chain: seq<Block>, n: Node)
    requires ValidChain(w, chain) && NodeInv(w, chain, n) && n.Up() && n.daemon.Resting? && n.queue != []
    ensures var m := NodeStep(w, chain, n, DaemonTake);
            NodeInv(w, chain, m) && m.daemon.Taken? && SameButDaemon(n, m)
  {
    DaemonStepInv(w, chain, n, DaemonTake);
  }

  lemma ReadOldest(w: World, chain: seq<Block>, n: Node)
    requires ValidChain(w, chain) && NodeInv(w, chain, n) && n.Up() && n.daemon.Taken?
    ensures var m := NodeStep(w, chain, n, DaemonRead);
            NodeInv(w, chain, m) && m.daemon.Running? && SameButDaemon(n, m)
  {
    DaemonStepInv(w, chain, n, DaemonRead);
  }

  /** The daemon gets to running the oldest pending block. */
  lemma StartOldest(w: World, chain: seq<Block>, n: Node) returns (steps: seq<NodeAction>)
    requires ValidChain(w, chain) && NodeInv(w, chain, n) && n.Up() && n.Pending() != []
    ensures Crash !in steps && Boot !in steps
    ensures var m := LocalRun(w, chain, n, steps);
            NodeInv(w, chain, m) && m.daemon.Running? && SameButDaemon(n, m)
  {
    if n.daemon.Running? {
      return [];
    }
    if n.daemon.Taken? {
      LocalOne(w, chain, n, DaemonRead);
      ReadOldest(w, chain, n);
      return [DaemonRead];
    }
    TakeOldest(w, chain, n);
    var m := NodeStep(w, chain, n, DaemonTake);
    ReadOldest(w, chain, m);
    LocalOne(w, chain, n, DaemonTake);
    LocalOne(w, chain, m, DaemonRead);
    LocalRunInTwo(w, chain, n, [DaemonTake], [DaemonRead]);
    return [DaemonTake] + [DaemonRead];
  }

  /** The daemon finishes it: one block fewer is pending, and the executed height does not pass the
      committed one. */
  lemma FinishOldest(w: World, chain: seq<Block>, n: Node)
    requires ValidChain(w, chain) && NodeInv(w, chain, n) && Idle(n) && n.daemon.Running?
    requires n.status.execHeight < n.status.committedHeight
    ensures var m := NodeStep(w, chain, n, DaemonDone);
            && NodeInv(w, chain, m) && Idle(m) && m.job == n.job
            && |m.Pending()| < |n.Pending()|
            && m.status.committedHeight == n.status.committedHeight >= m.status.execHeight
  {
    OldestIsNext(w, chain, n);
    assert n.Pending()[0] == n.daemon.height;
    if n.daemon.height <= n.status.execHeight {
      DaemonStale(w, chain, n);
    } else {
      DaemonNext(w, chain, n);
    }
  }

  /** Driving the daemon until both heights are equal. */
  lemma {:induction false} CatchUp(w: World, chain: seq<Block>, n: Node) returns (steps: seq<NodeAction>)
    requires ValidChain(w, chain) && NodeInv(w, chain, n) && Idle(n)
    requires n.status.execHeight <= n.status.committedHeight
    ensures Crash !in steps
    ensures var m := LocalRun(w, chain, n, steps);
            && NodeInv(w, chain, m) && Idle(m) && m.job == n.job
            && m.status.execHeight == m.status.committedHeight == n.status.committedHeight
    decreases |n.Pending()|
  {
    if n.status.execHeight == n.status.committedHeight {
      return [];
    }
    assert n.status.execHeight + 1 in n.Pending();
    var first := StartOldest(w, chain, n);
    var m := LocalRun(w, chain, n, first);
    FinishOldest(w, chain, m);
    var m' := NodeStep(w, chain, m, DaemonDone);
    LocalOne(w, chain, m, DaemonDone);
    LocalRunInTwo(w, chain, n, first, [DaemonDone]);
    var rest := CatchUp(w, chain, m');
    LocalRunInTwo(w, chain, n, first + [DaemonDone], rest);
    return first + [DaemonDone] + rest;
  }

  // ----- synchronizing one block -----

  /** With equal heights: executing the next decided block and committing it, on a private copy. */
  lemma SyncFirstHalf(w: World, chain: seq<Block>, n: Node)
    requires ValidChain(w, chain) && NodeInv(w, chain, n) && n.job.SyncWaiting?
    requires n.status.execHeight == n.status.committedHeight < |chain|
    ensures var c := n.status.committedHeight;
            && InRange(w, chain, c, c + 1)
            && LocalRun(w, chain, n, [SyncObserve] + [SyncCopy] + [SyncExec]) ==
               n.(job := SyncExecuted(StatusAt(w, chain, c, c + 1)))
  {
    var c := n.status.committedHeight;
    LatestRootIsExecuted(w, chain, c, c);
    ExecuteNext(w, chain, c, c);
    LocalThree(w, chain, n, SyncObserve, SyncCopy, SyncExec);
  }

  lemma SyncCommits(w: World, chain: seq<Block>, n: Node, c: nat)
    requires ValidChain(w, chain) && c < |chain| && InRange(w, chain, c, c + 1)
    requires n.job == SyncExecuted(StatusAt(w, chain, c, c + 1))
    ensures InRange(w, chain, c + 1, c + 1)
    ensures NodeStep(w, chain, n, SyncCommit) == n.(job := SyncCommitted(StatusAt(w, chain, c + 1, c + 1)))
  {
    assert BlockOk(w, chain, c + 1);
    CommitNext(w, chain, c, c + 1);
  }

  lemma SyncSecondHalf(w: World, chain: seq<Block>, n: Node, c: nat)
    requires ValidChain(w, chain) && c < |chain| && InRange(w, chain, c, c + 1)
    requires n.job == SyncExecuted(StatusAt(w, chain, c, c + 1))
    ensures LocalRun(w, chain, n, [SyncCommit] + [SyncSave] + [SyncReplace]).status.committedHeight == c + 1
  {
    SyncCommits(w, chain, n, c);
    LocalThree(w, chain, n, SyncCommit, SyncSave, SyncReplace);
  }

  lemma SyncOne(w: World, chain: seq<Block>, n: Node) returns (steps: seq<NodeAction>)
    requires ValidChain(w, chain) && NodeInv(w, chain, n) && n.job.SyncWaiting?
    requires n.status.execHeight == n.status.committedHeight < |chain|
    ensures Crash !in steps && Boot !in steps
    ensures LocalRun(w, chain, n, steps).status.committedHeight == n.status.committedHeight + 1
  {
    var c := n.status.committedHeight;
    SyncFirstHalf(w, chain, n);
    SyncSecondHalf(w, chain, n.(job := SyncExecuted(StatusAt(w, chain, c, c + 1))), c);
    var first := [SyncObserve] + [SyncCopy] + [SyncExec];
    var second := [SyncCommit] + [SyncSave] + [SyncReplace];
    LocalRunInTwo(w, chain, n, first, second);
    steps := first + second;
  }

  /** A node that has not executed ahead gets the next decided block by itself. */
  lemma Proceed(w: World, chain: seq<Block>, n: Node) returns (steps: seq<NodeAction>)
    requires ValidChain(w, chain) && NodeInv(w, chain, n) && Idle(n)
    requires n.status.execHeight <= n.status.committedHeight < |chain|
    ensures Crash !in steps
    ensures LocalRun(w, chain, n, steps).status.committedHeight == n.status.committedHeight + 1
  {
    var first := CatchUp(w, chain, n);
    var m := LocalRun(w, chain, n, first);
    if m.job.Free? {
      SyncStepInv(w, chain, m, SyncBegin);
      LocalOne(w, chain, m, SyncBegin);
      LocalRunInTwo(w, chain, n, first, [SyncBegin]);
      first := first + [SyncBegin];
      m := LocalRun(w, chain, n, first);
    }
    var rest := SyncOne(w, chain, m);
    LocalRunInTwo(w, chain, n, first, rest);
    return first + rest;
  }

  // ----- the exact condition -----

  /** A continuation in which the node does not crash, and after which it has committed more. */
  ghost predicate Raises(w: World, s: System, actions: seq<Action>, id: nat, more: seq<Action>) {
    && Local(id, Crash) !in more
    && id in Run(w, s, actions).nodes && id in Run(w, s, actions + more).nodes
    && Run(w, s, actions).nodes[id].status.committedHeight < Run(w, s, actions + more).nodes[id].status.committedHeight
  }

  /** An idle node, none of whose executions failed, can commit the next decided block without a
      restart if and only if it has not already executed it. */
  lemma CanProceedIff(w: World, s: System, actions: seq<Action>, id: nat)
    requires ValidGenesis(w) && Initial(s)
    requires id in Run(w, s, actions).nodes && Idle(Run(w, s, actions).nodes[id])
    requires Run(w, s, actions).nodes[id].status.committedHeight < |Run(w, s, actions).chain|
    ensures (exists more :: Raises(w, s, actions, id, more)) <==>
            var n := Run(w, s, actions).nodes[id]; n.status.execHeight != n.status.committedHeight + 1
  {
    RunInv(w, s, actions);
    var t := Run(w, s, actions);
    var n := t.nodes[id];
    if n.status.execHeight != n.status.committedHeight + 1 {
      var steps := Proceed(w, t.chain, n);
      LocalsRun(w, s, actions, id, steps);
      assert Raises(w, s, actions, id, Locals(id, steps));
    } else {
      forall more
        ensures !Raises(w, s, actions, id, more)
      {
        if Local(id, Crash) !in more {
          AheadUntilRestart(w, s, actions, more, id);
        }
      }
    }
  }

  // ----- the condition is reached -----

  /** A network of one node that has stored nothing yet. */
  function Alone(n: Node): System {
    System([], {}, map[0 := n])
  }

  /** Start-up, a proposal and a decision. */
  function Opening(order: Root, txs: seq<Tx>, b: Block): seq<Action> {
    [Local(0, Boot)] + [Local(0, RecoverDone)] + [Propose(0, order, txs)] + [Decide(b)]
  }

  lemma OpeningRuns(w: World, n: Node, order: Root, txs: seq<Tx>) returns (b: Block)
    requires ValidGenesis(w) && Initial(Alone(n))
    ensures n.daemon.Resting? && n.queue == [] && !n.failed
    ensures var t := Run(w, Alone(n), Opening(order, txs, b));
            && t.chain == [b] && 0 in t.nodes
            && t.nodes[0] == n.(job := Free, status := FromHeader(w, w.genesis), passed := {b})
  {
    var s := Alone(n);
    assert s.nodes[0] == n == Crashed(n);
    var st := FromHeader(w, w.genesis);
    b := Block(BuildHeader(st, order), txs);
    var n1, n2 := n.(job := Recovering, status := st), n.(job := Free, status := st);
    assert Run(w, s, []) == s;
    RunOneMore(w, s, [], Local(0, Boot));
    assert [] + [Local(0, Boot)] == [Local(0, Boot)];
    assert Run(w, s, [Local(0, Boot)]) == System([], {}, map[0 := n1]);
    RunOneMore(w, s, [Local(0, Boot)], Local(0, RecoverDone));
    assert Run(w, s, [Local(0, Boot)] + [Local(0, RecoverDone)]) == System([], {}, map[0 := n2]);
    RunOneMore(w, s, [Local(0, Boot)] + [Local(0, RecoverDone)], Propose(0, order, txs));
    RunOneMore(w, s, [Local(0, Boot)] + [Local(0, RecoverDone)] + [Propose(0, order, txs)], Decide(b));
    assert [] + [b] == [b] && n2.passed + {b} == {b};
  }

  /** A commit that is handed over and abandoned, and executed nevertheless. */
  const ABANDON: seq<NodeAction> := [CommitStart] + [CommitEnqueue] + [CommitAbort]
  const EXECUTE: seq<NodeAction> := [DaemonTake] + [DaemonRead] + [DaemonDone]

  lemma Abandon(w: World, chain: seq<Block>, n: Node)
    requires n.job.Free? && n.queue == [] && n.gap > 0
    requires n.status.execHeight == n.status.committedHeight < |chain|
    ensures LocalRun(w, chain, n, ABANDON) == n.(queue := [n.status.committedHeight + 1])
  {
    var c := n.status.committedHeight;
    assert n.queue + [c + 1] == [c + 1];
    LocalThree(w, chain, n, CommitStart, CommitEnqueue, CommitAbort);
  }

  lemma ExecuteAbandoned(w: World, chain: seq<Block>, n: Node)
    requires ValidChain(w, chain) && n.Up() && n.job.Free? && n.daemon.Resting?
    requires Exact(w, chain, n.status) && n.status.execHeight == n.status.committedHeight < |chain|
    requires n.queue == [n.status.committedHeight + 1]
    ensures Ahead(LocalRun(w, chain, n, EXECUTE))
  {
    var c := n.status.committedHeight;
    LatestRootIsExecuted(w, chain, c, c);
    ExecuteNext(w, chain, c, c);
    LocalThree(w, chain, n, DaemonTake, DaemonRead, DaemonDone);
  }

  lemma AbandonedIsExecuted(w: World, chain: seq<Block>, n: Node)
    requires ValidChain(w, chain) && Exact(w, chain, n.status) && n.job.Free? && n.daemon.Resting? && n.queue == []
    requires n.status.execHeight == n.status.committedHeight < |chain| && n.gap > 0
    ensures Ahead(LocalRun(w, chain, n, ABANDON + EXECUTE))
  {
    Abandon(w, chain, n);
    ExecuteAbandoned(w, chain, n.(queue := [n.status.committedHeight + 1]));
    LocalRunInTwo(w, chain, n, ABANDON, EXECUTE);
  }

  lemma NoCrash(order: Root, txs: seq<Tx>, b: Block)
    ensures Local(0, Crash) !in Opening(order, txs, b) + Locals(0, ABANDON + EXECUTE)
  {
    assert Crash !in ABANDON + EXECUTE;
  }

  /** Such a node exists: it starts, proposes a block that is decided, hands it over for execution,
      abandons the commit, and executes the block. */
  lemma AheadIsReached(w: World, n: Node, order: Root, txs: seq<Tx>) returns (actions: seq<Action>)
    requires ValidGenesis(w) && Initial(Alone(n)) && n.gap > 0
    ensures Local(0, Crash) !in actions
    ensures 0 in Run(w, Alone(n), actions).nodes && Ahead(Run(w, Alone(n), actions).nodes[0])
  {
    var b := OpeningRuns(w, n, order, txs);
    var opening := Opening(order, txs, b);
    var t := Run(w, Alone(n), opening);
    RunInv(w, Alone(n), opening);
    assert NodeInv(w, t.chain, t.nodes[0]);
    AbandonedIsExecuted(w, t.chain, t.nodes[0]);
    LocalsRun(w, Alone(n), opening, 0, ABANDON + EXECUTE);
    NoCrash(order, txs, b);
    actions := opening + Locals(0, ABANDON + EXECUTE);
  }

  // ----- after a failed execution -----

  /** The next block to execute is committed, but no longer pending. */
  predicate Gap(n: Node) {
    && n.Up() && (n.job.Free? || n.Committing() || n.job.SyncWaiting?)
    && n.status.execHeight < n.status.committedHeight
    && n.status.execHeight + 1 !in n.Pending()
  }

  /** That is what a failed execution of the next block leaves, unless it is pending once more. */
  lemma FailureLeavesGap(w: World, chain: seq<Block>, n: Node)
    requires NodeInv(w, chain, n) && n.Up() && (n.job.Free? || n.Committing() || n.job.SyncWaiting?)
    requires !n.daemon.Resting? && n.daemon.height == n.status.execHeight + 1 <= n.status.committedHeight
    requires n.daemon.height !in n.queue
    ensures Gap(NodeStep(w, chain, n, DaemonFail))
  {
  }

  /** A gap stays while the status stays and nothing new becomes pending. */
  lemma GapKept(n: Node, m: Node)
    requires Gap(n) && m.job == n.job && m.status == n.status && forall k | k in m.Pending() :: k in n.Pending()
    ensures Gap(m)
  {
  }

  /** A result beyond the gap is a panic. */
  lemma GapDone(w: World, chain: seq<Block>, n: Node)
    requires ValidChain(w, chain) && NodeInv(w, chain, n) && Gap(n) && n.daemon.Running?
    ensures var m := DaemonStep(w, chain, n, DaemonDone);
            m.job.Down? || (Gap(m) && m.status.execHeight == n.status.execHeight)
  {
    DropDaemon(chain, n);
    assert n.Pending()[0] == n.daemon.height;
    assert BlockOk(w, chain, n.daemon.height);
    if n.daemon.height <= n.status.execHeight {
      DaemonStale(w, chain, n);
      GapKept(n, n.(daemon := Resting));
    }
  }

  lemma GapTake(w: World, chain: seq<Block>, n: Node)
    requires Gap(n) && n.daemon.Resting? && |n.queue| > 0
    ensures Gap(DaemonStep(w, chain, n, DaemonTake))
  {
    var m := DaemonStep(w, chain, n, DaemonTake);
    assert m.Pending() == n.Pending();
    GapKept(n, m);
  }

  lemma GapRead(w: World, chain: seq<Block>, n: Node)
    requires Gap(n) && n.daemon.Taken?
    ensures Gap(DaemonStep(w, chain, n, DaemonRead))
  {
    GapKept(n, DaemonStep(w, chain, n, DaemonRead));
  }

  lemma GapFail(w: World, chain: seq<Block>, n: Node)
    requires Gap(n) && !n.daemon.Resting?
    ensures Gap(DaemonStep(w, chain, n, DaemonFail))
  {
    GapKept(n, DaemonStep(w, chain, n, DaemonFail));
  }

  ghost predicate GapAfter(n: Node, m: Node) {
    m.job.Down? || (Gap(m) && m.status.execHeight == n.status.execHeight)
  }

  lemma GapDaemonStep(w: World, chain: seq<Block>, n: Node, a: NodeAction)
    requires ValidChain(w, chain) && NodeInv(w, chain, n) && Gap(n)
    ensures GapAfter(n, DaemonStep(w, chain, n, a))
  {
    if a.DaemonDone? && n.daemon.Running? {
      GapDone(w, chain, n);
    } else if a.DaemonTake? && n.daemon.Resting? && |n.queue| > 0 {
      GapTake(w, chain, n);
    } else if a.DaemonRead? && n.daemon.Taken? {
      GapRead(w, chain, n);
    } else if a.DaemonFail? && !n.daemon.Resting? {
      GapFail(w, chain, n);
    }
  }

  lemma GapCommitStep(w: World, chain: seq<Block>, n: Node, a: NodeAction)
    requires Gap(n)
    ensures GapAfter(n, CommitStep(w, chain, n, a))
  {
    var m := CommitStep(w, chain, n, a);
    if a.CommitEnqueue? && n.job.CommitWaiting? && |n.queue| < n.gap {
      assert m.Pending() == n.Pending() + [n.status.committedHeight + 1];
    } else {
      assert m.job.Down? || m.Pending() == n.Pending();
    }
  }

  lemma GapSyncStep(w: World, chain: seq<Block>, n: Node, a: NodeAction)
    requires Gap(n)
    ensures GapAfter(n, SyncStep(w, chain, n, a))
  {
    assert SyncStep(w, chain, n, a).Pending() == n.Pending();
  }

  lemma GapProcessStep(w: World, chain: seq<Block>, n: Node, a: NodeAction)
    requires Gap(n)
    ensures GapAfter(n, ProcessStep(w, chain, n, a))
  {
  }

  lemma GapStep(w: World, chain: seq<Block>, n: Node, a: NodeAction)
    requires ValidChain(w, chain) && NodeInv(w, chain, n) && Gap(n)
    ensures GapAfter(n, NodeStep(w, chain, n, a))
  {
    WhichStep(w, chain, n, a);
    if CommitAction(a) {
      GapCommitStep(w, chain, n, a);
    } else if DaemonAction(a) {
      GapDaemonStep(w, chain, n, a);
    } else if ProcessAction(a) {
      GapProcessStep(w, chain, n, a);
    } else {
      GapSyncStep(w, chain, n, a);
    }
  }

  /** The node is up all the way. */
  ghost predicate StaysUp(w: World, s: System, actions: seq<Action>, more: seq<Action>, id: nat) {
    && id in Run(w, s, actions + more).nodes && !Run(w, s, actions + more).nodes[id].job.Down?
    && (more != [] ==> StaysUp(w, s, actions, more[..|more| - 1], id))
  }

  /** Such a node executes nothing more and does not get past waiting for synchronization, in any run,
      as long as it does not go down. */
  lemma {:induction false} GapUntilDown(w: World, s: System, actions: seq<Action>, more: seq<Action>, id: nat)
    requires ValidGenesis(w) && Initial(s)
    requires id in Run(w, s, actions).nodes && Gap(Run(w, s, actions).nodes[id])
    requires StaysUp(w, s, actions, more, id)
    ensures var n, m := Run(w, s, actions).nodes[id], Run(w, s, actions + more).nodes[id];
            Gap(m) && m.status.execHeight == n.status.execHeight
  {
    if more == [] {
      assert actions + more == actions;
    } else {
      var j := |more| - 1;
      GapUntilDown(w, s, actions, more[..j], id);
      RunInv(w, s, actions + more[..j]);
      assert actions + more == actions + more[..j] + [more[j]];
      RunOneMore(w, s, actions + more[..j], more[j]);
      GapNext(w, Run(w, s, actions + more[..j]), more[j], id);
    }
  }

  lemma GapNext(w: World, t: System, a: Action, id: nat)
    requires Inv(w, t) && id in t.nodes && Gap(t.nodes[id])
    ensures id in Next(w, t, a).nodes
    ensures GapAfter(t.nodes[id], Next(w, t, a).nodes[id])
  {
    if a.Local? && a.id == id {
      GapStep(w, t.chain, t.nodes[id], a.step);
    }
  }
}
