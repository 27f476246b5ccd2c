/** When an idle node, whatever failed before, can still commit without being started again. */
module Stalls {
  import opened Blocks
  import opened ConsensusStatus
  import opened CommitPipeline
  import opened Nodes
  import opened Network
  import opened Progress

  predicate Waiting(n: Node) {
    n.Up() && (n.job.Free? || n.job.SyncWaiting?)
  }

  /** Every block up to this height is executed or still pending. */
  ghost predicate Within(n: Node, h: nat) {
    forall k: nat | n.status.execHeight < k <= h :: k in n.Pending()
  }

  // ----- executing as far as the next header needs -----

  /** Heights are pending in order, so nothing later comes before the next one. */
  lemma OldestBelow(chain: seq<Block>, n: Node, k: nat)
    requires PendingOk(chain, n) && k in n.Pending()
    ensures n.Pending()[0] <= k
  {
    var p := n.Pending();
    var i :| 0 <= i < |p| && p[i] == k;
    assert i == 0 || p[0] <= p[i];
  }

  /** Finishing the oldest block, when the next one is pending: one fewer is, and what is needed still
      is. */
  lemma FinishOne(w: World, chain: seq<Block>, n: Node, h: nat)
    requires ValidChain(w, chain) && NodeInv(w, chain, n) && Waiting(n) && n.daemon.Running?
    requires n.status.execHeight < h <= n.status.committedHeight && Within(n, h)
    ensures var m := NodeStep(w, chain, n, DaemonDone);
            && NodeInv(w, chain, m) && m.job == n.job && m.gap == n.gap && Within(m, h)
            && |m.Pending()| < |n.Pending()|
            && m.status.committedHeight == n.status.committedHeight && m.status.execHeight <= h
  {
    OldestBelow(chain, n, n.status.execHeight + 1);
    DropDaemon(chain, n);
    assert n.Pending()[0] == n.daemon.height;
    if n.daemon.height <= n.status.execHeight {
      DaemonStale(w, chain, n);
    } else {
      DaemonNext(w, chain, n);
    }
  }

  /** Driving the daemon until everything up to `h` is executed. */
  lemma {:induction false} DriveTo(w: World, chain: seq<Block>, n: Node, h: nat) returns (steps: seq<NodeAction>)
    requires ValidChain(w, chain) && NodeInv(w, chain, n) && Waiting(n)
    requires n.status.execHeight <= n.status.committedHeight && h <= n.status.committedHeight && Within(n, h)
    ensures Boot !in steps
    ensures var m := LocalRun(w, chain, n, steps);
            && NodeInv(w, chain, m) && m.job == n.job && m.gap == n.gap
            && m.status.committedHeight == n.status.committedHeight
            && h <= m.status.execHeight <= m.status.committedHeight
    decreases |n.Pending()|
  {
    if h <= n.status.execHeight {
      return [];
    }
    assert n.status.execHeight + 1 in n.Pending();
    var first := StartOldest(w, chain, n);
    var m := LocalRun(w, chain, n, first);
    FinishOne(w, chain, m, h);
    var m' := NodeStep(w, chain, m, DaemonDone);
    LocalOne(w, chain, m, DaemonDone);
    LocalRunInTwo(w, chain, n, first, [DaemonDone]);
    var rest := DriveTo(w, chain, m', h);
    LocalRunInTwo(w, chain, n, first + [DaemonDone], rest);
    return first + [DaemonDone] + rest;
  }

  // ----- committing by consensus -----

  ghost predicate SameStatus(n: Node, m: Node) {
    m.status == n.status && m.job == n.job && m.passed == n.passed && m.gap == n.gap
  }

  lemma FailsAndTakes(w: World, chain: seq<Block>, n: Node)
    requires ValidChain(w, chain) && NodeInv(w, chain, n) && n.Up() && n.queue != []
    ensures var m := NodeStep(w, chain, NodeStep(w, chain, n, DaemonFail), DaemonTake);
            NodeInv(w, chain, m) && SameStatus(n, m) && |m.queue| < n.gap
  {
    DaemonStepInv(w, chain, n, DaemonFail);
    DaemonStepInv(w, chain, NodeStep(w, chain, n, DaemonFail), DaemonTake);
  }

  /** Room in the queue: an execution under way fails if need be, and the daemon takes the next block. */
  lemma MakeRoom(w: World, chain: seq<Block>, n: Node) returns (steps: seq<NodeAction>)
    requires ValidChain(w, chain) && NodeInv(w, chain, n) && n.Up() && n.gap > 0
    ensures Boot !in steps
    ensures var m := LocalRun(w, chain, n, steps);
            NodeInv(w, chain, m) && SameStatus(n, m) && |m.queue| < n.gap
  {
    if |n.queue| < n.gap {
      return [];
    }
    FailsAndTakes(w, chain, n);
    LocalOne(w, chain, n, DaemonFail);
    LocalOne(w, chain, NodeStep(w, chain, n, DaemonFail), DaemonTake);
    LocalRunInTwo(w, chain, n, [DaemonFail], [DaemonTake]);
    return [DaemonFail] + [DaemonTake];
  }

  lemma CommitFirstHalf(w: World, chain: seq<Block>, n: Node)
    requires n.job.Free? && n.status.committedHeight < |chain| && |n.queue| < n.gap
    requires chain[n.status.committedHeight] in n.passed && n.status.execHeight <= n.status.committedHeight
    ensures var c := n.status.committedHeight;
            LocalRun(w, chain, n, [CommitStart] + [CommitEnqueue] + [CommitSave]) ==
            n.(job := CommitSaved, queue := n.queue + [c + 1], stored := c + 1)
  {
    LocalThree(w, chain, n, CommitStart, CommitEnqueue, CommitSave);
  }

  lemma CommitLast(w: World, chain: seq<Block>, n: Node)
    requires ValidChain(w, chain) && Exact(w, chain, n.status) && n.job.CommitSaved?
    requires n.status.committedHeight < |chain|
    requires chain[n.status.committedHeight].header.execHeight <= n.status.execHeight
    ensures NodeStep(w, chain, n, CommitFinish).status.committedHeight == n.status.committedHeight + 1
  {
    CommitNext(w, chain, n.status.committedHeight, n.status.execHeight);
  }

  /** A node that has passed the next block and executed what it confirms commits it. */
  lemma CommitPassed(w: World, chain: seq<Block>, n: Node) returns (steps: seq<NodeAction>)
    requires ValidChain(w, chain) && NodeInv(w, chain, n) && n.job.Free? && n.gap > 0
    requires n.status.execHeight <= n.status.committedHeight < |chain|
    requires chain[n.status.committedHeight] in n.passed
    requires chain[n.status.committedHeight].header.execHeight <= n.status.execHeight
    ensures Boot !in steps
    ensures LocalRun(w, chain, n, steps).status.committedHeight == n.status.committedHeight + 1
  {
    var first := MakeRoom(w, chain, n);
    var m := LocalRun(w, chain, n, first);
    CommitFirstHalf(w, chain, m);
    var half := [CommitStart] + [CommitEnqueue] + [CommitSave];
    var m' := LocalRun(w, chain, m, half);
    CommitLast(w, chain, m');
    LocalOne(w, chain, m', CommitFinish);
    LocalRunInTwo(w, chain, n, first, half);
    LocalRunInTwo(w, chain, n, first + half, [CommitFinish]);
    return first + half + [CommitFinish];
  }

  /** Executing what the next header confirms, with nothing else going on. */
  lemma GetReady(w: World, chain: seq<Block>, n: Node) returns (steps: seq<NodeAction>)
    requires ValidChain(w, chain) && NodeInv(w, chain, n) && Waiting(n)
    requires n.status.execHeight <= n.status.committedHeight < |chain|
    requires Within(n, chain[n.status.committedHeight].header.execHeight)
    ensures Boot !in steps
    ensures var m := LocalRun(w, chain, n, steps);
            && NodeInv(w, chain, m) && m.job.Free? && m.gap == n.gap
            && m.status.committedHeight == n.status.committedHeight
            && chain[n.status.committedHeight].header.execHeight <= m.status.execHeight <= m.status.committedHeight
  {
    var c := n.status.committedHeight;
    assert BlockOk(w, chain, c + 1);
    steps := DriveTo(w, chain, n, chain[c].header.execHeight);
    var m := LocalRun(w, chain, n, steps);
    if m.job.SyncWaiting? {
      SyncStepInv(w, chain, m, SyncStop);
      LocalOne(w, chain, m, SyncStop);
      LocalRunInTwo(w, chain, n, steps, [SyncStop]);
      steps := steps + [SyncStop];
    }
  }

  lemma CheckPasses(w: World, t: System, id: nat)
    requires Inv(w, t) && id in t.nodes
    requires var n := t.nodes[id];
             && n.Up() && n.status.committedHeight < |t.chain|
             && t.chain[n.status.committedHeight].header.execHeight <= n.status.execHeight
    ensures var n := t.nodes[id];
            var b := t.chain[n.status.committedHeight];
            Next(w, t, CheckProposal(id, b)) == t.(nodes := t.nodes[id := n.(passed := n.passed + {b})])
  {
    var st := t.nodes[id].status;
    assert BlockOk(w, t.chain, st.committedHeight + 1);
    CheckDecided(w, t.chain, st.committedHeight, st.execHeight);
  }

  // ----- without a queue -----

  /** A node whose queue has no place at all commits by synchronization only, so it has executed what it
      has committed. */
  predicate QueueOk(n: Node) {
    n.gap == 0 ==>
      && n.queue == [] && n.daemon.Resting? && !n.job.CommitQueued? && !n.job.CommitSaved?
      && (n.Up() ==> n.status.committedHeight <= n.status.execHeight)
  }

  lemma QueueOkStep(w: World, chain: seq<Block>, n: Node, a: NodeAction)
    requires NodeInv(w, chain, n) && QueueOk(n)
    ensures QueueOk(NodeStep(w, chain, n, a))
  {
    WhichStep(w, chain, n, a);
  }

  lemma QueueOkNext(w: World, t: System, a: Action, id: nat)
    requires Inv(w, t) && id in t.nodes && QueueOk(t.nodes[id])
    ensures id in Next(w, t, a).nodes && QueueOk(Next(w, t, a).nodes[id])
  {
    if a.Local? && a.id == id {
      QueueOkStep(w, t.chain, t.nodes[id], a.step);
    }
  }

  lemma {:induction false} SameNodes(w: World, s: System, actions: seq<Action>)
    ensures Run(w, s, actions).nodes.Keys == s.nodes.Keys
  {
    if actions != [] {
      SameNodes(w, s, actions[..|actions| - 1]);
    }
  }

  lemma {:induction false} RunQueueOk(w: World, s: System, actions: seq<Action>, id: nat)
    requires ValidGenesis(w) && Initial(s) && id in s.nodes
    ensures id in Run(w, s, actions).nodes && QueueOk(Run(w, s, actions).nodes[id])
  {
    if actions == [] {
      assert s.nodes[id] == Crashed(s.nodes[id]);
    } else {
      var init := actions[..|actions| - 1];
      RunQueueOk(w, s, init, id);
      RunInv(w, s, init);
      QueueOkNext(w, Run(w, s, init), actions[|actions| - 1], id);
    }
  }

  /** With equal heights the next decided block is synchronized. */
  lemma SyncNext(w: World, chain: seq<Block>, n: Node) returns (steps: seq<NodeAction>)
    requires ValidChain(w, chain) && NodeInv(w, chain, n) && Waiting(n)
    requires n.status.execHeight == n.status.committedHeight < |chain|
    ensures Boot !in steps
    ensures LocalRun(w, chain, n, steps).status.committedHeight == n.status.committedHeight + 1
  {
    if n.job.SyncWaiting? {
      steps := SyncOne(w, chain, n);
      return;
    }
    SyncStepInv(w, chain, n, SyncBegin);
    LocalOne(w, chain, n, SyncBegin);
    var rest := SyncOne(w, chain, NodeStep(w, chain, n, SyncBegin));
    LocalRunInTwo(w, chain, n, [SyncBegin], rest);
    steps := [SyncBegin] + rest;
  }

  // ----- the exact condition -----

  /** A continuation in which the node is not started again, and after which it has committed more. */
  ghost predicate RaisesUp(w: World, s: System, actions: seq<Action>, id: nat, more: seq<Action>) {
    && Local(id, Boot) !in more
    && id in Run(w, s, actions).nodes && id in Run(w, s, actions + more).nodes
    && Run(w, s, actions).nodes[id].status.committedHeight < Run(w, s, actions + more).nodes[id].status.committedHeight
  }

  /** What the next header confirms is executed or pending, and the next block is not yet executed. */
  ghost predicate Able(chain: seq<Block>, n: Node)
    requires n.status.committedHeight < |chain|
  {
    && n.status.execHeight != n.status.committedHeight + 1
    && Within(n, chain[n.status.committedHeight].header.execHeight)
  }

  /** The node is idle and has executed what the next header confirms. */
  ghost predicate Ready(t: System, id: nat) {
    && id in t.nodes && t.nodes[id].job.Free? && t.nodes[id].gap > 0
    && t.nodes[id].status.execHeight <= t.nodes[id].status.committedHeight < |t.chain|
    && t.chain[t.nodes[id].status.committedHeight].header.execHeight <= t.nodes[id].status.execHeight
  }

  lemma ReadyCommits(w: World, s: System, actions: seq<Action>, id: nat) returns (more: seq<Action>)
    requires ValidGenesis(w) && Initial(s) && Ready(Run(w, s, actions), id)
    requires var t := Run(w, s, actions); t.chain[t.nodes[id].status.committedHeight] in t.nodes[id].passed
    ensures RaisesUp(w, s, actions, id, more)
  {
    RunInv(w, s, actions);
    var t := Run(w, s, actions);
    var steps := CommitPassed(w, t.chain, t.nodes[id]);
    LocalsRun(w, s, actions, id, steps);
    more := Locals(id, steps);
  }

  lemma ReadyChecks(w: World, s: System, actions: seq<Action>, id: nat) returns (a: Action)
    requires ValidGenesis(w) && Initial(s) && Ready(Run(w, s, actions), id)
    ensures a.CheckProposal?
    ensures var t, u := Run(w, s, actions), Run(w, s, actions + [a]);
            && Ready(u, id) && u.nodes[id].status == t.nodes[id].status
            && u.chain[u.nodes[id].status.committedHeight] in u.nodes[id].passed
  {
    RunInv(w, s, actions);
    var t := Run(w, s, actions);
    a := CheckProposal(id, t.chain[t.nodes[id].status.committedHeight]);
    CheckPasses(w, t, id);
    RunOneMore(w, s, actions, a);
  }

  lemma AbleGetsReady(w: World, s: System, actions: seq<Action>, id: nat) returns (more: seq<Action>)
    requires ValidGenesis(w) && Initial(s)
    requires id in Run(w, s, actions).nodes && Waiting(Run(w, s, actions).nodes[id])
    requires var t := Run(w, s, actions);
             var n := t.nodes[id];
             n.gap > 0 && n.status.committedHeight < |t.chain| && Able(t.chain, n)
    ensures Local(id, Boot) !in more && Ready(Run(w, s, actions + more), id)
    ensures Run(w, s, actions + more).nodes[id].status.committedHeight ==
            Run(w, s, actions).nodes[id].status.committedHeight
  {
    var t := Run(w, s, actions);
    RunInv(w, s, actions);
    var steps := GetReady(w, t.chain, t.nodes[id]);
    LocalsRun(w, s, actions, id, steps);
    more := Locals(id, steps);
  }

  /** Without a queue: by synchronization. */
  lemma AbleSyncs(w: World, s: System, actions: seq<Action>, id: nat) returns (more: seq<Action>)
    requires ValidGenesis(w) && Initial(s)
    requires id in Run(w, s, actions).nodes && Waiting(Run(w, s, actions).nodes[id])
    requires var t := Run(w, s, actions);
             var n := t.nodes[id];
             n.gap == 0 && n.status.committedHeight < |t.chain| && Able(t.chain, n)
    ensures RaisesUp(w, s, actions, id, more)
  {
    RunInv(w, s, actions);
    SameNodes(w, s, actions);
    RunQueueOk(w, s, actions, id);
    var t := Run(w, s, actions);
    var steps := SyncNext(w, t.chain, t.nodes[id]);
    LocalsRun(w, s, actions, id, steps);
    more := Locals(id, steps);
  }

  lemma AbleRaises(w: World, s: System, actions: seq<Action>, id: nat) returns (more: seq<Action>)
    requires ValidGenesis(w) && Initial(s)
    requires id in Run(w, s, actions).nodes && Waiting(Run(w, s, actions).nodes[id])
    requires var t := Run(w, s, actions);
             var n := t.nodes[id];
             n.status.committedHeight < |t.chain| && Able(t.chain, n)
    ensures RaisesUp(w, s, actions, id, more)
  {
    if Run(w, s, actions).nodes[id].gap == 0 {
      more := AbleSyncs(w, s, actions, id);
      return;
    }
    var first := AbleGetsReady(w, s, actions, id);
    var a := ReadyChecks(w, s, actions + first, id);
    var last := ReadyCommits(w, s, actions + first + [a], id);
    more := first + [a] + last;
    assert actions + more == actions + first + [a] + last;
  }

  // ----- and otherwise it cannot -----

  /** Waiting, with a block missing that the next header confirms. */
  predicate Missing(chain: seq<Block>, n: Node, k: nat) {
    && Waiting(n) && n.status.committedHeight < |chain|
    && n.status.execHeight < k <= chain[n.status.committedHeight].header.execHeight
    && k <= n.status.committedHeight && k !in n.Pending()
  }

  ghost predicate StillMissing(chain: seq<Block>, n: Node, m: Node, k: nat) {
    m.status.committedHeight == n.status.committedHeight && (m.job.Down? || Missing(chain, m, k))
  }

  lemma MissingDone(w: World, chain: seq<Block>, n: Node, k: nat)
    requires ValidChain(w, chain) && NodeInv(w, chain, n) && Missing(chain, n, k) && n.daemon.Running?
    ensures StillMissing(chain, n, DaemonStep(w, chain, n, DaemonDone), k)
  {
    DropDaemon(chain, n);
    assert n.Pending()[0] == n.daemon.height;
    assert BlockOk(w, chain, n.daemon.height);
    if n.daemon.height <= n.status.execHeight {
      DaemonStale(w, chain, n);
    } else if n.daemon.height == n.status.execHeight + 1 {
      DaemonNext(w, chain, n);
    }
  }

  lemma MissingDaemonStep(w: World, chain: seq<Block>, n: Node, a: NodeAction, k: nat)
    requires ValidChain(w, chain) && NodeInv(w, chain, n) && Missing(chain, n, k)
    ensures StillMissing(chain, n, DaemonStep(w, chain, n, a), k)
  {
    if a.DaemonDone? && n.daemon.Running? {
      MissingDone(w, chain, n, k);
    } else if a.DaemonTake? && n.daemon.Resting? && |n.queue| > 0 {
      assert DaemonStep(w, chain, n, a).Pending() == n.Pending();
    }
  }

  lemma MissingCommitStep(w: World, chain: seq<Block>, n: Node, a: NodeAction, k: nat)
    requires ValidChain(w, chain) && NodeInv(w, chain, n) && Missing(chain, n, k)
    ensures CommitStep(w, chain, n, a) == n
  {
    assert BlockOk(w, chain, n.status.committedHeight + 1);
    assert !n.MayCommit(chain[n.status.committedHeight]);
  }

  lemma MissingSyncStep(w: World, chain: seq<Block>, n: Node, a: NodeAction, k: nat)
    requires Missing(chain, n, k)
    ensures StillMissing(chain, n, SyncStep(w, chain, n, a), k)
  {
    assert SyncStep(w, chain, n, a).Pending() == n.Pending();
  }

  lemma MissingStep(w: World, chain: seq<Block>, n: Node, a: NodeAction, k: nat)
    requires ValidChain(w, chain) && NodeInv(w, chain, n) && Missing(chain, n, k)
    ensures StillMissing(chain, n, NodeStep(w, chain, n, a), k)
  {
    WhichStep(w, chain, n, a);
    if CommitAction(a) {
      MissingCommitStep(w, chain, n, a, k);
    } else if DaemonAction(a) {
      MissingDaemonStep(w, chain, n, a, k);
    } else if !ProcessAction(a) {
      MissingSyncStep(w, chain, n, a, k);
    }
  }

  /** A node that is down stays as it is until it is started. */
  lemma DownStep(w: World, chain: seq<Block>, n: Node, a: NodeAction)
    requires n.job.Down? && a != Boot
    ensures var m := NodeStep(w, chain, n, a); m.job.Down? && m.status == n.status
  {
    WhichStep(w, chain, n, a);
  }

  /** Ahead, missing a block, or down since. */
  ghost predicate Stuck(chain: seq<Block>, n: Node) {
    n.job.Down? || Ahead(n) || exists k :: Missing(chain, n, k)
  }

  lemma StuckStep(w: World, chain: seq<Block>, n: Node, a: NodeAction)
    requires ValidChain(w, chain) && NodeInv(w, chain, n) && Stuck(chain, n) && a != Boot
    ensures var m := NodeStep(w, chain, n, a);
            Stuck(chain, m) && m.status.committedHeight == n.status.committedHeight
  {
    if n.job.Down? {
      DownStep(w, chain, n, a);
    } else if Ahead(n) {
      if !a.Crash? {
        AheadStep(w, chain, n, a);
      }
    } else {
      var k :| Missing(chain, n, k);
      MissingStep(w, chain, n, a, k);
    }
  }

  /** Proposals, checks, decisions and other nodes leave a missing block missing. */
  lemma OthersKeepMissing(w: World, t: System, a: Action, id: nat, k: nat)
    requires id in t.nodes && Missing(t.chain, t.nodes[id], k) && !(a.Local? && a.id == id)
    ensures id in Next(w, t, a).nodes && Missing(Next(w, t, a).chain, Next(w, t, a).nodes[id], k)
  {
    assert Next(w, t, a).nodes[id].Pending() == t.nodes[id].Pending();
  }

  lemma StuckNext(w: World, t: System, a: Action, id: nat)
    requires Inv(w, t) && id in t.nodes && Stuck(t.chain, t.nodes[id]) && a != Local(id, Boot)
    ensures id in Next(w, t, a).nodes
    ensures var u := Next(w, t, a);
            Stuck(u.chain, u.nodes[id]) && u.nodes[id].status.committedHeight == t.nodes[id].status.committedHeight
  {
    var n := t.nodes[id];
    if a.Local? && a.id == id {
      StuckStep(w, t.chain, n, a.step);
    } else if !n.job.Down? && !Ahead(n) {
      var k :| Missing(t.chain, n, k);
      OthersKeepMissing(w, t, a, id, k);
    }
  }

  lemma {:induction false} StuckUntilBoot(w: World, s: System, actions: seq<Action>, more: seq<Action>, id: nat)
    requires ValidGenesis(w) && Initial(s) && id in Run(w, s, actions).nodes
    requires Stuck(Run(w, s, actions).chain, Run(w, s, actions).nodes[id]) && Local(id, Boot) !in more
    ensures id in Run(w, s, actions + more).nodes
    ensures var t, u := Run(w, s, actions), Run(w, s, actions + more);
            && Stuck(u.chain, u.nodes[id])
            && u.nodes[id].status.committedHeight == t.nodes[id].status.committedHeight
  {
    if more == [] {
      assert actions + more == actions;
    } else {
      var j := |more| - 1;
      StuckUntilBoot(w, s, actions, more[..j], id);
      RunInv(w, s, actions + more[..j]);
      assert actions + more == actions + more[..j] + [more[j]];
      RunOneMore(w, s, actions + more[..j], more[j]);
      StuckNext(w, Run(w, s, actions + more[..j]), more[j], id);
    }
  }

  lemma UnableIsStuck(w: World, chain: seq<Block>, n: Node)
    requires ValidChain(w, chain) && Waiting(n) && n.status.committedHeight < |chain| && !Able(chain, n)
    ensures Stuck(chain, n)
  {
    assert BlockOk(w, chain, n.status.committedHeight + 1);
    if !Ahead(n) {
      var k: nat :| n.status.execHeight < k <= chain[n.status.committedHeight].header.execHeight && k !in n.Pending();
      assert Missing(chain, n, k);
    }
  }

  /** Any idle node, whatever was abandoned or failed before, can commit the next decided block without
      being started again if and only if it has not executed that block already and every block whose
      result that block's header confirms is executed or still pending. */
  lemma ProceedsIff(w: World, s: System, actions: seq<Action>, id: nat)
    requires ValidGenesis(w) && Initial(s)
    requires id in Run(w, s, actions).nodes && Waiting(Run(w, s, actions).nodes[id])
    requires Run(w, s, actions).nodes[id].status.committedHeight < |Run(w, s, actions).chain|
    ensures (exists more :: RaisesUp(w, s, actions, id, more)) <==>
            Able(Run(w, s, actions).chain, Run(w, s, actions).nodes[id])
  {
    var t := Run(w, s, actions);
    if Able(t.chain, t.nodes[id]) {
      var more := AbleRaises(w, s, actions, id);
    } else {
      RunInv(w, s, actions);
      UnableIsStuck(w, t.chain, t.nodes[id]);
      forall more
        ensures !RaisesUp(w, s, actions, id, more)
      {
        if Local(id, Boot) !in more {
          StuckUntilBoot(w, s, actions, more, id);
        }
      }
    }
  }
}
