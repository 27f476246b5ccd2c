/** What a restart achieves: a node in whatever state gets up again, executed as far as it had stored. */
module Restarts {
  import opened Blocks
  import opened ConsensusStatus
  import opened CommitPipeline
  import opened Nodes
  import opened Network
  import opened Progress

  /** One block is executed again, and nothing else changes. */
  lemma RecoverOne(w: World, chain: seq<Block>, n: Node)
    requires ValidChain(w, chain) && NodeInv(w, chain, n) && n.job.Recovering?
    requires n.status.execHeight < n.status.committedHeight
    ensures var m := NodeStep(w, chain, n, RecoverExec);
            && NodeInv(w, chain, m) && m == n.(status := m.status)
            && m.status.committedHeight == n.status.committedHeight
            && m.status.execHeight == n.status.execHeight + 1
  {
    var c, e := n.status.committedHeight, n.status.execHeight;
    RecoverExecInv(w, chain, n);
    LatestRootIsExecuted(w, chain, c, e);
    ExecuteNext(w, chain, c, e);
  }

  /** Recovery executes every stored block that is not executed, and ends. */
  lemma {:induction false} RecoverAll(w: World, chain: seq<Block>, n: Node) returns (steps: seq<NodeAction>)
    requires ValidChain(w, chain) && NodeInv(w, chain, n) && n.job.Recovering?
    ensures forall a | a in steps :: a == RecoverExec
    ensures |steps| == n.status.committedHeight - n.status.execHeight
    ensures var m := LocalRun(w, chain, n, steps);
            && NodeInv(w, chain, m) && m == n.(status := m.status)
            && m.status.execHeight == m.status.committedHeight == n.status.committedHeight
    decreases n.status.committedHeight - n.status.execHeight
  {
    if n.status.execHeight == n.status.committedHeight {
      return [];
    }
    RecoverOne(w, chain, n);
    LocalOne(w, chain, n, RecoverExec);
    var rest := RecoverAll(w, chain, NodeStep(w, chain, n, RecoverExec));
    LocalRunInTwo(w, chain, n, [RecoverExec], rest);
    return [RecoverExec] + rest;
  }

  /** Then the node is free, its heights equal. */
  lemma Recover(w: World, chain: seq<Block>, n: Node) returns (steps: seq<NodeAction>)
    requires ValidChain(w, chain) && NodeInv(w, chain, n) && n.job.Recovering? && !n.failed
    ensures forall a | a in steps :: a == RecoverExec || a == RecoverDone
    ensures var m := LocalRun(w, chain, n, steps);
            && m.job.Free? && !m.failed
            && m.status.execHeight == m.status.committedHeight == n.status.committedHeight
  {
    var again := RecoverAll(w, chain, n);
    LocalOne(w, chain, LocalRun(w, chain, n, again), RecoverDone);
    LocalRunInTwo(w, chain, n, again, [RecoverDone]);
    steps := again + [RecoverDone];
  }

  lemma Reboot(w: World, chain: seq<Block>, n: Node)
    requires ValidChain(w, chain) && NodeInv(w, chain, n)
    ensures var m := NodeStep(w, chain, Crashed(n), Boot);
            && NodeInv(w, chain, m) && m.job.Recovering? && !m.failed
            && m.status.committedHeight == n.stored
  {
    CrashedInv(w, chain, n);
    BootInv(w, chain, Crashed(n));
    HeaderBounds(w, chain, n.stored);
  }

  lemma DownAndUp(w: World, chain: seq<Block>, n: Node) returns (steps: seq<NodeAction>)
    ensures |steps| == 2 && steps[0] == Crash && steps[1] == Boot
    ensures LocalRun(w, chain, n, steps) == NodeStep(w, chain, Crashed(n), Boot)
  {
    LocalOne(w, chain, n, Crash);
    LocalOne(w, chain, Crashed(n), Boot);
    LocalRunInTwo(w, chain, n, [Crash], [Boot]);
    steps := [Crash] + [Boot];
  }

  ghost predicate OneRestart(steps: seq<NodeAction>) {
    && |steps| >= 2 && steps[0] == Crash && steps[1] == Boot
    && forall i | 2 <= i < |steps| :: steps[i] == RecoverExec || steps[i] == RecoverDone
  }

  lemma IsOneRestart(up: seq<NodeAction>, rest: seq<NodeAction>)
    requires |up| == 2 && up[0] == Crash && up[1] == Boot
    requires forall a | a in rest :: a == RecoverExec || a == RecoverDone
    ensures OneRestart(up + rest)
  {
    forall i | 2 <= i < |up + rest|
      ensures (up + rest)[i] == RecoverExec || (up + rest)[i] == RecoverDone
    {
      assert (up + rest)[i] == rest[i - 2] && rest[i - 2] in rest;
    }
  }

  /** Going down and starting again. */
  lemma Restart(w: World, chain: seq<Block>, n: Node) returns (steps: seq<NodeAction>)
    requires ValidChain(w, chain) && NodeInv(w, chain, n)
    ensures OneRestart(steps)
    ensures var m := LocalRun(w, chain, n, steps);
            m.job.Free? && !m.failed && m.status.execHeight == m.status.committedHeight == n.stored
  {
    Reboot(w, chain, n);
    var up := DownAndUp(w, chain, n);
    var rest := Recover(w, chain, NodeStep(w, chain, Crashed(n), Boot));
    IsOneRestart(up, rest);
    LocalRunInTwo(w, chain, n, up, rest);
    steps := up + rest;
  }

  ghost predicate RestartsOnce(id: nat, more: seq<Action>) {
    && |more| >= 2 && more[0] == Local(id, Crash) && more[1] == Local(id, Boot)
    && forall i | 2 <= i < |more| :: more[i] == Local(id, RecoverExec) || more[i] == Local(id, RecoverDone)
  }

  /** In every run, whatever state a node is in, stuck or not: after going down once and starting again it
      is idle and has executed exactly the blocks it had stored. */
  lemma RestartHeals(w: World, s: System, actions: seq<Action>, id: nat) returns (more: seq<Action>)
    requires ValidGenesis(w) && Initial(s) && id in Run(w, s, actions).nodes
    ensures RestartsOnce(id, more)
    ensures var t, u := Run(w, s, actions), Run(w, s, actions + more);
            && u.chain == t.chain && id in u.nodes && Idle(u.nodes[id])
            && u.nodes[id].status.execHeight == u.nodes[id].status.committedHeight == t.nodes[id].stored
  {
    RunInv(w, s, actions);
    var t := Run(w, s, actions);
    var steps := Restart(w, t.chain, t.nodes[id]);
    LocalsRun(w, s, actions, id, steps);
    more := Locals(id, steps);
  }

  /** From there the next decided block is committed without going down. */
  lemma HealedProceeds(w: World, s: System, actions: seq<Action>, id: nat) returns (more: seq<Action>)
    requires ValidGenesis(w) && Initial(s) && id in Run(w, s, actions).nodes
    requires var t := Run(w, s, actions);
             Idle(t.nodes[id]) && t.nodes[id].status.execHeight == t.nodes[id].status.committedHeight < |t.chain|
    ensures Local(id, Crash) !in more && id in Run(w, s, actions + more).nodes
    ensures Run(w, s, actions + more).nodes[id].status.committedHeight ==
            Run(w, s, actions).nodes[id].status.committedHeight + 1
  {
    RunInv(w, s, actions);
    var t := Run(w, s, actions);
    var steps := Proceed(w, t.chain, t.nodes[id]);
    LocalsRun(w, s, actions, id, steps);
    more := Locals(id, steps);
  }

  ghost predicate GoesDownOnce(id: nat, more: seq<Action>) {
    more != [] && more[0] == Local(id, Crash) && Local(id, Crash) !in more[1..]
  }

  lemma NoSecondCrash(id: nat, first: seq<Action>, rest: seq<Action>)
    requires RestartsOnce(id, first) && Local(id, Crash) !in rest
    ensures GoesDownOnce(id, first + rest)
  {
    assert (first + rest)[1..] == first[1..] + rest;
  }

  /** So a node can always get the next decided block with one restart at most: none is stuck for good. */
  lemma OneRestartSuffices(w: World, s: System, actions: seq<Action>, id: nat) returns (more: seq<Action>)
    requires ValidGenesis(w) && Initial(s) && id in Run(w, s, actions).nodes
    requires Run(w, s, actions).nodes[id].stored < |Run(w, s, actions).chain|
    ensures GoesDownOnce(id, more)
    ensures id in Run(w, s, actions + more).nodes
    ensures Run(w, s, actions + more).nodes[id].status.committedHeight == Run(w, s, actions).nodes[id].stored + 1
  {
    var first := RestartHeals(w, s, actions, id);
    var healed := actions + first;
    var rest := HealedProceeds(w, s, healed, id);
    more := first + rest;
    NoSecondCrash(id, first, rest);
    assert healed + rest == actions + more;
  }
}
