/** The two loops that bring a status up to date: re-execution after a restart, and block
    synchronization from a peer. Both end in the status that plain execution defines. */
module Recovery {
  import opened Types
  import opened Blocks
  import opened ConsensusStatus
  import opened CommitPipeline

  const ONCE_SYNC_BLOCK_LIMIT: nat := 50

  /** Blocks found under their heights, and not refused, are the decided ones; some may be missing. */
  ghost predicate HoldsDecided(chain: seq<Block>, store: map<nat, Block>, refused: set<nat>) {
    forall h | h in store && h !in refused :: 0 < h <= |chain| && store[h] == chain[h - 1]
  }

  /** Runs one block on the agent's latest state and reports the result to the agent. */
  method ExecBlock(w: World, block: Block, agent: StatusAgent) returns (panicked: bool)
    modifies agent
    ensures var r := Executed(old(agent.View()), InfoOf(w, old(agent.View()).LatestStateRoot(), block));
            && panicked == r.None?
            && (!panicked ==> Some(agent.View()) == r)
  {
    var current := agent.View();
    panicked := agent.UpdateByExecuted(InfoOf(w, current.LatestStateRoot(), block));
  }

  /** Restart: the status of the latest stored header, then every block above its execution height
      in turn. It stops with an error exactly when a block it needs is missing or `refused`: its
      transactions cannot be found or its execution fails. */
  method Restart(w: World, ghost chain: seq<Block>, latest: Header, store: map<nat, Block>, refused: set<nat>)
    returns (ok: bool, agent: StatusAgent)
    requires ValidChain(w, chain) && HoldsDecided(chain, store, refused)
    requires latest.height <= |chain| && latest == HeaderAt(w, chain, latest.height)
    ensures fresh(agent)
    ensures ok <==> forall h | latest.execHeight < h <= latest.height :: h in store && h !in refused
    ensures ok ==>
              && InRange(w, chain, latest.height, latest.height)
              && agent.View() == StatusAt(w, chain, latest.height, latest.height)
  {
    agent := new StatusAgent(FromHeader(w, latest));
    BootStatus(w, chain, latest.height);
    HeaderBounds(w, chain, latest.height);
    var height := latest.execHeight + 1;
    while height <= latest.height
      invariant latest.execHeight < height <= latest.height + 1
      invariant fresh(agent)
      invariant InRange(w, chain, latest.height, height - 1)
      invariant agent.View() == StatusAt(w, chain, latest.height, height - 1)
      invariant forall h | latest.execHeight < h < height :: h in store && h !in refused
    {
      if height !in store || height in refused {
        return false, agent;
      }
      LatestRootIsExecuted(w, chain, latest.height, height - 1);
      ExecuteNext(w, chain, latest.height, height - 1);
      var panicked := ExecBlock(w, store[height], agent);
      assert !panicked;
      height := height + 1;
    }
    return true, agent;
  }

  /** One synchronized block: executed first, then committed, both on the private agent. */
  method CommitBlock(w: World, ghost chain: seq<Block>, block: Block, agent: StatusAgent)
    returns (panicked: bool)
    requires ValidChain(w, chain)
    requires var c := agent.latestCommittedHeight;
             && c < |chain| && block == chain[c]
             && InRange(w, chain, c, c) && agent.View() == StatusAt(w, chain, c, c)
    modifies agent
    ensures !panicked
    ensures var c := old(agent.latestCommittedHeight) + 1;
            InRange(w, chain, c, c) && agent.View() == StatusAt(w, chain, c, c)
  {
    ghost var c := agent.latestCommittedHeight;
    LatestRootIsExecuted(w, chain, c, c);
    ExecuteNext(w, chain, c, c);
    assert BlockOk(w, chain, c + 1);
    CommitNext(w, chain, c, c + 1);
    panicked := ExecBlock(w, block, agent);
    if !panicked {
      panicked := agent.UpdateByCommitted(block, w.hash(block.header));
    }
  }

  /** Synchronization fetches, executes and commits at most fifty blocks and publishes the status
      after each. However far it gets, the published status is exact; it falls short of its goal
      only at the first height that the peer does not deliver or whose block is `refused`: its header,
      proof or order hash does not verify, or its transactions cannot be fetched or executed. */
  method StartSync(
      w: World, ghost chain: seq<Block>, remoteHeight: nat, remote: map<nat, Block>, refused: set<nat>,
      status: StatusAgent)
    returns (ok: bool)
    requires ValidChain(w, chain) && HoldsDecided(chain, remote, refused)
    requires var c := status.latestCommittedHeight;
             InRange(w, chain, c, c) && status.View() == StatusAt(w, chain, c, c)
    modifies status
    ensures var c, k := old(status.latestCommittedHeight), status.latestCommittedHeight;
            var goal := if c + ONCE_SYNC_BLOCK_LIMIT > remoteHeight then remoteHeight
                        else c + ONCE_SYNC_BLOCK_LIMIT;
            && c <= k
            && (forall h | c < h <= k :: h in remote && h !in refused)
            && InRange(w, chain, k, k) && status.View() == StatusAt(w, chain, k, k)
            && (ok ==> k == if goal <= c then c else goal)
            && (!ok ==> k < goal && (k + 1 !in remote || k + 1 in refused))
  {
    ghost var c := status.latestCommittedHeight;
    var current := status.latestCommittedHeight;
    var goal := if current + ONCE_SYNC_BLOCK_LIMIT > remoteHeight then remoteHeight
                else current + ONCE_SYNC_BLOCK_LIMIT;
    var agent := new StatusAgent(status.View());
    while current < goal
      invariant c <= current && (current <= goal || current == c)
      invariant agent != status
      invariant forall h | c < h <= current :: h in remote && h !in refused
      invariant InRange(w, chain, current, current)
      invariant agent.View() == status.View() == StatusAt(w, chain, current, current)
    {
      if current + 1 !in remote || current + 1 in refused {
        return false;
      }
      var panicked := CommitBlock(w, chain, remote[current + 1], agent);
      assert !panicked;
      status.Replace(agent.View());
      current := current + 1;
    }
    return true;
  }
}
