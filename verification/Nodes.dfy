/** The commit/execute machine of a network of nodes, as one transition system.

    A node's status is changed by three activities: the engine's commit together with the execution
    daemon, synchronization, and recovery after a crash. Every access to the shared status, to
    storage and to the execution queue is a step of its own, and steps interleave freely. Commits
    may be abandoned, executions may fail, and a node may crash between any two steps. */
module Nodes {
  import opened Types
  import opened Blocks
  import opened ConsensusStatus
  import opened CommitPipeline

  /** Who holds the commit lock and how far it got; `Down` and `Recovering` are whole-process. */
  datatype Job =
    | Free
    | CommitWaiting
    | CommitQueued
    | CommitSaved
    | SyncWaiting
    | SyncObserved
    | SyncReady(agent: Status)
    | SyncExecuted(agent: Status)
    | SyncCommitted(agent: Status)
    | SyncSaved(agent: Status)
    | Down
    | Recovering

  datatype Daemon =
    | Resting
    | Taken(height: nat)
    | Running(height: nat, base: Root)

  /** `stored` is the height of the latest stored block, `queue` the heights waiting for execution,
      `gap` the capacity of that queue, `passed` the blocks this process proposed or checked,
      `failed` whether an execution has failed since the process started. */
  datatype Node = Node(
    status: Status,
    stored: nat,
    queue: seq<nat>,
    gap: nat,
    daemon: Daemon,
    job: Job,
    passed: set<Block>,
    failed: bool)
  {
    predicate Up() { !job.Down? && !job.Recovering? }

    predicate Committing() { job.CommitWaiting? || job.CommitQueued? || job.CommitSaved? }

    predicate Syncing() {
      job.SyncWaiting? || job.SyncObserved? || job.SyncReady? || job.SyncExecuted?
      || job.SyncCommitted? || job.SyncSaved?
    }

    /** Consensus hands a node only blocks that it proposed or checked, or that it had decided before a
        restart; after a restart everything committed is executed. */
    predicate MayCommit(b: Block) {
      b in passed || status.committedHeight <= status.execHeight
    }

    /** Heights handed over for execution and not finished, oldest first. */
    function Pending(): seq<nat> {
      (if daemon.Resting? then [] else [daemon.height]) + queue
    }

    /** The highest block that was handed over and not abandoned. */
    function Handed(): nat {
      status.committedHeight + if job.CommitQueued? || job.CommitSaved? then 1 else 0
    }
  }

  datatype NodeAction =
    | CommitStart | CommitEnqueue | CommitSave | CommitFinish | CommitAbort
    | SyncBegin | SyncObserve | SyncCopy | SyncExec | SyncCommit | SyncSave | SyncReplace | SyncStop
    | DaemonTake | DaemonRead | DaemonDone | DaemonFail
    | Crash | Boot | RecoverExec | RecoverDone

  /** A panic in any task ends the process; memory is lost, storage is kept. */
  function Crashed(n: Node): Node {
    n.(job := Down, queue := [], daemon := Resting, passed := {}, failed := false)
  }

  function SetStatus(n: Node, r: Option<Status>): Node {
    if r.None? then Crashed(n) else n.(status := r.value)
  }

  function CommitStep(w: World, chain: seq<Block>, n: Node, a: NodeAction): Node {
    var c := n.status.committedHeight;
    match a
    case CommitStart =>
      if n.job.Free? && c < |chain| && n.MayCommit(chain[c]) && n.status.execHeight != c + 1
      then n.(job := CommitWaiting) else n
    case CommitEnqueue =>
      if n.job.CommitWaiting? && |n.queue| < n.gap
      then n.(job := CommitQueued, queue := n.queue + [c + 1]) else n
    case CommitSave =>
      if n.job.CommitQueued? then n.(job := CommitSaved, stored := c + 1) else n
    case CommitFinish =>
      if n.job.CommitSaved? && c < |chain|
      then SetStatus(n.(job := Free, passed := {}),
                     Committed(n.status, chain[c].header, w.hash(chain[c].header)))
      else n
    case CommitAbort => if n.Committing() then n.(job := Free) else n
    case _ => n
  }

  function SyncStep(w: World, chain: seq<Block>, n: Node, a: NodeAction): Node {
    match a
    case SyncBegin => if n.job.Free? then n.(job := SyncWaiting) else n
    case SyncObserve =>
      if n.job.SyncWaiting? && n.status.execHeight == n.status.committedHeight
      then n.(job := SyncObserved) else n
    case SyncCopy => if n.job.SyncObserved? then n.(job := SyncReady(n.status)) else n
    case SyncExec =>
      if n.job.SyncReady? && n.job.agent.committedHeight < |chain| then
        var agent := n.job.agent;
        var r := Executed(agent, InfoOf(w, agent.LatestStateRoot(), chain[agent.committedHeight]));
        if r.None? then Crashed(n) else n.(job := SyncExecuted(r.value))
      else n
    case SyncCommit =>
      if n.job.SyncExecuted? && n.job.agent.committedHeight < |chain| then
        var h := chain[n.job.agent.committedHeight].header;
        var r := Committed(n.job.agent, h, w.hash(h));
        if r.None? then Crashed(n) else n.(job := SyncCommitted(r.value))
      else n
    case SyncSave =>
      if n.job.SyncCommitted?
      then n.(job := SyncSaved(n.job.agent), stored := n.job.agent.committedHeight) else n
    case SyncReplace =>
      if n.job.SyncSaved? then n.(job := SyncReady(n.job.agent), status := n.job.agent) else n
    case SyncStop => if n.Syncing() then n.(job := Free) else n
    case _ => n
  }

  function DaemonStep(w: World, chain: seq<Block>, n: Node, a: NodeAction): Node {
    if !n.Up() then n else
      match a
      case DaemonTake =>
        if n.daemon.Resting? && |n.queue| > 0
        then n.(daemon := Taken(n.queue[0]), queue := n.queue[1..]) else n
      case DaemonRead =>
        if n.daemon.Taken? then n.(daemon := Running(n.daemon.height, n.status.LatestStateRoot())) else n
      case DaemonDone =>
        if n.daemon.Running? && 0 < n.daemon.height <= |chain|
        then SetStatus(n.(daemon := Resting),
                       Executed(n.status, InfoOf(w, n.daemon.base, chain[n.daemon.height - 1])))
        else n
      case DaemonFail =>
        if n.daemon.Resting? then n else n.(daemon := Resting, failed := true)
      case _ => n
  }

  function ProcessStep(w: World, chain: seq<Block>, n: Node, a: NodeAction): Node {
    match a
    case Crash => Crashed(n)
    case Boot =>
      if n.job.Down? && n.stored <= |chain|
      then n.(job := Recovering, status := FromHeader(w, HeaderAt(w, chain, n.stored))) else n
    case RecoverExec =>
      if n.job.Recovering? && n.status.execHeight < n.status.committedHeight <= |chain|
      then SetStatus(n, Executed(n.status, InfoOf(w, n.status.LatestStateRoot(), chain[n.status.execHeight])))
      else n
    case RecoverDone =>
      if n.job.Recovering? && n.status.execHeight >= n.status.committedHeight then n.(job := Free) else n
    case _ => n
  }

  function NodeStep(w: World, chain: seq<Block>, n: Node, a: NodeAction): Node {
    match a
    case CommitStart | CommitEnqueue | CommitSave | CommitFinish | CommitAbort => CommitStep(w, chain, n, a)
    case SyncBegin | SyncObserve | SyncCopy | SyncExec | SyncCommit | SyncSave | SyncReplace | SyncStop =>
      SyncStep(w, chain, n, a)
    case DaemonTake | DaemonRead | DaemonDone | DaemonFail => DaemonStep(w, chain, n, a)
    case Crash | Boot | RecoverExec | RecoverDone => ProcessStep(w, chain, n, a)
  }

  // ----- what every step keeps -----

  ghost predicate Exact(w: World, chain: seq<Block>, s: Status) {
    && InRange(w, chain, s.committedHeight, s.execHeight)
    && s == StatusAt(w, chain, s.committedHeight, s.execHeight)
    && s.execHeight <= s.committedHeight + 1
  }

  ghost predicate PassedOk(n: Node) {
    forall b | b in n.passed ::
      && b.header.height <= n.status.committedHeight + 1
      && (b.header.height == n.status.committedHeight + 1 ==> b.header.execHeight <= n.status.execHeight)
  }

  /** Heights in order, from one up to `top` and within a chain of `length` blocks. */
  ghost predicate HeightsOk(p: seq<nat>, top: nat, length: nat) {
    && (forall i | 0 <= i < |p| :: 0 < p[i] <= top && p[i] <= length)
    && (forall i, j | 0 <= i < j < |p| :: p[i] <= p[j])
  }

  ghost predicate PendingOk(chain: seq<Block>, n: Node) {
    HeightsOk(n.Pending(), n.status.committedHeight + 1, |chain|) && |n.queue| <= n.gap
  }

  /** A running execution started from the state its block needs, unless its result cannot count. */
  ghost predicate DaemonOk(w: World, chain: seq<Block>, n: Node) {
    n.daemon.Running? && n.daemon.height == n.status.execHeight + 1 && n.status.execHeight <= |chain|
    ==> n.daemon.base == StateAfter(w, chain, n.status.execHeight)
  }

  ghost predicate Covered(n: Node) {
    forall k: nat | n.status.execHeight < k <= n.Handed() :: k in n.Pending()
  }

  ghost predicate JobOk(w: World, chain: seq<Block>, n: Node) {
    var c := n.status.committedHeight;
    match n.job
    case Free => true
    case CommitWaiting => c < |chain| && n.MayCommit(chain[c])
    case CommitQueued => c < |chain| && n.MayCommit(chain[c])
    case CommitSaved => c < |chain| && n.MayCommit(chain[c]) && n.stored == c + 1
    case SyncWaiting => true
    case SyncObserved => c <= n.status.execHeight
    case SyncReady(agent) =>
      && c <= n.status.execHeight
      && Exact(w, chain, agent) && agent.committedHeight == c <= agent.execHeight
    case SyncExecuted(agent) =>
      && c <= n.status.execHeight
      && c < |chain|
      && Exact(w, chain, agent) && agent.committedHeight == c && agent.execHeight == c + 1
    case SyncCommitted(agent) =>
      && c <= n.status.execHeight
      && Exact(w, chain, agent) && agent.committedHeight == c + 1 == agent.execHeight
    case SyncSaved(agent) =>
      && c <= n.status.execHeight
      && Exact(w, chain, agent) && agent.committedHeight == c + 1 == agent.execHeight
      && n.stored == c + 1
    case Down => n.daemon.Resting? && n.queue == [] && n.passed == {}
    case Recovering =>
      && n.daemon.Resting? && n.queue == [] && n.passed == {}
      && n.status.execHeight <= c
  }

  ghost predicate NodeInv(w: World, chain: seq<Block>, n: Node) {
    && n.stored <= |chain|
    && JobOk(w, chain, n)
    && (!n.job.Down? ==>
          && Exact(w, chain, n.status)
          && n.status.committedHeight <= n.stored <= n.status.committedHeight + 1
          && PassedOk(n)
          && PendingOk(chain, n)
          && DaemonOk(w, chain, n)
          && (n.Up() && !n.failed ==> Covered(n)))
  }

  lemma CrashedInv(w: World, chain: seq<Block>, n: Node)
    requires n.stored <= |chain|
    ensures NodeInv(w, chain, Crashed(n))
  {
  }

  /** The oldest pending block is the next one to execute, or older. */
  lemma OldestIsNext(w: World, chain: seq<Block>, n: Node)
    requires NodeInv(w, chain, n) && n.Up() && !n.failed && |n.Pending()| > 0
    ensures n.Pending()[0] <= n.status.execHeight + 1
  {
    var p, e := n.Pending(), n.status.execHeight;
    if e + 1 <= n.Handed() {
      assert e + 1 in p;
      var i :| 0 <= i < |p| && p[i] == e + 1;
      assert i == 0 || p[0] <= p[i];
    }
  }

  lemma CommitEnqueueInv(w: World, chain: seq<Block>, n: Node)
    requires NodeInv(w, chain, n)
    ensures NodeInv(w, chain, CommitStep(w, chain, n, CommitEnqueue))
  {
    var m := CommitStep(w, chain, n, CommitEnqueue);
    if n.job.CommitWaiting? && |n.queue| < n.gap {
      var c := n.status.committedHeight;
      assert m.Pending() == n.Pending() + [c + 1];
      assert m.Handed() == c + 1;
      assert m.Pending()[|n.Pending()|] == c + 1;
    }
  }

  lemma CommitFinishInv(w: World, chain: seq<Block>, n: Node)
    requires ValidChain(w, chain) && NodeInv(w, chain, n)
    ensures NodeInv(w, chain, CommitStep(w, chain, n, CommitFinish))
  {
    var m := CommitStep(w, chain, n, CommitFinish);
    if m != n {
      var c, e := n.status.committedHeight, n.status.execHeight;
      CommitNext(w, chain, c, e);
      assert BlockOk(w, chain, c + 1);
      assert m.Pending() == n.Pending();
    }
  }

  lemma CommitStepInv(w: World, chain: seq<Block>, n: Node, a: NodeAction)
    requires ValidChain(w, chain) && NodeInv(w, chain, n)
    ensures NodeInv(w, chain, CommitStep(w, chain, n, a))
  {
    if a.CommitEnqueue? {
      CommitEnqueueInv(w, chain, n);
    } else if a.CommitFinish? {
      CommitFinishInv(w, chain, n);
    } else {
      assert CommitStep(w, chain, n, a).Pending() == n.Pending();
    }
  }

  /** Only the job and the stored height move: status, queue and daemon facts carry over. */
  lemma JobChangeInv(w: World, chain: seq<Block>, n: Node, job: Job, stored: nat)
    requires NodeInv(w, chain, n) && n.Up()
    requires n.status.committedHeight <= stored <= n.status.committedHeight + 1 && stored <= |chain|
    requires var m := n.(job := job, stored := stored);
             m.Up() && m.Handed() <= n.Handed() && JobOk(w, chain, m)
    ensures NodeInv(w, chain, n.(job := job, stored := stored))
  {
    assert n.(job := job, stored := stored).Pending() == n.Pending();
  }

  lemma SyncExecInv(w: World, chain: seq<Block>, n: Node)
    requires ValidChain(w, chain) && NodeInv(w, chain, n)
    ensures NodeInv(w, chain, SyncStep(w, chain, n, SyncExec))
  {
    var m := SyncStep(w, chain, n, SyncExec);
    if n.job.SyncReady? && n.job.agent.committedHeight < |chain| {
      var agent := n.job.agent;
      var c := agent.committedHeight;
      LatestRootIsExecuted(w, chain, c, agent.execHeight);
      if agent.execHeight == c {
        ExecuteNext(w, chain, c, c);
      } else {
        ExecuteAgain(w, chain, c, c + 1, c + 1, agent.LatestStateRoot());
      }
      JobChangeInv(w, chain, n, m.job, n.stored);
    }
  }

  lemma SyncCommitInv(w: World, chain: seq<Block>, n: Node)
    requires ValidChain(w, chain) && NodeInv(w, chain, n)
    ensures NodeInv(w, chain, SyncStep(w, chain, n, SyncCommit))
  {
    var m := SyncStep(w, chain, n, SyncCommit);
    if n.job.SyncExecuted? && n.job.agent.committedHeight < |chain| {
      var c := n.job.agent.committedHeight;
      CommitNext(w, chain, c, c + 1);
      assert BlockOk(w, chain, c + 1);
      JobChangeInv(w, chain, n, m.job, n.stored);
    }
  }

  lemma SyncReplaceInv(w: World, chain: seq<Block>, n: Node)
    requires NodeInv(w, chain, n)
    ensures NodeInv(w, chain, SyncStep(w, chain, n, SyncReplace))
  {
    var m := SyncStep(w, chain, n, SyncReplace);
    if m != n {
      assert m.Pending() == n.Pending();
      assert n.daemon.Resting? || n.Pending()[0] == n.daemon.height;
    }
  }

  lemma SyncMoveInv(w: World, chain: seq<Block>, n: Node, a: NodeAction)
    requires NodeInv(w, chain, n)
    requires !a.SyncExec? && !a.SyncCommit? && !a.SyncReplace?
    ensures NodeInv(w, chain, SyncStep(w, chain, n, a))
  {
    if a.SyncBegin? && n.job.Free? {
      JobChangeInv(w, chain, n, SyncWaiting, n.stored);
    } else if a.SyncObserve? && n.job.SyncWaiting? && n.status.execHeight == n.status.committedHeight {
      JobChangeInv(w, chain, n, SyncObserved, n.stored);
    } else if a.SyncCopy? && n.job.SyncObserved? {
      JobChangeInv(w, chain, n, SyncReady(n.status), n.stored);
    } else if a.SyncSave? && n.job.SyncCommitted? {
      JobChangeInv(w, chain, n, SyncSaved(n.job.agent), n.job.agent.committedHeight);
    } else if a.SyncStop? && n.Syncing() {
      JobChangeInv(w, chain, n, Free, n.stored);
    }
  }

  lemma SyncStepInv(w: World, chain: seq<Block>, n: Node, a: NodeAction)
    requires ValidChain(w, chain) && NodeInv(w, chain, n)
    ensures NodeInv(w, chain, SyncStep(w, chain, n, a))
  {
    match a
    case SyncExec => SyncExecInv(w, chain, n);
    case SyncCommit => SyncCommitInv(w, chain, n);
    case SyncReplace => SyncReplaceInv(w, chain, n);
    case _ => SyncMoveInv(w, chain, n, a);
  }

  /** Letting go of the daemon's block keeps the rest of the pending heights in order. */
  lemma DropDaemon(chain: seq<Block>, n: Node)
    requires PendingOk(chain, n) && !n.daemon.Resting?
    ensures n.Pending() == [n.daemon.height] + n.queue
    ensures 0 < n.daemon.height <= |chain|
    ensures forall k | k in n.Pending() && k != n.daemon.height :: k in n.queue
    ensures PendingOk(chain, n.(daemon := Resting))
  {
    assert n.Pending()[0] == n.daemon.height;
    assert n.Pending()[1..] == n.queue;
    TailOk(n.Pending(), n.status.committedHeight + 1, |chain|);
    assert n.(daemon := Resting).Pending() == n.queue;
  }

  lemma TailOk(p: seq<nat>, top: nat, length: nat)
    requires p != [] && HeightsOk(p, top, length)
    ensures HeightsOk(p[1..], top, length)
  {
  }

  lemma DaemonFailInv(w: World, chain: seq<Block>, n: Node)
    requires NodeInv(w, chain, n) && n.Up() && !n.daemon.Resting?
    ensures NodeInv(w, chain, n.(daemon := Resting, failed := true))
  {
    DropDaemon(chain, n);
    assert n.(daemon := Resting, failed := true).Pending() == n.queue;
  }

  /** The same pending heights, with the daemon further along. */
  lemma DaemonMoveInv(w: World, chain: seq<Block>, n: Node, daemon: Daemon, queue: seq<nat>)
    requires NodeInv(w, chain, n) && n.Up() && |queue| <= n.gap
    requires var m := n.(daemon := daemon, queue := queue); m.Pending() == n.Pending() && DaemonOk(w, chain, m)
    ensures NodeInv(w, chain, n.(daemon := daemon, queue := queue))
  {
  }

  /** A result that is old by now is dropped. */
  lemma DaemonStale(w: World, chain: seq<Block>, n: Node)
    requires ValidChain(w, chain) && NodeInv(w, chain, n) && n.Up() && n.daemon.Running?
    requires n.daemon.height <= n.status.execHeight
    ensures DaemonStep(w, chain, n, DaemonDone) == n.(daemon := Resting)
    ensures NodeInv(w, chain, n.(daemon := Resting))
  {
    DropDaemon(chain, n);
    assert BlockOk(w, chain, n.daemon.height);
    ExecuteAgain(w, chain, n.status.committedHeight, n.status.execHeight, n.daemon.height, n.daemon.base);
  }

  /** The result of the next block moves the status one height on. */
  lemma DaemonNext(w: World, chain: seq<Block>, n: Node)
    requires ValidChain(w, chain) && NodeInv(w, chain, n) && n.Up() && n.daemon.Running?
    requires n.daemon.height == n.status.execHeight + 1
    ensures n.daemon.height <= |chain| && InRange(w, chain, n.status.committedHeight, n.daemon.height)
    ensures var m := n.(daemon := Resting, status := StatusAt(w, chain, n.status.committedHeight, n.daemon.height));
            DaemonStep(w, chain, n, DaemonDone) == m && NodeInv(w, chain, m)
  {
    var c, e := n.status.committedHeight, n.status.execHeight;
    DropDaemon(chain, n);
    assert n.Pending()[0] == e + 1;
    assert BlockOk(w, chain, e + 1);
    ExecuteNext(w, chain, c, e);
    var m := n.(daemon := Resting, status := StatusAt(w, chain, c, e + 1));
    assert m.Pending() == n.(daemon := Resting).Pending();
  }

  lemma DaemonDoneInv(w: World, chain: seq<Block>, n: Node)
    requires ValidChain(w, chain) && NodeInv(w, chain, n)
    ensures NodeInv(w, chain, DaemonStep(w, chain, n, DaemonDone))
  {
    if n.Up() && n.daemon.Running? {
      DropDaemon(chain, n);
      if n.daemon.height <= n.status.execHeight {
        DaemonStale(w, chain, n);
      } else if n.daemon.height == n.status.execHeight + 1 {
        DaemonNext(w, chain, n);
      } else {
        assert BlockOk(w, chain, n.daemon.height);
        CrashedInv(w, chain, n.(daemon := Resting));
      }
    }
  }

  lemma DaemonStepInv(w: World, chain: seq<Block>, n: Node, a: NodeAction)
    requires ValidChain(w, chain) && NodeInv(w, chain, n)
    ensures NodeInv(w, chain, DaemonStep(w, chain, n, a))
  {
    var m := DaemonStep(w, chain, n, a);
    if a.DaemonDone? {
      DaemonDoneInv(w, chain, n);
    } else if a.DaemonTake? && n.Up() && n.daemon.Resting? && |n.queue| > 0 {
      assert m.Pending() == n.Pending();
      DaemonMoveInv(w, chain, n, m.daemon, m.queue);
    } else if a.DaemonRead? && n.Up() && n.daemon.Taken? {
      LatestRootIsExecuted(w, chain, n.status.committedHeight, n.status.execHeight);
      DaemonMoveInv(w, chain, n, m.daemon, n.queue);
    } else if a.DaemonFail? && n.Up() && !n.daemon.Resting? {
      DaemonFailInv(w, chain, n);
    }
  }

  lemma BootInv(w: World, chain: seq<Block>, n: Node)
    requires ValidChain(w, chain) && NodeInv(w, chain, n) && n.job.Down?
    ensures NodeInv(w, chain, n.(job := Recovering, status := FromHeader(w, HeaderAt(w, chain, n.stored))))
  {
    BootStatus(w, chain, n.stored);
    HeaderBounds(w, chain, n.stored);
  }

  lemma RecoverExecInv(w: World, chain: seq<Block>, n: Node)
    requires ValidChain(w, chain) && NodeInv(w, chain, n) && n.job.Recovering?
    requires n.status.execHeight < n.status.committedHeight <= |chain|
    ensures NodeInv(w, chain, ProcessStep(w, chain, n, RecoverExec))
  {
    var c, e := n.status.committedHeight, n.status.execHeight;
    LatestRootIsExecuted(w, chain, c, e);
    ExecuteNext(w, chain, c, e);
    assert ProcessStep(w, chain, n, RecoverExec) == n.(status := StatusAt(w, chain, c, e + 1));
  }

  lemma ProcessStepInv(w: World, chain: seq<Block>, n: Node, a: NodeAction)
    requires ValidChain(w, chain) && NodeInv(w, chain, n)
    ensures NodeInv(w, chain, ProcessStep(w, chain, n, a))
  {
    if a.Crash? {
      CrashedInv(w, chain, n);
    } else if a.Boot? && n.job.Down? {
      BootInv(w, chain, n);
    } else if a.RecoverExec? && n.job.Recovering? && n.status.execHeight < n.status.committedHeight {
      RecoverExecInv(w, chain, n);
    } else if a.RecoverDone? && n.job.Recovering? && n.status.execHeight >= n.status.committedHeight {
      JobFreeInv(w, chain, n);
    }
  }

  lemma JobFreeInv(w: World, chain: seq<Block>, n: Node)
    requires NodeInv(w, chain, n) && n.job.Recovering? && n.status.execHeight >= n.status.committedHeight
    ensures NodeInv(w, chain, n.(job := Free))
  {
    assert n.(job := Free).Pending() == n.Pending();
  }

  predicate CommitAction(a: NodeAction) {
    a.CommitStart? || a.CommitEnqueue? || a.CommitSave? || a.CommitFinish? || a.CommitAbort?
  }

  predicate DaemonAction(a: NodeAction) {
    a.DaemonTake? || a.DaemonRead? || a.DaemonDone? || a.DaemonFail?
  }

  predicate ProcessAction(a: NodeAction) {
    a.Crash? || a.Boot? || a.RecoverExec? || a.RecoverDone?
  }

  lemma WhichStep(w: World, chain: seq<Block>, n: Node, a: NodeAction)
    ensures NodeStep(w, chain, n, a) ==
            if CommitAction(a) then CommitStep(w, chain, n, a)
            else if DaemonAction(a) then DaemonStep(w, chain, n, a)
            else if ProcessAction(a) then ProcessStep(w, chain, n, a)
            else SyncStep(w, chain, n, a)
  {
  }

  /** Every step of a node keeps its invariant. */
  lemma NodeStepInv(w: World, chain: seq<Block>, n: Node, a: NodeAction)
    requires ValidChain(w, chain) && NodeInv(w, chain, n)
    ensures NodeInv(w, chain, NodeStep(w, chain, n, a))
  {
    WhichStep(w, chain, n, a);
    if CommitAction(a) {
      CommitStepInv(w, chain, n, a);
    } else if DaemonAction(a) {
      DaemonStepInv(w, chain, n, a);
    } else if ProcessAction(a) {
      ProcessStepInv(w, chain, n, a);
    } else {
      SyncStepInv(w, chain, n, a);
    }
  }
}
