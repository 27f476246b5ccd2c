/** The consensus status: what a node knows between committing a header and executing its block.

    `Status` is the value, with the two updates as functions (`None` is a panic of the source);
    `StatusAgent` is the shared object that the source updates in place. */
module ConsensusStatus {
  import opened Types
  import opened Blocks

  datatype ExecutedInfo = ExecutedInfo(
    execHeight: nat,
    cycles: nat,
    stateRoot: Root,
    receiptRoot: Root,
    confirmRoot: Root)

  datatype Status = Status(
    committedHeight: nat,
    execHeight: nat,
    currentHash: Hash,
    committedStateRoot: Root,
    confirmRoots: seq<Root>,
    stateRoots: seq<Root>,
    receiptRoots: seq<Root>,
    cyclesUsed: seq<nat>)
  {
    function LatestStateRoot(): Root {
      if |stateRoots| > 0 then stateRoots[|stateRoots| - 1] else committedStateRoot
    }
  }

  /** The result a block's execution reports; the confirm root is the block's own order root. */
  function InfoOf(w: World, base: Root, block: Block): ExecutedInfo {
    var o := w.exec(base, block);
    ExecutedInfo(block.header.height, o.cycles, o.stateRoot, o.receiptRoot, block.header.orderRoot)
  }

  /** Pairwise comparison of two lists: the header's list must be a prefix of the cached one. */
  predicate CheckListRoots<T(==)>(cache: seq<T>, header: seq<T>)
    ensures CheckListRoots(cache, header) <==> header <= cache
  {
    |header| <= |cache| && forall i | 0 <= i < |cache| && i < |header| :: cache[i] == header[i]
  }

  /** A result is ignored when it is old, appended when it is next, and a panic otherwise. */
  function Executed(s: Status, info: ExecutedInfo): Option<Status> {
    if info.execHeight <= s.execHeight then Some(s)
    else if info.execHeight != s.execHeight + 1 then None
    else Some(s.(
                execHeight := info.execHeight,
                cyclesUsed := s.cyclesUsed + [info.cycles],
                confirmRoots := s.confirmRoots + [info.confirmRoot],
                receiptRoots := s.receiptRoots + [info.receiptRoot],
                stateRoots := s.stateRoots + [info.stateRoot]))
  }

  /** The header confirms a prefix of the three compared lists, and the fourth is long enough. */
  predicate CanSplit(s: Status, h: Header) {
    && |h.confirmRoots| == |h.cyclesUsed| == |h.receiptRoots|
    && CheckListRoots(s.cyclesUsed, h.cyclesUsed)
    && CheckListRoots(s.confirmRoots, h.confirmRoots)
    && CheckListRoots(s.receiptRoots, h.receiptRoots)
    && |h.confirmRoots| <= |s.stateRoots|
  }

  function Committed(s: Status, h: Header, hash: Hash): Option<Status> {
    if h.height != s.committedHeight + 1 || !CanSplit(s, h) then None
    else
      var n := |h.confirmRoots|;
      Some(Status(h.height, s.execHeight, hash, h.stateRoot,
                  s.confirmRoots[n..], s.stateRoots[n..], s.receiptRoots[n..], s.cyclesUsed[n..]))
  }

  /** The status a process starts from: that of the latest stored header, nothing pending. */
  function FromHeader(w: World, h: Header): Status {
    Status(h.height, h.execHeight, w.hash(h), h.stateRoot, [], [], [], [])
  }

  /** The header a proposer builds on its status. */
  function BuildHeader(s: Status, orderRoot: Root): Header {
    Header(s.currentHash, s.committedHeight + 1, s.execHeight, orderRoot,
           s.confirmRoots, s.LatestStateRoot(), s.receiptRoots, s.cyclesUsed)
  }

  /** The checks a validator makes of a proposed header against its own status. */
  predicate CheckBlockRoots(s: Status, h: Header) {
    && s.currentHash == h.prevHash
    && (s.committedStateRoot == h.stateRoot || h.stateRoot in s.stateRoots)
    && CheckListRoots(s.confirmRoots, h.confirmRoots)
    && CheckListRoots(s.receiptRoots, h.receiptRoots)
    && CheckListRoots(s.cyclesUsed, h.cyclesUsed)
  }

  /** The status shared by the engine, the execution daemon and synchronization. */
  class StatusAgent {
    var latestCommittedHeight: nat
    var execHeight: nat
    var currentHash: Hash
    var latestCommittedStateRoot: Root
    var listConfirmRoot: seq<Root>
    var listStateRoot: seq<Root>
    var listReceiptRoot: seq<Root>
    var listCyclesUsed: seq<nat>

    function View(): Status
      reads this
    {
      Status(latestCommittedHeight, execHeight, currentHash, latestCommittedStateRoot,
             listConfirmRoot, listStateRoot, listReceiptRoot, listCyclesUsed)
    }

    constructor (s: Status)
      ensures View() == s
    {
      latestCommittedHeight := s.committedHeight;
      execHeight := s.execHeight;
      currentHash := s.currentHash;
      latestCommittedStateRoot := s.committedStateRoot;
      listConfirmRoot := s.confirmRoots;
      listStateRoot := s.stateRoots;
      listReceiptRoot := s.receiptRoots;
      listCyclesUsed := s.cyclesUsed;
    }

    method Replace(s: Status)
      modifies this
      ensures View() == s
    {
      latestCommittedHeight := s.committedHeight;
      execHeight := s.execHeight;
      currentHash := s.currentHash;
      latestCommittedStateRoot := s.committedStateRoot;
      listConfirmRoot := s.confirmRoots;
      listStateRoot := s.stateRoots;
      listReceiptRoot := s.receiptRoots;
      listCyclesUsed := s.cyclesUsed;
    }

    method UpdateByExecuted(info: ExecutedInfo) returns (panicked: bool)
      modifies this
      ensures panicked <==> Executed(old(View()), info).None?
      ensures !panicked ==> Executed(old(View()), info) == Some(View())
      ensures panicked ==> View() == old(View())
    {
      if info.execHeight <= execHeight {
        return false;
      }
      if info.execHeight != execHeight + 1 {
        return true;
      }
      execHeight := execHeight + 1;
      listCyclesUsed := listCyclesUsed + [info.cycles];
      listConfirmRoot := listConfirmRoot + [info.confirmRoot];
      listReceiptRoot := listReceiptRoot + [info.receiptRoot];
      listStateRoot := listStateRoot + [info.stateRoot];
      return false;
    }

    /** A panic leaves the object half updated; the process then quits. */
    method UpdateByCommitted(block: Block, hash: Hash) returns (panicked: bool)
      modifies this
      ensures panicked <==> Committed(old(View()), block.header, hash).None?
      ensures !panicked ==> Committed(old(View()), block.header, hash) == Some(View())
    {
      if block.header.height != latestCommittedHeight + 1 {
        return true;
      }
      latestCommittedHeight := block.header.height;
      currentHash := hash;
      latestCommittedStateRoot := block.header.stateRoot;
      panicked := SplitOff(block.header);
    }

    method SplitOff(h: Header) returns (panicked: bool)
      modifies `listCyclesUsed, `listConfirmRoot, `listReceiptRoot, `listStateRoot
      ensures panicked <==> !CanSplit(old(View()), h)
      ensures !panicked ==>
                && listCyclesUsed == old(listCyclesUsed)[|h.confirmRoots|..]
                && listConfirmRoot == old(listConfirmRoot)[|h.confirmRoots|..]
                && listReceiptRoot == old(listReceiptRoot)[|h.confirmRoots|..]
                && listStateRoot == old(listStateRoot)[|h.confirmRoots|..]
    {
      var len := |h.confirmRoots|;
      if len != |h.cyclesUsed| || len != |h.receiptRoots| {
        return true;
      }
      if !CheckListRoots(listCyclesUsed, h.cyclesUsed) {
        return true;
      }
      if !CheckListRoots(listConfirmRoot, h.confirmRoots) {
        return true;
      }
      if !CheckListRoots(listReceiptRoot, h.receiptRoots) {
        return true;
      }
      listCyclesUsed := listCyclesUsed[len..];
      listConfirmRoot := listConfirmRoot[len..];
      listReceiptRoot := listReceiptRoot[len..];
      if len > |listStateRoot| {
        return true;
      }
      listStateRoot := listStateRoot[len..];
      return false;
    }
  }
}
