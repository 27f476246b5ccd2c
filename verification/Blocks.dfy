/** Blocks, headers and deterministic execution, as the commit/execute pipeline sees them.

    Hashes, Merkle roots and transactions are opaque values. Running a block is a function of the
    state root it starts from and the block itself; the function is a parameter of every theorem. */
module Blocks {
  import opened Types

  type Root(==, !new)
  type Tx(==, !new)

  datatype Header = Header(
    prevHash: Hash,
    height: nat,
    execHeight: nat,
    orderRoot: Root,
    confirmRoots: seq<Root>,
    stateRoot: Root,
    receiptRoots: seq<Root>,
    cyclesUsed: seq<nat>)

  datatype Block = Block(header: Header, txs: seq<Tx>)

  /** What the executor returns for one block. */
  datatype Outcome = Outcome(stateRoot: Root, receiptRoot: Root, cycles: nat)

  /** Everything foreign: the hash of a header, the genesis header and the executor. */
  datatype World = World(
    genesis: Header,
    hash: Header -> Hash,
    exec: (Root, Block) -> Outcome)

  /** The genesis block is at height 0, already executed, and confirms nothing. */
  ghost predicate ValidGenesis(w: World) {
    && w.genesis.height == 0
    && w.genesis.execHeight == 0
    && w.genesis.confirmRoots == []
    && w.genesis.receiptRoots == []
    && w.genesis.cyclesUsed == []
  }

  /** `chain[h - 1]` is the block decided at height `h`. */
  function HeaderAt(w: World, chain: seq<Block>, h: nat): Header
    requires h <= |chain|
  {
    if h == 0 then w.genesis else chain[h - 1].header
  }

  /** Plain sequential execution: the state root after the first `h` blocks. */
  function StateAfter(w: World, chain: seq<Block>, h: nat): Root
    requires h <= |chain|
    decreases h, 1
  {
    if h == 0 then w.genesis.stateRoot else OutcomeAt(w, chain, h).stateRoot
  }

  function OutcomeAt(w: World, chain: seq<Block>, h: nat): Outcome
    requires 0 < h <= |chain|
    decreases h, 0
  {
    w.exec(StateAfter(w, chain, h - 1), chain[h - 1])
  }

  /** Results of the blocks at heights `lo + 1 .. hi`, in height order. */
  function Confirms(w: World, chain: seq<Block>, lo: nat, hi: nat): seq<Root>
    requires lo <= hi <= |chain|
  {
    seq(hi - lo, i requires 0 <= i < hi - lo => chain[lo + i].header.orderRoot)
  }

  function States(w: World, chain: seq<Block>, lo: nat, hi: nat): seq<Root>
    requires lo <= hi <= |chain|
  {
    seq(hi - lo, i requires 0 <= i < hi - lo => StateAfter(w, chain, lo + i + 1))
  }

  function Receipts(w: World, chain: seq<Block>, lo: nat, hi: nat): seq<Root>
    requires lo <= hi <= |chain|
  {
    seq(hi - lo, i requires 0 <= i < hi - lo => OutcomeAt(w, chain, lo + i + 1).receiptRoot)
  }

  function Cycles(w: World, chain: seq<Block>, lo: nat, hi: nat): seq<nat>
    requires lo <= hi <= |chain|
  {
    seq<nat>(hi - lo, i requires 0 <= i < hi - lo => OutcomeAt(w, chain, lo + i + 1).cycles)
  }

  /** Execution of the first `h` blocks only depends on those blocks. */
  lemma {:induction false} StateOfPrefix(w: World, c: seq<Block>, d: seq<Block>, h: nat)
    requires h <= |c| && h <= |d|
    requires forall i | 0 <= i < h :: c[i] == d[i]
    ensures StateAfter(w, c, h) == StateAfter(w, d, h)
    ensures h > 0 ==> OutcomeAt(w, c, h) == OutcomeAt(w, d, h)
  {
    if h > 0 {
      StateOfPrefix(w, c, d, h - 1);
    }
  }

  /** The four result lists only depend on the blocks they cover and those before them. */
  lemma ListsOfPrefix(w: World, c: seq<Block>, d: seq<Block>, lo: nat, hi: nat)
    requires lo <= hi <= |c| && hi <= |d|
    requires forall i | 0 <= i < hi :: c[i] == d[i]
    ensures Confirms(w, c, lo, hi) == Confirms(w, d, lo, hi)
    ensures States(w, c, lo, hi) == States(w, d, lo, hi)
    ensures Receipts(w, c, lo, hi) == Receipts(w, d, lo, hi)
    ensures Cycles(w, c, lo, hi) == Cycles(w, d, lo, hi)
  {
    forall h: nat | h <= hi
      ensures StateAfter(w, c, h) == StateAfter(w, d, h)
      ensures h > 0 ==> OutcomeAt(w, c, h) == OutcomeAt(w, d, h)
    {
      StateOfPrefix(w, c, d, h);
    }
  }
}
