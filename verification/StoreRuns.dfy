/** Whole runs of a store map, over any number of blocks: operations, and rebuilding from the state. */
module StoreRuns {
  import opened Types
  import opened ServiceState
  import opened StoreMap
  import opened StoreContents

  /** An operation, or the next block, which builds the store map again. */
  datatype Move = Op(op: StoreOp) | Rebuild

  /** One move; after a panic nothing moves. */
  function Moved(l: Layout, t: Trace, move: Move): Trace {
    if Panic in t.answers then t
    else
      match move
      case Rebuild => t.(mem := Build(l, t.m))
      case Op(op) =>
        var o := Do(l, t.mem, t.m, op);
        Trace(t.answers + [o.answer], Write(t.m, o.writes), o.mem)
  }

  /** What the run answers, and where it ends. */
  function RunMap(l: Layout, t: Trace, moves: seq<Move>): Trace {
    if moves == [] then t else Moved(l, RunMap(l, t, moves[..|moves| - 1]), moves[|moves| - 1])
  }

  // ----- a plain map -----

  type Plain = map<Bytes, Bytes>

  function Find(c: Plain, k: Bytes): Option<Bytes> {
    if k in c then Some(c[k]) else None
  }

  function PlainAnswer(c: Plain, op: StoreOp): Answer {
    match op
    case Contains(k) => Bool(k in c)
    case Get(k) => Value(Find(c, k))
    case Insert(_, _) => Unit
    case Remove(k) => Value(Find(c, k))
    case Len => Number(|c|)
  }

  function PlainNext(c: Plain, op: StoreOp): Plain {
    match op
    case Insert(k, v) => c[k := v]
    case Remove(k) => c - {k}
    case _ => c
  }

  /** What a plain map has answered, and what it holds. */
  datatype PlainTrace = PlainTrace(answers: seq<Answer>, c: Plain)

  function PlainMoved(t: PlainTrace, move: Move): PlainTrace {
    match move
    case Rebuild => t
    case Op(op) => PlainTrace(t.answers + [PlainAnswer(t.c, op)], PlainNext(t.c, op))
  }

  function RunPlain(t: PlainTrace, moves: seq<Move>): PlainTrace {
    if moves == [] then t else PlainMoved(RunPlain(t, moves[..|moves| - 1]), moves[|moves| - 1])
  }

  // ----- the store map is one -----

  /** Operations on keys, and no empty values. */
  ghost predicate Proper(l: Layout, move: Move) {
    move.Op? ==> l.Fits(move.op) && (move.op.Insert? ==> move.op.value != [])
  }

  ghost predicate AllProper(l: Layout, moves: seq<Move>) {
    forall move | move in moves :: Proper(l, move)
  }

  /** The lists are right. */
  ghost predicate Sound(l: Layout, mem: Memory, m: Entries) {
    Present(m) == m && Listed(l, SeenOf(l, mem, m), m)
  }

  ghost function Holds(l: Layout, mem: Memory, m: Entries): Plain {
    Contents(l, SeenOf(l, mem, m), m)
  }

  /** The operation leaves what it leaves in a plain map. */
  ghost predicate LeavesPlain(l: Layout, mem: Memory, m: Entries, op: StoreOp) {
    var o := Do(l, mem, m, op);
    && Sound(l, o.mem, Write(m, o.writes))
    && Holds(l, o.mem, Write(m, o.writes)) == PlainNext(Holds(l, mem, m), op)
  }

  /** And it answers as a plain map would. */
  ghost predicate AsPlain(l: Layout, mem: Memory, m: Entries, op: StoreOp) {
    LeavesPlain(l, mem, m, op) && Do(l, mem, m, op).answer == PlainAnswer(Holds(l, mem, m), op)
  }

  lemma InsertAnswers(l: Layout, mem: Memory, m: Entries, k: Key, v: Bytes)
    ensures Do(l, mem, m, Insert(k, v)).answer == Unit
  {
  }

  /** Reading writes nothing and is not seen. */
  lemma ReadLeaves(l: Layout, mem: Memory, m: Entries, op: StoreOp)
    requires Present(m) == m && !op.Insert? && !op.Remove?
    ensures var o := Do(l, mem, m, op); Write(m, o.writes) == m && SeenOf(l, o.mem, m) == SeenOf(l, mem, m)
  {
    SeenAfter(l, mem, m, op);
    assert m + map[] == m;
  }

  lemma InsertLeaves(l: Layout, mem: Memory, m: Entries, k: Key, v: Bytes)
    requires l.Ok() && Sound(l, mem, m) && l.keys(k) && v != []
    ensures LeavesPlain(l, mem, m, Insert(k, v))
  {
    InsertSets(l, mem, m, k, v);
    PresentTwice(m, Do(l, mem, m, Insert(k, v)).writes);
  }

  lemma RemoveAsPlain(l: Layout, mem: Memory, m: Entries, k: Key)
    requires l.Ok() && Sound(l, mem, m) && l.keys(k)
    ensures AsPlain(l, mem, m, Remove(k))
  {
    RemovesAsMap(l, mem, m, k);
    PresentTwice(m, Do(l, mem, m, Remove(k)).writes);
  }

  lemma ReadAnswers(l: Layout, mem: Memory, m: Entries, op: StoreOp)
    requires Sound(l, mem, m) && l.Fits(op) && !op.Insert? && !op.Remove?
    ensures Do(l, mem, m, op).answer == PlainAnswer(Holds(l, mem, m), op)
  {
    if op.Len? {
      SizeOfContents(l, SeenOf(l, mem, m), m);
    } else {
      ReadsAsMap(l, mem, m, op.key);
    }
  }

  lemma OpAsPlain(l: Layout, mem: Memory, m: Entries, op: StoreOp)
    requires l.Ok() && Sound(l, mem, m) && Proper(l, Op(op))
    ensures AsPlain(l, mem, m, op)
  {
    if op.Insert? {
      InsertAnswers(l, mem, m, op.key, op.value);
      InsertLeaves(l, mem, m, op.key, op.value);
    } else if op.Remove? {
      RemoveAsPlain(l, mem, m, op.key);
    } else {
      ReadAnswers(l, mem, m, op);
      ReadLeaves(l, mem, m, op);
    }
  }

  /** The same answers, no panic among them, and the same contents. */
  ghost predicate Agree(l: Layout, t: Trace, p: PlainTrace) {
    t.answers == p.answers && Panic !in t.answers && Sound(l, t.mem, t.m) && Holds(l, t.mem, t.m) == p.c
  }

  lemma OpAgrees(l: Layout, t: Trace, p: PlainTrace, op: StoreOp)
    requires Agree(l, t, p) && AsPlain(l, t.mem, t.m, op)
    ensures Agree(l, Moved(l, t, Op(op)), PlainMoved(p, Op(op)))
  {
    assert PlainAnswer(p.c, op) != Panic;
  }

  lemma RebuiltAlike(l: Layout, mem: Memory, m: Entries)
    requires InStep(l, mem, m)
    ensures SeenOf(l, Build(l, m), m) == SeenOf(l, mem, m)
  {
    BuiltInStep(l, m);
  }

  lemma RebuildAgrees(l: Layout, t: Trace, p: PlainTrace)
    requires Agree(l, t, p) && InStep(l, t.mem, t.m)
    ensures Agree(l, Moved(l, t, Rebuild), p)
  {
    RebuiltAlike(l, t.mem, t.m);
  }

  lemma {:induction false} RunStaysInStep(l: Layout, t: Trace, moves: seq<Move>)
    requires l.Ok() && Present(t.m) == t.m && InStep(l, t.mem, t.m) && AllProper(l, moves)
    ensures var u := RunMap(l, t, moves); Present(u.m) == u.m && InStep(l, u.mem, u.m)
  {
    if moves != [] {
      var n := |moves| - 1;
      RunStaysInStep(l, t, moves[..n]);
      var u := RunMap(l, t, moves[..n]);
      if moves[n].Op? {
        assert Proper(l, moves[n]);
        StaysInStep(l, u.mem, u.m, moves[n].op);
      } else {
        BuiltInStep(l, u.m);
      }
    }
  }

  /** Every run of a store map, over any number of blocks, answers what a plain map answers, never panics
      and ends with what the plain map holds. */
  lemma {:induction false} RunsAsMap(l: Layout, t: Trace, p: PlainTrace, moves: seq<Move>)
    requires l.Ok() && Agree(l, t, p) && InStep(l, t.mem, t.m) && AllProper(l, moves)
    ensures Agree(l, RunMap(l, t, moves), RunPlain(p, moves))
  {
    if moves != [] {
      var n := |moves| - 1;
      RunsAsMap(l, t, p, moves[..n]);
      RunStaysInStep(l, t, moves[..n]);
      var u, q := RunMap(l, t, moves[..n]), RunPlain(p, moves[..n]);
      assert Proper(l, moves[n]);
      if moves[n].Op? {
        OpAsPlain(l, u.mem, u.m, moves[n].op);
        OpAgrees(l, u, q, moves[n].op);
      } else {
        RebuildAgrees(l, u, q);
      }
    }
  }

  lemma {:induction false} NothingListed(b: Buckets, n: nat)
    requires n <= BUCKETS && forall i | 0 <= i < BUCKETS :: b[i] == []
    ensures Total(b, n) == 0 && Keys(b, n) == {}
  {
    if n > 0 {
      NothingListed(b, n - 1);
    }
  }

  /** An empty state is a sound, empty map. */
  lemma EmptyIsSound(l: Layout)
    ensures Sound(l, Build(l, map[]), map[]) && Holds(l, Build(l, map[]), map[]) == map[]
  {
    BuiltInStep(l, map[]);
    NothingListed(Stored(l, map[]).buckets, BUCKETS);
  }

  function Blank(l: Layout): Trace {
    Trace([], map[], Build(l, map[]))
  }

  const BLANK: PlainTrace := PlainTrace([], map[])

  ghost predicate AnswersAsPlain(l: Layout, moves: seq<Move>) {
    RunMap(l, Blank(l), moves).answers == RunPlain(BLANK, moves).answers
  }

  /** The store map is a plain map: in every run from an empty state. */
  ghost predicate IsPlain(l: Layout) {
    forall moves | AllProper(l, moves) :: AnswersAsPlain(l, moves)
  }

  lemma OkIsPlain(l: Layout)
    requires l.Ok()
    ensures IsPlain(l)
  {
    EmptyIsSound(l);
    forall moves | AllProper(l, moves)
      ensures AnswersAsPlain(l, moves)
    {
      BuiltInStep(l, map[]);
      RunsAsMap(l, Blank(l), BLANK, moves);
    }
  }

  // ----- names that collide -----

  lemma MoreMoves(l: Layout, t: Trace, p: PlainTrace, moves: seq<Move>, move: Move)
    ensures RunMap(l, t, moves + [move]) == Moved(l, RunMap(l, t, moves), move)
    ensures RunPlain(p, moves + [move]) == PlainMoved(RunPlain(p, moves), move)
  {
    assert (moves + [move])[..|moves|] == moves;
  }

  lemma TwoMoves(l: Layout, t: Trace, p: PlainTrace, a: Move, b: Move)
    ensures RunMap(l, t, [a, b]) == Moved(l, Moved(l, t, a), b)
    ensures RunPlain(p, [a, b]) == PlainMoved(PlainMoved(p, a), b)
  {
    assert [a, b][..1] == [a] && [a][..0] == [];
    assert RunMap(l, t, [a]) == Moved(l, t, a);
    assert RunPlain(p, [a]) == PlainMoved(p, a);
  }

  /** What a map that is plain answers at any point. */
  lemma Asked(l: Layout, moves: seq<Move>, t: Trace, p: PlainTrace, op: StoreOp)
    requires IsPlain(l) && AllProper(l, moves) && Proper(l, Op(op)) && Panic !in t.answers
    requires t == RunMap(l, Blank(l), moves) && p == RunPlain(BLANK, moves)
    ensures Do(l, t.mem, t.m, op).answer == PlainAnswer(p.c, op)
  {
    MoreMoves(l, Blank(l), BLANK, moves, Op(op));
    assert AllProper(l, moves + [Op(op)]);
    assert AnswersAsPlain(l, moves) && AnswersAsPlain(l, moves + [Op(op)]);
    var answer := Do(l, t.mem, t.m, op).answer;
    assert (t.answers + [answer])[|t.answers|] == (p.answers + [PlainAnswer(p.c, op)])[|p.answers|];
  }

  /** Inserting a value, going to the next block and asking: what the store map answers. */
  lemma InsertRebuildAsk(l: Layout, k: Key, v: Bytes, op: StoreOp)
    requires l.keys(k) && v != [] && Proper(l, Op(op)) && IsPlain(l)
    ensures var m := Write(map[], Do(l, Build(l, map[]), map[], Insert(k, v)).writes);
            Do(l, Build(l, m), m, op).answer == PlainAnswer(map[k := v], op)
  {
    var a := Op(Insert(k, v));
    var o := Do(l, Build(l, map[]), map[], Insert(k, v));
    var m := Write(map[], o.writes);
    assert Moved(l, Blank(l), a) == Trace([] + [Unit], m, o.mem);
    TwoMoves(l, Blank(l), BLANK, a, Rebuild);
    Asked(l, [a, Rebuild], Trace([Unit], m, Build(l, m)), PlainTrace([Unit], map[k := v]), op);
  }

  /** A key whose value goes where the length is: after inserting it, the next block finds the value
      decoded as length. */
  lemma ValueOverLength(l: Layout, k: Key, v: Bytes)
    requires l.valueName(k) == l.lenName && v != []
    ensures var m := Write(map[], Do(l, Build(l, map[]), map[], Insert(k, v)).writes);
            Do(l, Build(l, m), m, Len).answer == Number(l.decodeLen(v))
  {
    var o := Do(l, Build(l, map[]), map[], Insert(k, v));
    assert o.writes[l.lenName] == v;
  }

  /** A key whose value goes where a bucket is: the next block finds the value decoded as key list. */
  lemma ValueOverBucket(l: Layout, k: Key, v: Bytes, x: Key)
    requires l.valueName(k) == l.bucketName(Index(x)) && v != []
    ensures var m := Write(map[], Do(l, Build(l, map[]), map[], Insert(k, v)).writes);
            Do(l, Build(l, m), m, Contains(x)).answer == Bool(x in l.decodeKeys(v))
  {
    var o := Do(l, Build(l, map[]), map[], Insert(k, v));
    assert o.writes[l.bucketName(Index(x))] == v;
  }

  /** Two keys whose values go to the same place: the second replaces the first. */
  lemma ValueOverValue(l: Layout, k: Key, x: Key)
    requires l.valueName(k) == l.valueName(x)
    ensures var o := Do(l, Build(l, map[]), map[], Insert(k, [1]));
            var m := Write(map[], o.writes);
            var p := Do(l, o.mem, m, Insert(x, [2]));
            Do(l, p.mem, Write(m, p.writes), Get(k)).answer != Value(Some([1]))
  {
    var o := Do(l, Build(l, map[]), map[], Insert(k, [1]));
    var m := Write(map[], o.writes);
    var p := Do(l, o.mem, m, Insert(x, [2]));
    assert p.writes[l.valueName(k)] == [2];
  }

  lemma InsertMoved(l: Layout, t: Trace, p: PlainTrace, k: Key, v: Bytes, o: Outcome)
    requires Panic !in t.answers && o == Do(l, t.mem, t.m, Insert(k, v))
    ensures Moved(l, t, Op(Insert(k, v))) == Trace(t.answers + [Unit], Write(t.m, o.writes), o.mem)
    ensures PlainMoved(p, Op(Insert(k, v))) == PlainTrace(p.answers + [Unit], p.c[k := v])
  {
    InsertAnswers(l, t.mem, t.m, k, v);
  }

  lemma TwoInserted(l: Layout, k: Key, x: Key, o: Outcome, m: Entries, p: Outcome)
    requires o == Do(l, Build(l, map[]), map[], Insert(k, [1])) && m == Write(map[], o.writes)
    requires p == Do(l, o.mem, m, Insert(x, [2]))
    ensures var moves := [Op(Insert(k, [1])), Op(Insert(x, [2]))];
            && RunMap(l, Blank(l), moves) == Trace([Unit, Unit], Write(m, p.writes), p.mem)
            && RunPlain(BLANK, moves) == PlainTrace([Unit, Unit], map[k := [1]][x := [2]])
  {
    TwoMoves(l, Blank(l), BLANK, Op(Insert(k, [1])), Op(Insert(x, [2])));
    InsertMoved(l, Blank(l), BLANK, k, [1], o);
    InsertMoved(l, Trace([Unit], m, o.mem), PlainTrace([Unit], map[k := [1]]), x, [2], p);
    assert [] + [Unit] == [Unit] && [Unit] + [Unit] == [Unit, Unit];
  }

  lemma ValuesMustDiffer(l: Layout, k: Key, x: Key)
    requires l.keys(k) && l.keys(x) && l.valueName(k) == l.valueName(x) && k != x
    ensures !IsPlain(l)
  {
    if IsPlain(l) {
      var o := Do(l, Build(l, map[]), map[], Insert(k, [1]));
      var m := Write(map[], o.writes);
      var p := Do(l, o.mem, m, Insert(x, [2]));
      TwoInserted(l, k, x, o, m, p);
      var moves := [Op(Insert(k, [1])), Op(Insert(x, [2]))];
      var t := Trace([Unit, Unit], Write(m, p.writes), p.mem);
      Asked(l, moves, t, PlainTrace([Unit, Unit], map[k := [1]][x := [2]]), Get(k));
      ValueOverValue(l, k, x);
    }
  }

  /** A key whose value goes where the length is kept. */
  lemma LengthMustDiffer(l: Layout, k: Key)
    requires l.RoundTrips() && l.keys(k) && l.valueName(k) == l.lenName
    ensures !IsPlain(l)
  {
    if IsPlain(l) {
      var v := l.encodeLen(5);
      assert v != [] && l.decodeLen(v) == 5;
      InsertRebuildAsk(l, k, v, Len);
      ValueOverLength(l, k, v);
    }
  }

  /** A key whose value goes where the list of some key's bucket is kept. */
  lemma BucketMustDiffer(l: Layout, k: Key, x: Key)
    requires l.RoundTrips() && l.keys(k) && l.keys(x) && l.valueName(k) == l.bucketName(Index(x))
    ensures !IsPlain(l)
  {
    if IsPlain(l) {
      var ks: seq<Bytes> := if x == k then [] else [x];
      var v := l.encodeKeys(ks);
      assert v != [] && l.decodeKeys(v) == ks;
      InsertRebuildAsk(l, k, v, Contains(x));
      ValueOverBucket(l, k, v, x);
    }
  }

  ghost predicate HasKey(l: Layout, i: nat) {
    exists k: Key :: l.keys(k) && Index(k) == i
  }

  /** Every bucket has a key. */
  ghost predicate Spread(l: Layout) {
    forall i | 0 <= i < BUCKETS :: HasKey(l, i)
  }

  lemma NotPlain(l: Layout)
    requires l.RoundTrips() && l.OwnNames() && Spread(l) && (forall k | l.keys(k) :: k != []) && !l.NamesDiffer()
    ensures !IsPlain(l)
  {
    if a, b :| !l.Apart(a, b) {
      ValuesMustDiffer(l, a, b);
    } else if a :| l.keys(a) && l.valueName(a) == l.lenName {
      LengthMustDiffer(l, a);
    } else {
      var i, a :| 0 <= i < BUCKETS && l.keys(a) && l.bucketName(i) == l.valueName(a);
      assert HasKey(l, i);
      var x: Key :| l.keys(x) && Index(x) == i;
      BucketMustDiffer(l, a, x);
    }
  }

  /** The exact condition: where the lists and the length have names of their own, a store map is a plain
      map in every run if and only if the names of its values differ from those and from one another.
      Only the lists of buckets without keys do not matter. */
  lemma PlainIff(l: Layout)
    requires l.RoundTrips() && l.OwnNames() && forall k | l.keys(k) :: k != []
    ensures l.NamesDiffer() ==> IsPlain(l)
    ensures Spread(l) ==> (IsPlain(l) <==> l.NamesDiffer())
  {
    if l.NamesDiffer() {
      OkIsPlain(l);
    } else if Spread(l) {
      NotPlain(l);
    }
  }
}
