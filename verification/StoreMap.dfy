/** The map that services keep in their state: values under their own names, the list of keys in
    sixteen buckets, and the number of keys. Buckets are read from the state when first needed and
    from then on answered from memory. */
module StoreMap {
  import opened Types
  import opened ServiceState

  const BUCKETS: nat := 16

  type Buckets = b: seq<seq<Bytes>> | |b| == 16 witness seq(16, _ => [])
  type Flags = f: seq<bool> | |f| == 16 witness seq(16, _ => false)
  type Key = k: Bytes | k != [] witness [0]

  /** Which byte strings are in use as keys, the names under which a store map keeps its parts, and their
      encodings. */
  datatype Layout = Layout(
    keys: Bytes -> bool, bucketName: nat -> Bytes, lenName: Bytes, valueName: Bytes -> Bytes,
    encodeKeys: seq<Bytes> -> Bytes, decodeKeys: Bytes -> seq<Bytes>,
    encodeLen: nat -> Bytes, decodeLen: Bytes -> nat)
  {
    /** The lists and the length have names of their own. */
    ghost predicate OwnNames() {
      && (forall i, j | 0 <= i < BUCKETS && 0 <= j < BUCKETS && i != j :: bucketName(i) != bucketName(j))
      && (forall i | 0 <= i < BUCKETS :: bucketName(i) != lenName)
    }

    ghost predicate Apart(a: Bytes, b: Bytes) {
      keys(a) && keys(b) && a != b ==> valueName(a) != valueName(b)
    }

    /** And so have the values of keys. */
    ghost predicate NamesDiffer() {
      && OwnNames()
      && (forall a, b :: Apart(a, b))
      && (forall a | keys(a) :: valueName(a) != lenName)
      && (forall i, a | 0 <= i < BUCKETS && keys(a) :: bucketName(i) != valueName(a))
    }

    ghost predicate RoundTrips() {
      && (forall ks :: encodeKeys(ks) != [] && decodeKeys(encodeKeys(ks)) == ks)
      && (forall n :: encodeLen(n) != [] && decodeLen(encodeLen(n)) == n)
    }

    ghost predicate Ok() { NamesDiffer() && RoundTrips() }

    function Bucket(m: Entries, i: nat): seq<Bytes> {
      if bucketName(i) in m then decodeKeys(m[bucketName(i)]) else []
    }

    function StoredLen(m: Entries): nat {
      if lenName in m then decodeLen(m[lenName]) else 0
    }

    /** An operation on a key. */
    predicate Fits(op: StoreOp) { op.Len? || keys(op.key) }

    predicate FitAll(ops: seq<StoreOp>) {
      forall op | op in ops :: Fits(op)
    }
  }

  /** What a store map remembers: the buckets it has read, and the number of keys. */
  datatype Memory = Memory(keys: Buckets, recovered: Flags, len: nat)

  function Build(l: Layout, m: Entries): Memory {
    Memory(seq(16, _ => []), seq(16, _ => false), l.StoredLen(m))
  }

  /** The high four bits of the key's last byte. */
  function Index(k: Key): (i: nat)
    ensures i < BUCKETS
  {
    k[|k| - 1] as nat / 16
  }

  function RemoveFirst(ks: seq<Bytes>, k: Bytes): seq<Bytes> {
    if ks == [] then [] else if ks[0] == k then ks[1..] else [ks[0]] + RemoveFirst(ks[1..], k)
  }

  datatype StoreOp = Contains(key: Key) | Get(key: Key) | Insert(key: Key, value: Bytes) | Remove(key: Key) | Len

  datatype Answer = Bool(b: bool) | Value(v: Option<Bytes>) | Unit | Number(n: nat) | Panic

  datatype Outcome = Outcome(answer: Answer, writes: Entries, mem: Memory)

  function Recover(l: Layout, mem: Memory, m: Entries, i: nat): Memory
    requires i < BUCKETS
  {
    if mem.recovered[i] then mem
    else mem.(keys := mem.keys[i := l.Bucket(m, i)], recovered := mem.recovered[i := true])
  }

  function LookUp(m: Entries, name: Bytes): Option<Bytes> {
    if name in m && m[name] != [] then Some(m[name]) else None
  }

  /** One operation on memory `mem` and visible state `m`. */
  function Do(l: Layout, mem: Memory, m: Entries, op: StoreOp): Outcome {
    if op.Len? then Outcome(Number(mem.len), map[], mem)
    else
      var i := Index(op.key);
      var r := Recover(l, mem, m, i);
      var known := op.key in r.keys[i];
      match op
      case Contains(k) => Outcome(Bool(known), map[], r)
      case Get(k) => Outcome(Value(if known then LookUp(m, l.valueName(k)) else None), map[], r)
      case Insert(k, v) => if known then Outcome(Unit, map[l.valueName(k) := v], r) else Added(l, r, k, v)
      case Remove(k) =>
        if !known then Outcome(Value(None), map[], r)
        else if LookUp(m, l.valueName(k)).None? || r.len == 0 then Outcome(Panic, map[], r)
        else Removed(l, r, k, LookUp(m, l.valueName(k)))
  }

  function Added(l: Layout, r: Memory, k: Key, v: Bytes): Outcome {
    var ks := r.keys[Index(k)] + [k];
    Outcome(Unit,
            map[l.bucketName(Index(k)) := l.encodeKeys(ks), l.lenName := l.encodeLen(r.len + 1), l.valueName(k) := v],
            r.(keys := r.keys[Index(k) := ks], len := r.len + 1))
  }

  function Removed(l: Layout, r: Memory, k: Key, v: Option<Bytes>): Outcome
    requires r.len > 0
  {
    var ks := RemoveFirst(r.keys[Index(k)], k);
    Outcome(Value(v),
            map[l.bucketName(Index(k)) := l.encodeKeys(ks), l.valueName(k) := [], l.lenName := l.encodeLen(r.len - 1)],
            r.(keys := r.keys[Index(k) := ks], len := r.len - 1))
  }

  // ----- what of the memory matters -----

  /** The key lists and the length that operations go by. */
  datatype Seen = Seen(buckets: Buckets, len: nat)

  function SeenBucket(l: Layout, mem: Memory, m: Entries, i: nat): seq<Bytes>
    requires i < BUCKETS
  {
    if mem.recovered[i] then mem.keys[i] else l.Bucket(m, i)
  }

  function SeenOf(l: Layout, mem: Memory, m: Entries): Seen {
    Seen(seq(16, i requires 0 <= i < 16 => SeenBucket(l, mem, m, i)), mem.len)
  }

  lemma RecoverShowsNothing(l: Layout, mem: Memory, m: Entries, i: nat)
    requires i < BUCKETS
    ensures SeenOf(l, Recover(l, mem, m, i), m) == SeenOf(l, mem, m)
    ensures Recover(l, mem, m, i).keys[i] == SeenOf(l, mem, m).buckets[i]
  {
  }

  /** What an operation answers and writes depends on the memory only through what is seen. */
  lemma SeenDecides(l: Layout, a: Memory, b: Memory, m: Entries, op: StoreOp)
    requires SeenOf(l, a, m) == SeenOf(l, b, m)
    ensures var x, y := Do(l, a, m, op), Do(l, b, m, op);
            x.answer == y.answer && x.writes == y.writes
  {
    assert SeenOf(l, a, m).len == SeenOf(l, b, m).len;
    if !op.Len? {
      RecoverShowsNothing(l, a, m, Index(op.key));
      RecoverShowsNothing(l, b, m, Index(op.key));
    }
  }

  /** The key lists and the length after an operation. */
  function NextSeen(l: Layout, s: Seen, m: Entries, op: StoreOp): Seen {
    match op
    case Insert(k, _) =>
      var i := Index(k);
      if k in s.buckets[i] then s else Seen(s.buckets[i := s.buckets[i] + [k]], s.len + 1)
    case Remove(k) =>
      var i := Index(k);
      if k !in s.buckets[i] || LookUp(m, l.valueName(k)).None? || s.len == 0 then s
      else Seen(s.buckets[i := RemoveFirst(s.buckets[i], k)], s.len - 1)
    case _ => s
  }

  /** Buckets not yet read are the same in both states. */
  ghost predicate Untouched(l: Layout, mem: Memory, m: Entries, m0: Entries) {
    forall i | 0 <= i < BUCKETS && !mem.recovered[i] :: l.Bucket(m, i) == l.Bucket(m0, i)
  }

  lemma UntouchedSeen(l: Layout, mem: Memory, m: Entries, m0: Entries)
    requires Untouched(l, mem, m, m0)
    ensures SeenOf(l, mem, m) == SeenOf(l, mem, m0)
  {
  }

  /** The memory an operation leaves shows the same lists whether its writes are kept or undone. */
  lemma SeenAfter(l: Layout, mem: Memory, m: Entries, op: StoreOp)
    ensures SeenOf(l, Do(l, mem, m, op).mem, m) == NextSeen(l, SeenOf(l, mem, m), m, op)
  {
    assert SeenOf(l, mem, m).len == mem.len;
    if !op.Len? {
      RecoverShowsNothing(l, mem, m, Index(op.key));
    }
  }

  /** An operation writes only to the bucket it has read. */
  lemma WritesOwnBucket(l: Layout, mem: Memory, m: Entries, op: StoreOp, i: nat)
    requires l.NamesDiffer() && l.Fits(op) && i < BUCKETS && !Do(l, mem, m, op).mem.recovered[i]
    ensures l.bucketName(i) !in Do(l, mem, m, op).writes
    ensures l.Bucket(Write(m, Do(l, mem, m, op).writes), i) == l.Bucket(Present(m), i)
  {
  }

  lemma StaysUntouched(l: Layout, mem: Memory, m: Entries, m0: Entries, op: StoreOp)
    requires l.NamesDiffer() && l.Fits(op) && Untouched(l, mem, m, m0) && Present(m) == m
    ensures Untouched(l, Do(l, mem, m, op).mem, Write(m, Do(l, mem, m, op).writes), m0)
  {
    var o := Do(l, mem, m, op);
    forall i | 0 <= i < BUCKETS && !o.mem.recovered[i]
      ensures l.Bucket(Write(m, o.writes), i) == l.Bucket(m0, i)
    {
      WritesOwnBucket(l, mem, m, op, i);
      assert !mem.recovered[i];
    }
  }

  // ----- whole calls -----

  /** What a sequence of operations answers, and the visible state and memory it ends in. */
  datatype Trace = Trace(answers: seq<Answer>, m: Entries, mem: Memory)

  /** Operations one after another; a panic ends them. */
  function DoAll(l: Layout, mem: Memory, m: Entries, ops: seq<StoreOp>): Trace {
    if ops == [] then Trace([], m, mem)
    else
      var t := DoAll(l, mem, m, ops[..|ops| - 1]);
      if Panic in t.answers then t
      else
        var o := Do(l, t.mem, t.m, ops[|ops| - 1]);
        Trace(t.answers + [o.answer], Write(t.m, o.writes), o.mem)
  }

  lemma {:induction false} CallLeavesUntouched(l: Layout, mem: Memory, m: Entries, ops: seq<StoreOp>)
    requires l.NamesDiffer() && l.FitAll(ops) && Present(m) == m
    ensures var t := DoAll(l, mem, m, ops); Untouched(l, t.mem, t.m, m) && Present(t.m) == t.m
  {
    if ops != [] {
      var n := |ops| - 1;
      CallLeavesUntouched(l, mem, m, ops[..n]);
      var t := DoAll(l, mem, m, ops[..n]);
      if Panic !in t.answers {
        StaysUntouched(l, t.mem, t.m, m, ops[n]);
      }
    }
  }

  /** Undoing a call's writes does not undo the lists: what is seen afterwards is what the call itself
      saw at its end. */
  lemma RevertKeepsSeen(l: Layout, mem: Memory, m: Entries, ops: seq<StoreOp>)
    requires l.NamesDiffer() && l.FitAll(ops) && Present(m) == m
    ensures var t := DoAll(l, mem, m, ops); SeenOf(l, t.mem, m) == SeenOf(l, t.mem, t.m)
  {
    CallLeavesUntouched(l, mem, m, ops);
    var t := DoAll(l, mem, m, ops);
    UntouchedSeen(l, t.mem, t.m, m);
  }

  lemma {:induction false} SameSeenSameCall(l: Layout, a: Memory, b: Memory, m: Entries, ops: seq<StoreOp>)
    requires l.NamesDiffer() && l.FitAll(ops) && Present(m) == m && SeenOf(l, a, m) == SeenOf(l, b, m)
    ensures var x, y := DoAll(l, a, m, ops), DoAll(l, b, m, ops);
            x.answers == y.answers && x.m == y.m && SeenOf(l, x.mem, x.m) == SeenOf(l, y.mem, y.m)
  {
    if ops != [] {
      var n := |ops| - 1;
      SameSeenSameCall(l, a, b, m, ops[..n]);
      var x, y := DoAll(l, a, m, ops[..n]), DoAll(l, b, m, ops[..n]);
      CallLeavesUntouched(l, a, m, ops[..n]);
      if Panic !in x.answers {
        OneMore(l, x.mem, y.mem, x.m, ops[n]);
      }
    }
  }

  lemma OneMore(l: Layout, a: Memory, b: Memory, m: Entries, op: StoreOp)
    requires l.NamesDiffer() && l.Fits(op) && Present(m) == m && SeenOf(l, a, m) == SeenOf(l, b, m)
    ensures var x, y := Do(l, a, m, op), Do(l, b, m, op);
            && x.answer == y.answer && x.writes == y.writes
            && SeenOf(l, x.mem, Write(m, x.writes)) == SeenOf(l, y.mem, Write(m, y.writes))
  {
    var x, y := Do(l, a, m, op), Do(l, b, m, op);
    SeenDecides(l, a, b, m, op);
    SeenAfter(l, a, m, op);
    SeenAfter(l, b, m, op);
    StaysUntouched(l, a, m, m, op);
    StaysUntouched(l, b, m, m, op);
    UntouchedSeen(l, x.mem, Write(m, x.writes), m);
    UntouchedSeen(l, y.mem, Write(m, y.writes), m);
  }

  // ----- and all of it matters -----

  /** A key of the bucket that is not on both lists. */
  ghost predicate Tells(l: Layout, i: nat, p: seq<Bytes>, q: seq<Bytes>, k: Key) {
    l.keys(k) && Index(k) == i && !(k in p && k in q)
  }

  /** Wherever the lists differ, some key of the bucket is not on both: they do not both hold every key
      that there is. */
  ghost predicate Room(l: Layout, a: Seen, b: Seen) {
    forall i | 0 <= i < BUCKETS && a.buckets[i] != b.buckets[i] ::
      exists k: Key :: Tells(l, i, a.buckets[i], b.buckets[i], k)
  }

  lemma {:induction false} AtMostSoMany(ks: seq<Bytes>, some: set<Bytes>)
    requires forall k | k in some :: k in ks
    ensures |some| <= |ks|
  {
    if ks != [] {
      var k := ks[|ks| - 1];
      AtMostSoMany(ks[..|ks| - 1], some - {k});
      assert |some| <= |some - {k}| + 1;
    } else {
      assert some == {};
    }
  }

  /** There is room on a list that is shorter than the number of keys of its bucket. */
  lemma ShortHasRoom(l: Layout, i: nat, p: seq<Bytes>, q: seq<Bytes>, some: set<Bytes>) returns (k: Key)
    requires (forall k | k in some :: l.keys(k) && k != [] && Index(k) == i) && |p| < |some|
    ensures Tells(l, i, p, q, k)
  {
    if forall k | k in some :: k in p {
      AtMostSoMany(p, some);
    }
    k :| k in some && k !in p;
  }

  /** Inserting a new key stores the list as it is seen, with the key behind it. */
  lemma InsertStoresList(l: Layout, mem: Memory, m: Entries, k: Key, v: Bytes)
    requires l.Ok() && l.keys(k) && k !in SeenOf(l, mem, m).buckets[Index(k)]
    ensures var o := Do(l, mem, m, Insert(k, v));
            o.answer == Unit && l.Bucket(Write(m, o.writes), Index(k)) == SeenOf(l, mem, m).buckets[Index(k)] + [k]
  {
    RecoverShowsNothing(l, mem, m, Index(k));
    var o := Do(l, mem, m, Insert(k, v));
    var name := l.bucketName(Index(k));
    assert o.writes[name] == l.encodeKeys(SeenOf(l, mem, m).buckets[Index(k)] + [k]);
    assert Write(m, o.writes)[name] == o.writes[name];
  }

  lemma AppendDiffers(p: seq<Bytes>, q: seq<Bytes>, k: Bytes)
    requires p != q
    ensures p + [k] != q + [k]
  {
    assert (p + [k])[..|p + [k]| - 1] == p && (q + [k])[..|q + [k]| - 1] == q;
  }

  /** Memories that show different lists or lengths are told apart by one operation. */
  lemma DifferenceShows(l: Layout, a: Memory, b: Memory, m: Entries) returns (op: StoreOp)
    requires l.Ok() && SeenOf(l, a, m) != SeenOf(l, b, m) && Room(l, SeenOf(l, a, m), SeenOf(l, b, m))
    ensures var x, y := Do(l, a, m, op), Do(l, b, m, op);
            && l.Fits(op) && x.answer != Panic && y.answer != Panic
            && (x.answer != y.answer || (x.answer == y.answer == Unit && Write(m, x.writes) != Write(m, y.writes)))
  {
    if a.len != b.len {
      return Len;
    }
    var p, q := SeenOf(l, a, m).buckets, SeenOf(l, b, m).buckets;
    var i :| 0 <= i < BUCKETS && p[i] != q[i];
    var k: Key :| Tells(l, i, p[i], q[i], k);
    if k in p[i] || k in q[i] {
      RecoverShowsNothing(l, a, m, i);
      RecoverShowsNothing(l, b, m, i);
      return Contains(k);
    }
    op := Insert(k, [1]);
    InsertStoresList(l, a, m, k, [1]);
    InsertStoresList(l, b, m, k, [1]);
    AppendDiffers(p[i], q[i], k);
  }

  /** The same answers and writes in every operation. */
  ghost predicate BehaveAlike(l: Layout, a: Memory, b: Memory, m: Entries) {
    forall op | l.Fits(op) ::
      && Do(l, a, m, op).answer == Do(l, b, m, op).answer
      && Write(m, Do(l, a, m, op).writes) == Write(m, Do(l, b, m, op).writes)
  }

  /** The exact condition: two memories behave alike in every operation if and only if they show the
      same lists and length; only lists that both hold every key there is may differ unnoticed. */
  lemma BehaveAlikeIffSeen(l: Layout, a: Memory, b: Memory, m: Entries)
    requires l.Ok()
    ensures SeenOf(l, a, m) == SeenOf(l, b, m) ==> BehaveAlike(l, a, b, m)
    ensures Room(l, SeenOf(l, a, m), SeenOf(l, b, m)) ==>
              (SeenOf(l, a, m) == SeenOf(l, b, m) <==> BehaveAlike(l, a, b, m))
  {
    if SeenOf(l, a, m) == SeenOf(l, b, m) {
      forall op | l.Fits(op)
        ensures Do(l, a, m, op).answer == Do(l, b, m, op).answer
        ensures Do(l, a, m, op).writes == Do(l, b, m, op).writes
      {
        SeenDecides(l, a, b, m, op);
      }
    } else if Room(l, SeenOf(l, a, m), SeenOf(l, b, m)) {
      var op := DifferenceShows(l, a, b, m);
    }
  }

  /** An instance of that: two keys are all there are in a bucket, and both are listed, in either order. */
  lemma OrderIsNotNoticed(l: Layout, a: Memory, b: Memory, m: Entries, j: Key, k: Key)
    requires Index(j) == Index(k) && j != k && forall x: Key | l.keys(x) && Index(x) == Index(k) :: x == j || x == k
    requires var p, q := SeenOf(l, a, m), SeenOf(l, b, m);
             && p.buckets[Index(k)] == [j, k] && q == p.(buckets := p.buckets[Index(k) := [k, j]])
    ensures SeenOf(l, a, m) != SeenOf(l, b, m) && BehaveAlike(l, a, b, m)
  {
    assert SeenOf(l, a, m).buckets[Index(k)][0] != SeenOf(l, b, m).buckets[Index(k)][0];
    forall op | l.Fits(op)
      ensures Do(l, a, m, op).answer == Do(l, b, m, op).answer
      ensures Do(l, a, m, op).writes == Do(l, b, m, op).writes
    {
      assert a.len == b.len;
      if !op.Len? {
        var i := Index(op.key);
        RecoverShowsNothing(l, a, m, i);
        RecoverShowsNothing(l, b, m, i);
        if i == Index(k) {
          CutFromTwo(j, k);
          CutFromTwo(k, j);
        }
      }
    }
  }

  lemma CutFromTwo(j: Bytes, k: Bytes)
    requires j != k
    ensures RemoveFirst([j, k], j) == [k] && RemoveFirst([j, k], k) == [j]
  {
    assert [j, k][1..] == [k] && [k][1..] == [];
    assert RemoveFirst([k], k) == [];
  }
}
