/** A store map is a plain map, as long as its memory is in step with the state; and exactly when a
    call whose writes are undone leaves it in step. */
module StoreContents {
  import opened Types
  import opened ServiceState
  import opened StoreMap

  // ----- memory in step with the state -----

  /** The lists and the length as the state has them. */
  function Stored(l: Layout, m: Entries): Seen {
    Seen(seq(16, i requires 0 <= i < 16 => l.Bucket(m, i)), l.StoredLen(m))
  }

  ghost predicate InStep(l: Layout, mem: Memory, m: Entries) {
    SeenOf(l, mem, m) == Stored(l, m)
  }

  /** A store map that was just built is in step. */
  lemma BuiltInStep(l: Layout, m: Entries)
    ensures InStep(l, Build(l, m), m)
  {
  }

  /** The lists an operation stores are those it goes by afterwards. */
  lemma AddedIsStored(l: Layout, r: Memory, m: Entries, k: Key, v: Bytes)
    requires l.Ok() && l.keys(k) && Present(m) == m && InStep(l, r, m) && r.recovered[Index(k)]
    ensures var o := Added(l, r, k, v); InStep(l, o.mem, Write(m, o.writes))
  {
    var o := Added(l, r, k, v);
    var m' := Write(m, o.writes);
    assert m'[l.lenName] == l.encodeLen(r.len + 1);
    forall i | 0 <= i < BUCKETS
      ensures SeenBucket(l, o.mem, m', i) == l.Bucket(m', i)
    {
      assert SeenOf(l, r, m).buckets[i] == Stored(l, m).buckets[i];
      if i == Index(k) {
        assert m'[l.bucketName(i)] == o.writes[l.bucketName(i)];
      } else {
        assert l.bucketName(i) !in o.writes;
      }
    }
  }

  lemma RemovedIsStored(l: Layout, r: Memory, m: Entries, k: Key, v: Option<Bytes>)
    requires l.Ok() && l.keys(k) && Present(m) == m && InStep(l, r, m) && r.recovered[Index(k)] && r.len > 0
    ensures var o := Removed(l, r, k, v); InStep(l, o.mem, Write(m, o.writes))
  {
    var o := Removed(l, r, k, v);
    var m' := Write(m, o.writes);
    assert m'[l.lenName] == l.encodeLen(r.len - 1);
    forall i | 0 <= i < BUCKETS
      ensures SeenBucket(l, o.mem, m', i) == l.Bucket(m', i)
    {
      assert SeenOf(l, r, m).buckets[i] == Stored(l, m).buckets[i];
      if i == Index(k) {
        assert m'[l.bucketName(i)] == o.writes[l.bucketName(i)];
      } else {
        assert l.bucketName(i) !in o.writes;
      }
    }
  }

  lemma ValueIsNotList(l: Layout, r: Memory, m: Entries, k: Key, v: Bytes)
    requires l.NamesDiffer() && l.keys(k) && Present(m) == m && InStep(l, r, m)
    ensures InStep(l, r, Write(m, map[l.valueName(k) := v]))
  {
    var m' := Write(m, map[l.valueName(k) := v]);
    assert l.StoredLen(m') == l.StoredLen(m);
    forall i | 0 <= i < BUCKETS
      ensures SeenBucket(l, r, m', i) == l.Bucket(m', i) == l.Bucket(m, i)
    {
      assert SeenOf(l, r, m).buckets[i] == Stored(l, m).buckets[i];
    }
  }

  /** An operation whose writes are kept keeps memory and state in step. */
  lemma StaysInStep(l: Layout, mem: Memory, m: Entries, op: StoreOp)
    requires l.Ok() && l.Fits(op) && Present(m) == m && InStep(l, mem, m)
    ensures var o := Do(l, mem, m, op); InStep(l, o.mem, Write(m, o.writes))
  {
    assert Write(m, map[]) == m by {
      assert m + map[] == m;
    }
    if !op.Len? {
      var i := Index(op.key);
      var r := Recover(l, mem, m, i);
      RecoverShowsNothing(l, mem, m, i);
      if op.Insert? {
        if op.key in r.keys[i] {
          ValueIsNotList(l, r, m, op.key, op.value);
        } else {
          AddedIsStored(l, r, m, op.key, op.value);
        }
      } else if op.Remove? && Do(l, mem, m, op).answer != Panic && op.key in r.keys[i] {
        RemovedIsStored(l, r, m, op.key, LookUp(m, l.valueName(op.key)));
      }
    }
  }

  lemma {:induction false} CallStaysInStep(l: Layout, mem: Memory, m: Entries, ops: seq<StoreOp>)
    requires l.Ok() && l.FitAll(ops) && Present(m) == m && InStep(l, mem, m)
    ensures var t := DoAll(l, mem, m, ops); InStep(l, t.mem, t.m) && Present(t.m) == t.m
  {
    if ops != [] {
      var n := |ops| - 1;
      CallStaysInStep(l, mem, m, ops[..n]);
      var t := DoAll(l, mem, m, ops[..n]);
      if Panic !in t.answers {
        StaysInStep(l, t.mem, t.m, ops[n]);
      }
    }
  }

  /** The exact condition: a call whose writes are undone leaves the memory in step with the state if and
      only if the lists and the length it ended with are those of the state; if it began in step, if and
      only if it left those in the state as it found them. */
  lemma UndoneInStepIff(l: Layout, mem: Memory, m: Entries, ops: seq<StoreOp>)
    requires l.Ok() && l.FitAll(ops) && Present(m) == m
    ensures var t := DoAll(l, mem, m, ops);
            && (InStep(l, t.mem, m) <==> SeenOf(l, t.mem, t.m) == Stored(l, m))
            && (InStep(l, mem, m) ==> SeenOf(l, t.mem, m) == Stored(l, t.m))
            && (InStep(l, mem, m) ==> (InStep(l, t.mem, m) <==> Stored(l, t.m) == Stored(l, m)))
  {
    RevertKeepsSeen(l, mem, m, ops);
    if InStep(l, mem, m) {
      CallStaysInStep(l, mem, m, ops);
    }
  }

  // ----- a store map is a map -----

  ghost predicate Distinct(ks: seq<Bytes>) {
    forall i, j | 0 <= i < j < |ks| :: ks[i] != ks[j]
  }

  function Total(b: Buckets, n: nat): nat
    requires n <= BUCKETS
  {
    if n == 0 then 0 else Total(b, n - 1) + |b[n - 1]|
  }

  ghost function Elements(ks: seq<Bytes>): set<Bytes> {
    set k | k in ks
  }

  /** The keys of the first `n` buckets. */
  ghost function Keys(b: Buckets, n: nat): set<Bytes>
    requires n <= BUCKETS
  {
    if n == 0 then {} else Keys(b, n - 1) + Elements(b[n - 1])
  }

  /** A list of keys that belong to bucket `i`, each once. */
  ghost predicate OwnKeys(l: Layout, ks: seq<Bytes>, i: nat) {
    Distinct(ks) && forall k: Bytes | k in ks :: l.keys(k) && k != [] && Index(k) == i
  }

  ghost predicate Placed(l: Layout, b: Buckets) {
    forall i | 0 <= i < BUCKETS :: OwnKeys(l, b[i], i)
  }

  /** Keys are listed in their own buckets, once, and they are exactly the keys that have values. */
  ghost predicate Listed(l: Layout, s: Seen, m: Entries) {
    && Placed(l, s.buckets)
    && s.len == Total(s.buckets, BUCKETS)
    && (forall k: Key | l.keys(k) :: k in s.buckets[Index(k)] <==> LookUp(m, l.valueName(k)).Some?)
  }

  ghost function Contents(l: Layout, s: Seen, m: Entries): map<Bytes, Bytes> {
    map k | k in Keys(s.buckets, BUCKETS) && l.valueName(k) in m :: m[l.valueName(k)]
  }

  lemma {:induction false} KeysAre(b: Buckets, n: nat, k: Bytes)
    requires n <= BUCKETS
    ensures k in Keys(b, n) <==> exists i | 0 <= i < n :: k in b[i]
  {
    if n > 0 {
      KeysAre(b, n - 1, k);
    }
  }

  lemma {:induction false} CountDistinct(ks: seq<Bytes>)
    requires Distinct(ks)
    ensures |Elements(ks)| == |ks|
  {
    if ks != [] {
      var n := |ks| - 1;
      CountDistinct(ks[..n]);
      assert ks == ks[..n] + [ks[n]];
      assert Elements(ks) == Elements(ks[..n]) + {ks[n]};
    }
  }

  lemma {:induction false} CountKeys(l: Layout, b: Buckets, n: nat)
    requires n <= BUCKETS && Placed(l, b)
    ensures |Keys(b, n)| == Total(b, n)
  {
    if n > 0 {
      CountKeys(l, b, n - 1);
      assert OwnKeys(l, b[n - 1], n - 1);
      CountDistinct(b[n - 1]);
      var last := Elements(b[n - 1]);
      forall k | k in Keys(b, n - 1)
        ensures k !in last
      {
        KeysAre(b, n - 1, k);
        var i :| 0 <= i < n - 1 && k in b[i];
        assert OwnKeys(l, b[i], i) && OwnKeys(l, b[n - 1], n - 1);
      }
      assert |Keys(b, n - 1) + last| == |Keys(b, n - 1)| + |last|;
    }
  }

  lemma KeysBelong(l: Layout, b: Buckets, k: Bytes)
    requires Placed(l, b) && k in Keys(b, BUCKETS)
    ensures l.keys(k) && k != [] && k in b[Index(k)]
  {
    KeysAre(b, BUCKETS, k);
    var i :| 0 <= i < BUCKETS && k in b[i];
    assert OwnKeys(l, b[i], i);
  }

  lemma InContents(l: Layout, s: Seen, m: Entries, k: Key)
    requires Listed(l, s, m) && Present(m) == m && l.keys(k)
    ensures k in Contents(l, s, m) <==> k in s.buckets[Index(k)]
    ensures k in Contents(l, s, m) <==> LookUp(m, l.valueName(k)).Some?
    ensures k in Contents(l, s, m) ==> LookUp(m, l.valueName(k)) == Some(Contents(l, s, m)[k])
  {
    KeysAre(s.buckets, BUCKETS, k);
    if k in Keys(s.buckets, BUCKETS) {
      KeysBelong(l, s.buckets, k);
    }
  }

  /** Reading: a store map answers as its contents do. */
  lemma ReadsAsMap(l: Layout, mem: Memory, m: Entries, k: Key)
    requires Listed(l, SeenOf(l, mem, m), m) && Present(m) == m && l.keys(k)
    ensures var c := Contents(l, SeenOf(l, mem, m), m);
            && Do(l, mem, m, Contains(k)).answer == Bool(k in c)
            && Do(l, mem, m, Get(k)).answer == Value(if k in c then Some(c[k]) else None)
            && Do(l, mem, m, Len).answer == Number(|c|)
  {
    var s := SeenOf(l, mem, m);
    InContents(l, s, m, k);
    RecoverShowsNothing(l, mem, m, Index(k));
    SizeOfContents(l, s, m);
  }

  lemma SizeOfContents(l: Layout, s: Seen, m: Entries)
    requires Listed(l, s, m) && Present(m) == m
    ensures |Contents(l, s, m)| == s.len
  {
    CountKeys(l, s.buckets, BUCKETS);
    assert Contents(l, s, m).Keys == Keys(s.buckets, BUCKETS) by {
      forall k | k in Keys(s.buckets, BUCKETS)
        ensures l.valueName(k) in m
      {
        KeysAre(s.buckets, BUCKETS, k);
        var i :| 0 <= i < BUCKETS && k in s.buckets[i];
        assert OwnKeys(l, s.buckets[i], i);
        var key: Key := k;
        assert LookUp(m, l.valueName(key)).Some?;
      }
    }
    SameSize(Contents(l, s, m));
  }

  lemma {:induction false} SameSize(c: map<Bytes, Bytes>)
    ensures |c| == |c.Keys|
  {
    assert c.Keys == set k | k in c;
  }

  // ----- writing -----

  lemma {:induction false} TotalAfter(b: Buckets, i: nat, ks: seq<Bytes>, n: nat)
    requires i < BUCKETS && n <= BUCKETS
    ensures Total(b[i := ks], n) == Total(b, n) + if i < n then |ks| - |b[i]| else 0
  {
    if n > 0 {
      TotalAfter(b, i, ks, n - 1);
    }
  }

  lemma {:induction false} RemoveFirstIs(ks: seq<Bytes>, k: Bytes)
    requires Distinct(ks) && k in ks
    ensures |RemoveFirst(ks, k)| == |ks| - 1 && Distinct(RemoveFirst(ks, k))
    ensures forall x :: x in RemoveFirst(ks, k) <==> x in ks && x != k
  {
    if ks[0] != k {
      RemoveFirstIs(ks[1..], k);
      var rest := RemoveFirst(ks[1..], k);
      assert forall x :: x in [ks[0]] + rest <==> x == ks[0] || x in rest;
      assert ks[0] !in ks[1..];
    } else {
      assert forall x :: x in ks <==> x == ks[0] || x in ks[1..];
    }
  }

  /** These are the values that the state has for the keys. */
  ghost predicate Values(l: Layout, m: Entries, c: map<Bytes, Bytes>) {
    && (forall k | k in c :: l.keys(k) && k != [])
    && (forall k: Key | l.keys(k) :: k in c <==> LookUp(m, l.valueName(k)).Some?)
    && (forall k: Key | k in c :: LookUp(m, l.valueName(k)) == Some(c[k]))
  }

  lemma SameContents(l: Layout, s: Seen, m: Entries, c: map<Bytes, Bytes>)
    requires Listed(l, s, m) && Present(m) == m && Values(l, m, c)
    ensures Contents(l, s, m) == c
  {
    var d := Contents(l, s, m);
    forall k
      ensures k in d <==> k in c
      ensures k in d ==> d[k] == c[k]
    {
      if k in d {
        KeysBelong(l, s.buckets, k);
      }
      if k != [] && l.keys(k) {
        InContents(l, s, m, k);
      }
    }
  }

  /** What the contents say about every key. */
  lemma ContentsAre(l: Layout, s: Seen, m: Entries)
    requires Listed(l, s, m) && Present(m) == m
    ensures Values(l, m, Contents(l, s, m))
  {
    forall k | k in Contents(l, s, m)
      ensures l.keys(k) && k != []
    {
      KeysBelong(l, s.buckets, k);
    }
    forall k: Key | l.keys(k)
      ensures k in Contents(l, s, m) <==> LookUp(m, l.valueName(k)).Some?
      ensures k in Contents(l, s, m) ==> LookUp(m, l.valueName(k)) == Some(Contents(l, s, m)[k])
    {
      InContents(l, s, m, k);
    }
  }

  /** An insertion sets one value. */
  lemma ValuesAfterInsert(l: Layout, mem: Memory, m: Entries, k: Key, v: Bytes, x: Key)
    requires l.NamesDiffer() && l.keys(k) && l.keys(x) && v != []
    ensures var m' := Write(m, Do(l, mem, m, Insert(k, v)).writes);
            LookUp(m', l.valueName(x)) == if x == k then Some(v) else LookUp(m, l.valueName(x))
  {
    assert l.Apart(x, k);
  }

  lemma ValuesSet(l: Layout, m: Entries, m': Entries, c: map<Bytes, Bytes>, k: Key, v: Bytes)
    requires Values(l, m, c) && l.keys(k)
    requires forall x: Key | l.keys(x) ::
               LookUp(m', l.valueName(x)) == if x == k then Some(v) else LookUp(m, l.valueName(x))
    ensures Values(l, m', c[k := v])
  {
  }

  /** Inserting sets the key, in the contents and nowhere else, and keeps the lists right. */
  lemma InsertSets(l: Layout, mem: Memory, m: Entries, k: Key, v: Bytes)
    requires l.Ok() && l.keys(k) && Listed(l, SeenOf(l, mem, m), m) && Present(m) == m && v != []
    ensures var s, o := SeenOf(l, mem, m), Do(l, mem, m, Insert(k, v));
            var m', s' := Write(m, o.writes), SeenOf(l, o.mem, Write(m, o.writes));
            && Listed(l, s', m')
            && Contents(l, s', m') == Contents(l, s, m)[k := v]
  {
    var s, op := SeenOf(l, mem, m), Insert(k, v);
    var m' := Write(m, Do(l, mem, m, op).writes);
    AfterIsNext(l, mem, m, op);
    forall x: Key | l.keys(x)
      ensures LookUp(m', l.valueName(x)) == if x == k then Some(v) else LookUp(m, l.valueName(x))
    {
      ValuesAfterInsert(l, mem, m, k, v, x);
    }
    ListedAfterInsert(l, s, m, m', k, v);
    ContentsAre(l, s, m);
    ValuesSet(l, m, m', Contents(l, s, m), k, v);
    SameContents(l, NextSeen(l, s, m, op), m', Contents(l, s, m)[k := v]);
  }

  /** An inserted value that is empty cannot be told from none: the key is there, it has no value, and
      removing it is a panic. */
  lemma EmptyValueIsLost(l: Layout, mem: Memory, m: Entries, k: Key)
    ensures var o := Do(l, mem, m, Insert(k, []));
            var m' := Write(m, o.writes);
            && Do(l, o.mem, m', Contains(k)).answer == Bool(true)
            && Do(l, o.mem, m', Get(k)).answer == Value(None)
            && Do(l, o.mem, m', Remove(k)).answer == Panic
            && LookUp(m', l.valueName(k)).None? && k in SeenOf(l, o.mem, m').buckets[Index(k)]
  {
    var o := Do(l, mem, m, Insert(k, []));
    assert o.mem.recovered[Index(k)] && k in o.mem.keys[Index(k)];
    assert o.writes[l.valueName(k)] == [];
  }

  /** The exact condition: an insertion sets the key, in the contents and nowhere else, and keeps the
      lists right, if and only if the value is not empty. */
  lemma InsertsAsMap(l: Layout, mem: Memory, m: Entries, k: Key, v: Bytes)
    requires l.Ok() && l.keys(k) && Listed(l, SeenOf(l, mem, m), m) && Present(m) == m
    ensures var s, o := SeenOf(l, mem, m), Do(l, mem, m, Insert(k, v));
            var m', s' := Write(m, o.writes), SeenOf(l, o.mem, Write(m, o.writes));
            v != [] <==> Listed(l, s', m') && Contents(l, s', m') == Contents(l, s, m)[k := v]
  {
    if v != [] {
      InsertSets(l, mem, m, k, v);
    } else {
      EmptyValueIsLost(l, mem, m, k);
    }
  }

  lemma AfterIsNext(l: Layout, mem: Memory, m: Entries, op: StoreOp)
    requires l.NamesDiffer() && l.Fits(op) && Present(m) == m
    ensures var o := Do(l, mem, m, op);
            SeenOf(l, o.mem, Write(m, o.writes)) == NextSeen(l, SeenOf(l, mem, m), m, op)
  {
    var o := Do(l, mem, m, op);
    SeenAfter(l, mem, m, op);
    StaysUntouched(l, mem, m, m, op);
    UntouchedSeen(l, o.mem, Write(m, o.writes), m);
  }

  lemma ListedAfterInsert(l: Layout, s: Seen, m: Entries, m': Entries, k: Key, v: Bytes)
    requires Listed(l, s, m) && l.keys(k) && v != []
    requires forall x: Key | l.keys(x) ::
               LookUp(m', l.valueName(x)) == if x == k then Some(v) else LookUp(m, l.valueName(x))
    ensures Listed(l, NextSeen(l, s, m, Insert(k, v)), m')
  {
    var i := Index(k);
    if k !in s.buckets[i] {
      var ks := s.buckets[i] + [k];
      TotalAfter(s.buckets, i, ks, BUCKETS);
      assert OwnKeys(l, s.buckets[i], i);
      assert forall x :: x in ks <==> x in s.buckets[i] || x == k;
      assert OwnKeys(l, ks, i);
    }
  }

  lemma ListedAfterRemove(l: Layout, s: Seen, m: Entries, m': Entries, k: Key)
    requires Listed(l, s, m) && k in s.buckets[Index(k)] && s.len > 0
    requires forall x: Key | l.keys(x) ::
               LookUp(m', l.valueName(x)) == if x == k then None else LookUp(m, l.valueName(x))
    ensures Listed(l, NextSeen(l, s, m, Remove(k)), m')
  {
    var i := Index(k);
    assert OwnKeys(l, s.buckets[i], i);
    RemoveFirstIs(s.buckets[i], k);
    TotalAfter(s.buckets, i, RemoveFirst(s.buckets[i], k), BUCKETS);
  }

  lemma {:induction false} TotalAtLeast(b: Buckets, i: nat, n: nat)
    requires i < n <= BUCKETS
    ensures |b[i]| <= Total(b, n)
  {
    if i < n - 1 {
      TotalAtLeast(b, i, n - 1);
    }
  }

  lemma ValuesAfterRemove(l: Layout, mem: Memory, m: Entries, k: Key, x: Key)
    requires l.NamesDiffer() && l.keys(k) && l.keys(x)
    requires Do(l, mem, m, Remove(k)).answer.Value? && Do(l, mem, m, Remove(k)).answer.v.Some?
    ensures var m' := Write(m, Do(l, mem, m, Remove(k)).writes);
            LookUp(m', l.valueName(x)) == if x == k then None else LookUp(m, l.valueName(x))
  {
    assert l.Apart(x, k);
  }

  lemma RemoveAnswers(l: Layout, mem: Memory, m: Entries, k: Key)
    requires Listed(l, SeenOf(l, mem, m), m) && Present(m) == m && l.keys(k)
    ensures var c := Contents(l, SeenOf(l, mem, m), m);
            Do(l, mem, m, Remove(k)).answer == Value(if k in c then Some(c[k]) else None)
    ensures k in SeenOf(l, mem, m).buckets[Index(k)] ==> SeenOf(l, mem, m).len > 0
  {
    var s := SeenOf(l, mem, m);
    InContents(l, s, m, k);
    RecoverShowsNothing(l, mem, m, Index(k));
    TotalAtLeast(s.buckets, Index(k), BUCKETS);
  }

  /** Removing takes the key out of the contents and answers with its value; it never panics. */
  lemma RemovesAsMap(l: Layout, mem: Memory, m: Entries, k: Key)
    requires l.Ok() && l.keys(k) && Listed(l, SeenOf(l, mem, m), m) && Present(m) == m
    ensures var s, o := SeenOf(l, mem, m), Do(l, mem, m, Remove(k));
            var m', s' := Write(m, o.writes), SeenOf(l, o.mem, Write(m, o.writes));
            var c := Contents(l, s, m);
            && o.answer == Value(if k in c then Some(c[k]) else None)
            && Listed(l, s', m')
            && Contents(l, s', m') == c - {k}
  {
    var s := SeenOf(l, mem, m);
    RemoveAnswers(l, mem, m, k);
    InContents(l, s, m, k);
    if k in s.buckets[Index(k)] {
      RemovesKnown(l, mem, m, k);
    } else {
      RemovesUnknown(l, mem, m, k);
      WithoutAbsent(Contents(l, s, m), k);
    }
  }

  lemma RemovesUnknown(l: Layout, mem: Memory, m: Entries, k: Key)
    requires Present(m) == m && k !in SeenOf(l, mem, m).buckets[Index(k)]
    ensures var o := Do(l, mem, m, Remove(k));
            o.writes == map[] && Write(m, map[]) == m && SeenOf(l, o.mem, m) == SeenOf(l, mem, m)
  {
    RecoverShowsNothing(l, mem, m, Index(k));
    SeenAfter(l, mem, m, Remove(k));
    assert m + map[] == m;
  }

  lemma WithoutAbsent(c: map<Bytes, Bytes>, k: Bytes)
    requires k !in c
    ensures c - {k} == c
  {
  }

  lemma RemovesKnown(l: Layout, mem: Memory, m: Entries, k: Key)
    requires l.Ok() && l.keys(k) && Listed(l, SeenOf(l, mem, m), m) && Present(m) == m
    requires k in SeenOf(l, mem, m).buckets[Index(k)] && k in Contents(l, SeenOf(l, mem, m), m)
    ensures var s, o := SeenOf(l, mem, m), Do(l, mem, m, Remove(k));
            var m', s' := Write(m, o.writes), SeenOf(l, o.mem, Write(m, o.writes));
            Listed(l, s', m') && Contents(l, s', m') == Contents(l, s, m) - {k}
  {
    var s, op := SeenOf(l, mem, m), Remove(k);
    var m' := Write(m, Do(l, mem, m, op).writes);
    RemoveAnswers(l, mem, m, k);
    AfterIsNext(l, mem, m, op);
    forall x: Key | l.keys(x)
      ensures LookUp(m', l.valueName(x)) == if x == k then None else LookUp(m, l.valueName(x))
    {
      ValuesAfterRemove(l, mem, m, k, x);
    }
    ListedAfterRemove(l, s, m, m', k);
    ContentsAre(l, s, m);
    SameContents(l, NextSeen(l, s, m, op), m', Contents(l, s, m) - {k});
  }

  // ----- names that are not the map's -----

  ghost predicate Foreign(l: Layout, name: Bytes) {
    && name != l.lenName
    && (forall i | 0 <= i < BUCKETS :: l.bucketName(i) != name)
    && (forall k | l.keys(k) :: l.valueName(k) != name)
  }

  /** The map's parts are the same in both states. */
  ghost predicate SameParts(l: Layout, m: Entries, m': Entries) {
    && l.StoredLen(m') == l.StoredLen(m)
    && (forall i | 0 <= i < BUCKETS :: l.Bucket(m', i) == l.Bucket(m, i))
    && (forall k | l.keys(k) :: LookUp(m', l.valueName(k)) == LookUp(m, l.valueName(k)))
  }

  lemma ForeignWrite(l: Layout, m: Entries, name: Bytes, v: Bytes)
    requires Foreign(l, name) && Present(m) == m
    ensures SameParts(l, m, Write(m, map[name := v]))
  {
    var m' := Write(m, map[name := v]);
    assert forall x | x != name :: (x in m' <==> x in m) && (x in m ==> m'[x] == m[x]);
  }

  lemma SameValuesSameContents(l: Layout, s: Seen, m: Entries, m': Entries)
    requires SameParts(l, m, m') && Placed(l, s.buckets) && Present(m) == m && Present(m') == m'
    ensures Contents(l, s, m') == Contents(l, s, m)
  {
    forall k | k in Keys(s.buckets, BUCKETS)
      ensures l.valueName(k) in m' <==> l.valueName(k) in m
      ensures l.valueName(k) in m ==> m'[l.valueName(k)] == m[l.valueName(k)]
    {
      KeysBelong(l, s.buckets, k);
      assert LookUp(m', l.valueName(k)) == LookUp(m, l.valueName(k));
    }
  }

  lemma SamePartsSame(l: Layout, m: Entries, m': Entries, mem: Memory)
    requires SameParts(l, m, m') && Present(m) == m && Present(m') == m'
    ensures Stored(l, m') == Stored(l, m)
    ensures SeenOf(l, mem, m') == SeenOf(l, mem, m)
    ensures Listed(l, Stored(l, m), m) ==>
              Listed(l, Stored(l, m'), m') && Contents(l, Stored(l, m'), m') == Contents(l, Stored(l, m), m)
  {
    if Listed(l, Stored(l, m), m) {
      SameValuesSameContents(l, Stored(l, m), m, m');
    }
  }
}
