/** Reading many transactions of one block: an early-stopping scan over sorted keys, decoding in
    batches, and putting the answers back in the order of the request. */
module Storage {
  import opened Types
  import opened Keys

  type Value(==, !new)
  type Error(==, !new)

  const BATCH_VALUE_DECODE_NUMBER: nat := 1000

  datatype Result<+T> = Ok(value: T) | Err(error: Error)
  datatype Row = Row(key: Key, bytes: Bytes)

  type Decode = Bytes -> Result<Value>

  /** A column of the database: rows in key order. */
  ghost predicate Sorted(rows: seq<Row>) {
    forall i, j | 0 <= i < j < |rows| :: Less(rows[i].key, rows[j].key)
  }

  /** A point lookup. */
  function Get(rows: seq<Row>, key: Key): Option<Bytes> {
    if rows == [] then None
    else if rows[0].key == key then Some(rows[0].bytes)
    else Get(rows[1..], key)
  }

  lemma {:induction false} GetFinds(rows: seq<Row>, key: Key, i: nat)
    requires Sorted(rows) && i < |rows| && rows[i].key == key
    ensures Get(rows, key) == Some(rows[i].bytes)
  {
    if i > 0 {
      LessIsStrict(key);
      GetFinds(rows[1..], key, i - 1);
    }
  }

  lemma {:induction false} GetIsStored(rows: seq<Row>, key: Key) returns (i: nat)
    requires Get(rows, key).Some?
    ensures i < |rows| && rows[i] == Row(key, Get(rows, key).value)
  {
    if rows[0].key == key {
      i := 0;
    } else {
      i := GetIsStored(rows[1..], key);
      i := i + 1;
    }
  }

  function Lookup(rows: seq<Row>, height: U64, hash: Hash): Option<Bytes> {
    Get(rows, MakeKey(height, hash))
  }

  // ----- the scan -----

  type Found = seq<(Hash, Bytes)>

  ghost predicate FirstsDistinct(found: Found) {
    forall i, j | 0 <= i < j < |found| :: found[i].0 != found[j].0
  }

  /** Each entry is a requested hash with the bytes stored for it. */
  ghost predicate AllStored(found: Found, rows: seq<Row>, height: U64, hashes: seq<Hash>) {
    forall f | f in found :: f.0 in hashes && Lookup(rows, height, f.0) == Some(f.1)
  }

  /** Every requested hash that is stored at this height is there. */
  ghost predicate Complete(found: Found, rows: seq<Row>, height: U64, hashes: seq<Hash>) {
    forall h | h in hashes && Lookup(rows, height, h).Some? :: (h, Lookup(rows, height, h).value) in found
  }

  /** The scan has met every requested row before `i` and is not below the height any more. */
  ghost predicate Scanned(found: Found, rows: seq<Row>, i: nat, height: U64, hashes: seq<Hash>) {
    && i <= |rows|
    && (i < |rows| ==> HeightOf(rows[i].key) >= height as nat)
    && (forall j | 0 <= j < i && HeightOf(rows[j].key) == height as nat && HashOf(rows[j].key) in hashes ::
          (HashOf(rows[j].key), rows[j].bytes) in found)
    && (forall f | f in found :: exists j | 0 <= j < i :: rows[j] == Row(MakeKey(height, f.0), f.1))
  }

  /** The position of the first key not below the prefix. */
  method Seek(rows: seq<Row>, height: U64) returns (i: nat)
    requires Sorted(rows)
    ensures i <= |rows| && forall j | 0 <= j < i :: HeightOf(rows[j].key) < height as nat
    ensures i < |rows| ==> HeightOf(rows[i].key) >= height as nat
  {
    i := 0;
    while i < |rows| && Less(rows[i].key, Prefix(height))
      invariant i <= |rows| && forall j | 0 <= j < i :: HeightOf(rows[j].key) < height as nat
    {
      BelowPrefix(rows[i].key, height);
      i := i + 1;
    }
    if i < |rows| {
      BelowPrefix(rows[i].key, height);
    }
  }

  /** Finds the requested rows of one height, stopping once it has found as many as were asked for
      or has left the height. */
  method Scan(rows: seq<Row>, height: U64, hashes: seq<Hash>) returns (found: Found)
    requires Sorted(rows)
    ensures FirstsDistinct(found) && AllStored(found, rows, height, hashes)
    ensures Complete(found, rows, height, hashes)
  {
    var i := Seek(rows, height);
    found := [];
    var count := |hashes|;
    while count > 0
      invariant Scanned(found, rows, i, height, hashes)
      invariant FirstsDistinct(found) && AllStored(found, rows, height, hashes)
      invariant count >= 0 && count + |found| == |hashes|
      decreases |rows| - i
    {
      if i == |rows| || HeightOf(rows[i].key) != height as nat {
        PastTheHeight(found, rows, i, height, hashes);
        return;
      }
      if HashOf(rows[i].key) in hashes {
        MeetNext(found, rows, i, height, hashes);
        found := found + [(HashOf(rows[i].key), rows[i].bytes)];
        count := count - 1;
      } else {
        SkipNext(found, rows, i, height, hashes);
      }
      i := i + 1;
    }
    EnoughIsAll(found, rows, height, hashes);
  }

  lemma StillNotBelow(rows: seq<Row>, i: nat, height: U64)
    requires Sorted(rows) && i < |rows| && HeightOf(rows[i].key) >= height as nat
    ensures i + 1 < |rows| ==> HeightOf(rows[i + 1].key) >= height as nat
  {
    if i + 1 < |rows| {
      HeightsAreSorted(rows[i].key, rows[i + 1].key);
    }
  }

  lemma SkipNext(found: Found, rows: seq<Row>, i: nat, height: U64, hashes: seq<Hash>)
    requires Sorted(rows) && Scanned(found, rows, i, height, hashes)
    requires i < |rows| && HeightOf(rows[i].key) == height as nat && HashOf(rows[i].key) !in hashes
    ensures Scanned(found, rows, i + 1, height, hashes)
  {
    StillNotBelow(rows, i, height);
    forall f | f in found
      ensures exists j | 0 <= j < i + 1 :: rows[j] == Row(MakeKey(height, f.0), f.1)
    {
      var j :| 0 <= j < i && rows[j] == Row(MakeKey(height, f.0), f.1);
    }
  }

  /** A row not yet visited has a hash not yet found. */
  lemma NextIsNew(found: Found, rows: seq<Row>, i: nat, height: U64, hashes: seq<Hash>, f: (Hash, Bytes))
    requires Sorted(rows) && Scanned(found, rows, i, height, hashes) && f in found
    requires i < |rows| && HeightOf(rows[i].key) == height as nat
    ensures f.0 != HashOf(rows[i].key)
  {
    var j :| 0 <= j < i && rows[j] == Row(MakeKey(height, f.0), f.1);
    KeyIsMade(rows[i].key);
    LessIsStrict(rows[i].key);
  }

  lemma DistinctAppend(found: Found, h: Hash, bytes: Bytes)
    requires FirstsDistinct(found) && forall f | f in found :: f.0 != h
    ensures FirstsDistinct(found + [(h, bytes)])
  {
    assert forall j | 0 <= j < |found| :: found[j] in found;
  }

  lemma MeetScanned(found: Found, rows: seq<Row>, i: nat, height: U64, hashes: seq<Hash>)
    requires Sorted(rows) && Scanned(found, rows, i, height, hashes)
    requires i < |rows| && HeightOf(rows[i].key) == height as nat
    ensures Scanned(found + [(HashOf(rows[i].key), rows[i].bytes)], rows, i + 1, height, hashes)
  {
    var more := found + [(HashOf(rows[i].key), rows[i].bytes)];
    StillNotBelow(rows, i, height);
    KeyIsMade(rows[i].key);
    forall f | f in more
      ensures exists j | 0 <= j < i + 1 :: rows[j] == Row(MakeKey(height, f.0), f.1)
    {
      if f in found {
        var j :| 0 <= j < i && rows[j] == Row(MakeKey(height, f.0), f.1);
      } else {
        assert rows[i] == Row(MakeKey(height, f.0), f.1);
      }
    }
  }

  lemma MeetNext(found: Found, rows: seq<Row>, i: nat, height: U64, hashes: seq<Hash>)
    requires Sorted(rows) && Scanned(found, rows, i, height, hashes)
    requires FirstsDistinct(found) && AllStored(found, rows, height, hashes)
    requires i < |rows| && HeightOf(rows[i].key) == height as nat && HashOf(rows[i].key) in hashes
    ensures var more := found + [(HashOf(rows[i].key), rows[i].bytes)];
            && Scanned(more, rows, i + 1, height, hashes)
            && FirstsDistinct(more) && AllStored(more, rows, height, hashes)
  {
    var h := HashOf(rows[i].key);
    MeetScanned(found, rows, i, height, hashes);
    forall f | f in found
      ensures f.0 != h
    {
      NextIsNew(found, rows, i, height, hashes, f);
    }
    DistinctAppend(found, h, rows[i].bytes);
    KeyIsMade(rows[i].key);
    GetFinds(rows, MakeKey(height, h), i);
  }

  lemma PastTheHeight(found: Found, rows: seq<Row>, i: nat, height: U64, hashes: seq<Hash>)
    requires Sorted(rows) && Scanned(found, rows, i, height, hashes)
    requires i < |rows| ==> HeightOf(rows[i].key) != height as nat
    ensures Complete(found, rows, height, hashes)
  {
    forall h | h in hashes && Lookup(rows, height, h).Some?
      ensures (h, Lookup(rows, height, h).value) in found
    {
      var j := GetIsStored(rows, MakeKey(height, h));
      KeyRoundTrip(height, h);
      if i < j {
        HeightsAreSorted(rows[i].key, rows[j].key);
      }
    }
  }

  ghost function Firsts(found: Found): set<Hash> {
    set f | f in found :: f.0
  }

  ghost function Asked(hashes: seq<Hash>): set<Hash> {
    set h | h in hashes
  }

  lemma {:induction false} DistinctFirsts(found: Found)
    requires FirstsDistinct(found)
    ensures |Firsts(found)| == |found|
  {
    if found != [] {
      var n := |found| - 1;
      DistinctFirsts(found[..n]);
      assert found == found[..n] + [found[n]];
      assert Firsts(found) == Firsts(found[..n]) + {found[n].0};
    }
  }

  lemma {:induction false} AskedIsFew(hashes: seq<Hash>)
    ensures |Asked(hashes)| <= |hashes|
  {
    if hashes != [] {
      var n := |hashes| - 1;
      AskedIsFew(hashes[..n]);
      assert hashes == hashes[..n] + [hashes[n]];
      assert Asked(hashes) == Asked(hashes[..n]) + {hashes[n]};
    }
  }

  lemma SubsetOfSameSize(a: set<Hash>, b: set<Hash>)
    requires a <= b && |a| >= |b|
    ensures a == b
  {
    if x :| x in b && x !in a {
      var rest := b - {x};
      assert a <= rest;
      SubsetIsSmaller(a, rest);
      assert false;
    }
  }

  lemma {:induction false} SubsetIsSmaller(a: set<Hash>, b: set<Hash>)
    requires a <= b
    ensures |a| <= |b|
  {
    if a != {} {
      var x :| x in a;
      SubsetIsSmaller(a - {x}, b - {x});
    }
  }

  /** As many distinct hits as hashes asked for leave nothing to find. */
  lemma EnoughIsAll(found: Found, rows: seq<Row>, height: U64, hashes: seq<Hash>)
    requires FirstsDistinct(found) && AllStored(found, rows, height, hashes) && |found| == |hashes|
    ensures Complete(found, rows, height, hashes)
  {
    DistinctFirsts(found);
    AskedIsFew(hashes);
    SubsetOfSameSize(Firsts(found), Asked(hashes));
    forall h | h in hashes && Lookup(rows, height, h).Some?
      ensures (h, Lookup(rows, height, h).value) in found
    {
      assert h in Firsts(found);
      var f :| f in found && f.0 == h;
    }
  }

  // ----- decoding -----

  type Decoded = seq<(Hash, Value)>

  /** Decodes in order; the first failure is the answer. */
  function DecodeAll(decode: Decode, found: Found): Result<Decoded> {
    if found == [] then Ok([])
    else
      var n := |found| - 1;
      match DecodeAll(decode, found[..n])
      case Err(e) => Err(e)
      case Ok(init) =>
        match decode(found[n].1)
        case Err(e) => Err(e)
        case Ok(v) => Ok(init + [(found[n].0, v)])
  }

  method DecodeSome(decode: Decode, found: Found) returns (r: Result<Decoded>)
    ensures r == DecodeAll(decode, found)
  {
    var done: Decoded := [];
    for i := 0 to |found|
      invariant DecodeAll(decode, found[..i]) == Ok(done)
    {
      assert found[..i + 1][..i] == found[..i];
      var v := decode(found[i].1);
      if v.Err? {
        FailureStays(decode, found[..i + 1], found[i + 1..]);
        assert found[..i + 1] + found[i + 1..] == found;
        return Err(v.error);
      }
      done := done + [(found[i].0, v.value)];
    }
    assert found[..|found|] == found;
    return Ok(done);
  }

  lemma {:induction false} FailureStays(decode: Decode, a: Found, b: Found)
    requires DecodeAll(decode, a).Err?
    ensures DecodeAll(decode, a + b) == DecodeAll(decode, a)
  {
    if b == [] {
      assert a + b == a;
    } else {
      FailureStays(decode, a, b[..|b| - 1]);
      assert (a + b)[..|a + b| - 1] == a + b[..|b| - 1];
    }
  }

  lemma {:induction false} DecodeInParts(decode: Decode, a: Found, b: Found)
    requires DecodeAll(decode, a).Ok?
    ensures DecodeAll(decode, a + b) ==
            match DecodeAll(decode, b) case Err(e) => Err(e) case Ok(d) => Ok(DecodeAll(decode, a).value + d)
  {
    if b == [] {
      assert a + b == a;
      assert DecodeAll(decode, a).value + [] == DecodeAll(decode, a).value;
    } else {
      var n := |b| - 1;
      DecodeInParts(decode, a, b[..n]);
      assert (a + b)[..|a + b| - 1] == a + b[..n];
      var init, last := DecodeAll(decode, b[..n]), decode(b[n].1);
      if init.Ok? && last.Ok? {
        var done, one := DecodeAll(decode, a).value, [(b[n].0, last.value)];
        assert done + (init.value + one) == done + init.value + one;
      }
    }
  }

  /** Small results are decoded at once and large ones in batches; the outcome is the same. */
  method DecodeFound(decode: Decode, found: Found) returns (r: Result<Decoded>)
    ensures r == DecodeAll(decode, found)
  {
    if |found| <= BATCH_VALUE_DECODE_NUMBER {
      r := DecodeSome(decode, found);
      return;
    }
    var done: Decoded, i := [], 0;
    while i < |found|
      invariant 0 <= i <= |found| && DecodeAll(decode, found[..i]) == Ok(done)
    {
      var j := if i + BATCH_VALUE_DECODE_NUMBER < |found| then i + BATCH_VALUE_DECODE_NUMBER else |found|;
      var batch := DecodeSome(decode, found[i..j]);
      DecodeInParts(decode, found[..i], found[i..j]);
      assert found[..i] + found[i..j] == found[..j];
      if batch.Err? {
        FailureStays(decode, found[..j], found[j..]);
        assert found[..j] + found[j..] == found;
        return batch;
      }
      done, i := done + batch.value, j;
    }
    assert found[..|found|] == found;
    return Ok(done);
  }

  // ----- the whole request -----

  lemma {:induction false} DecodedMatch(decode: Decode, found: Found)
    requires DecodeAll(decode, found).Ok?
    ensures var d := DecodeAll(decode, found).value;
            && |d| == |found|
            && forall i | 0 <= i < |d| :: d[i].0 == found[i].0 && decode(found[i].1) == Ok(d[i].1)
  {
    if found != [] {
      DecodedMatch(decode, found[..|found| - 1]);
    }
  }

  lemma {:induction false} FailureHasCause(decode: Decode, found: Found) returns (i: nat)
    requires DecodeAll(decode, found).Err?
    ensures i < |found| && decode(found[i].1) == Err(DecodeAll(decode, found).error)
  {
    var n := |found| - 1;
    if DecodeAll(decode, found[..n]).Err? {
      i := FailureHasCause(decode, found[..n]);
    } else {
      i := n;
    }
  }

  /** What a point lookup and decoding give for one hash. */
  function Answer(decode: Decode, rows: seq<Row>, height: U64, hash: Hash): Option<Result<Value>> {
    match Lookup(rows, height, hash)
    case None => None
    case Some(bytes) => Some(decode(bytes))
  }

  /** That is the decoded bytes of the one row under the hash, if there is such a row. */
  lemma AnswerIsStored(decode: Decode, rows: seq<Row>, height: U64, hash: Hash)
    requires Sorted(rows)
    ensures forall i | 0 <= i < |rows| && rows[i].key == MakeKey(height, hash) ::
              Answer(decode, rows, height, hash) == Some(decode(rows[i].bytes))
    ensures (forall i | 0 <= i < |rows| :: rows[i].key != MakeKey(height, hash)) ==>
              Answer(decode, rows, height, hash) == None
  {
    forall i | 0 <= i < |rows| && rows[i].key == MakeKey(height, hash)
      ensures Answer(decode, rows, height, hash) == Some(decode(rows[i].bytes))
    {
      GetFinds(rows, MakeKey(height, hash), i);
    }
    if Get(rows, MakeKey(height, hash)).Some? {
      var i := GetIsStored(rows, MakeKey(height, hash));
      assert rows[i].key == MakeKey(height, hash);
    }
  }

  /** What was decoded, by hash. */
  ghost predicate Gathered(all: map<Hash, Value>, decode: Decode, rows: seq<Row>, height: U64, hashes: seq<Hash>) {
    forall h | h in hashes ::
      match Answer(decode, rows, height, h)
      case None => h !in all
      case Some(v) => h in all && v == Ok(all[h])
  }

  method Collect(decoded: Decoded) returns (all: map<Hash, Value>)
    requires forall i, j | 0 <= i < j < |decoded| :: decoded[i].0 != decoded[j].0
    ensures forall d | d in decoded :: d.0 in all && all[d.0] == d.1
    ensures forall h | h in all :: (h, all[h]) in decoded
  {
    all := map[];
    for i := 0 to |decoded|
      invariant forall j | 0 <= j < i :: decoded[j].0 in all && all[decoded[j].0] == decoded[j].1
      invariant forall h | h in all :: (h, all[h]) in decoded
    {
      all := all[decoded[i].0 := decoded[i].1];
    }
  }

  lemma CollectedIsGathered(
      all: map<Hash, Value>, decoded: Decoded, found: Found, decode: Decode, rows: seq<Row>, height: U64,
      hashes: seq<Hash>)
    requires AllStored(found, rows, height, hashes) && Complete(found, rows, height, hashes)
    requires DecodeAll(decode, found) == Ok(decoded)
    requires forall d | d in decoded :: d.0 in all && all[d.0] == d.1
    requires forall h | h in all :: (h, all[h]) in decoded
    ensures Gathered(all, decode, rows, height, hashes)
  {
    DecodedMatch(decode, found);
    forall h | h in hashes
      ensures match Answer(decode, rows, height, h)
              case None => h !in all
              case Some(v) => h in all && v == Ok(all[h])
    {
      if h in all {
        var i :| 0 <= i < |decoded| && decoded[i] == (h, all[h]);
        assert found[i] in found;
      }
      if Lookup(rows, height, h).Some? {
        var i :| 0 <= i < |found| && found[i] == (h, Lookup(rows, height, h).value);
        assert decoded[i] in decoded;
      }
    }
  }

  /** What the `i`-th hash of a request is handed: its value, if it is the first to ask. */
  function Handed(all: map<Hash, Value>, hashes: seq<Hash>, i: nat): Option<Value>
    requires i < |hashes|
  {
    if hashes[i] in all && hashes[i] !in hashes[..i] then Some(all[hashes[i]]) else None
  }

  /** What is left after the first `i` hashes were served. */
  ghost predicate Left(left: map<Hash, Value>, all: map<Hash, Value>, hashes: seq<Hash>, i: nat)
    requires i <= |hashes|
  {
    && (forall h | h in left :: h in all && left[h] == all[h] && h !in hashes[..i])
    && (forall h | h in all :: h in left || h in hashes[..i])
  }

  lemma TakeOne(left: map<Hash, Value>, all: map<Hash, Value>, hashes: seq<Hash>, i: nat)
    requires i < |hashes| && Left(left, all, hashes, i)
    ensures Left(left - {hashes[i]}, all, hashes, i + 1)
    ensures Handed(all, hashes, i) == if hashes[i] in left then Some(left[hashes[i]]) else None
  {
    assert hashes[..i + 1] == hashes[..i] + [hashes[i]];
  }

  /** Hands each value out once, to the first hash that asks for it. */
  method Realign(all: map<Hash, Value>, hashes: seq<Hash>) returns (r: seq<Option<Value>>)
    ensures |r| == |hashes|
    ensures forall i | 0 <= i < |hashes| :: r[i] == Handed(all, hashes, i)
  {
    r := [];
    var left := all;
    for i := 0 to |hashes|
      invariant |r| == i && Left(left, all, hashes, i)
      invariant forall j | 0 <= j < i :: r[j] == Handed(all, hashes, j)
    {
      TakeOne(left, all, hashes, i);
      r := r + [if hashes[i] in left then Some(left[hashes[i]]) else None];
      left := left - {hashes[i]};
    }
  }

  /** The whole read equals point lookups: each hash gets its decoded value the first time it is asked
      for and nothing when repeated, and it fails exactly when a stored value asked for does. */
  method GetTransactions(decode: Decode, rows: seq<Row>, height: U64, hashes: seq<Hash>)
    returns (r: Result<seq<Option<Value>>>)
    requires Sorted(rows)
    ensures r.Err? ==> exists h | h in hashes :: Answer(decode, rows, height, h) == Some(Err(r.error))
    ensures r.Ok? ==>
              && |r.value| == |hashes|
              && forall i | 0 <= i < |hashes| ::
                   match Answer(decode, rows, height, hashes[i])
                   case None => r.value[i] == None
                   case Some(v) => v.Ok? && r.value[i] == if hashes[i] in hashes[..i] then None else Some(v.value)
  {
    var found := Scan(rows, height, hashes);
    var decoded := DecodeFound(decode, found);
    if decoded.Err? {
      ghost var i := FailureHasCause(decode, found);
      assert found[i] in found;
      return Err(decoded.error);
    }
    DecodedMatch(decode, found);
    var all := Collect(decoded.value);
    CollectedIsGathered(all, decoded.value, found, decode, rows, height, hashes);
    var values := Realign(all, hashes);
    return Ok(values);
  }
}
