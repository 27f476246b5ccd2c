/** The names a store map really uses: its own name followed by a key, or by a suffix for the buckets and
    the length. Exactly which keys make it go wrong. */
module StoreNames {
  import opened Types
  import opened ServiceState
  import opened StoreMap
  import opened StoreRuns

  /** `_map_len` */
  const LEN_SUFFIX: Bytes := [0x5f, 0x6d, 0x61, 0x70, 0x5f, 0x6c, 0x65, 0x6e]

  /** `_bucket_` */
  const BUCKET_SUFFIX: Bytes := [0x5f, 0x62, 0x75, 0x63, 0x6b, 0x65, 0x74, 0x5f]

  /** The `n` lowest bytes, lowest first. */
  function LittleEndian(x: nat, n: nat): (s: Bytes)
    ensures |s| == n
    decreases n
  {
    if n == 0 then [] else [(x % 0x100) as Byte] + LittleEndian(x / 0x100, n - 1)
  }

  function BucketSuffix(i: nat): (s: Bytes)
    ensures |s| == 16
  {
    BUCKET_SUFFIX + LittleEndian(i, 8)
  }

  /** Long keys are hashed. */
  function MapKey(name: Bytes, digest: Bytes -> Hash, k: Bytes): Bytes {
    if |k| > 32 then digest(name + k) else name + k
  }

  /** The layout with these names. */
  function Named(l: Layout, name: Bytes, digest: Bytes -> Hash): Layout {
    l.(bucketName := (i: nat) => name + BucketSuffix(i),
       lenName := name + LEN_SUFFIX,
       valueName := (k: Bytes) => MapKey(name, digest, k))
  }

  /** The digests of the long keys in use are unlike one another and every other name in use. */
  ghost predicate DigestsApart(l: Layout, name: Bytes, digest: Bytes -> Hash) {
    forall k | l.keys(k) && |k| > 32 ::
      && digest(name + k) != name + LEN_SUFFIX
      && (forall i | 0 <= i < BUCKETS :: digest(name + k) != name + BucketSuffix(i))
      && (forall x | l.keys(x) && x != k :: digest(name + k) != MapKey(name, digest, x))
  }

  /** A key that is spelled like the suffix of the length or of a bucket. */
  predicate Collides(k: Bytes) {
    k == LEN_SUFFIX || exists i | 0 <= i < BUCKETS :: k == BucketSuffix(i)
  }

  lemma BehindSuffix(i: nat)
    requires i < BUCKETS
    ensures BucketSuffix(i)[8..] == LittleEndian(i, 8) && LittleEndian(i, 8)[0] == i as Byte
  {
    var prefix: Bytes := BUCKET_SUFFIX;
    SliceBehind(prefix, LittleEndian(i, 8));
  }

  lemma SliceBehind(a: Bytes, b: Bytes)
    ensures (a + b)[|a|..] == b
  {
  }

  lemma SuffixesDiffer(i: nat, j: nat)
    requires i < BUCKETS && j < BUCKETS && i != j
    ensures BucketSuffix(i) != BucketSuffix(j)
  {
    BehindSuffix(i);
    BehindSuffix(j);
  }

  lemma SamePrefix(name: Bytes, a: Bytes, b: Bytes)
    ensures name + a == name + b <==> a == b
  {
    assert (name + a)[|name|..] == a && (name + b)[|name|..] == b;
  }

  /** However long the keys, names stay short; and a key that is short itself can be read off its name. */
  lemma NamesAreShort(name: Bytes, digest: Bytes -> Hash, k: Bytes)
    ensures |MapKey(name, digest, k)| <= |name| + 32
    ensures |k| <= 32 ==> |name| <= |MapKey(name, digest, k)| && MapKey(name, digest, k)[|name|..] == k
  {
    SliceBehind(name, k);
  }

  lemma OwnNamesAlways(l: Layout, name: Bytes, digest: Bytes -> Hash)
    ensures Named(l, name, digest).OwnNames()
  {
    var x := Named(l, name, digest);
    forall i, j | 0 <= i < BUCKETS && 0 <= j < BUCKETS && i != j
      ensures x.bucketName(i) != x.bucketName(j)
    {
      SuffixesDiffer(i, j);
      SamePrefix(name, BucketSuffix(i), BucketSuffix(j));
    }
    forall i | 0 <= i < BUCKETS
      ensures x.bucketName(i) != x.lenName
    {
      SamePrefix(name, BucketSuffix(i), LEN_SUFFIX);
    }
  }

  lemma ValuesApart(l: Layout, name: Bytes, digest: Bytes -> Hash, a: Bytes, b: Bytes)
    requires DigestsApart(l, name, digest)
    ensures Named(l, name, digest).Apart(a, b)
  {
    SamePrefix(name, a, b);
    if l.keys(a) && l.keys(b) && a != b && |b| > 32 {
      assert digest(name + b) != MapKey(name, digest, a);
    }
  }

  /** A value's name is that of the length, or of a bucket, if and only if the key is spelled so. */
  lemma CollidesIff(l: Layout, name: Bytes, digest: Bytes -> Hash, k: Bytes, i: nat)
    requires DigestsApart(l, name, digest) && l.keys(k) && i < BUCKETS
    ensures MapKey(name, digest, k) == name + LEN_SUFFIX <==> k == LEN_SUFFIX
    ensures MapKey(name, digest, k) == name + BucketSuffix(i) <==> k == BucketSuffix(i)
  {
    SamePrefix(name, k, LEN_SUFFIX);
    SamePrefix(name, k, BucketSuffix(i));
  }

  lemma NoneCollides(l: Layout, name: Bytes, digest: Bytes -> Hash)
    requires DigestsApart(l, name, digest) && forall k | l.keys(k) :: !Collides(k)
    ensures Named(l, name, digest).NamesDiffer()
  {
    var x := Named(l, name, digest);
    OwnNamesAlways(l, name, digest);
    forall a, b
      ensures x.Apart(a, b)
    {
      ValuesApart(l, name, digest, a, b);
    }
    forall k | x.keys(k)
      ensures x.valueName(k) != x.lenName
    {
      CollidesIff(l, name, digest, k, 0);
    }
    forall i, k | 0 <= i < BUCKETS && x.keys(k)
      ensures x.bucketName(i) != x.valueName(k)
    {
      CollidesIff(l, name, digest, k, i);
    }
  }

  lemma OneCollides(l: Layout, name: Bytes, digest: Bytes -> Hash, k: Bytes)
    requires l.keys(k) && Collides(k)
    ensures !Named(l, name, digest).NamesDiffer()
  {
    var x := Named(l, name, digest);
    if k == LEN_SUFFIX {
      assert x.keys(k) && x.valueName(k) == x.lenName;
    } else {
      var i :| 0 <= i < BUCKETS && k == BucketSuffix(i);
      assert x.keys(k) && x.bucketName(i) == x.valueName(k);
    }
  }

  /** The exact condition: a store map's names differ if and only if no key is spelled like a suffix. */
  lemma NamesDifferIff(l: Layout, name: Bytes, digest: Bytes -> Hash)
    requires DigestsApart(l, name, digest)
    ensures Named(l, name, digest).NamesDiffer() <==> forall k | l.keys(k) :: !Collides(k)
  {
    if k :| l.keys(k) && Collides(k) {
      OneCollides(l, name, digest, k);
    } else {
      NoneCollides(l, name, digest);
    }
  }

  /** When a store map is a plain map: in every run over any number of blocks, if and only if no key is
      spelled like the suffix of the length or of a bucket; only the suffixes of buckets without keys do
      not matter. */
  lemma PlainIffNoneCollides(l: Layout, name: Bytes, digest: Bytes -> Hash)
    requires l.RoundTrips() && DigestsApart(l, name, digest) && forall k | l.keys(k) :: k != []
    ensures (forall k | l.keys(k) :: !Collides(k)) ==> IsPlain(Named(l, name, digest))
    ensures Spread(l) ==> (IsPlain(Named(l, name, digest)) <==> forall k | l.keys(k) :: !Collides(k))
  {
    var x := Named(l, name, digest);
    OwnNamesAlways(l, name, digest);
    NamesDifferIff(l, name, digest);
    assert x.RoundTrips();
    if Spread(l) {
      forall i | 0 <= i < BUCKETS
        ensures HasKey(x, i)
      {
        assert HasKey(l, i);
      }
    }
    PlainIff(x);
  }

  /** Keys of one length, other than that of a suffix: then nothing collides. */
  lemma FixedLengthIsOk(l: Layout, name: Bytes, digest: Bytes -> Hash, n: nat)
    requires l.RoundTrips() && (forall k | l.keys(k) :: |k| == n) && n != 8 && n != 16
    requires n > 32 ==> DigestsApart(l, name, digest)
    ensures Named(l, name, digest).Ok()
  {
    assert DigestsApart(l, name, digest);
    forall k | l.keys(k)
      ensures !Collides(k)
    {
    }
    NamesDifferIff(l, name, digest);
    assert Named(l, name, digest).RoundTrips();
  }

  // ----- instances -----

  /** The key `_map_len` is a key like any other to its map; its value becomes the length that the next
      block starts from. */
  lemma LenKeyOverwrites(l: Layout, name: Bytes, digest: Bytes -> Hash, v: Bytes)
    requires v != []
    ensures var x := Named(l, name, digest);
            var m := Write(map[], Do(x, Build(x, map[]), map[], Insert(LEN_SUFFIX, v)).writes);
            Do(x, Build(x, m), m, Len).answer == Number(l.decodeLen(v))
  {
    ValueOverLength(Named(l, name, digest), LEN_SUFFIX, v);
  }

  /** The key `_bucket_` with an index behind it: its value becomes that bucket's list of keys. */
  lemma BucketKeyOverwrites(l: Layout, name: Bytes, digest: Bytes -> Hash, v: Bytes, k: Key)
    requires v != []
    ensures var x, b := Named(l, name, digest), BucketSuffix(Index(k));
            var m := Write(map[], Do(x, Build(x, map[]), map[], Insert(b, v)).writes);
            Do(x, Build(x, m), m, Contains(k)).answer == Bool(k in l.decodeKeys(v))
  {
    ValueOverBucket(Named(l, name, digest), BucketSuffix(Index(k)), v, k);
  }
}
