/** Storage keys: a big-endian height followed by a hash, ordered by the database as bytes. */
module Keys {
  import opened Types

  type Key = s: Bytes | |s| == 40 witness seq(40, _ => 0)

  /** The last `n` base-256 digits, most significant first. */
  function BigEndian(n: nat, x: nat): (s: Bytes)
    ensures |s| == n
  {
    if n == 0 then [] else BigEndian(n - 1, x / 0x100) + [(x % 0x100) as Byte]
  }

  function FromBigEndian(s: Bytes): nat {
    if s == [] then 0 else FromBigEndian(s[..|s| - 1]) * 0x100 + s[|s| - 1] as nat
  }

  /** Byte strings compared the way the database orders its keys. */
  predicate Less(a: Bytes, b: Bytes) {
    b != [] && (a == [] || a[0] < b[0] || (a[0] == b[0] && Less(a[1..], b[1..])))
  }

  function Prefix(height: U64): (s: Bytes)
    ensures |s| == 8
  {
    BigEndian(8, height as nat)
  }

  function MakeKey(height: U64, hash: Hash): Key {
    Prefix(height) + hash
  }

  function HeightOf(key: Key): nat {
    FromBigEndian(key[..8])
  }

  function HashOf(key: Key): Hash {
    key[8..]
  }

  function Power(n: nat): nat {
    if n == 0 then 1 else 0x100 * Power(n - 1)
  }

  lemma {:induction false} DigitsRoundTrip(n: nat, x: nat)
    requires x < Power(n)
    ensures FromBigEndian(BigEndian(n, x)) == x
  {
    if n > 0 {
      DigitsRoundTrip(n - 1, x / 0x100);
      assert BigEndian(n, x)[..n - 1] == BigEndian(n - 1, x / 0x100);
    }
  }

  lemma {:induction false} DigitsBounded(s: Bytes)
    ensures FromBigEndian(s) < Power(|s|)
  {
    if s != [] {
      DigitsBounded(s[..|s| - 1]);
    }
  }

  lemma {:induction false} BytesRoundTrip(s: Bytes)
    ensures BigEndian(|s|, FromBigEndian(s)) == s
  {
    if s != [] {
      BytesRoundTrip(s[..|s| - 1]);
    }
  }

  lemma EightBytes()
    ensures Power(8) == 0x1_0000_0000_0000_0000
  {
    assert Power(4) == 0x1_0000_0000;
    assert Power(6) == 0x1_0000_0000_0000;
  }

  /** A key tells its height and hash, and these tell the key. */
  lemma KeyRoundTrip(height: U64, hash: Hash)
    ensures HeightOf(MakeKey(height, hash)) == height as nat
    ensures HashOf(MakeKey(height, hash)) == hash
  {
    EightBytes();
    DigitsRoundTrip(8, height as nat);
    assert MakeKey(height, hash)[..8] == Prefix(height);
  }

  lemma KeyIsMade(key: Key)
    ensures HeightOf(key) < 0x1_0000_0000_0000_0000
    ensures MakeKey(HeightOf(key) as U64, HashOf(key)) == key
  {
    EightBytes();
    DigitsBounded(key[..8]);
    BytesRoundTrip(key[..8]);
  }

  /** The first digit outweighs all that follow. */
  lemma {:induction false} FirstDigit(s: Bytes)
    requires s != []
    ensures FromBigEndian(s) == s[0] as nat * Power(|s| - 1) + FromBigEndian(s[1..])
  {
    if |s| == 1 {
      assert s[..0] == [] && s[1..] == [];
    } else {
      var n := |s| - 1;
      FirstDigit(s[..n]);
      assert s[..n][1..] == s[1..][..n - 1];
      ShiftProduct(s[0] as nat, Power(n - 1));
    }
  }

  lemma ShiftProduct(x: nat, p: nat)
    ensures x * (0x100 * p) == x * p * 0x100
  {
  }

  /** For equally long byte strings, the byte order is the order of the numbers they spell. */
  lemma {:induction false} OrderIsNumeric(a: Bytes, b: Bytes)
    requires |a| == |b|
    ensures Less(a, b) <==> FromBigEndian(a) < FromBigEndian(b)
  {
    if a != [] {
      var p := Power(|a| - 1);
      FirstDigit(a);
      FirstDigit(b);
      DigitsBounded(a[1..]);
      DigitsBounded(b[1..]);
      OrderIsNumeric(a[1..], b[1..]);
      if a[0] < b[0] {
        Outweigh(a[0] as nat, b[0] as nat, p, FromBigEndian(a[1..]), FromBigEndian(b[1..]));
      } else if b[0] < a[0] {
        Outweigh(b[0] as nat, a[0] as nat, p, FromBigEndian(b[1..]), FromBigEndian(a[1..]));
      }
    }
  }

  lemma Outweigh(x: nat, y: nat, p: nat, a: nat, b: nat)
    requires x < y && a < p
    ensures x * p + a < y * p + b
  {
    assert (x + 1) * p <= y * p;
  }

  lemma {:induction false} LessByPrefix(a: Bytes, b: Bytes, n: nat)
    requires n <= |a| && n <= |b|
    ensures Less(a, b) <==> Less(a[..n], b[..n]) || (a[..n] == b[..n] && Less(a[n..], b[n..]))
    decreases n
  {
    if n > 0 {
      LessByPrefix(a[1..], b[1..], n - 1);
      assert a[1..][..n - 1] == a[..n][1..] && b[1..][..n - 1] == b[..n][1..];
      assert a[1..][n - 1..] == a[n..] && b[1..][n - 1..] == b[n..];
      assert a[..n] == [a[0]] + a[..n][1..] && b[..n] == [b[0]] + b[..n][1..];
    } else {
      assert a[..0] == [] && b[..0] == [] && a[0..] == a && b[0..] == b;
    }
  }

  /** Sorted keys have sorted heights. */
  lemma HeightsAreSorted(a: Key, b: Key)
    requires Less(a, b)
    ensures HeightOf(a) <= HeightOf(b)
  {
    LessByPrefix(a, b, 8);
    OrderIsNumeric(a[..8], b[..8]);
  }

  /** The keys below a prefix are exactly those of smaller heights. */
  lemma BelowPrefix(key: Key, height: U64)
    ensures Less(key, Prefix(height)) <==> HeightOf(key) < height as nat
  {
    LessByPrefix(key, Prefix(height), 8);
    assert Prefix(height)[8..] == [];
    assert Prefix(height)[..8] == Prefix(height);
    OrderIsNumeric(key[..8], Prefix(height));
    EightBytes();
    DigitsRoundTrip(8, height as nat);
  }

  lemma {:induction false} LessIsStrict(a: Bytes)
    ensures !Less(a, a)
  {
    if a != [] {
      LessIsStrict(a[1..]);
    }
  }
}
