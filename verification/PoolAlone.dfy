/** Packaging step by step when nobody interferes: it ends, and does what the sequential method does. */
module PoolAlone {
  import opened Types
  import opened PoolRuns

  function Packs(s: Pool, n: nat): Pool
    decreases n
  {
    if n == 0 then s else Packs(PackStep(s), n - 1)
  }

  lemma {:induction false} PacksInTwo(s: Pool, m: nat, n: nat)
    ensures Packs(s, m + n) == Packs(Packs(s, m), n)
    decreases m
  {
    if m > 0 {
      PacksInTwo(PackStep(s), m - 1, n);
    }
  }

  /** The timed-out hashes in queue order. */
  function LateHashes(q: seq<Entry>, height: nat, limit: nat): seq<Hash> {
    if q == [] then []
    else (if q[0].IsTimeout(height, limit) then [q[0].hash] else []) + LateHashes(q[1..], height, limit)
  }

  lemma {:induction false} KeptFromFront(q: seq<Entry>, height: nat, limit: nat)
    requires q != []
    ensures Kept(q, [], height, limit) ==
            (if q[0].IsTimeout(height, limit) then [] else [q[0]]) + Kept(q[1..], [], height, limit)
    ensures Late(q, height, limit) ==
            (if q[0].IsTimeout(height, limit) then {q[0].hash} else {}) + Late(q[1..], height, limit)
  {
    if |q| > 1 {
      var init := q[..|q| - 1];
      KeptFromFront(init, height, limit);
      assert init[1..] == q[1..][..|q| - 2];
    }
  }

  lemma {:induction false} LateHashesAreLate(q: seq<Entry>, height: nat, limit: nat)
    ensures (set h | h in LateHashes(q, height, limit)) == Late(q, height, limit)
  {
    if q != [] {
      LateHashesAreLate(q[1..], height, limit);
      KeptFromFront(q, height, limit);
    }
  }

  /** The pool once the popping is over, with these entries moved and these hashes noted. */
  function PoppedTo(s: Pool, moved: seq<Entry>, late: seq<Hash>): Pool {
    s.SetQueue(s.isZero, []).SetQueue(!s.isZero, moved).(packager := Switching(late))
  }

  function Popped(s: Pool): Pool
    requires s.packager.Popping?
  {
    var Popping(height, limit, late) := s.packager;
    PoppedTo(s, s.Retired() + Kept(s.Incumbent(), [], height, limit), late + LateHashes(s.Incumbent(), height, limit))
  }

  /** An entry that is late is noted. */
  lemma PopLate(s: Pool)
    requires s.packager.Popping? && s.Incumbent() != []
    requires s.Incumbent()[0].IsTimeout(s.packager.height, s.packager.limit)
    ensures var t := PackStep(s);
            && t.packager.Popping? && Popped(t) == Popped(s)
            && t.Incumbent() == s.Incumbent()[1..] && t.Retired() == s.Retired() && t.capacity == s.capacity
  {
    var Popping(height, limit, late) := s.packager;
    var q := s.Incumbent();
    KeptFromFront(q, height, limit);
    assert late + [q[0].hash] + LateHashes(q[1..], height, limit) == late + LateHashes(q, height, limit);
    assert [] + Kept(q[1..], [], height, limit) == Kept(q[1..], [], height, limit);
  }

  /** An entry that is live is moved to the other queue, which has room. */
  lemma PopLive(s: Pool)
    requires s.packager.Popping? && s.Incumbent() != [] && |s.Retired()| < s.capacity
    requires !s.Incumbent()[0].IsTimeout(s.packager.height, s.packager.limit)
    ensures var t := PackStep(PackStep(s));
            && t.packager.Popping? && Popped(t) == Popped(s)
            && t.Incumbent() == s.Incumbent()[1..] && |t.Retired()| == |s.Retired()| + 1 && t.capacity == s.capacity
  {
    var Popping(height, limit, late) := s.packager;
    var q, r := s.Incumbent(), s.Retired();
    var t := PackStep(PackStep(s));
    assert t == s.SetQueue(s.isZero, q[1..]).SetQueue(!s.isZero, r + [q[0]]);
    KeptFromFront(q, height, limit);
    assert r + [q[0]] + Kept(q[1..], [], height, limit) == r + Kept(q, [], height, limit);
    assert [] + LateHashes(q[1..], height, limit) == LateHashes(q[1..], height, limit);
  }

  lemma {:induction false} PopAll(s: Pool) returns (n: nat)
    requires s.packager.Popping? && |s.Incumbent()| + |s.Retired()| <= s.capacity
    ensures Packs(s, n) == Popped(s)
    decreases |s.Incumbent()|
  {
    if s.Incumbent() == [] {
      n := 1;
      assert Packs(s, 1) == PackStep(s);
      assert s.Retired() + [] == s.Retired() && s.packager.late + [] == s.packager.late;
    } else {
      var m := 1;
      if s.Incumbent()[0].IsTimeout(s.packager.height, s.packager.limit) {
        PopLate(s);
        assert Packs(s, 1) == PackStep(s);
      } else {
        PopLive(s);
        m := 2;
        assert Packs(s, 2) == Packs(PackStep(s), 1) == PackStep(PackStep(s));
      }
      var k := PopAll(Packs(s, m));
      PacksInTwo(s, m, k);
      n := m + k;
    }
  }

  lemma {:induction false} ClearAll(s: Pool) returns (n: nat)
    requires s.packager.Clearing?
    ensures Packs(s, n) == s.(keys := s.keys - (set h | h in s.packager.late), packager := Idle)
    decreases |s.packager.late|
  {
    var late := s.packager.late;
    if late == [] {
      n := 1;
      assert Packs(s, 1) == PackStep(s);
      assert s.keys - (set h | h in late) == s.keys;
    } else {
      var k := ClearAll(PackStep(s));
      n := k + 1;
      assert late == [late[0]] + late[1..];
      assert s.keys - {late[0]} - (set h | h in late[1..]) == s.keys - set h | h in late;
    }
  }

  lemma {:induction false} QuietCounts(xs: seq<Inserter>)
    requires forall i | 0 <= i < |xs| :: xs[i].Accepted? || xs[i].Failed?
    ensures Inside(xs) == 0
  {
    if xs != [] {
      QuietCounts(xs[..|xs| - 1]);
    }
  }

  /** Roles are switched, nobody is waited for, nothing is left to settle. */
  lemma SwitchAlone(s: Pool)
    requires s.packager.Switching? && s.count == 0 && s.Incumbent() == []
    ensures Packs(s, 3) == s.(isZero := !s.isZero, packager := Clearing(s.packager.late))
  {
    var a := PackStep(s);
    var b := PackStep(a);
    assert Packs(s, 3) == Packs(a, 2) == Packs(b, 1) == PackStep(b);
  }

  /** Alone, a package ends, and does to queues and map exactly what a flush of nothing does: live
      entries are queued in order, timed-out ones are gone. */
  lemma PackageAlone(s: Pool, height: nat, limit: nat) returns (n: nat)
    requires Inv(s) && Quiet(s)
    ensures Packs(Next(s, StartPackage(height, limit)), n) == FlushStep(s, [], height, limit)
  {
    var s1 := s.(packager := Popping(height, limit, []));
    QuietCounts(s.inserters);
    var i := PopAll(s1);
    var s2 := Popped(s1);
    SwitchAlone(s2);
    var s3 := s2.(isZero := !s2.isZero, packager := Clearing(s2.packager.late));
    var k := ClearAll(s3);
    PacksInTwo(s1, i, 3);
    PacksInTwo(s1, i + 3, k);
    n := i + 3 + k;
    AloneIsFlush(s, height, limit);
  }

  lemma AloneIsFlush(s: Pool, height: nat, limit: nat)
    requires s.packager.Idle? && s.Retired() == []
    ensures var t := Popped(s.(packager := Popping(height, limit, [])));
            t.(isZero := !t.isZero, keys := t.keys - (set h | h in t.packager.late), packager := Idle)
            == FlushStep(s, [], height, limit)
  {
    var q := s.Incumbent();
    LateHashesAreLate(q, height, limit);
    assert [] + Kept(q, [], height, limit) == Kept(q, [], height, limit);
    assert [] + LateHashes(q, height, limit) == LateHashes(q, height, limit);
    assert Gone(q, [], height, limit) == Late(q, height, limit);
  }
}
