/** Packaging interleaved with any number of concurrent inserters.

    Inserting is five atomic steps (map insertion, counter up, role read, queue push, counter down)
    and a sixth when the push failed (deletion from the map). Packaging pops, pushes, deletes,
    switches roles, watches the counter and settles the retired queue, one access at a time. A flush
    holds the lock that inserters share, so it happens when none is under way. */
module PoolRuns {
  import opened Types

  datatype Entry = Entry(hash: Hash, timeout: nat, proposed: bool) {
    predicate IsTimeout(height: nat, limit: nat) {
      timeout <= height || timeout > limit
    }
  }

  datatype Inserter =
    | Mapped(e: Entry)
    | Counted(e: Entry)
    | Chosen(e: Entry, zero: bool)
    | Pushed(e: Entry, ok: bool)
    | Released(e: Entry, ok: bool)
    | Accepted
    | Failed
  {
    /** Between counter up and counter down. */
    predicate Inside() { Counted? || Chosen? || Pushed? }

    /** Whether this insertion accounts for key `h`: it is in the map and not yet in a queue. */
    function Holds(h: Hash): nat {
      match this
      case Mapped(e) => One(e, h)
      case Counted(e) => One(e, h)
      case Chosen(e, _) => One(e, h)
      case Pushed(e, ok) => if ok then 0 else One(e, h)
      case Released(e, ok) => if ok then 0 else One(e, h)
      case Accepted => 0
      case Failed => 0
    }
  }

  /** `late` collects the timed-out hashes. */
  datatype Packager =
    | Idle
    | Popping(height: nat, limit: nat, late: seq<Hash>)
    | Holding(e: Entry, height: nat, limit: nat, late: seq<Hash>)
    | Dropping(e: Entry, height: nat, limit: nat, late: seq<Hash>)
    | Switching(late: seq<Hash>)
    | Watching(late: seq<Hash>)
    | Settling(late: seq<Hash>)
    | Moving(e: Entry, late: seq<Hash>)
    | Deleting(e: Entry, late: seq<Hash>)
    | Clearing(late: seq<Hash>)
  {
    /** How many times the packager accounts for key `h`. */
    function Holds(h: Hash): nat {
      match this
      case Idle => 0
      case Popping(_, _, late) => Occurs(late, h)
      case Holding(e, _, _, late) => One(e, h) + Occurs(late, h)
      case Dropping(e, _, _, late) => One(e, h) + Occurs(late, h)
      case Switching(late) => Occurs(late, h)
      case Watching(late) => Occurs(late, h)
      case Settling(late) => Occurs(late, h)
      case Moving(e, late) => One(e, h) + Occurs(late, h)
      case Deleting(e, late) => One(e, h) + Occurs(late, h)
      case Clearing(late) => Occurs(late, h)
    }
  }

  function One(e: Entry, h: Hash): nat { if e.hash == h then 1 else 0 }

  function Occurs(hs: seq<Hash>, h: Hash): nat {
    if hs == [] then 0 else Occurs(hs[..|hs| - 1], h) + if hs[|hs| - 1] == h then 1 else 0
  }

  datatype Pool = Pool(
    capacity: nat,
    queue0: seq<Entry>,
    queue1: seq<Entry>,
    keys: set<Hash>,
    isZero: bool,
    count: int,
    inserters: seq<Inserter>,
    packager: Packager)
  {
    function Queue(zero: bool): seq<Entry> { if zero then queue0 else queue1 }

    function SetQueue(zero: bool, q: seq<Entry>): Pool {
      if zero then this.(queue0 := q) else this.(queue1 := q)
    }

    function Incumbent(): seq<Entry> { Queue(isZero) }

    function Retired(): seq<Entry> { Queue(!isZero) }
  }

  datatype Action =
    | Begin(e: Entry)
    | Advance(i: nat)
    | StartPackage(height: nat, limit: nat)
    | Pack
    | Flush(hashes: seq<Hash>, height: nat, limit: nat)

  function BeginStep(s: Pool, e: Entry): Pool {
    if e.hash in s.keys then s.(inserters := s.inserters + [Failed])
    else s.(keys := s.keys + {e.hash}, inserters := s.inserters + [Mapped(e)])
  }

  function AdvanceStep(s: Pool, i: nat): Pool
    requires i < |s.inserters|
  {
    match s.inserters[i]
    case Mapped(e) => s.(count := s.count + 1, inserters := s.inserters[i := Counted(e)])
    case Counted(e) => s.(inserters := s.inserters[i := Chosen(e, s.isZero)])
    case Chosen(e, zero) =>
      var q := s.Queue(zero);
      if |q| < s.capacity
      then s.SetQueue(zero, q + [e]).(inserters := s.inserters[i := Pushed(e, true)])
      else s.(inserters := s.inserters[i := Pushed(e, false)])
    case Pushed(e, ok) => s.(count := s.count - 1, inserters := s.inserters[i := Released(e, ok)])
    case Released(e, ok) =>
      if ok then s.(inserters := s.inserters[i := Accepted])
      else s.(keys := s.keys - {e.hash}, inserters := s.inserters[i := Failed])
    case Accepted => s
    case Failed => s
  }

  function PackStep(s: Pool): Pool {
    var inc, ret := s.Incumbent(), s.Retired();
    match s.packager
    case Idle => s
    case Popping(height, limit, late) =>
      if inc == [] then s.(packager := Switching(late))
      else
        var t := s.SetQueue(s.isZero, inc[1..]);
        if inc[0].IsTimeout(height, limit)
        then t.(packager := Popping(height, limit, late + [inc[0].hash]))
        else t.(packager := Holding(inc[0], height, limit, late))
    case Holding(e, height, limit, late) =>
      if |ret| < s.capacity
      then s.SetQueue(!s.isZero, ret + [e]).(packager := Popping(height, limit, late))
      else s.(packager := Dropping(e, height, limit, late))
    case Dropping(e, height, limit, late) =>
      s.(keys := s.keys - {e.hash}, packager := Popping(height, limit, late))
    case Switching(late) => s.(isZero := !s.isZero, packager := Watching(late))
    case Watching(late) => if s.count == 0 then s.(packager := Settling(late)) else s
    case Settling(late) =>
      if ret == [] then s.(packager := Clearing(late))
      else s.SetQueue(!s.isZero, ret[1..]).(packager := Moving(ret[0], late))
    case Moving(e, late) =>
      if |inc| < s.capacity then s.SetQueue(s.isZero, inc + [e]).(packager := Settling(late))
      else s.(packager := Deleting(e, late))
    case Deleting(e, late) => s.(keys := s.keys - {e.hash}, packager := Settling(late))
    case Clearing(late) =>
      if late == [] then s.(packager := Idle)
      else s.(keys := s.keys - {late[0]}, packager := Clearing(late[1..]))
  }

  predicate Quiet(s: Pool) {
    s.packager.Idle? && forall i | 0 <= i < |s.inserters| :: s.inserters[i].Accepted? || s.inserters[i].Failed?
  }

  /** What a flush leaves in the queue. */
  function Kept(q: seq<Entry>, hashes: seq<Hash>, height: nat, limit: nat): seq<Entry> {
    if q == [] then []
    else
      var init, e := Kept(q[..|q| - 1], hashes, height, limit), q[|q| - 1];
      if e.hash in hashes || e.IsTimeout(height, limit) then init else init + [e]
  }

  /** What a flush deletes: the given hashes and those of timed-out entries. */
  function Gone(q: seq<Entry>, hashes: seq<Hash>, height: nat, limit: nat): set<Hash> {
    (set h | h in hashes) + Late(q, height, limit)
  }

  function Late(q: seq<Entry>, height: nat, limit: nat): set<Hash> {
    if q == [] then {}
    else
      var init, e := Late(q[..|q| - 1], height, limit), q[|q| - 1];
      if e.IsTimeout(height, limit) then init + {e.hash} else init
  }

  function FlushStep(s: Pool, hashes: seq<Hash>, height: nat, limit: nat): Pool {
    var inc := s.Incumbent();
    s.SetQueue(s.isZero, []).SetQueue(!s.isZero, Kept(inc, hashes, height, limit))
     .(isZero := !s.isZero, keys := s.keys - Gone(inc, hashes, height, limit))
  }

  function Next(s: Pool, a: Action): Pool {
    match a
    case Begin(e) => BeginStep(s, e)
    case Advance(i) => if i < |s.inserters| then AdvanceStep(s, i) else s
    case StartPackage(height, limit) =>
      if s.packager.Idle? then s.(packager := Popping(height, limit, [])) else s
    case Pack => PackStep(s)
    case Flush(hashes, height, limit) => if Quiet(s) then FlushStep(s, hashes, height, limit) else s
  }

  function Run(s: Pool, actions: seq<Action>): Pool {
    if actions == [] then s else Next(Run(s, actions[..|actions| - 1]), actions[|actions| - 1])
  }

  function Empty(capacity: nat): Pool {
    Pool(capacity, [], [], {}, true, 0, [], Idle)
  }

  // ----- who accounts for which key -----

  function InQueue(q: seq<Entry>, h: Hash): nat {
    if q == [] then 0 else InQueue(q[..|q| - 1], h) + One(q[|q| - 1], h)
  }

  function InFlight(xs: seq<Inserter>, h: Hash): nat {
    if xs == [] then 0 else InFlight(xs[..|xs| - 1], h) + xs[|xs| - 1].Holds(h)
  }

  function Inside(xs: seq<Inserter>): nat {
    if xs == [] then 0 else Inside(xs[..|xs| - 1]) + if xs[|xs| - 1].Inside() then 1 else 0
  }

  function Held(s: Pool, h: Hash): nat {
    InQueue(s.queue0, h) + InQueue(s.queue1, h) + s.packager.Holds(h) + InFlight(s.inserters, h)
  }

  function InMap(s: Pool, h: Hash): nat { if h in s.keys then 1 else 0 }

  /** Only while the packager watches the counter may an insertion target the retired queue; the
      retired queue is empty outside a package. */
  predicate Targets(s: Pool) {
    && (!s.packager.Watching? ==>
          forall i | 0 <= i < |s.inserters| && s.inserters[i].Chosen? :: s.inserters[i].zero == s.isZero)
    && (s.packager.Idle? || s.packager.Clearing? ==> s.Retired() == [])
  }

  /** Every key of the map is accounted for exactly once, by a queue entry, the packager or an
      insertion under way, and nothing else is. */
  ghost predicate Inv(s: Pool) {
    && (forall h :: Held(s, h) == InMap(s, h))
    && s.count == Inside(s.inserters)
    && |s.queue0| <= s.capacity && |s.queue1| <= s.capacity
    && Targets(s)
  }

  lemma {:induction false} QueueTail(q: seq<Entry>, h: Hash)
    requires q != []
    ensures InQueue(q, h) == One(q[0], h) + InQueue(q[1..], h)
  {
    if |q| > 1 {
      QueueTail(q[..|q| - 1], h);
      assert q[..|q| - 1][1..] == q[1..][..|q| - 2];
    }
  }

  lemma QueueAppend(q: seq<Entry>, e: Entry, h: Hash)
    ensures InQueue(q + [e], h) == InQueue(q, h) + One(e, h)
  {
    assert (q + [e])[..|q|] == q;
  }

  lemma {:induction false} LateTail(late: seq<Hash>, h: Hash)
    requires late != []
    ensures Occurs(late, h) == Occurs(late[1..], h) + if late[0] == h then 1 else 0
  {
    if |late| > 1 {
      LateTail(late[..|late| - 1], h);
      assert late[..|late| - 1][1..] == late[1..][..|late| - 2];
    }
  }

  lemma LateAppend(late: seq<Hash>, x: Hash, h: Hash)
    ensures Occurs(late + [x], h) == Occurs(late, h) + if x == h then 1 else 0
  {
    assert (late + [x])[..|late|] == late;
  }

  lemma {:induction false} InFlightUpdate(xs: seq<Inserter>, i: nat, x: Inserter, h: Hash)
    requires i < |xs|
    ensures InFlight(xs[i := x], h) + xs[i].Holds(h) == InFlight(xs, h) + x.Holds(h)
  {
    var n := |xs| - 1;
    if i < n {
      InFlightUpdate(xs[..n], i, x, h);
      assert xs[i := x][..n] == xs[..n][i := x];
    } else {
      assert xs[i := x][..n] == xs[..n];
    }
  }

  lemma {:induction false} InsideUpdate(xs: seq<Inserter>, i: nat, x: Inserter)
    requires i < |xs|
    ensures Inside(xs[i := x]) + (if xs[i].Inside() then 1 else 0) == Inside(xs) + (if x.Inside() then 1 else 0)
  {
    var n := |xs| - 1;
    if i < n {
      InsideUpdate(xs[..n], i, x);
      assert xs[i := x][..n] == xs[..n][i := x];
    } else {
      assert xs[i := x][..n] == xs[..n];
    }
  }

  lemma {:induction false} NoneInside(xs: seq<Inserter>, i: nat)
    requires Inside(xs) == 0 && i < |xs|
    ensures !xs[i].Inside()
  {
    if i < |xs| - 1 {
      NoneInside(xs[..|xs| - 1], i);
    }
  }

  lemma BeginInv(s: Pool, e: Entry)
    requires Inv(s)
    ensures Inv(BeginStep(s, e))
  {
    var t := BeginStep(s, e);
    assert t.inserters[..|s.inserters|] == s.inserters;
    forall h
      ensures Held(t, h) == InMap(t, h)
    {
      assert Held(s, h) == InMap(s, h);
    }
  }

  /** Pushing an entry, or failing to, moves its key from the insertion to the queue or keeps it. */
  lemma ChosenCounts(s: Pool, i: nat, h: Hash)
    requires i < |s.inserters| && s.inserters[i].Chosen?
    ensures Held(AdvanceStep(s, i), h) == Held(s, h)
  {
    var Chosen(e, zero) := s.inserters[i];
    InFlightUpdate(s.inserters, i, Pushed(e, |s.Queue(zero)| < s.capacity), h);
    QueueAppend(s.Queue(zero), e, h);
  }

  lemma AdvanceCounts(s: Pool, i: nat, h: Hash)
    requires i < |s.inserters| && Held(s, h) == InMap(s, h)
    ensures Held(AdvanceStep(s, i), h) == InMap(AdvanceStep(s, i), h)
  {
    match s.inserters[i]
    case Mapped(e) => InFlightUpdate(s.inserters, i, Counted(e), h);
    case Counted(e) => InFlightUpdate(s.inserters, i, Chosen(e, s.isZero), h);
    case Chosen(_, _) => ChosenCounts(s, i, h);
    case Pushed(e, ok) => InFlightUpdate(s.inserters, i, Released(e, ok), h);
    case Released(e, ok) => InFlightUpdate(s.inserters, i, if ok then Accepted else Failed, h);
    case Accepted =>
    case Failed =>
  }

  lemma AdvanceInv(s: Pool, i: nat)
    requires Inv(s) && i < |s.inserters|
    ensures Inv(AdvanceStep(s, i))
  {
    var t := AdvanceStep(s, i);
    forall h
      ensures Held(t, h) == InMap(t, h)
    {
      assert Held(s, h) == InMap(s, h);
      AdvanceCounts(s, i, h);
    }
    InsideUpdate(s.inserters, i, t.inserters[i]);
    assert s.inserters[i := s.inserters[i]] == s.inserters;
  }

  lemma PoppingCounts(s: Pool, h: Hash)
    requires s.packager.Popping?
    ensures Held(PackStep(s), h) == Held(s, h)
  {
    var Popping(height, limit, late) := s.packager;
    var q := s.Incumbent();
    if q != [] {
      QueueTail(q, h);
      if q[0].IsTimeout(height, limit) {
        LateAppend(late, q[0].hash, h);
        SetQueueCounts(s, s.isZero, q[1..], Popping(height, limit, late + [q[0].hash]), h);
      } else {
        SetQueueCounts(s, s.isZero, q[1..], Holding(q[0], height, limit, late), h);
      }
    }
  }

  lemma SettlingCounts(s: Pool, h: Hash)
    requires s.packager.Settling?
    ensures Held(PackStep(s), h) == Held(s, h)
  {
    var q := s.Retired();
    if q != [] {
      QueueTail(q, h);
      SetQueueCounts(s, !s.isZero, q[1..], Moving(q[0], s.packager.late), h);
    }
  }

  /** Replacing one queue changes the account by the difference of the queues. */
  lemma SetQueueCounts(s: Pool, zero: bool, q: seq<Entry>, p: Packager, h: Hash)
    ensures Held(s.SetQueue(zero, q).(packager := p), h) + InQueue(s.Queue(zero), h) + s.packager.Holds(h)
         == Held(s, h) + InQueue(q, h) + p.Holds(h)
  {
  }

  lemma HoldingCounts(s: Pool, h: Hash)
    requires s.packager.Holding?
    ensures Held(PackStep(s), h) == Held(s, h)
  {
    var Holding(e, height, limit, late) := s.packager;
    if |s.Retired()| < s.capacity {
      QueueAppend(s.Retired(), e, h);
      SetQueueCounts(s, !s.isZero, s.Retired() + [e], Popping(height, limit, late), h);
    }
  }

  lemma MovingCounts(s: Pool, h: Hash)
    requires s.packager.Moving?
    ensures Held(PackStep(s), h) == Held(s, h)
  {
    var Moving(e, late) := s.packager;
    if |s.Incumbent()| < s.capacity {
      QueueAppend(s.Incumbent(), e, h);
      SetQueueCounts(s, s.isZero, s.Incumbent() + [e], Settling(late), h);
    }
  }

  lemma PackCounts(s: Pool, h: Hash)
    requires Held(s, h) == InMap(s, h)
    ensures Held(PackStep(s), h) == InMap(PackStep(s), h)
  {
    if s.packager.Popping? {
      PoppingCounts(s, h);
    } else if s.packager.Settling? {
      SettlingCounts(s, h);
    } else if s.packager.Holding? {
      HoldingCounts(s, h);
    } else if s.packager.Moving? {
      MovingCounts(s, h);
    } else if s.packager.Clearing? && s.packager.late != [] {
      LateTail(s.packager.late, h);
    }
  }

  lemma PackTargets(s: Pool)
    requires Targets(s) && s.count == Inside(s.inserters)
    ensures Targets(PackStep(s))
  {
    if s.packager.Watching? && s.count == 0 {
      forall i | 0 <= i < |s.inserters|
        ensures !s.inserters[i].Chosen?
      {
        NoneInside(s.inserters, i);
      }
    }
  }

  lemma PackFits(s: Pool)
    requires |s.queue0| <= s.capacity && |s.queue1| <= s.capacity
    ensures var t := PackStep(s);
            && |t.queue0| <= t.capacity && |t.queue1| <= t.capacity
            && t.count == s.count && t.inserters == s.inserters
  {
  }

  lemma PackInv(s: Pool)
    requires Inv(s)
    ensures Inv(PackStep(s))
  {
    PackFits(s);
    forall h
      ensures Held(PackStep(s), h) == InMap(PackStep(s), h)
    {
      assert Held(s, h) == InMap(s, h);
      PackCounts(s, h);
    }
    PackTargets(s);
  }

  lemma {:induction false} QueuedIsCounted(q: seq<Entry>, e: Entry)
    requires e in q
    ensures InQueue(q, e.hash) >= 1
  {
    if e != q[|q| - 1] {
      QueuedIsCounted(q[..|q| - 1], e);
    }
  }

  lemma {:induction false} LateIsQueued(q: seq<Entry>, height: nat, limit: nat, h: Hash)
    ensures h in Late(q, height, limit) ==> InQueue(q, h) >= 1
  {
    if q != [] {
      LateIsQueued(q[..|q| - 1], height, limit, h);
    }
  }

  /** Where a hash occurs at most once, a flush keeps it exactly when it does not delete its key. */
  lemma {:induction false} KeptCounts(q: seq<Entry>, hashes: seq<Hash>, height: nat, limit: nat, h: Hash)
    requires InQueue(q, h) <= 1
    ensures InQueue(Kept(q, hashes, height, limit), h)
         == if h in Gone(q, hashes, height, limit) then 0 else InQueue(q, h)
  {
    if q != [] {
      var init, e := q[..|q| - 1], q[|q| - 1];
      KeptCounts(init, hashes, height, limit, h);
      QueueAppend(Kept(init, hashes, height, limit), e, h);
      LateIsQueued(init, height, limit, h);
    }
  }

  lemma {:induction false} NothingInFlight(xs: seq<Inserter>, h: Hash)
    requires forall i | 0 <= i < |xs| :: xs[i].Accepted? || xs[i].Failed?
    ensures InFlight(xs, h) == 0
  {
    if xs != [] {
      NothingInFlight(xs[..|xs| - 1], h);
    }
  }

  lemma FlushInv(s: Pool, hashes: seq<Hash>, height: nat, limit: nat)
    requires Inv(s) && Quiet(s)
    ensures Inv(FlushStep(s, hashes, height, limit))
  {
    var t := FlushStep(s, hashes, height, limit);
    forall h
      ensures Held(t, h) == InMap(t, h)
    {
      assert Held(s, h) == InMap(s, h);
      NothingInFlight(s.inserters, h);
      KeptCounts(s.Incumbent(), hashes, height, limit, h);
    }
    KeptFits(s.Incumbent(), hashes, height, limit);
  }

  lemma {:induction false} KeptFits(q: seq<Entry>, hashes: seq<Hash>, height: nat, limit: nat)
    ensures |Kept(q, hashes, height, limit)| <= |q|
    ensures forall e :: e in Kept(q, hashes, height, limit) <==>
                   e in q && e.hash !in hashes && height < e.timeout <= limit
  {
    if q != [] {
      KeptFits(q[..|q| - 1], hashes, height, limit);
    }
  }

  lemma NextInv(s: Pool, a: Action)
    requires Inv(s)
    ensures Inv(Next(s, a))
  {
    match a
    case Begin(e) => BeginInv(s, e);
    case Advance(i) => if i < |s.inserters| { AdvanceInv(s, i); }
    case StartPackage(height, limit) => StartInv(s, height, limit);
    case Pack => PackInv(s);
    case Flush(hashes, height, limit) => if Quiet(s) { FlushInv(s, hashes, height, limit); }
  }

  lemma StartInv(s: Pool, height: nat, limit: nat)
    requires Inv(s)
    ensures Inv(Next(s, StartPackage(height, limit)))
  {
    var t := Next(s, StartPackage(height, limit));
    forall h
      ensures Held(t, h) == InMap(t, h)
    {
      assert Held(s, h) == InMap(s, h);
    }
  }

  lemma {:induction false} RunInv(s: Pool, actions: seq<Action>)
    requires Inv(s)
    ensures Inv(Run(s, actions))
  {
    if actions != [] {
      RunInv(s, actions[..|actions| - 1]);
      NextInv(Run(s, actions[..|actions| - 1]), actions[|actions| - 1]);
    }
  }

  lemma EmptyInv(capacity: nat)
    ensures Inv(Empty(capacity))
  {
    forall h
      ensures Held(Empty(capacity), h) == 0
    {
    }
  }

  // ----- the results -----

  /** After any interleaving, whenever no package is running: the retired queue is empty, no
      insertion is about to push to it, and every key of the map belongs to exactly one entry of
      the incumbent queue or one insertion under way. */
  lemma PackageEndsClean(capacity: nat, actions: seq<Action>, h: Hash)
    requires Run(Empty(capacity), actions).packager.Idle?
    ensures var s := Run(Empty(capacity), actions);
            && s.Retired() == []
            && (forall i | 0 <= i < |s.inserters| && s.inserters[i].Chosen? :: s.inserters[i].zero == s.isZero)
            && InQueue(s.Incumbent(), h) + InFlight(s.inserters, h) == InMap(s, h)
  {
    EmptyInv(capacity);
    RunInv(Empty(capacity), actions);
    var s := Run(Empty(capacity), actions);
    assert Held(s, h) == InMap(s, h);
  }

  /** The entry is in a queue or in the packager's hands. */
  predicate Alive(s: Pool, e: Entry) {
    || e in s.queue0 || e in s.queue1
    || (s.packager.Holding? && s.packager.e == e)
    || (s.packager.Moving? && s.packager.e == e)
  }

  /** The only ways to lose an entry: it timed out, there was no room for it, or it was flushed. */
  predicate LetsGo(s: Pool, a: Action, e: Entry) {
    match a
    case Pack =>
      || (s.packager.Popping? && !(s.packager.height < e.timeout <= s.packager.limit))
      || (s.packager.Holding? && s.packager.e == e && |s.Retired()| >= s.capacity)
      || (s.packager.Moving? && s.packager.e == e && |s.Incumbent()| >= s.capacity)
    case Flush(hashes, height, limit) => e.hash in hashes || !(height < e.timeout <= limit)
    case _ => false
  }

  lemma StepKeeps(s: Pool, a: Action, e: Entry)
    requires Targets(s) && Alive(s, e) && !LetsGo(s, a, e)
    ensures Alive(Next(s, a), e)
  {
    match a
    case Begin(_) =>
    case Advance(i) =>
    case StartPackage(_, _) =>
    case Pack => PackKeeps(s, e);
    case Flush(hashes, height, limit) =>
      if Quiet(s) {
        KeptFits(s.Incumbent(), hashes, height, limit);
      }
  }

  lemma PackKeeps(s: Pool, e: Entry)
    requires Alive(s, e) && !LetsGo(s, Pack, e)
    ensures Alive(PackStep(s), e)
  {
    var inc, ret := s.Incumbent(), s.Retired();
    assert inc == [] || inc == [inc[0]] + inc[1..];
    assert ret == [] || ret == [ret[0]] + ret[1..];
  }

  lemma {:induction false} RunKeeps(s: Pool, actions: seq<Action>, e: Entry)
    requires Inv(s) && Alive(s, e)
    requires forall i | 0 <= i < |actions| :: !LetsGo(Run(s, actions[..i]), actions[i], e)
    ensures Alive(Run(s, actions), e)
  {
    if actions != [] {
      var init := actions[..|actions| - 1];
      forall i | 0 <= i < |init|
        ensures !LetsGo(Run(s, init[..i]), init[i], e)
      {
        assert init[..i] == actions[..i];
      }
      RunKeeps(s, init, e);
      RunInv(s, init);
      StepKeeps(Run(s, init), actions[|actions| - 1], e);
    }
  }

  /** No accepted transaction is lost or duplicated. Once its push succeeds, whatever inserters,
      packages and flushes do afterwards in whatever order, and unless it times out, finds a queue
      full or is flushed, the transaction is queued exactly once and its key is in the map whenever
      no package is running. */
  lemma AcceptedIsKept(capacity: nat, before: seq<Action>, i: nat, after: seq<Action>)
    requires var s := Run(Empty(capacity), before);
             && i < |s.inserters| && s.inserters[i].Chosen?
             && |s.Queue(s.inserters[i].zero)| < capacity
    requires var s := Run(Empty(capacity), before);
             var t := Next(s, Advance(i));
             && (forall k | 0 <= k < |after| :: !LetsGo(Run(t, after[..k]), after[k], s.inserters[i].e))
             && Run(t, after).packager.Idle?
    ensures var s := Run(Empty(capacity), before);
            var e := s.inserters[i].e;
            var u := Run(Next(s, Advance(i)), after);
            e in u.Incumbent() && InQueue(u.Incumbent(), e.hash) == 1 && e.hash in u.keys
  {
    var s := Run(Empty(capacity), before);
    var e := s.inserters[i].e;
    var t := Next(s, Advance(i));
    EmptyInv(capacity);
    RunInv(Empty(capacity), before);
    CapacityFixed(Empty(capacity), before);
    NextInv(s, Advance(i));
    assert t.Queue(s.inserters[i].zero) == s.Queue(s.inserters[i].zero) + [e];
    RunKeeps(t, after, e);
    RunInv(t, after);
    var u := Run(t, after);
    QueuedIsCounted(u.Incumbent(), e);
    assert Held(u, e.hash) == InMap(u, e.hash);
  }

  lemma {:induction false} CapacityFixed(s: Pool, actions: seq<Action>)
    ensures Run(s, actions).capacity == s.capacity
  {
    if actions != [] {
      CapacityFixed(s, actions[..|actions| - 1]);
    }
  }
}
