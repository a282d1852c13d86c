/** How long transactions take, how many packets can wait, and how soon a request is served. */
module Timing {
  import opened Types
  import opened Addressing
  import opened CacheModel
  import opened BusModel
  import opened TransferEffect
  import opened Gate
  import opened Order
  import opened Transactions
  import opened SharedMemory

  /** The clock steps of a run. */
  function Clocks(run: seq<Action>): nat {
    if run == [] then 0 else (if run[0].Clock? then 1 else 0) + Clocks(run[1..])
  }

  // ----- 9, 24 or 25 ------------------------------------------------------------------------------------

  /**
    The registers of a transaction `age` clock steps after its grant began, `direct` if the modified
    line was up at the grant.
   */
  predicate Aged(s: System, age: nat, direct: bool) {
    if direct then
      && !s.firstShared
      && if s.memoryActive then age >= 2 && s.counter == DIRECT_COUNT + age - 1
         else age == 1 && ModifiedLine(s.caches, s.current)
    else
      && s.memoryActive && age >= 1 && s.counter >= 1
      && s.counter == if s.firstShared then age else age - 1
  }

  /** The length a transaction of age `age` will have had when it ends with the next word step. */
  predicate Length(age: nat, direct: bool, first: bool) { age == if direct then 9 else if first then 24 else 25 }

  /** Some cache other than core `r`'s has frame `i` Modified, whatever its tag. */
  predicate DirtyFrameElsewhere(caches: Caches, r: nat, i: Index) {
    exists c: CoreId :: c != r && caches[c].tsram[i].mesi == Modified
  }

  lemma LineIsDirtyFrame(s: System)
    ensures ModifiedLine(s.caches, s.current) <==> DirtyFrameElsewhere(s.caches, s.current.origid, IndexOf(s.current.addr))
  {
    hide IndexOf;
    assert forall c: CoreId :: RaisesModified(s.caches[c], c, s.current) <==>
             c != s.current.origid && s.caches[c].tsram[IndexOf(s.current.addr)].mesi == Modified;
  }

  /** At some clock step of the run another cache has the frame of the block under transfer Modified. */
  ghost predicate FindsDirty(s: System, run: seq<Action>)
    decreases |run|
  {
    && run != [] && s.Wf()
    && ((run[0].Clock? && DirtyFrameElsewhere(s.caches, s.current.origid, IndexOf(s.current.addr)))
        || FindsDirty(Step(s, run[0]), run[1..]))
  }

  lemma StepAges(s: System, t: System, age: nat, direct: bool)
    requires s.Wf() && s.inProgress && LockStep(s) && Aged(s, age, direct) && Advances(s, t)
    ensures if t.inProgress then Aged(t, age + 1, direct) else Length(age + 1, direct, t.firstShared)
    ensures t.firstShared <==> s.firstShared && !ModifiedLine(s.caches, s.current)
  {
  }

  /** The grant is the first of the steps. */
  lemma GrantAges(s: System, t: System)
    requires s.Wf() && s.inProgress && s.offset == 0 && !s.memoryActive && s.firstShared && Advances(s, t)
    ensures t.inProgress && Aged(t, 1, ModifiedLine(s.caches, s.current))
    ensures t.firstShared == !ModifiedLine(s.caches, s.current)
  {
  }

  /** Calls of the cores never take the modified line down. */
  lemma CallKeepsAge(s: System, a: Action, age: nat, direct: bool)
    requires Ordered(s) && s.inProgress && Aged(s, age, direct) && !a.Clock?
    ensures Step(s, a).inProgress && Aged(Step(s, a), age, direct)
  {
    var t := Step(s, a);
    if Completed(s, a) == [] {
      RequestOnly(s, a);
    }
    if ModifiedLine(s.caches, s.current) {
      var c: CoreId :| RaisesModified(s.caches[c], c, s.current);
      assert RaisesModified(t.caches[c], c, t.current);
    }
  }

  lemma {:induction false} ServiceLength(s: System, run: seq<Action>, age: nat, direct: bool)
    requires if s.inProgress then Ordered(s) && Aged(s, age, direct) else Length(age, direct, s.firstShared)
    requires Serves(s, run)
    ensures Length(age + Clocks(run), direct, s.firstShared && !FindsDirty(s, run))
    decreases |run|
  {
    hide DirtyFrameElsewhere, IndexOf, BusIter, ReadData, WriteData;
    if run != [] {
      LineIsDirtyFrame(s);
      var t := Step(s, run[0]);
      if run[0].Clock? {
        ClockAdvances(s);
        StepAges(s, t, age, direct);
        ServiceLength(t, run[1..], age + 1, direct);
      } else {
        CallKeepsOrder(s, run[0]);
        CallKeepsAge(s, run[0], age, direct);
        ServiceLength(t, run[1..], age, direct);
      }
    }
  }

  /**
    Whatever the cores do meanwhile, a granted transaction takes 9 clock steps if another cache has the frame of its
    block Modified at the grant, even with another block in it. Otherwise it takes 25 if a later clock step finds such a
    frame, and 24 if none does.
   */
  lemma TransactionLength(s: System, run: seq<Action>)
    requires Ordered(s) && !s.inProgress && Arbitrated(s).inProgress
    requires Serves(BusIter(s), run)
    ensures s.queue != []
    ensures var n := 1 + Clocks(run);
            n == if DirtyFrameElsewhere(s.caches, s.queue[0].origid, IndexOf(s.queue[0].addr)) then 9
                 else if FindsDirty(BusIter(s), run) then 25 else 24
  {
    hide Serve, CachesAfter, PacketAfter, Serves, Clocks, Shape, HeadAgrees, StateAgrees, Aged, IndexOf;
    var a := Arbitrated(s);
    ArbitrationKeepsOrder(s);
    GrantedLine(s);
    TransferKeepsOrder(a);
    GrantAges(a, Transfer(a));
    LineIsDirtyFrame(a);
    ServiceLength(BusIter(s), run, 1, ModifiedLine(a.caches, a.current));
  }

  /** What the grant puts on the bus, and when the modified line is up. */
  lemma GrantedLine(s: System)
    requires s.Wf() && !s.inProgress && Arbitrated(s).inProgress
    ensures var a := Arbitrated(s);
            && s.queue != [] && a.offset == 0 && a.firstShared && a.memoryActive == s.memoryActive
            && (ModifiedLine(a.caches, a.current) <==>
                DirtyFrameElsewhere(s.caches, s.queue[0].origid, IndexOf(s.queue[0].addr)))
  {
    hide IndexOf;
    var a := Arbitrated(s);
    assert a.current.origid == s.queue[0].origid && a.current.addr == s.queue[0].addr && a.caches == s.caches;
    LineIsDirtyFrame(a);
  }

  // ----- at most eight packets ----------------------------------------------------------------------------

  /** The core a packet of the list is there for: an invalid one serves the upgrade before it. */
  function Beneficiary(s: System, k: nat): nat
    requires k < |Line(s)|
  {
    var e := Line(s);
    if e[k].origid < NUMBER_OF_CORES then e[k].origid
    else if k > 0 then e[k - 1].origid
    else s.current.origid
  }

  lemma BeneficiaryIsCore(s: System, k: nat)
    requires Gated(s) && k < |Line(s)|
    ensures Beneficiary(s, k) < NUMBER_OF_CORES
  {
    var e := Line(s);
    assert InvalidAfterRdX(e, k);
    if k > 0 && e[k].origid >= NUMBER_OF_CORES {
      assert e[k - 1] == s.current || e[k - 1] in s.queue;
    }
  }

  /** While an upgrade's invalid packet waits at the head, the upgrade's core has no other packet. */
  lemma LeftoverIsLast(s: System, k: nat)
    requires Gated(s) && Line(s) != [] && Line(s)[0].origid >= NUMBER_OF_CORES && k < |Line(s)|
    ensures Line(s)[k].origid != s.current.origid
  {
    assert StateAgrees(s, s.current.origid);
    assert s.queue == Line(s);
  }

  /** Packets for one core are neighbours. */
  lemma BeneficiaryNeighbours(s: System, j: nat, k: nat)
    requires Gated(s) && j < k < |Line(s)| && Beneficiary(s, j) == Beneficiary(s, k)
    ensures k == j + 1
  {
    var e := Line(s);
    BeneficiaryIsCore(s, j);
    BeneficiaryIsCore(s, k);
    assert InvalidAfterRdX(e, k) && Neighbours(e, j, k) && (j < k - 1 ==> Neighbours(e, j, k - 1));
    assert j > 0 ==> Neighbours(e, j - 1, k) && Neighbours(e, j - 1, k - 1);
    if e[j].origid >= NUMBER_OF_CORES && j == 0 {
      LeftoverIsLast(s, if e[k].origid < NUMBER_OF_CORES then k else k - 1);
    }
  }

  lemma FiveOfFour(a: nat, b: nat, c: nat, d: nat, e: nat)
    requires a < 4 && b < 4 && c < 4 && d < 4 && e < 4
    ensures a == b || a == c || a == d || a == e || b == c || b == d || b == e || c == d || c == e || d == e
  {
  }

  /** The running packet and the queue together never hold more than eight packets. */
  lemma AtMostEightPackets(s: System)
    requires Gated(s)
    ensures |Line(s)| <= 8
  {
    if |Line(s)| > 8 {
      forall k | 0 <= k < |Line(s)| ensures Beneficiary(s, k) < NUMBER_OF_CORES { BeneficiaryIsCore(s, k); }
      FiveOfFour(Beneficiary(s, 0), Beneficiary(s, 2), Beneficiary(s, 4), Beneficiary(s, 6), Beneficiary(s, 8));
      forall j, k | 0 <= j < k < |Line(s)| && Beneficiary(s, j) == Beneficiary(s, k) ensures k == j + 1 {
        BeneficiaryNeighbours(s, j, k);
      }
    }
  }

  // ----- served within 200 clock steps -------------------------------------------------------------------------

  const LONGEST := LENGTH + 1

  /** The number of queue positions up to and including the last packet of core `c`. */
  function Depth(q: seq<Packet>, c: CoreId): (d: nat)
    ensures d <= |q|
    ensures d > 0 ==> q[d - 1].origid == c
    ensures forall k :: d <= k < |q| ==> q[k].origid != c
  {
    if q == [] then 0
    else if q[|q| - 1].origid == c then |q|
    else Depth(q[..|q| - 1], c)
  }

  /** Clock steps core `c` may still have to wait for its last packet to be done with. */
  function Rank(s: System, c: CoreId): nat {
    (if s.inProgress then Remaining(s) else 0) + LONGEST * Depth(s.queue, c)
  }

  lemma DepthUnique(q: seq<Packet>, c: CoreId, d: nat)
    requires d <= |q| && (d > 0 ==> q[d - 1].origid == c) && forall k :: d <= k < |q| ==> q[k].origid != c
    ensures Depth(q, c) == d
  {
    var e := Depth(q, c);
    assert d > 0 ==> q[d - 1].origid == c;
    assert e > 0 ==> q[e - 1].origid == c;
  }

  lemma DepthTail(q: seq<Packet>, c: CoreId)
    requires Owed(q, c)
    ensures Depth(q, c) > 0 && Depth(q[1..], c) == Depth(q, c) - 1
  {
    var k :| 0 <= k < |q| && q[k].origid == c;
    var d := Depth(q, c);
    assert d > k;
    DepthUnique(q[1..], c, d - 1);
  }

  lemma DepthAppend(q: seq<Packet>, g: seq<Packet>, c: CoreId)
    requires forall k :: 0 <= k < |g| ==> g[k].origid != c
    ensures Depth(q + g, c) == Depth(q, c)
  {
    DepthUnique(q + g, c, Depth(q, c));
  }

  lemma RankBounded(s: System, c: CoreId)
    requires Gated(s)
    ensures Rank(s, c) <= 200
  {
    AtMostEightPackets(s);
  }

  /** The queue loses its head when the bus is free. */
  lemma ArbitrationDequeues(s: System)
    requires s.Wf() && !s.inProgress && s.queue != []
    ensures var a := Arbitrated(s);
            && a.queue == s.queue[1..]
            && (a.inProgress ==> a.offset == 0 && a.firstShared && a.memoryActive == s.memoryActive)
  {
  }

  /** The two ways a step of the free bus can go: the head is run, or it is only dropped. */
  lemma HeadLowersRank(s: System, a: System, t: System, c: CoreId)
    requires !s.inProgress && Owed(s.queue, c) && a.queue == s.queue[1..]
    requires if a.inProgress then Rank(t, c) < LONGEST + LONGEST * Depth(a.queue, c) else t == a
    ensures Rank(t, c) < Rank(s, c)
  {
    hide Remaining, Depth;
    DepthTail(s.queue, c);
    var d := Depth(a.queue, c);
    assert Rank(s, c) == LONGEST * (d + 1) == LONGEST + LONGEST * d;
    assert !a.inProgress ==> Rank(t, c) == LONGEST * d;
  }

  lemma GrantLowersRank(s: System, c: CoreId)
    requires Ordered(s) && !s.inProgress && Owed(s.queue, c)
    ensures Rank(BusIter(s), c) < Rank(s, c)
  {
    var a := Arbitrated(s);
    ArbitrationDequeues(s);
    if a.inProgress {
      ArbitrationKeepsOrder(s);
      FirstStepLowersRank(a, c);
    }
    HeadLowersRank(s, a, BusIter(s), c);
  }

  lemma FirstStepLowersRank(a: System, c: CoreId)
    requires Ordered(a) && a.inProgress && a.firstShared && !a.memoryActive
    ensures Rank(Transfer(a), c) < LONGEST + LONGEST * Depth(a.queue, c)
  {
    var t := Transfer(a);
    TransferKeepsOrder(a);
    if t.inProgress { StepApproaches(a, t); }
  }

  lemma ProgressLowersRank(s: System, c: CoreId)
    requires Ordered(s) && s.inProgress
    ensures Rank(BusIter(s), c) < Rank(s, c)
  {
    ClockAdvances(s);
    var t := BusIter(s);
    if t.inProgress { StepApproaches(s, t); }
    RemainingPositive(s);
    StepKeepsQueue(s, t);
  }

  lemma RemainingPositive(s: System)
    requires s.inProgress && LockStep(s)
    ensures Remaining(s) > 0
  {
  }

  lemma StepKeepsQueue(s: System, t: System)
    requires s.Wf() && s.inProgress && Advances(s, t)
    ensures t.queue == s.queue
  {
  }

  /** Every clock step brings a pending request nearer to its end. */
  lemma ClockLowersRank(s: System, c: CoreId)
    requires Ordered(s) && Owed(Line(s), c)
    ensures Rank(BusIter(s), c) < Rank(s, c)
  {
    if s.inProgress {
      ProgressLowersRank(s, c);
    } else {
      assert Line(s) == s.queue;
      GrantLowersRank(s, c);
    }
  }

  /** What a call appends to the queue names its own core, if any; nothing else of the ranking changes. */
  lemma CallAppends(s: System, a: Action) returns (g: seq<Packet>)
    requires s.Wf() && !a.Clock?
    ensures Step(s, a).queue == s.queue + g
    ensures forall k :: 0 <= k < |g| ==> g[k].origid == a.core || g[k].origid >= NUMBER_OF_CORES
    ensures s.CoreBusy(a.core) ==> g == []
    ensures var t := Step(s, a);
            t.inProgress == s.inProgress && t.firstShared == s.firstShared && t.memoryActive == s.memoryActive && t.counter == s.counter
  {
    g := [];
    match a {
      case Read(x, addr) =>
        MissUnfolded(s, x, addr, BusRd);
        if !s.CoreBusy(x) && !ReadHits(s, x, addr) { g := MissPackets(s, x, addr, BusRd); }
      case Write(x, addr, w) =>
        MissUnfolded(s, x, addr, BusRdX);
        UpgradeUnfolded(s, x, addr);
        if !s.CoreBusy(x) && !WriteHits(s, x, addr) {
          g := if ReadHits(s, x, addr) then [Request(x, BusRdX, addr), INVALID_PACKET] else MissPackets(s, x, addr, BusRdX);
        }
    }
  }

  /** A call of another core goes behind the pending request, a call of its own core does nothing. */
  lemma CallKeepsRank(s: System, a: Action, c: CoreId)
    requires Ordered(s) && Owed(Line(s), c) && !a.Clock?
    ensures Rank(Step(s, a), c) == Rank(s, c)
  {
    assert StateAgrees(s, c);
    var g := CallAppends(s, a);
    DepthAppend(s.queue, g, c);
  }

  /** Core `c` has a packet in the list at the start, and still has one after every action of the run. */
  ghost predicate PendingThroughout(s: System, run: seq<Action>, c: CoreId)
    decreases |run|
  {
    Owed(Line(s), c) && (run == [] || (s.Wf() && PendingThroughout(Step(s, run[0]), run[1..], c)))
  }

  lemma {:induction false} PendingIsShort(s: System, run: seq<Action>, c: CoreId)
    requires Ordered(s) && PendingThroughout(s, run, c)
    ensures Clocks(run) <= Rank(s, c)
    decreases |run|
  {
    if run != [] {
      StepKeepsOrder(s, run[0]);
      PendingIsShort(Step(s, run[0]), run[1..], c);
      if run[0].Clock? { ClockLowersRank(s, c); } else { CallKeepsRank(s, run[0], c); }
    }
  }

  /** No request is pending for more than 200 clock steps, whatever is enqueued after it. */
  lemma ServedWithin200(s: System, run: seq<Action>, c: CoreId)
    requires Ordered(s) && PendingThroughout(s, run, c)
    ensures Clocks(run) <= 200
  {
    PendingIsShort(s, run, c);
    RankBounded(s, c);
  }
}
