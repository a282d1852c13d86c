/**
  From a call that misses to the end of its transaction: which packets the call queues, which of them is granted
  when its core's turn on the bus comes, and what that transaction does to the other caches.
 */
module Requests {
  import opened Types
  import opened Addressing
  import opened CacheModel
  import opened BusModel
  import opened TransferEffect
  import opened Gate
  import opened Order
  import opened Exclusion
  import opened Coherence
  import opened SharedMemory
  import opened Transactions
  import opened Timing
  import opened LiveTransactions
  import opened Outcomes

  // ----- what a call queues -----------------------------------------------------------------------------------------

  /** The write-back that a miss on address `a` must queue first: of the block that its frame holds Modified. */
  function Victims(s: System, c: CoreId, a: Address): seq<Packet> {
    var i := IndexOf(a);
    var f := s.caches[c].tsram[i];
    if f.mesi == Modified
    then [Packet(0, c, Flush, Location(f.tag, i, 0), s.caches[c].dsram[i * BLOCK_SIZE + OffsetOf(a)], false)]
    else []
  }

  /** A read that misses asks for the block with a BusRd, behind the write-back of a dirty victim. */
  lemma ReadMissQueues(s: System, c: CoreId, a: Address)
    requires s.Wf() && s.states[c] == Idle && !HoldsAddress(s.caches[c], a)
    ensures Step(s, Read(c, a)) ==
              s.(queue := s.queue + Victims(s, c, a) + [Packet(0, c, BusRd, a, 0, false)], states := s.states[c := Wait])
  {
    hide TagOf, IndexOf, OffsetOf, Location;
    MissUnfolded(s, c, a, BusRd);
    assert s.queue + MissPackets(s, c, a, BusRd) == s.queue + Victims(s, c, a) + [Packet(0, c, BusRd, a, 0, false)];
  }

  /** A write that misses asks for it with a BusRdX. */
  lemma WriteMissQueues(s: System, c: CoreId, a: Address, w: Word)
    requires s.Wf() && s.states[c] == Idle && !HoldsAddress(s.caches[c], a)
    ensures Step(s, Write(c, a, w)) ==
              s.(queue := s.queue + Victims(s, c, a) + [Packet(0, c, BusRdX, a, 0, false)], states := s.states[c := Wait])
  {
    hide TagOf, IndexOf, OffsetOf, Location;
    MissUnfolded(s, c, a, BusRdX);
    assert s.queue + MissPackets(s, c, a, BusRdX) == s.queue + Victims(s, c, a) + [Packet(0, c, BusRdX, a, 0, false)];
  }

  /** A write to a Shared copy asks with a BusRdX, and puts a packet that names nobody behind it. */
  lemma SharedWriteQueues(s: System, c: CoreId, a: Address, w: Word)
    requires s.Wf() && s.states[c] == Idle && s.caches[c].tsram[IndexOf(a)] == Frame(TagOf(a), Shared)
    ensures Step(s, Write(c, a, w)) ==
              s.(queue := s.queue + [Packet(0, c, BusRdX, a, 0, false), Packet(0, 0xFFFF, NoCommand, 0, 0, false)],
                 states := s.states[c := Wait])
  {
    hide TagOf, IndexOf;
    UpgradeUnfolded(s, c, a);
  }

  // ----- a group of packets in the queue -------------------------------------------------------------------------

  predicate StandsAt(q: seq<Packet>, k: nat, g: seq<Packet>) { k + |g| <= |q| && q[k..k + |g|] == g }

  /** The queue holds a fill of core `c`. */
  ghost predicate Asks(q: seq<Packet>, c: CoreId) { exists k :: 0 <= k < |q| && q[k].origid == c && q[k].cmd.IsFill() }

  /** If the queue still holds a fill of core `c`, it holds the group `g`. */
  ghost predicate StillThere(q: seq<Packet>, c: CoreId, g: seq<Packet>) {
    Asks(q, c) ==> exists k: nat :: StandsAt(q, k, g)
  }

  /** The group begins with a fill of core `c`. */
  predicate Asking(g: seq<Packet>, c: CoreId) { g != [] && g[0].origid == c && g[0].cmd.IsFill() }

  lemma StandsAtTail(q: seq<Packet>, k: nat, g: seq<Packet>)
    requires k > 0 && StandsAt(q, k, g)
    ensures StandsAt(q[1..], k - 1, g)
  {
    assert q[1..][k - 1..k - 1 + |g|] == q[k..k + |g|];
  }

  lemma StandsAtAppend(q: seq<Packet>, k: nat, g: seq<Packet>, h: seq<Packet>)
    requires StandsAt(q, k, g)
    ensures StandsAt(q + h, k, g)
  {
    assert (q + h)[k..k + |g|] == q[k..k + |g|];
  }

  /** The fill of a core is its last packet. */
  lemma OneFill(q: seq<Packet>, c: CoreId, j: nat, k: nat)
    requires Shape(q) && j < |q| && k < |q|
    requires q[j].origid == c && q[j].cmd.IsFill() && q[k].origid == c && q[k].cmd.IsFill()
    ensures j == k
  {
    assert j < k ==> Neighbours(q, j, k);
    assert k < j ==> Neighbours(q, k, j);
  }

  lemma TailStillThere(q: seq<Packet>, c: CoreId, g: seq<Packet>)
    requires Shape(q) && q != [] && StillThere(q, c, g) && Asking(g, c)
    ensures StillThere(q[1..], c, g)
  {
    if Asks(q[1..], c) {
      var j :| 0 <= j < |q[1..]| && q[1..][j].origid == c && q[1..][j].cmd.IsFill();
      assert q[j + 1].origid == c;
      var k: nat :| StandsAt(q, k, g);
      assert q[k..k + |g|][0] == q[k];
      OneFill(q, c, j + 1, k);
      StandsAtTail(q, k, g);
    }
  }

  lemma AppendStillThere(q: seq<Packet>, c: CoreId, g: seq<Packet>, h: seq<Packet>)
    requires StillThere(q, c, g) && forall k :: 0 <= k < |h| ==> h[k].origid != c
    ensures StillThere(q + h, c, g)
  {
    if Asks(q + h, c) {
      var j :| 0 <= j < |q + h| && (q + h)[j].origid == c && (q + h)[j].cmd.IsFill();
      assert j < |q| && q[j] == (q + h)[j];
      var k: nat :| StandsAt(q, k, g);
      StandsAtAppend(q, k, g, h);
    }
  }

  /** What a clock step does to the queue. */
  lemma ClockQueue(s: System)
    requires Ordered(s)
    ensures BusIter(s).queue == if s.inProgress || s.queue == [] then s.queue else s.queue[1..]
  {
    hide Shape, HeadAgrees, StateAgrees, FrameAgrees, Transfer, Arbitrated;
    if s.inProgress {
      ClockAdvances(s);
      StepKeepsQueue(s, BusIter(s));
    } else {
      ArbitrationKeepsOrder(s);
      FreeQueue(s);
      if Arbitrated(s).inProgress {
        TransferKeepsOrder(Arbitrated(s));
        StepKeepsQueue(Arbitrated(s), Transfer(Arbitrated(s)));
      }
    }
  }

  lemma FreeQueue(s: System)
    requires s.Wf() && !s.inProgress
    ensures Arbitrated(s).queue == if s.queue == [] then [] else s.queue[1..]
  {
  }

  lemma StepStillThere(s: System, act: Action, c: CoreId, g: seq<Packet>)
    requires Ordered(s) && s.CoreBusy(c) && StillThere(s.queue, c, g) && Asking(g, c)
    ensures StillThere(Step(s, act).queue, c, g)
  {
    hide HeadAgrees, StateAgrees, FrameAgrees, BusIter, StillThere, FlushFollowed, Neighbours, InvalidAfterRdX;
    if act.Clock? {
      ClockQueue(s);
      if !s.inProgress && s.queue != [] { TailStillThere(s.queue, c, g) by { assert Line(s) == s.queue; } }
    } else {
      var h := CallAppends(s, act);
      if act.core == c { assert s.queue + h == s.queue; } else { AppendStillThere(s.queue, c, g, h); }
    }
  }

  /** Core `c` has a request at the beginning of the run and is released nowhere in it. */
  ghost predicate BusyThroughout(s: System, run: seq<Action>, c: CoreId)
    decreases |run|
  {
    s.CoreBusy(c) && (run == [] || (s.Wf() && BusyThroughout(Step(s, run[0]), run[1..], c)))
  }

  lemma {:induction false} RunStillThere(s: System, run: seq<Action>, c: CoreId, g: seq<Packet>)
    requires Ordered(s) && BusyThroughout(s, run, c) && StillThere(s.queue, c, g) && Asking(g, c)
    ensures Possible(s, run) && Ordered(End(s, run)) && StillThere(End(s, run).queue, c, g)
    decreases |run|
  {
    hide Step, Shape, HeadAgrees, StateAgrees, FrameAgrees, LockStep, StillThere;
    if run != [] {
      StepStillThere(s, run[0], c, g);
      StepKeepsOrder(s, run[0]);
      RunStillThere(Step(s, run[0]), run[1..], c, g);
    }
  }

  /** The bus is free and about to grant a fill of core `c`. */
  predicate FillIsNext(s: System, c: CoreId) {
    !s.inProgress && s.queue != [] && s.queue[0].origid == c && s.queue[0].cmd.IsFill()
  }

  /** The group that a call has put at the end of the queue is at its head when the core's fill is granted. */
  lemma GroupAtGrant(t: System, wait: seq<Action>, c: CoreId, q: seq<Packet>, g: seq<Packet>)
    requires Ordered(t) && t.queue == q + g && Asking(g, c) && BusyThroughout(t, wait, c)
    ensures Possible(t, wait) && Ordered(End(t, wait))
    ensures FillIsNext(End(t, wait), c) ==> g <= End(t, wait).queue
  {
    hide Step, HeadAgrees, StateAgrees, FrameAgrees, LockStep, FlushFollowed, Neighbours, InvalidAfterRdX;
    assert StandsAt(t.queue, |q|, g);
    RunStillThere(t, wait, c, g);
    var u := End(t, wait);
    if FillIsNext(u, c) {
      var k: nat :| StandsAt(u.queue, k, g);
      assert u.queue[k..k + |g|][0] == u.queue[k];
      assert Line(u) == u.queue;
      OneFill(u.queue, c, 0, k);
    }
  }

  // ----- a BusRd takes nobody's copy -----------------------------------------------------------------------------

  /** A snoop of anything but a BusRdX leaves a valid frame valid. */
  lemma SnoopKeepsHeld(cache: Cache, d: CoreId, p: Packet, offset: Offset, t: Tag, i: Index)
    requires Holds(cache, t, i) && (p.cmd != BusRdX || TagOf(p.addr) != t || IndexOf(p.addr) != i)
    ensures Holds(SnoopCache(cache, d, p, offset), t, i)
  {
    hide TagOf, IndexOf;
  }

  /** A clock step of a transaction leaves the copies of a block in other caches, unless it is a BusRdX of that block. */
  lemma TransferKeepsHeld(s: System, d: CoreId, t: Tag, i: Index)
    requires s.Wf() && s.inProgress && d != s.current.sender && Holds(s.caches[d], t, i)
    requires !(s.current.cmd.BusRdX? && BlockTag(s) == t && BlockIndex(s) == i)
    ensures Holds(Transfer(s).caches[d], t, i)
  {
    hide PacketAfter, SharedLine, ModifiedLine, MemoryAfter, MemoryCount, SnoopCache, Receive, TagOf, IndexOf;
    if !Bubble(s) {
      var line := LinePacket(s);
      var p := PacketAfter(s.caches, line, NUMBER_OF_CORES);
      PacketFrame(s.caches, line, NUMBER_OF_CORES);
      PacketFrame(s.caches, line, d);
      TransferUnfolded(s, CachesAfter(s.caches, line, s.offset), p, MemoryPacket(s.memory, p));
      SnoopKeepsHeld(s.caches[d], d, PacketAfter(s.caches, line, d), s.offset, t, i);
    }
  }

  lemma CallKeepsHeld(s: System, call: Action, d: CoreId, t: Tag, i: Index)
    requires s.Wf() && !call.Clock? && Holds(s.caches[d], t, i)
    ensures Holds(Step(s, call).caches[d], t, i)
  {
    hide TagOf, IndexOf, StoreWord;
    if StoresWord(s, call) {
      StoredFrame(s.caches[call.core], call.addr, call.data);
    } else {
      CallOnlyQueues(s, call);
    }
  }

  /** With no guard: in every run to the end of a BusRd, whoever else held its block still holds it. */
  lemma {:induction false} ReadKeepsCopies(s: System, run: seq<Action>, d: CoreId)
    requires Ordered(s) && s.inProgress && s.current.cmd.BusRd? && Serves(s, run)
    requires d != s.current.sender && Holds(s.caches[d], BlockTag(s), BlockIndex(s))
    ensures Possible(s, run) && Holds(End(s, run).caches[d], BlockTag(s), BlockIndex(s))
    decreases |run|
  {
    hide Step, Shape, HeadAgrees, StateAgrees, FrameAgrees, LockStep, TagOf, IndexOf, Transfer;
    ServesIsPossible(s, run);
    OrderedNext(s, run[0]);
    var t := Step(s, run[0]);
    if run[0].Clock? {
      ClockAdvances(s);
      StepIsClock(s, run[0]);
      TransferKeepsHeld(s, d, BlockTag(s), BlockIndex(s));
    } else {
      CallKeepsHeld(s, run[0], d, BlockTag(s), BlockIndex(s));
    }
    if t.inProgress { ReadKeepsCopies(t, run[1..], d); }
  }

  // ----- from the call to the end --------------------------------------------------------------------------------

  /** The granted packet: what is on the bus, and the run that begins with the grant. */
  lemma PacketGranted(u: System, c: CoreId, p: Packet, run: seq<Action>)
    requires Ordered(u) && !u.inProgress && u.queue != [] && u.queue[0] == p && p.origid == c && Serves(BusIter(u), run)
    ensures var g := Arbitrated(u);
            && Ordered(g) && g.inProgress && g.current == p.(sender := c) && g.caches == u.caches
            && g.memory == u.memory
            && g.queue == u.queue[1..] && g.offset == 0 && !g.memoryActive
            && Serves(g, [Clock] + run) && Possible(g, [Clock] + run) && Possible(BusIter(u), run)
            && End(g, [Clock] + run) == End(BusIter(u), run)
  {
    hide Shape, HeadAgrees, StateAgrees, FrameAgrees, Serves, Possible, End, Transfer;
    ArbitrationKeepsOrder(u);
    var g := Arbitrated(u);
    ArbitrationKeepsGate(g);
    GrantServes(u, g, run);
  }

  /**
    A read that misses, from the call to the end of its transaction, with no guard and whatever the cores do: the
    packet granted is its BusRd, and every other cache that holds the block at the grant still holds it at the end.
   */
  lemma ReadMissKeepsCopies(s: System, c: CoreId, a: Address, wait: seq<Action>, run: seq<Action>, d: CoreId)
    requires Ordered(s) && s.states[c] == Idle && !HoldsAddress(s.caches[c], a) && d != c
    requires BusyThroughout(Step(s, Read(c, a)), wait, c)
    ensures Possible(Step(s, Read(c, a)), wait)
    ensures var u := End(Step(s, Read(c, a)), wait);
            FillIsNext(u, c) ==>
              && u.queue[0] == Packet(0, c, BusRd, a, 0, false)
              && (HoldsAddress(u.caches[d], a) && u.Wf() && Serves(BusIter(u), run) ==>
                    Possible(BusIter(u), run) && HoldsAddress(End(BusIter(u), run).caches[d], a))
  {
    hide Step, Gated, LockStep, Possible, End, Serves, BusyThroughout, TagOf, IndexOf, Victims, BusIter;
    OrderedIsWf(s);
    ReadMissQueues(s, c, a);
    var t, p := Step(s, Read(c, a)), Packet(0, c, BusRd, a, 0, false);
    StepKeepsOrder(s, Read(c, a));
    GroupAtGrant(t, wait, c, s.queue + Victims(s, c, a), [p]);
    var u := End(t, wait);
    OrderedIsWf(u);
    if FillIsNext(u, c) && HoldsAddress(u.caches[d], a) && Serves(BusIter(u), run) {
      PacketGranted(u, c, p, run);
      ReadKeepsCopies(Arbitrated(u), [Clock] + run, d);
    }
  }

  lemma OrderedIsWf(s: System)
    requires Ordered(s)
    ensures s.Wf()
  {
  }

  /** The states along a run that satisfies G1. */
  lemma {:induction false} FreshRunEnds(s: System, run: seq<Action>)
    requires Controlled(s) && Fresh(s) && FreshRun(s, run)
    ensures Possible(s, run) && Controlled(End(s, run)) && Fresh(End(s, run))
    decreases |run|
  {
    hide Step, Controlled, Fresh, FreshGrant;
    if run != [] {
      StepKeepsControl(s, run[0]);
      FreshRunEnds(Step(s, run[0]), run[1..]);
    }
  }

  /**
    A write that misses, from the call to the end of its transaction, under G1 and whatever the cores do: the packet
    granted is its BusRdX, and at the end the core holds the block and no other cache does.
   */
  lemma WriteMissTakesBlock(s: System, c: CoreId, a: Address, w: Word, wait: seq<Action>, run: seq<Action>)
    requires Controlled(s) && Fresh(s) && s.states[c] == Idle && !HoldsAddress(s.caches[c], a)
    requires FreshRun(Step(s, Write(c, a, w)), wait) && BusyThroughout(Step(s, Write(c, a, w)), wait, c)
    ensures Possible(Step(s, Write(c, a, w)), wait)
    ensures var u := End(Step(s, Write(c, a, w)), wait);
            FillIsNext(u, c) ==>
              && u.queue[0] == Packet(0, c, BusRdX, a, 0, false)
              && (u.Wf() && Serves(BusIter(u), run) ==>
                    && Possible(BusIter(u), run) && HoldsAddress(End(BusIter(u), run).caches[c], a)
                    && forall d: CoreId :: d != c ==> !HoldsAddress(End(BusIter(u), run).caches[d], a))
  {
    hide Step, Gated, LockStep, SingleWriter, Possible, End, Serves, BusyThroughout, FreshRun, TagOf, IndexOf, Victims;
    hide BusIter, Fresh;
    ControlledIsOrdered(s);
    WriteMissQueues(s, c, a, w);
    var t, p := Step(s, Write(c, a, w)), Packet(0, c, BusRdX, a, 0, false);
    CallKeepsControl(s, Write(c, a, w));
    GroupAtGrant(t, wait, c, s.queue + Victims(s, c, a), [p]);
    FreshRunEnds(t, wait);
    var u := End(t, wait);
    ControlledIsOrdered(u);
    if FillIsNext(u, c) && Serves(BusIter(u), run) { GrantedWriteEnds(u, c, p, run); }
  }

  lemma GrantedWriteEnds(u: System, c: CoreId, p: Packet, run: seq<Action>)
    requires Controlled(u) && FillIsNext(u, c) && u.queue[0] == p && p.cmd.BusRdX? && Serves(BusIter(u), run)
    ensures Possible(BusIter(u), run) && HoldsAddress(End(BusIter(u), run).caches[c], p.addr)
    ensures forall d: CoreId :: d != c ==> !HoldsAddress(End(BusIter(u), run).caches[d], p.addr)
  {
    hide Gated, LockStep, SingleWriter, Possible, End, Serves, TagOf, IndexOf, BusIter, CurrentOwner, Settled;
    ControlledIsOrdered(u);
    PacketGranted(u, c, p, run);
    ArbitrationKeepsControl(u);
    var last := FillStates(Arbitrated(u), [Clock] + run);
  }

  /**
    A write to a Shared copy, from the call to its store, under G1: the packet granted is its BusRdX with the invalid one
    behind it, and if the copy is still there the store hits in the clock step after the end, whatever the cores call.
   */
  lemma SharedWriteUpgrades(s: System, c: CoreId, a: Address, w: Word, wait: seq<Action>, run: seq<Action>, calls: seq<Call>)
    requires Controlled(s) && Fresh(s) && s.states[c] == Idle
    requires s.caches[c].tsram[IndexOf(a)] == Frame(TagOf(a), Shared)
    requires FreshRun(Step(s, Write(c, a, w)), wait) && BusyThroughout(Step(s, Write(c, a, w)), wait, c)
    ensures Possible(Step(s, Write(c, a, w)), wait)
    ensures var u := End(Step(s, Write(c, a, w)), wait);
            FillIsNext(u, c) ==>
              && |u.queue| > 1 && u.queue[0] == Packet(0, c, BusRdX, a, 0, false)
              && u.queue[1] == Packet(0, 0xFFFF, NoCommand, 0, 0, false)
              && (HoldsAddress(u.caches[c], a) && u.Wf() && Serves(BusIter(u), run) ==>
                    Possible(BusIter(u), run) && StoreHitsAfter(End(BusIter(u), run), calls, c, a))
  {
    hide Step, Gated, LockStep, SingleWriter, Possible, End, Serves, BusyThroughout, FreshRun, TagOf, IndexOf;
    hide BusIter, Fresh;
    ControlledIsOrdered(s);
    SharedWriteQueues(s, c, a, w);
    var t, g := Step(s, Write(c, a, w)), [Packet(0, c, BusRdX, a, 0, false), Packet(0, 0xFFFF, NoCommand, 0, 0, false)];
    CallKeepsControl(s, Write(c, a, w));
    GroupAtGrant(t, wait, c, s.queue, g);
    FreshRunEnds(t, wait);
    var u := End(t, wait);
    ControlledIsOrdered(u);
    if FillIsNext(u, c) && HoldsAddress(u.caches[c], a) && Serves(BusIter(u), run) {
      assert u.queue[0] == g[0] && u.queue[1] == g[1];
      AtomicUpgrade(u, run, calls, a);
    }
  }

  /** After any calls, the next clock step leaves core `c`'s store to `a` to hit. */
  ghost predicate StoreHitsAfter(e: System, calls: seq<Call>, c: CoreId, a: Address) {
    && e.Wf() && AfterCalls(e, calls).Wf()
    && WriteHits(BusIter(AfterCalls(e, calls)), c, a)
  }

  // ----- the victim of a miss ------------------------------------------------------------------------------------

  /** Core `c` waits at the beginning of the run and throughout: none of its packets is granted. */
  ghost predicate WaitsThroughout(s: System, run: seq<Action>, c: CoreId)
    decreases |run|
  {
    s.states[c] == Wait && (run == [] || (s.Wf() && WaitsThroughout(Step(s, run[0]), run[1..], c)))
  }

  /** While it waits, its packets stay in the queue and its words in its cache. */
  lemma StepKeepsWaiting(s: System, act: Action, c: CoreId, g: seq<Packet>, k: nat) returns (k': nat)
    requires Controlled(s) && Controlled(Step(s, act)) && s.states[c] == Wait && Step(s, act).states[c] == Wait
    requires g != [] && g[0].origid == c && StandsAt(s.queue, k, g)
    ensures StandsAt(Step(s, act).queue, k', g)
    ensures forall i: Index, o: Offset :: DataAt(Step(s, act).caches[c], i, o) == DataAt(s.caches[c], i, o)
  {
    hide Shape, HeadAgrees, FrameAgrees, LockStep, SingleWriter, BusIter, DataAt, StandsAt;
    k' := k;
    ControlledIsOrdered(s);
    if act.Clock? {
      ClockQueue(s);
      if !s.inProgress && s.queue != [] {
        if k == 0 { HeadIsGranted(s, c, g); } else { StandsAtTail(s.queue, k, g); k' := k - 1; }
      }
      forall i: Index, o: Offset ensures DataAt(BusIter(s).caches[c], i, o) == DataAt(s.caches[c], i, o) {
        WaiterKeepsWord(s, c, i, o);
      }
    } else {
      var h := CallAppends(s, act);
      StandsAtAppend(s.queue, k, g, h);
      forall i: Index, o: Offset ensures DataAt(Step(s, act).caches[c], i, o) == DataAt(s.caches[c], i, o) {
        CallKeepsWord(s, act, c, i, o);
      }
    }
  }

  lemma HeadIsGranted(s: System, c: CoreId, g: seq<Packet>)
    requires Ordered(s) && !s.inProgress && g != [] && g[0].origid == c && StandsAt(s.queue, 0, g)
    ensures BusIter(s).states[c] != Wait
  {
    hide Shape, HeadAgrees, StateAgrees, FrameAgrees, LockStep, Transfer;
    assert s.queue[0..|g|][0] == s.queue[0];
    ArbitrationKeepsOrder(s);
    GrantedOperates(s);
    var a := Arbitrated(s);
    TransferKeepsOrder(a);
    NobodyWaits(a, c);
  }

  lemma GrantedOperates(s: System)
    requires s.Wf() && !s.inProgress && s.queue != [] && s.queue[0].origid < NUMBER_OF_CORES
    ensures var a := Arbitrated(s); a.inProgress && a.states[s.queue[0].origid] == Operation
  {
  }

  lemma NobodyWaits(a: System, c: CoreId)
    requires Ordered(a) && a.inProgress && a.states[c] != Wait
    ensures Transfer(a).states[c] != Wait
  {
    hide Shape, HeadAgrees, StateAgrees, FrameAgrees, LockStep, Transfer, ModifiedLine;
    TransferKeepsOrder(a);
  }

  lemma WaiterKeepsWord(s: System, c: CoreId, i: Index, o: Offset)
    requires Controlled(s) && s.states[c] == Wait && BusIter(s).states[c] == Wait
    ensures DataAt(BusIter(s).caches[c], i, o) == DataAt(s.caches[c], i, o)
  {
    hide Shape, HeadAgrees, FrameAgrees, SingleWriter, Transfer, IsDataStep;
    ArbitrationKeepsControl(s);
    var a := Arbitrated(s);
    if a.inProgress {
      ArbitrationKeepsGate(a);
      ClockIsQuietStep(a);
      if a.current.sender == c { assert StateAgrees(a, c); NobodyWaits(a, c) by { ControlledIsOrdered(a); } }
      if !Bubble(a) { DataAfter(a, Transfer(a), c, i, o); }
    }
  }

  lemma {:induction false} RunKeepsWaiting(s: System, run: seq<Action>, c: CoreId, g: seq<Packet>, k: nat) returns (k': nat)
    requires Controlled(s) && Fresh(s) && FreshRun(s, run) && WaitsThroughout(s, run, c)
    requires g != [] && g[0].origid == c && StandsAt(s.queue, k, g)
    ensures Possible(s, run) && Controlled(End(s, run)) && StandsAt(End(s, run).queue, k', g)
    ensures forall i: Index, o: Offset :: DataAt(End(s, run).caches[c], i, o) == DataAt(s.caches[c], i, o)
    decreases |run|
  {
    hide Step, Controlled, Fresh, FreshGrant, StandsAt, DataAt;
    if run == [] {
      k' := k;
    } else {
      StepKeepsControl(s, run[0]);
      var next := StepKeepsWaiting(s, run[0], c, g, k);
      k' := RunKeepsWaiting(Step(s, run[0]), run[1..], c, g, next);
    }
  }

  /** A call that misses on address `a`. */
  predicate Misses(s: System, call: Action, c: CoreId, a: Address) {
    !call.Clock? && call.core == c && call.addr == a && s.states[c] == Idle && !HoldsAddress(s.caches[c], a)
  }

  /**
    A miss in a dirty frame, from the call to the end of its write-back, under G1: when the bus turns to core `c`, the
    write-back is granted first, and it leaves in memory the words that the victim had at the call.
   */
  lemma VictimIsSaved(s: System, call: Action, c: CoreId, a: Address, wait: seq<Action>, run: seq<Action>, o: Offset)
    requires Controlled(s) && Fresh(s) && Misses(s, call, c, a) && s.caches[c].tsram[IndexOf(a)].mesi == Modified
    requires FreshRun(Step(s, call), wait) && WaitsThroughout(Step(s, call), wait, c)
    ensures Possible(Step(s, call), wait)
    ensures var u, victim := End(Step(s, call), wait), s.caches[c].tsram[IndexOf(a)].tag;
            !u.inProgress && u.queue != [] && u.queue[0].origid == c && FreshGrantNow(u) && Serves(BusIter(u), run) ==>
              && u.queue[0].cmd.Flush? && Possible(BusIter(u), run)
              && MemoryAt(End(BusIter(u), run).memory, victim, IndexOf(a), o) == DataAt(s.caches[c], IndexOf(a), o)
  {
    hide Step, Gated, LockStep, SingleWriter, Possible, End, Serves, WaitsThroughout;
    hide FreshRun, TagOf, IndexOf, OffsetOf;
    hide BusIter, Fresh, DataAt, MemoryAt, Location, FreshGrantNow;
    ControlledIsOrdered(s);
    var t, v := Step(s, call), Victims(s, c, a);
    CallKeepsControl(s, call);
    MissKeepsCaches(s, call, c, a);
    var k := RunKeepsWaiting(t, wait, c, v, |s.queue|);
    var u := End(t, wait);
    ControlledIsOrdered(u);
    if !u.inProgress && u.queue != [] && u.queue[0].origid == c && FreshGrantNow(u) && Serves(BusIter(u), run) {
      FlushIsFirst(u, c, k, v[0]);
      VictimAddress(s, c, a);
      SavedAtEnd(u, c, v[0], run, o);
    }
  }

  /** G1 for the packet granted next. */
  predicate FreshGrantNow(u: System) { u.Wf() && Fresh(Arbitrated(u)) }

  lemma MissKeepsCaches(s: System, call: Action, c: CoreId, a: Address)
    requires s.Wf() && Misses(s, call, c, a) && s.caches[c].tsram[IndexOf(a)].mesi == Modified
    ensures Step(s, call).caches == s.caches && StandsAt(Step(s, call).queue, |s.queue|, Victims(s, c, a))
  {
    hide TagOf, IndexOf, OffsetOf, Location, Step;
    var v := Victims(s, c, a);
    if call.Read? { ReadMissQueues(s, c, a); } else { WriteMissQueues(s, c, a, call.data); }
    var q := Step(s, call).queue;
    assert |v| == 1 && q[|s.queue|..|s.queue| + 1] == [q[|s.queue|]];
  }

  lemma FlushIsFirst(u: System, c: CoreId, k: nat, p: Packet)
    requires Ordered(u) && !u.inProgress && StandsAt(u.queue, k, [p]) && p.origid == c && p.cmd.Flush?
    requires u.queue != [] && u.queue[0].origid == c
    ensures u.queue[0] == p
  {
    hide HeadAgrees, StateAgrees, FrameAgrees, LockStep;
    var q := u.queue;
    assert Line(u) == q && q[k..k + 1][0] == q[k];
    assert FlushFollowed(q, 0);
    assert k > 0 ==> Neighbours(q, 0, k);
  }

  lemma VictimAddress(s: System, c: CoreId, a: Address)
    requires s.caches[c].tsram[IndexOf(a)].mesi == Modified
    ensures var p := Victims(s, c, a)[0];
            TagOf(p.addr) == s.caches[c].tsram[IndexOf(a)].tag && IndexOf(p.addr) == IndexOf(a)
  {
    hide TagOf, IndexOf, OffsetOf;
    var t, i := s.caches[c].tsram[IndexOf(a)].tag, IndexOf(a);
    var m := Location(t, i, 0);
    LocationOnto(m);
    LocationInjective(t, i, 0, TagOf(m), IndexOf(m), OffsetOf(m));
  }

  lemma SavedAtEnd(u: System, c: CoreId, p: Packet, run: seq<Action>, o: Offset)
    requires Controlled(u) && !u.inProgress && u.queue != [] && u.queue[0] == p && p.origid == c && p.cmd.Flush?
    requires FreshGrantNow(u) && Serves(BusIter(u), run)
    ensures Possible(BusIter(u), run)
    ensures MemoryAt(End(BusIter(u), run).memory, TagOf(p.addr), IndexOf(p.addr), o) ==
              DataAt(u.caches[c], IndexOf(p.addr), o)
  {
    hide Gated, LockStep, SingleWriter, Possible, End, Serves, TagOf, IndexOf, BusIter, DataAt, MemoryAt;
    ControlledIsOrdered(u);
    ArbitrationKeepsControl(u);
    PacketGranted(u, c, p, run);
    WriteBack(Arbitrated(u), [Clock] + run, o);
  }

  // ----- the retry -----------------------------------------------------------------------------------------------

  /** The packet granted next, if any, is no BusRdX of the block of `a`. */
  predicate NotStolen(e: System, a: Address) {
    e.queue != [] && e.queue[0].cmd.BusRdX? ==>
      TagOf(e.queue[0].addr) != TagOf(a) || IndexOf(e.queue[0].addr) != IndexOf(a)
  }

  /**
    With no guard: a core whose fill has ended hits when it calls again, in the iteration that releases it, unless
    that iteration grants a BusRdX of the same block.
   */
  lemma RetryHits(e: System, c: CoreId, a: Address)
    requires Ordered(e) && !e.inProgress && e.states[c] == Finally && e.current.cmd.IsFill()
    requires HoldsAddress(e.caches[c], a)
    requires NotStolen(e, a)
    ensures ReadHits(BusIter(e), c, a)
  {
    hide Shape, HeadAgrees, FrameAgrees, LockStep, TagOf, IndexOf, Transfer;
    assert StateAgrees(e, c);
    ArbitrationKeepsOrder(e);
    ReleasedNow(e, c);
    var g := Arbitrated(e);
    if g.inProgress {
      TransferKeepsOrder(g);
      KeptIdle(g, c);
      TransferKeepsHeld(g, c, TagOf(a), IndexOf(a));
    }
  }

  lemma ReleasedNow(e: System, c: CoreId)
    requires e.Wf() && !e.inProgress && e.current.origid == c && e.states[c] == Finally && !Owed(e.queue, c)
    ensures var g := Arbitrated(e);
            && g.states[c] == Idle && g.caches == e.caches
            && (g.inProgress ==>
                  e.queue != [] && g.current == e.queue[0].(sender := e.queue[0].origid) && g.current.sender != c)
  {
    if e.queue != [] { assert e.queue[0].origid != c; }
  }

  lemma KeptIdle(g: System, c: CoreId)
    requires Ordered(g) && g.inProgress && g.current.sender != c && g.states[c] == Idle
    ensures Transfer(g).states[c] == Idle
  {
    hide Shape, HeadAgrees, StateAgrees, FrameAgrees, LockStep, Transfer, ModifiedLine;
    TransferKeepsOrder(g);
  }
}
