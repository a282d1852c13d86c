/**
  Runs from the start of the simulator, with calls in the order of the main loop, in which the protocol, as coded,
  loses data: one for each of G1, G2 and G3. Each goes on to a load that no flat memory would answer so.
 */
module Counterexamples {
  import opened Types
  import opened Addressing
  import opened CacheModel
  import opened BusModel
  import opened TransferEffect
  import opened Gate
  import opened Exclusion
  import opened Coherence
  import opened SharedMemory
  import opened Transactions
  import opened Exactness
  import opened Outcomes
  import opened Reachable

  // ----- a core that owns a block -------------------------------------------------------------------------

  /** The start of the simulator with a memory of zeros. */
  function AllZero(): Origin { Begin(seq(MAIN_MEMORY_SIZE, _ => 0)) }

  /** Core `k` owns block 0 and has written `w` to its word `a`; all else is empty and zero. */
  ghost predicate OwnsBlockZero(s: System, k: CoreId, a: Offset, w: Word) {
    && Sound(AllZero(), s, k + 1) && Quiescent(s)
    && (forall t: Tag, i: Index, o: Offset :: MemoryAt(s.memory, t, i, o) == 0)
    && (forall d: CoreId, i: Index :: s.caches[d].tsram[i] == Frame(0, if d == k && i == 0 then Modified else Invalid))
    && (forall o: Offset :: DataAt(s.caches[k], 0, o) == if o == a then w else 0)
  }

  /** A write hit while the bus is quiet. */
  lemma WriteReached(s: System, turn: nat, c: CoreId, a: Address, w: Word) returns (t: System)
    requires Sound(AllZero(), s, turn) && turn <= c && Quiescent(s)
    requires HoldsAddress(s.caches[c], a) && s.caches[c].tsram[IndexOf(a)].mesi != Shared
    ensures Sound(AllZero(), t, c + 1) && Quiescent(t)
    ensures t == s.(caches := s.caches[c := StoreWord(s.caches[c], a, w)])
  {
    hide Sound, StoreWord, IndexOf;
    SoundIsWf(s, turn);
    t := Step(s, Write(c, a, w));
    SoundStep(AllZero(), s, turn, Write(c, a, w));
  }

  /** The first core to write word `a` of block 0. */
  lemma OwnBlockZero(k: CoreId, a: Offset, w: Word) returns (s: System)
    ensures OwnsBlockZero(s, k, a, w)
  {
    hide Sound, Quiescent, Initial, Reached;
    var image: Memory := seq(MAIN_MEMORY_SIZE, _ => 0);
    var s0 := Initial(image);
    InitiallySound(image);
    assert AllZero() == Begin(image);
    InitiallyEmpty(image);
    var s1 := IdleClock(s0, NUMBER_OF_CORES);
    var s2 := UncontendedFill(AllZero(), s1, 0, k, a, BusRdX);
    FilledBlockZero(s1, s2, k, a);
    s := WriteReached(s2, 0, k, a, w);
    StoredBlockZero(s2, s, k, a, w);
  }

  lemma SoundIsWf(s: System, turn: nat)
    requires Sound(AllZero(), s, turn)
    ensures s.Wf() && Controlled(s) && Coherent(s)
  {
  }

  lemma InitiallyEmpty(image: Memory)
    ensures Initial(image).memory == image
    ensures forall d: CoreId, i: Index :: Initial(image).caches[d].tsram[i] == Frame(0, Invalid)
    ensures forall d: CoreId, i: Index, o: Offset :: DataAt(Initial(image).caches[d], i, o) == 0
  {
    forall d: CoreId ensures Initial(image).caches[d] == EmptyCache() {}
  }

  lemma FilledBlockZero(s0: System, s1: System, k: CoreId, a: Offset)
    requires Filled(s0, s1, k, a)
    requires forall m :: 0 <= m < MAIN_MEMORY_SIZE ==> s0.memory[m] == 0
    requires forall d: CoreId, i: Index :: s0.caches[d].tsram[i] == Frame(0, Invalid)
    ensures forall t: Tag, i: Index, o: Offset :: MemoryAt(s1.memory, t, i, o) == 0
    ensures forall d: CoreId, i: Index ::
              s1.caches[d].tsram[i] == Frame(0, if d == k && i == 0 then Exclusive else Invalid)
    ensures forall o: Offset :: DataAt(s1.caches[k], 0, o) == 0
  {
    assert TagOf(a) == 0 && IndexOf(a) == 0;
    forall d: CoreId, i: Index
      ensures s1.caches[d].tsram[i] == Frame(0, if d == k && i == 0 then Exclusive else Invalid)
    {
      assert FilledFrame(s0, s1, k, a, d, i);
    }
    forall o: Offset ensures DataAt(s1.caches[k], 0, o) == 0 { assert FilledWord(s0, s1, k, a, k, 0, o); }
  }

  lemma StoredBlockZero(s1: System, s: System, k: CoreId, a: Offset, w: Word)
    requires s == s1.(caches := s1.caches[k := StoreWord(s1.caches[k], a, w)])
    requires forall d: CoreId, i: Index ::
              s1.caches[d].tsram[i] == Frame(0, if d == k && i == 0 then Exclusive else Invalid)
    requires forall o: Offset :: DataAt(s1.caches[k], 0, o) == 0
    ensures forall d: CoreId, i: Index ::
              s.caches[d].tsram[i] == Frame(0, if d == k && i == 0 then Modified else Invalid)
    ensures forall o: Offset :: DataAt(s.caches[k], 0, o) == if o == a then w else 0
  {
    assert IndexOf(a) == 0 && OffsetOf(a) == a;
    var c := s1.caches[k];
    forall o: Offset ensures DataAt(s.caches[k], 0, o) == if o == a then w else 0 {
      assert DataAt(StoreWord(c, a, w), 0, o) == if o == a then w else DataAt(c, 0, o);
    }
  }

  // ----- steps of a sound system -----------------------------------------------------------------------------

  /** A clock step of a quiet bus. */
  lemma IdleClock(s: System, turn: nat) returns (t: System)
    requires Sound(AllZero(), s, turn) && Quiescent(s)
    ensures Sound(AllZero(), t, 0) && Quiescent(t) && t.caches == s.caches && t.memory == s.memory
  {
    hide Sound;
    t := ReleaseSound(AllZero(), s, turn, 0);
  }

  lemma QuiescentMeans(s: System)
    requires Quiescent(s)
    ensures !s.inProgress && s.queue == [] && forall c: CoreId :: !s.CoreBusy(c)
  {
  }

  lemma StartsMeans(s: System)
    requires Starts(s)
    ensures s.Wf() && Controlled(s) && s.inProgress && s.current.sender == s.current.origid < NUMBER_OF_CORES
  {
    hide SingleWriter, LockStep, DataAgrees, Shape, StateAgrees, FrameAgrees, HeadAgrees;
  }

  /** The oldest packet is granted in a coherent system. */
  lemma GrantOldest(s: System) returns (g: System)
    requires Coherent(s) && !s.inProgress && s.queue != [] && s.queue[0].origid < NUMBER_OF_CORES
    ensures s.Wf() && g == Arbitrated(s) && Starts(g) && g.caches == s.caches && g.memory == s.memory
    ensures g.current == s.queue[0].(sender := s.queue[0].origid) && g.queue == s.queue[1..]
    ensures g.firstShared && g.offset == 0 && !g.memoryActive
    ensures g.states == Release(s).states[s.queue[0].origid := Operation]
    ensures forall t: Tag, i: Index, o: Offset :: Shown(g, t, i, o) == Shown(s, t, i, o)
  {
    hide Gated, LockStep, SingleWriter, DataAgrees, Shown, Starts;
    FreeBus(s);
    GrantStarts(s);
    g := Arbitrated(s);
  }

  /** The word of the flat memory at an address with the given fields. */
  lemma FlatWord(s: System, a: Address, t: Tag, i: Index, o: Offset)
    requires TagOf(a) == t && IndexOf(a) == i && OffsetOf(a) == o
    ensures FlatMemory(s)[MemoryAddress(a)] == Shown(s, t, i, o)
  {
    FlatAt(s, a);
  }

  /** A load whose word is not that of the flat memory `m`. */
  lemma RefusedLoad(o: Origin, s: System, turn: nat, m: Memory, c: CoreId, a: Address) returns (run: seq<Action>)
    requires Reached(o, s, turn, m) && s.Wf() && turn <= c && ReadHits(s, c, a)
    requires ReadValue(s, c, a) != m[MemoryAddress(a)]
    ensures Refused(o, run)
  {
    hide Reached, Leads, MemoryAddress, ReadValue, HoldsAddress, Step;
    RunOfOne(s, turn, Read(c, a));
    run := WholeRunRefused(o, s, turn, m, [Read(c, a)]);
  }

  lemma ZeroFields()
    ensures TagOf(0) == 0 && IndexOf(0) == 0 && OffsetOf(0) == 0
  {
  }

  lemma OneFields()
    ensures TagOf(1) == 0 && IndexOf(1) == 0 && OffsetOf(1) == 1
  {
  }

  lemma Fields512()
    ensures TagOf(512) == 1 && IndexOf(512) == 0
    ensures TagOf(513) == 1 && IndexOf(513) == 0 && OffsetOf(513) == 1
  {
  }

  /** The bus is free, its last transaction was core `c`'s, and all frames of index `i` are clean. */
  ghost predicate Freed(s: System, c: CoreId, i: Index) {
    && Controlled(s) && !s.inProgress && s.queue == [] && s.current.origid == c && s.states[c] == Finally
    && forall d: CoreId :: s.caches[d].tsram[i].mesi != Modified
  }

  /** A core that is named by no packet is idle. */
  lemma UnnamedIsIdle(s: System, c: CoreId)
    requires Gated(s) && !s.inProgress && s.current.origid != c
    requires forall k :: 0 <= k < |s.queue| ==> s.queue[k].origid != c
    ensures s.states[c] == Idle
  {
    assert StateAgrees(s, c);
    assert Line(s) == s.queue;
  }

  /** What a quiet fill of block (t, i) by core `c` leaves, if the frame is clean in every cache. */
  ghost predicate CleanlyFilled(s: System, f: System, c: CoreId, t: Tag, i: Index) {
    && Freed(f, c, i) && Holds(f.caches[c], t, i)
    && (forall g: Tag, x: Index, o: Offset :: MemoryAt(f.memory, g, x, o) == MemoryAt(s.memory, g, x, o))
    && (forall o: Offset :: DataAt(f.caches[c], i, o) == MemoryAt(s.memory, t, i, o))
    && forall d: CoreId :: d != c && s.caches[d].tsram[i].mesi == Invalid ==> f.caches[d].tsram[i].mesi == Invalid
  }

  /** The block comes from memory, and only the requester is loaded. */
  lemma CleanFill(o: Origin, s: System, turn: nat, m: Memory, c: CoreId, a: Address, t: Tag, i: Index) returns (f: System)
    requires TagOf(a) == t && IndexOf(a) == i
    requires Reached(o, s, turn, m) && Controlled(s) && !s.inProgress && s.queue == [Request(c, BusRd, a)]
    requires forall d: CoreId :: s.caches[d].tsram[i].mesi != Modified
    ensures Reached(o, f, 0, m) && CleanlyFilled(s, f, c, t, i)
  {
    hide Reached, Controlled, TagOf, IndexOf, Finish, Arbitrated, DataAt, MemoryAt, Freed, Holds;
    ControlledIsOrdered(s);
    assert s.Wf() && !s.memoryActive;
    GrantOnly(s, Request(c, BusRd, a));
    ArbitrationKeepsControl(s);
    GrantFinishReached(o, s, turn, m);
    f := Finish(Arbitrated(s));
    CleanFilled(Arbitrated(s), c, a);
  }

  lemma CleanFilled(g: System, c: CoreId, a: Address)
    requires Controlled(g) && g.inProgress && g.offset == 0 && !g.memoryActive && g.queue == []
    requires g.current == Request(c, BusRd, a).(sender := c)
    requires forall d: CoreId :: g.caches[d].tsram[IndexOf(a)].mesi != Modified
    ensures CleanlyFilled(g, Finish(g), c, TagOf(a), IndexOf(a))
  {
    hide Gated, LockStep, SingleWriter, TagOf, IndexOf, Finish, DataAt, MemoryAt, SharedAtEnd;
    assert CurrentOwner(g).None?;
    FinishIsClosedForm(g);
    FillFinishControlled(g);
    var f := Finish(g);
    forall d: CoreId ensures f.caches[d].tsram[IndexOf(a)] == FinalFrame(g, d, IndexOf(a)) {}
    forall t: Tag, i: Index, o: Offset ensures MemoryAt(f.memory, t, i, o) == MemoryAt(g.memory, t, i, o) {
      assert MemoryAt(f.memory, t, i, o) == FinalMemory(g, t, i, o);
    }
    forall o: Offset ensures DataAt(f.caches[c], IndexOf(a), o) == MemoryAt(g.memory, TagOf(a), IndexOf(a), o) {
      assert DataAt(f.caches[c], IndexOf(a), o) == FinalData(g, c, IndexOf(a), o);
    }
  }

  lemma FillFinishControlled(g: System)
    requires Controlled(g) && g.inProgress && g.current.cmd.IsFill()
    ensures Controlled(Finish(g))
  {
    hide Controlled, Finish;
    var run := FinishRuns(g);
    RunControl(run);
  }

  // ----- G3 ----------------------------------------------------------------------------------------------------

  /** Core 0 owns block 0 with 7 in word 1; core 1 holds another block in the frame, with 0 in word 1. */
  ghost predicate AboutToMix(s: System) {
    && Owns(s.caches[0], 0, 0) && s.caches[1].tsram[0] == Frame(1, Exclusive)
    && (forall d: CoreId :: d > 1 ==> s.caches[d].tsram[0].mesi == Invalid)
    && DataAt(s.caches[0], 0, 1) == 7 && DataAt(s.caches[1], 0, 1) == 0
  }

  lemma OtherBlockFilled(s0: System, s1: System)
    requires OwnsBlockZero(s0, 0, 1, 7) && Filled(s0, s1, 1, 512) && TagOf(512) == 1 && IndexOf(512) == 0
    ensures AboutToMix(s1)
  {
    hide Sound, Quiescent;
    forall d: CoreId ensures s1.caches[d].tsram[0] == if d == 1 then Frame(1, Exclusive) else s0.caches[d].tsram[0] {
      assert FilledFrame(s0, s1, 1, 512, d, 0);
    }
    assert FilledWord(s0, s1, 1, 512, 0, 0, 1) && FilledWord(s0, s1, 1, 512, 1, 0, 1);
  }

  /** Core 1 reads the other block, and in the next iteration word 1 of block 0. */
  lemma ReadsOwnedBlock() returns (s: System)
    ensures Sound(AllZero(), s, 2) && AboutToMix(s) && !s.inProgress && s.queue == [Request(1, BusRd, 1)]
  {
    hide Sound, Quiescent, Filled, TagOf, IndexOf, OffsetOf, DataAt;
    Fields512();
    OneFields();
    var s0 := OwnBlockZero(0, 1, 7);
    var s1 := OtherBlockLoaded(s0);
    QuiescentMeans(s1);
    assert ReadHits(s1, 1, 512);
    SoundIsWf(s1, 0);
    SoundStep(AllZero(), s1, 0, Read(1, 512));
    var s2 := IdleClock(s1, 2);
    QuiescentMeans(s2);
    s := MissReached(AllZero(), s2, 0, 1, 1, BusRd);
  }

  lemma OtherBlockLoaded(s0: System) returns (s1: System)
    requires OwnsBlockZero(s0, 0, 1, 7)
    ensures Sound(AllZero(), s1, 0) && Quiescent(s1) && AboutToMix(s1)
  {
    hide Sound, Quiescent, Filled, TagOf, IndexOf, DataAt;
    Fields512();
    s1 := UncontendedFill(AllZero(), s0, 1, 1, 512, BusRd);
    OtherBlockFilled(s0, s1);
  }

  /** The owner's word is replaced by the requester's old one. */
  lemma WordsMixed(g: System)
    requires Starts(g) && AboutToMix(g) && g.queue == [] && g.current == Request(1, BusRd, 1).(sender := 1)
    ensures Controlled(g) && g.inProgress && Shown(g, 0, 0, 1) == 7
    ensures var f := Finish(g);
            && Freed(f, 1, 0) && Holds(f.caches[1], 0, 0) && DataAt(f.caches[1], 0, 1) == 0 && Shown(f, 0, 0, 1) == 0
  {
    hide Gated, LockStep, SingleWriter, DataAgrees, TagOf, IndexOf, Finish, DataAt, MemoryAt, SharedAtEnd;
    OneFields();
    OwnerIsShown(g, 0, 0, 0);
    assert CurrentOwner(g) == Some(0);
    FinishIsClosedForm(g);
    FillFinishControlled(g);
    var f := Finish(g);
    forall d: CoreId ensures f.caches[d].tsram[0] == FinalFrame(g, d, 0) && !Owns(f.caches[d], 0, 0) {}
    assert DataAt(f.caches[1], 0, 1) == FinalData(g, 1, 0, 1) == Delivered(g, 1);
    assert MemoryAt(f.memory, 0, 0, 1) == FinalMemory(g, 0, 0, 1) == Delivered(g, 1);
  }

  /**
    Core 0 owns block 0; core 1 reads another block of the same frame and then word 1 of block 0. The owner's 7
    is replaced by core 1's old 0, in memory too, and core 1 loads it.
   */
  lemma SnoopOrderLosesData() returns (s: System, more: seq<Action>)
    ensures Sound(AllZero(), s, 2) && !s.inProgress && Arbitrated(s).inProgress
    ensures Controlled(Arbitrated(s)) && Shown(s, 0, 0, 1) == 7 && Shown(Finish(Arbitrated(s)), 0, 0, 1) == 0
    ensures Reached(AllZero(), Finish(Arbitrated(s)), 0, FlatMemory(s))
    ensures Refused(Origin(Finish(Arbitrated(s)), 0, FlatMemory(s)), more)
  {
    hide Starts, Arbitrated, TagOf, IndexOf, OffsetOf, Controlled, Reached, Refused, Finish, Shown, DataAt, FlatMemory;
    hide AboutToMix, Coherent, MemoryAddress;
    OneFields();
    s := ReadsOwnedBlock();
    SoundIsWf(s, 2);
    var g := GrantOldest(s);
    MixKept(s, g);
    WordsMixed(g);
    GrantFinishReached(AllZero(), s, 2, FlatMemory(s));
    FlatWord(s, 1, 0, 0, 1);
    var end := Origin(Finish(g), 0, FlatMemory(s));
    ReachedItself(end);
    more := LoadAfter(end, Finish(g), 0, FlatMemory(s), 1, 1, 0, 0, 1);
  }

  lemma MixKept(s: System, g: System)
    requires AboutToMix(s) && g.caches == s.caches
    ensures AboutToMix(g)
  {
  }

  /** The step after a transaction releases its core, which then loads another word than the flat memory's. */
  lemma LoadAfter(o: Origin, f: System, turn: nat, m: Memory, c: CoreId, a: Address, t: Tag, i: Index, x: Offset)
    returns (run: seq<Action>)
    requires TagOf(a) == t && IndexOf(a) == i && OffsetOf(a) == x
    requires Reached(o, f, turn, m) && Freed(f, c, i) && Holds(f.caches[c], t, i)
    requires DataAt(f.caches[c], i, x) != m[MemoryAddress(a)]
    ensures Refused(o, run)
  {
    hide Reached, Refused, MemoryAddress, Holds, TagOf, IndexOf, OffsetOf, Controlled;
    ControlledIsOrdered(f);
    ClockReached(o, f, turn, m);
    run := RefusedLoad(o, BusIter(f), 0, m, c, a);
  }

  // ----- G1 ----------------------------------------------------------------------------------------------------

  /** A read of another block of its frame makes an owner queue a write-back, with a word of the wrong offset. */
  lemma EvictReached(s: System, turn: nat, c: CoreId, a: Address) returns (t: System)
    requires Sound(AllZero(), s, turn) && turn <= c && !s.CoreBusy(c)
    requires s.caches[c].tsram[IndexOf(a)].mesi == Modified && !HoldsAddress(s.caches[c], a)
    ensures Sound(AllZero(), t, c + 1)
    ensures t == s.(queue := s.queue + [VictimPacket(s.caches[c], c, a)] + [Request(c, BusRd, a)], states := s.states[c := Wait])
  {
    hide Sound, TagOf, IndexOf, VictimPacket;
    SoundIsWf(s, turn);
    t := Step(s, Read(c, a));
    SoundStep(AllZero(), s, turn, Read(c, a));
    MissUnfolded(s, c, a, BusRd);
  }

  lemma VictimOfZero(c: Cache)
    requires c.tsram[0] == Frame(0, Modified) && DataAt(c, 0, 1) == 7
    ensures VictimPacket(c, 0, 513) == Packet(0, 0, Flush, 0, 7, false)
    ensures IndexOf(513) == 0 && !HoldsAddress(c, 513)
  {
    Fields512();
    hide TagOf, IndexOf, OffsetOf, DataAt, Location;
    assert Location(0, 0, 0) == 0 by { LocationOfZero(); }
  }

  lemma LocationOfZero()
    ensures Location(0, 0, 0) == 0
  {
  }

  /** Core `k` owns block 0, with `w` in word `a` and zeros elsewhere, and nobody else has anything in the frame. */
  ghost predicate OnlyOwner(s: System, k: CoreId, a: Offset, w: Word) {
    && Owns(s.caches[k], 0, 0) && (forall c: CoreId :: c != k ==> s.caches[c].tsram[0].mesi == Invalid)
    && forall o: Offset :: DataAt(s.caches[k], 0, o) == if o == a then w else 0
  }

  /** A fill of a block with another owner is granted: the first clock step of its transaction is spent. */
  lemma GrantBubble(s: System, turn: nat, c: CoreId, cmd: Command, k: CoreId, a: Offset, w: Word) returns (t: System)
    requires Sound(AllZero(), s, turn) && !s.inProgress && s.queue != [] && s.queue[0] == Request(c, cmd, 0)
    requires cmd.IsFill() && c != k
    requires OnlyOwner(s, k, a, w) && s.states[k] == Idle
    ensures Sound(AllZero(), t, 0) && Starts(t) && OnlyOwner(t, k, a, w) && t.queue == s.queue[1..]
    ensures t.current == Request(c, cmd, 0).(sender := c) && t.states[k] == Idle && !t.firstShared
  {
    hide Reached, Starts, TagOf, IndexOf, Arbitrated, Fresh, OwnerSupplies, FlatMemory, DataAt, Controlled, DataAgrees;
    SoundIsWf(s, turn);
    var g := GrantOldest(s);
    StartsMeans(g);
    SpentStep(g, c, cmd, k, a, w);
    SoundStep(AllZero(), s, turn, Clock);
    t := Step(s, Clock);
    assert t == BusIter(s) == Transfer(g) == g.(firstShared := false);
    StartsAgain(g, t);
  }

  /** The bubble of a fill of block 0. */
  lemma SpentStep(g: System, c: CoreId, cmd: Command, k: CoreId, a: Offset, w: Word)
    requires Starts(g) && OnlyOwner(g, k, a, w) && c != k && cmd.IsFill()
    requires g.current == Request(c, cmd, 0).(sender := c)
    ensures g.Wf() && Fresh(g) && OwnerSupplies(g) && (g.firstShared ==> Bubble(g))
    ensures CurrentOwner(g) == Some(k) && ModifiedLine(g.caches, g.current)
  {
    hide Shape, StateAgrees, FrameAgrees, HeadAgrees, LockStep, SingleWriter, DataAgrees, TagOf, IndexOf, DataAt;
    ZeroFields();
    assert RaisesModified(g.caches[k], k, g.current);
  }

  lemma StartsAgain(g: System, t: System)
    requires Starts(g) && t == g.(firstShared := false) && Controlled(t)
    ensures Starts(t)
  {
    hide Controlled;
    assert forall c: CoreId, i: Index, o: Offset :: CleanAgrees(g, c, i, o) ==> CleanAgrees(t, c, i, o);
    assert forall o: Offset :: TransferredAgrees(g, o) ==> TransferredAgrees(t, o);
  }

  /** Core 1's request for block 0 is being served when core 0, the owner, wants another block in the frame. */
  lemma StealBeforeWriteBack() returns (s: System)
    ensures Sound(AllZero(), s, 1) && Starts(s) && OnlyOwner(s, 0, 1, 7)
    ensures s.current == Request(1, BusRdX, 0).(sender := 1)
    ensures s.queue == [Packet(0, 0, Flush, 0, 7, false), Request(0, BusRd, 513)]
  {
    hide Sound, Quiescent, Starts, TagOf, IndexOf, OffsetOf, DataAt;
    var s0 := OwnerAlone();
    QuiescentMeans(s0);
    ZeroFields();
    assert !s0.CoreBusy(0) && !s0.CoreBusy(1);
    var s1 := MissReached(AllZero(), s0, 1, 1, 0, BusRdX);
    var s2 := GrantBubble(s1, 2, 1, BusRdX, 0, 1, 7);
    s := EvictDuringTransfer(s2);
  }

  lemma OwnerAlone() returns (s: System)
    ensures Sound(AllZero(), s, 1) && Quiescent(s) && OnlyOwner(s, 0, 1, 7)
  {
    hide Sound, Quiescent, DataAt;
    s := OwnBlockZero(0, 1, 7);
  }

  /** The owner queues its write-back while its block is being transferred. */
  lemma EvictDuringTransfer(s: System) returns (t: System)
    requires Sound(AllZero(), s, 0) && Starts(s) && OnlyOwner(s, 0, 1, 7) && s.states[0] == Idle
    ensures Sound(AllZero(), t, 1) && Starts(t) && OnlyOwner(t, 0, 1, 7) && t.current == s.current
    ensures t.queue == s.queue + [Packet(0, 0, Flush, 0, 7, false), Request(0, BusRd, 513)]
  {
    hide Reached, Controlled, TagOf, IndexOf, DataAt, VictimPacket, DataAgrees, FlatMemory, CurrentOwner;
    VictimOfZero(s.caches[0]);
    t := EvictReached(s, 0, 0, 513);
    StillStarts(s, t);
  }

  lemma StillStarts(s: System, t: System)
    requires Starts(s) && Coherent(t) && t == s.(queue := t.queue, states := t.states)
    ensures Starts(t)
  {
    hide Controlled, DataAgrees;
  }

  /** What the steal leaves: the block Shared in core 1 alone, its words in memory. */
  ghost predicate StolenState(f: System) {
    && !f.inProgress && f.current.origid == 1
    && f.caches[1].tsram[0] == Frame(0, Shared) && (forall c: CoreId :: c != 1 ==> f.caches[c].tsram[0].mesi == Invalid)
    && forall o: Offset :: MemoryAt(f.memory, 0, 0, o) == if o == 1 then 7 else 0
  }

  /** The steal keeps the flat memory, and leaves a write-back of a block that its sender has lost. */
  lemma Stolen(s: System) returns (f: System)
    requires Sound(AllZero(), s, 1) && Starts(s) && OnlyOwner(s, 0, 1, 7)
    requires s.current == Request(1, BusRdX, 0).(sender := 1)
    ensures Sound(AllZero(), f, 0) && StolenState(f) && f.queue == s.queue
  {
    hide Reached, Starts, Finish, FlatMemory, OnlyOwner, Coherent, StolenState;
    StartsMeans(s);
    f := Finish(s);
    StolenAtFinish(s);
    FinishReached(AllZero(), s, 1, FlatMemory(s));
    assert FlatMemory(f) == FlatMemory(s) by { SameShown(s, s, f); }
  }

  lemma StolenAtFinish(g: System)
    requires Starts(g) && OnlyOwner(g, 0, 1, 7) && g.current == Request(1, BusRdX, 0).(sender := 1)
    ensures Controlled(g) && g.inProgress
    ensures var f := Finish(g);
            && Coherent(f) && StolenState(f) && f.queue == g.queue
            && forall t: Tag, i: Index, o: Offset :: Shown(f, t, i, o) == Shown(g, t, i, o)
  {
    hide Gated, LockStep, SingleWriter, DataAgrees, TagOf, IndexOf, DataAt, MemoryAt;
    hide Finish, Shown, SharedAtEnd, KeepsFlatMemory;
    ZeroFields();
    var f := Finish(g);
    assert CurrentOwner(g) == Some(0) && KeepsLineUp(g, 0);
    OwnedFillExact(g);
    FinishIsClosedForm(g);
    forall c: CoreId ensures f.caches[c].tsram[0] == FinalFrame(g, c, 0) {}
    forall o: Offset ensures MemoryAt(f.memory, 0, 0, o) == DataAt(g.caches[0], 0, o) {
      assert MemoryAt(f.memory, 0, 0, o) == FinalMemory(g, 0, 0, o);
    }
    assert KeepsFlatMemory(g);
    KeepsMeans(g);
    SharedEnd(g);
  }

  lemma KeepsMeans(g: System)
    requires Controlled(g) && g.inProgress && KeepsFlatMemory(g)
    ensures Coherent(Finish(g)) && forall t: Tag, i: Index, o: Offset :: Shown(Finish(g), t, i, o) == Shown(g, t, i, o)
  {
    hide Finish, Coherent, Controlled, Shown;
  }

  lemma SharedEnd(g: System)
    requires KeepsLineUp(g, 0)
    ensures SharedAtEnd(g)
  {
    hide KeepsLineUp;
  }

  lemma GrantFlush(s: System) returns (h: System)
    requires Sound(AllZero(), s, 0) && !s.inProgress && |s.queue| == 2 && s.queue[0] == Packet(0, 0, Flush, 0, 7, false)
    ensures s.Wf() && h == Arbitrated(s) && Starts(h) && h.caches == s.caches && h.memory == s.memory
    ensures h.current == s.queue[0] && h.queue == s.queue[1..]
  {
    hide Reached, Coherent, Starts, FlatMemory;
    h := GrantOldest(s);
  }

  /** The stale write-back puts the word queued with it into every word of the block. */
  ghost predicate Overwritten(k: System) {
    && Controlled(k) && !k.inProgress && k.queue == [Request(0, BusRd, 513)]
    && (forall c: CoreId :: k.caches[c].tsram[0].mesi != Modified) && k.caches[2].tsram[0].mesi == Invalid
    && k.current.origid == 0
    && forall o: Offset :: MemoryAt(k.memory, 0, 0, o) == 7
  }

  lemma StaleFlushEnds(s: System, h: System)
    requires StolenState(s) && Starts(h) && h.caches == s.caches && h.memory == s.memory
    requires h.current == Packet(0, 0, Flush, 0, 7, false) && h.queue == [Request(0, BusRd, 513)]
    ensures Controlled(h) && h.inProgress && Overwritten(Finish(h))
  {
    hide Gated, LockStep, SingleWriter, DataAgrees, TagOf, IndexOf, DataAt, MemoryAt, Finish, SharedAtEnd, Location;
    ZeroFields();
    var k := Finish(h);
    FinishIsClosedForm(h);
    SingleWriterExact(h);
    StartsClosed(h);
    forall c: CoreId ensures k.caches[c].tsram[0] == FinalFrame(h, c, 0) {}
    forall o: Offset ensures MemoryAt(k.memory, 0, 0, o) == 7 {
      assert MemoryAt(k.memory, 0, 0, o) == FinalMemory(h, 0, 0, o);
    }
  }

  /**
    Core 0 queues the write-back of block 0 while core 1 takes the block from it. When the write-back is granted
    the block is gone, and the word queued with it goes to all eight words of the block. Core 2 then loads a 7 where
    the flat memory has a 0.
   */
  lemma StaleFlushLosesData() returns (s: System, more: seq<Action>)
    ensures Sound(AllZero(), s, 0) && !s.inProgress && Arbitrated(s).inProgress && Controlled(Arbitrated(s))
    ensures forall o: Offset :: Shown(s, 0, 0, o) == if o == 1 then 7 else 0
    ensures forall o: Offset :: MemoryAt(Finish(Arbitrated(s)).memory, 0, 0, o) == 7
    ensures Reached(AllZero(), Finish(Arbitrated(s)), 0, FlatMemory(s))
    ensures Refused(Origin(Finish(Arbitrated(s)), 0, FlatMemory(s)), more)
  {
    hide Reached, Starts, TagOf, IndexOf, Arbitrated, MemoryAt, Finish, FlatMemory;
    hide Refused, Shown, Coherent, StolenState;
    hide Controlled, MemoryAddress, OffsetOf, OnlyOwner, Overwritten;
    var s0 := StealBeforeWriteBack();
    s := Stolen(s0);
    var h := FlushGranted(s);
    GrantFinishReached(AllZero(), s, 0, FlatMemory(s));
    StolenWords(s);
    OverwrittenMeans(Finish(h));
    var end := Origin(Finish(h), 0, FlatMemory(s));
    ReachedItself(end);
    more := LoadOverwritten(end, Finish(h), FlatMemory(s));
  }

  lemma FlushGranted(s: System) returns (h: System)
    requires Sound(AllZero(), s, 0) && StolenState(s)
    requires s.queue == [Packet(0, 0, Flush, 0, 7, false), Request(0, BusRd, 513)]
    ensures s.Wf() && Controlled(s) && !s.inProgress && h == Arbitrated(s)
    ensures Controlled(h) && h.inProgress && Overwritten(Finish(h))
  {
    hide Reached, Starts, Arbitrated, MemoryAt, Finish, FlatMemory, Coherent, Overwritten, Controlled;
    SoundIsWf(s, 0);
    h := GrantFlush(s);
    StaleFlushEnds(s, h);
  }

  lemma OverwrittenMeans(k: System)
    requires Overwritten(k)
    ensures forall o: Offset :: MemoryAt(k.memory, 0, 0, o) == 7
  {
    hide Controlled;
  }

  lemma StolenWords(s: System)
    requires StolenState(s)
    ensures forall o: Offset :: Shown(s, 0, 0, o) == if o == 1 then 7 else 0
    ensures FlatMemory(s)[MemoryAddress(0)] == 0
  {
    hide Shown, MemoryAt, FlatMemory, MemoryAddress, TagOf, IndexOf, OffsetOf, Location;
    forall o: Offset ensures Shown(s, 0, 0, o) == if o == 1 then 7 else 0 { MemoryShows(s, o); }
    ZeroFields();
    FlatWord(s, 0, 0, 0, 0);
  }

  lemma MemoryShows(s: System, o: Offset)
    requires StolenState(s)
    ensures Shown(s, 0, 0, o) == MemoryAt(s.memory, 0, 0, o)
  {
    hide MemoryAt;
  }

  /** Core 0's fill follows, then core 2 reads the block. */
  lemma LoadOverwritten(o: Origin, k: System, m: Memory) returns (run: seq<Action>)
    requires Reached(o, k, 0, m) && Overwritten(k) && m[MemoryAddress(0)] == 0
    ensures Refused(o, run)
  {
    hide Reached, Refused, TagOf, IndexOf, OffsetOf, Controlled, MemoryAt, DataAt, MemoryAddress, Location;
    Fields512();
    ZeroFields();
    var k1 := CleanFill(o, k, 0, m, 0, 513, 1, 0);
    var k2 := ReadQueued(o, k1, m);
    var k3 := CleanFill(o, k2, 3, m, 2, 0, 0, 0);
    run := LoadAfter(o, k3, 0, m, 2, 0, 0, 0, 0);
  }

  /** Core 2 misses on block 0 while core 0 is about to be released. */
  lemma ReadQueued(o: Origin, f: System, m: Memory) returns (t: System)
    requires Reached(o, f, 0, m) && Freed(f, 0, 0) && f.caches[2].tsram[0].mesi == Invalid
    ensures Reached(o, t, 3, m) && Controlled(t) && !t.inProgress && t.queue == [Request(2, BusRd, 0)]
    ensures t.caches == f.caches && t.memory == f.memory
  {
    hide Reached, Shape, FrameAgrees, HeadAgrees, LockStep, SingleWriter, TagOf, IndexOf, OffsetOf;
    ZeroFields();
    UnnamedIsIdle(f, 2);
    var a := Read(2, 0);
    t := Step(f, a);
    CallKeepsControl(f, a);
    MissUnfolded(f, 2, 0, BusRd);
    ReachedStep(o, f, 0, m, a, m);
  }

  // ----- G1 and the single writer ------------------------------------------------------------------------------

  /** Cores 1 and 2 have both asked for block 0 when core 0 queues its write-back. */
  lemma TwoStealsQueued() returns (s: System)
    ensures Sound(AllZero(), s, 1) && Starts(s) && OnlyOwner(s, 0, 1, 7)
    ensures s.current == Request(1, BusRdX, 0).(sender := 1)
    ensures s.queue == [Request(2, BusRdX, 0), Packet(0, 0, Flush, 0, 7, false), Request(0, BusRd, 513)]
  {
    hide Sound, Quiescent, Starts, TagOf, IndexOf, OffsetOf, DataAt, Location;
    var s0 := OwnerAlone();
    QuiescentMeans(s0);
    ZeroFields();
    assert !s0.CoreBusy(0) && !s0.CoreBusy(1) && !s0.CoreBusy(2);
    var s1 := MissReached(AllZero(), s0, 1, 1, 0, BusRdX);
    var s2 := MissReached(AllZero(), s1, 2, 2, 0, BusRdX);
    var s3 := GrantBubble(s2, 3, 1, BusRdX, 0, 1, 7);
    s := EvictDuringTransfer(s3);
  }

  /** What the second steal leaves: the block Exclusive in core 2, and nothing of it in core 0. */
  ghost predicate TakenState(f: System) {
    && !f.inProgress && f.queue == [Packet(0, 0, Flush, 0, 7, false), Request(0, BusRd, 513)]
    && f.caches[2].tsram[0] == Frame(0, Exclusive) && f.caches[0].tsram[0].mesi == Invalid
  }

  /** The second steal finds the block Shared in core 1 alone, and ends Exclusive. */
  lemma StolenAgain(s: System) returns (f: System)
    requires Sound(AllZero(), s, 0) && StolenState(s)
    requires s.queue == [Request(2, BusRdX, 0), Packet(0, 0, Flush, 0, 7, false), Request(0, BusRd, 513)]
    ensures Sound(AllZero(), f, 0) && TakenState(f)
  {
    hide Reached, Starts, Finish, FlatMemory, Coherent, Arbitrated, TakenState;
    SoundIsWf(s, 0);
    var g := GrantOldest(s);
    StartsMeans(g);
    f := Finish(g);
    TakenAtFinish(s, g);
    GrantFinishReached(AllZero(), s, 0, FlatMemory(s));
    assert FlatMemory(f) == FlatMemory(s) by { SameShown(s, g, f); }
  }

  lemma TakenAtFinish(s: System, g: System)
    requires StolenState(s) && Starts(g) && g.caches == s.caches && g.current == Request(2, BusRdX, 0).(sender := 2)
    requires g.queue == [Packet(0, 0, Flush, 0, 7, false), Request(0, BusRd, 513)]
    ensures Controlled(g) && g.inProgress
    ensures Coherent(Finish(g)) && TakenState(Finish(g))
    ensures forall t: Tag, i: Index, o: Offset :: Shown(Finish(g), t, i, o) == Shown(g, t, i, o)
  {
    hide Gated, LockStep, SingleWriter, DataAgrees, TagOf, IndexOf, DataAt, MemoryAt;
    hide Finish, Shown, SharedAtEnd, KeepsFlatMemory;
    ZeroFields();
    assert CurrentOwner(g).None?;
    UnownedFillKeeps(g);
    KeepsMeans(g);
    FinishIsClosedForm(g);
    UpgradeLine(g);
    forall c: CoreId ensures Finish(g).caches[c].tsram[0] == FinalFrame(g, c, 0) {}
  }

  /** After two steals the stale write-back revives core 0's line beside core 2's Exclusive one. */
  lemma StaleFlushBreaksSingleWriter() returns (s: System)
    ensures Sound(AllZero(), s, 0) && !s.inProgress && Arbitrated(s).inProgress && Controlled(Arbitrated(s))
    ensures var f := Finish(Arbitrated(s));
            && Reached(AllZero(), f, 0, FlatMemory(s))
            && !SingleWriter(f) && f.caches[2].tsram[0] == Frame(0, Exclusive)
            && f.caches[0].tsram[0] == Frame(0, Shared)
  {
    hide Reached, Starts, Arbitrated, SingleWriter, Finish, Controlled, Coherent, StolenState, OnlyOwner, FlatMemory;
    var s0 := TwoStealsQueued();
    var s1 := Stolen(s0);
    s := StolenAgain(s1);
    SoundIsWf(s, 0);
    var h := GrantFlush(s);
    StaleBesideExclusive(h);
    GrantFinishReached(AllZero(), s, 0, FlatMemory(s));
  }

  lemma StaleBesideExclusive(h: System)
    requires Starts(h) && h.current == Packet(0, 0, Flush, 0, 7, false)
    requires h.caches[0].tsram[0].mesi == Invalid && h.caches[2].tsram[0] == Frame(0, Exclusive)
    ensures Controlled(h) && h.inProgress
    ensures var f := Finish(h);
            !SingleWriter(f) && f.caches[2].tsram[0] == Frame(0, Exclusive) && f.caches[0].tsram[0] == Frame(0, Shared)
  {
    hide Gated, LockStep, SingleWriter, DataAgrees, TagOf, IndexOf, Finish, Location;
    ZeroFields();
    assert HoldsExclusively(h, 2);
    SingleWriterExact(h);
    FinishIsClosedForm(h);
    assert KeepsLineUp(h, 2);
    assert Finish(h).caches[2].tsram[0] == FinalFrame(h, 2, 0) && Finish(h).caches[0].tsram[0] == FinalFrame(h, 0, 0);
  }

  // ----- G2 ----------------------------------------------------------------------------------------------------

  /** The first word, a 5, has gone from owner 1 to requester 0, and core 1 may still write it. */
  ghost predicate WritesLate(s: System) {
    && Coherent(s) && s.inProgress && s.current == Request(0, BusRd, 0).(sender := 0) && s.queue == [] && s.offset > 0
    && Owns(s.caches[1], 0, 0) && s.states[1] == Idle
    && (forall c: CoreId :: c != 1 ==> s.caches[c].tsram[0].mesi == Invalid)
    && Shown(s, 0, 0, 0) == 5
  }

  lemma WritesLateState() returns (s: System)
    ensures Sound(AllZero(), s, 0) && WritesLate(s)
  {
    hide Sound, Quiescent, Starts, TagOf, IndexOf, DataAt, OnlyOwner, WritesLate;
    ZeroFields();
    var s0 := OwnerOfFive();
    QuiescentMeans(s0);
    OnlyOwnerMeans(s0, 1, 0, 5);
    assert !s0.CoreBusy(0) && !s0.CoreBusy(1);
    var s1 := MissReached(AllZero(), s0, 0, 0, 0, BusRd);
    SameOwner(s0, s1, 1, 0, 5);
    var s2 := GrantBubble(s1, 1, 0, BusRd, 1, 0, 5);
    s := FirstWord(s2);
  }

  lemma OwnerOfFive() returns (s: System)
    ensures Sound(AllZero(), s, 0) && Quiescent(s) && OnlyOwner(s, 1, 0, 5)
  {
    hide Sound, Quiescent, DataAt;
    var s0 := OwnBlockZero(1, 0, 5);
    s := IdleClock(s0, 2);
  }

  lemma OnlyOwnerMeans(s: System, k: CoreId, a: Offset, w: Word)
    requires OnlyOwner(s, k, a, w)
    ensures forall c: CoreId :: c != k ==> s.caches[c].tsram[0].mesi == Invalid
  {
  }

  lemma SameOwner(s: System, t: System, k: CoreId, a: Offset, w: Word)
    requires OnlyOwner(s, k, a, w) && t.caches == s.caches
    ensures OnlyOwner(t, k, a, w)
  {
  }

  /** The clock step after the bubble hands over word 0. */
  lemma FirstWord(t: System) returns (s: System)
    requires Sound(AllZero(), t, 0) && Starts(t) && OnlyOwner(t, 1, 0, 5) && t.queue == [] && !t.firstShared
    requires t.states[1] == Idle
    requires t.current == Request(0, BusRd, 0).(sender := 0)
    ensures Sound(AllZero(), s, 0) && WritesLate(s)
  {
    hide Reached, FlatMemory, BusIter, Starts, OnlyOwner, TagOf, IndexOf, Fresh;
    hide OwnerSupplies, Controlled, DataAgrees, WritesLate;
    SoundIsWf(t, 0);
    StartsMeans(t);
    SpentStep(t, 0, BusRd, 1, 0, 5);
    assert Arbitrated(t) == t by { ControlledIsArbitrated(t); }
    SoundStep(AllZero(), t, 0, Clock);
    s := BusIter(t);
    assert s == Step(t, Clock);
    ClockIsQuietStep(t);
    FirstWordOf(t, s);
  }

  lemma ControlledIsArbitrated(s: System)
    requires Controlled(s) && s.inProgress
    ensures Arbitrated(s) == s
  {
    hide Shape, StateAgrees, FrameAgrees, HeadAgrees, LockStep, SingleWriter;
    ArbitrationKeepsGate(s);
  }

  lemma FirstWordOf(t: System, s: System)
    requires Starts(t) && OnlyOwner(t, 1, 0, 5) && t.queue == [] && !t.firstShared && t.states[1] == Idle
    requires t.current == Request(0, BusRd, 0).(sender := 0) && QuietStep(t, s) && Coherent(s)
    requires CurrentOwner(t) == Some(1) && ModifiedLine(t.caches, t.current)
    ensures WritesLate(s)
  {
    hide TagOf, IndexOf, Gated, LockStep, SingleWriter, DataAgrees, IsDataStep, DataAt, ModifiedLine, Location;
    ZeroFields();
    StartsMeans(t);
    forall c: CoreId ensures s.caches[c].tsram[0] == FrameAfterStep(t, c, 0) { FrameOfStep(t, s, c, 0); }
    DataAfter(t, s, 1, 0, 0);
    OwnerIsShown(s, 1, 0, 0);
  }

  /** The late write, and what the transfer leaves: the old word everywhere. */
  ghost predicate WriteLost(f: System) {
    && Freed(f, 0, 0) && Holds(f.caches[0], 0, 0) && DataAt(f.caches[0], 0, 0) == 5 && Shown(f, 0, 0, 0) == 5
  }

  lemma LateWrite(s: System) returns (u: System)
    requires WritesLate(s)
    ensures WriteHits(s, 1, 0) && u == WriteData(s, 1, 0, 6)
    ensures Controlled(u) && u.inProgress && CurrentOwner(u) == Some(1) && u == s.(caches := u.caches)
    ensures forall c: CoreId :: c != 1 ==> u.caches[c] == s.caches[c]
  {
    hide Coherent, TagOf, IndexOf, OffsetOf, DataAt, StoreWord, Shown;
    ZeroFields();
    CoherentIsControlled(s);
    u := WriteData(s, 1, 0, 6);
    WriteHitKeepsControl(s, 1, 0, 6);
    WrittenOwner(s, 1, 0, 6);
    forall c: CoreId | c != 1 ensures u.caches[c] == s.caches[c] { OtherCache(s, 1, 0, 6, c); }
  }

  lemma CoherentIsControlled(s: System)
    requires Coherent(s)
    ensures Controlled(s) && s.Wf()
  {
  }

  lemma FirstWordIsThere(s: System)
    requires WritesLate(s)
    ensures DataAt(s.caches[0], 0, 0) == 5 && MemoryAt(s.memory, 0, 0, 0) == 5
  {
    hide Controlled, CleanAgrees, TagOf, IndexOf, DataAt, MemoryAt, Shown, Location;
    ZeroFields();
    assert TransferredAgrees(s, 0);
    TransferredShown(s, 0);
  }

  /** The closed form after the late write. */
  lemma LateCells(s: System, u: System)
    requires WritesLate(s) && u == s.(caches := u.caches) && CurrentOwner(u) == Some(1)
    requires forall c: CoreId :: c != 1 ==> u.caches[c] == s.caches[c]
    ensures FinalData(u, 0, 0, 0) == 5 && FinalMemory(u, 0, 0, 0) == 5
    ensures FinalFrame(u, 0, 0).tag == 0 && FinalFrame(u, 0, 0).mesi != Invalid
    ensures forall c: CoreId :: FinalFrame(u, c, 0).mesi != Modified
  {
    hide Coherent, TagOf, IndexOf, DataAt, MemoryAt, Shown, SharedAtEnd, Location;
    ZeroFields();
    FirstWordIsThere(s);
  }

  lemma LateWriteEnds(s: System, u: System)
    requires WritesLate(s) && u == s.(caches := u.caches) && Controlled(u) && CurrentOwner(u) == Some(1)
    requires forall c: CoreId :: c != 1 ==> u.caches[c] == s.caches[c]
    ensures WriteLost(Finish(u))
  {
    hide Coherent, Controlled, TagOf, IndexOf, DataAt, MemoryAt, Finish, Shown;
    hide FinalData, FinalMemory, FinalFrame, Location;
    hide Snooped, CurrentOwner;
    LateCells(s, u);
    OwnerSettles(u);
    FinishIsClosedForm(u);
    FillFinishControlled(u);
    assert u.current.origid == 0 && u.queue == [];
    ShownInMemory(Finish(u), 0, 0, 0);
  }

  lemma ShownInMemory(f: System, t: Tag, i: Index, o: Offset)
    requires forall c: CoreId :: f.caches[c].tsram[i].mesi != Modified
    ensures Shown(f, t, i, o) == MemoryAt(f.memory, t, i, o)
  {
    hide MemoryAt;
  }

  /** A flat memory after a store. */
  function Written(m: Memory, a: Address, w: Word): Memory { m[MemoryAddress(a) := w] }

  /** When the transfer is over, the 6 that core 1 has written is gone, and core 0 loads the old 5. */
  lemma LateWriteIsLost() returns (s: System, more: seq<Action>)
    ensures Sound(AllZero(), s, 0) && WriteHits(s, 1, 0)
    ensures Controlled(WriteData(s, 1, 0, 6)) && WriteData(s, 1, 0, 6).inProgress
    ensures Shown(Finish(WriteData(s, 1, 0, 6)), 0, 0, 0) == 5
    ensures var m := Written(FlatMemory(s), 0, 6);
            && Reached(AllZero(), Finish(WriteData(s, 1, 0, 6)), 0, m)
            && Refused(Origin(Finish(WriteData(s, 1, 0, 6)), 0, m), more)
  {
    hide Reached, Coherent, TagOf, IndexOf, OffsetOf, Shown, Finish, WriteData;
    hide FlatMemory, Refused, Controlled, WritesLate;
    hide Location, MemoryAddress, WriteHits, Written;
    s := WritesLateState();
    var u := LateWrite(s);
    LateWriteEnds(s, u);
    SoundIsWf(s, 0);
    var m := StoreReached(s, u);
    FinishReached(AllZero(), u, 2, m);
    ZeroFields();
    var end := Origin(Finish(u), 0, m);
    ReachedItself(end);
    more := LoadAfter(end, Finish(u), 0, m, 0, 0, 0, 0, 0);
  }

  /** The history with the late store. */
  lemma StoreReached(s: System, u: System) returns (m: Memory)
    requires Sound(AllZero(), s, 0) && s.Wf() && WriteHits(s, 1, 0) && u == WriteData(s, 1, 0, 6)
    ensures Reached(AllZero(), u, 2, m) && m == Written(FlatMemory(s), 0, 6) && m[MemoryAddress(0)] == 6
  {
    hide Reached, Coherent, TagOf, IndexOf, OffsetOf, WriteData, FlatMemory, WriteHits, Location, MemoryAddress;
    m := Written(FlatMemory(s), 0, 6);
    var a := Write(1, 0, 6);
    assert Completed(s, a) == [Store(1, MemoryAddress(0), 6)];
    ReachedStep(AllZero(), s, 0, FlatMemory(s), a, m);
  }
}
