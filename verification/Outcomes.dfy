/**
  What a completed transaction leaves behind, whatever the cores do while it runs, and the write that it loses.
 */
module Outcomes {
  import opened Types
  import opened Addressing
  import opened CacheModel
  import opened BusModel
  import opened TransferEffect
  import opened Gate
  import opened Order
  import opened Exclusion
  import opened Coherence
  import opened SharedMemory
  import opened Transactions
  import opened Exactness
  import opened LiveTransactions

  // ----- final states of a fill -----------------------------------------------------------------------

  /** A BusRdX ends with the shared line up exactly when a Modified owner served it. */
  lemma UpgradeLine(s: System)
    requires s.current.cmd.BusRdX?
    ensures SharedAtEnd(s) <==> CurrentOwner(s).Some?
  {
    if CurrentOwner(s).Some? { assert KeepsLineUp(s, CurrentOwner(s).value); }
  }

  lemma FreshClockKeepsSnooped(s: System)
    requires Controlled(s) && Fresh(s) && Snooped(s) && FreshGrant(s, Clock)
    ensures Snooped(BusIter(s))
  {
    hide Shape, StateAgrees, FrameAgrees, HeadAgrees, SingleWriter, Fresh, Transfer, FreshGrant;
    StepKeepsControl(s, Clock);
    ArbitrationKeepsControl(s);
    if BusIter(s).inProgress {
      var g := Arbitrated(s);
      ArbitrationKeepsGate(s);
      ArbitrationKeepsGate(g);
      ClockKeepsSnooped(g);
    }
  }

  /** In every run that satisfies G1, the clean copies of a block under transfer have reacted to its request. */
  lemma {:induction false} SnoopedAlways(s: System, run: seq<Action>)
    requires Controlled(s) && Fresh(s) && Snooped(s) && FreshRun(s, run)
    ensures Snooped(After(s, run))
    decreases |run|
  {
    hide Step, Snooped, Controlled, Fresh, FreshGrant;
    if run != [] {
      StepKeepsControl(s, run[0]);
      if run[0].Clock? { FreshClockKeepsSnooped(s); } else { CallKeepsSnooped(s, run[0]); }
      if run[0].Clock? { StepIsClock(s, run[0]); }
      SnoopedAlways(Step(s, run[0]), run[1..]);
    }
  }

  /**
    The states after a fill that ends in `t`, with the owners of `s`: after a BusRd the requester is alone and
    Exclusive, or all holders are Shared; after a BusRdX it is the only holder, Exclusive, or Shared exactly when
    a Modified owner supplied the block.
   */
  ghost predicate FillSettled(s: System, t: System)
    requires s.current.sender < NUMBER_OF_CORES
  {
    var r, g, i := s.current.sender, BlockTag(s), BlockIndex(s);
    && Holds(t.caches[r], g, i)
    && (s.current.cmd.BusRd? ==>
          || (forall c: CoreId :: Holds(t.caches[c], g, i) ==> t.caches[c].tsram[i].mesi == Shared)
          || (t.caches[r].tsram[i].mesi == Exclusive && forall c: CoreId :: c != r ==> !Holds(t.caches[c], g, i)))
    && (s.current.cmd.BusRdX? ==>
          && (forall c: CoreId :: c != r ==> !Holds(t.caches[c], g, i))
          && t.caches[r].tsram[i].mesi == if CurrentOwner(s).Some? then Shared else Exclusive)
  }

  /** The last clock step of a fill settles the states, whatever the cores did while it was running. */
  lemma LastStepStates(s: System)
    requires Controlled(s) && Snooped(s) && s.inProgress && s.current.cmd.IsFill() && !Bubble(s) && Completes(s)
    ensures s.current.sender < NUMBER_OF_CORES && !BusIter(s).inProgress
    ensures FillSettled(s, BusIter(s))
  {
    hide BusIter, Shape, StateAgrees, FrameAgrees, HeadAgrees, LockStep;
    hide SingleWriter, PacketAfter, Snooped, SharedAtEnd;
    RequesterFrame(s);
    ClockIsQuietStep(s);
    SharedNow(s);
    if s.current.cmd.BusRdX? { UpgradeLine(s); }
    var t, r, g, i := BusIter(s), s.current.sender, BlockTag(s), BlockIndex(s);
    FrameOfStep(s, t, r, i);
    forall c: CoreId | c != r
      ensures Holds(t.caches[c], g, i) ==> s.current.cmd.BusRd? && t.caches[c].tsram[i].mesi == Shared && FinalMesi(s) == Shared
    {
      FrameOfStep(s, t, c, i);
      assert Holds(s.caches[c], g, i) ==> RaisesShared(s.caches[c], c, s.current);
    }
  }

  /**
    The states of a fill at the end of every run that serves it. Its last clock step is taken in `last`, with the
    owner that the block has now if no bystander holds it Exclusive.
   */
  lemma {:induction false} FillStates(s: System, run: seq<Action>) returns (last: System)
    requires Controlled(s) && Snooped(s) && s.inProgress && s.current.cmd.IsFill() && Serves(s, run)
    ensures Possible(s, run) && Controlled(End(s, run)) && s.current.sender < NUMBER_OF_CORES
    ensures last.current == s.current && (Settled(s) ==> CurrentOwner(last) == CurrentOwner(s))
    ensures last.Wf() && last.inProgress && !Bubble(last) && Completes(last) && End(s, run) == BusIter(last)
    ensures FillSettled(last, End(s, run))
    decreases |run|
  {
    hide Step, Controlled, Settled, Serves, Snooped, BusIter, CurrentOwner, FillSettled, Bubble, Completes;
    FillNext(s, run);
    var t := Step(s, run[0]);
    if t.inProgress {
      if Settled(s) { RunningNext(s, run); }
      StepKeepsSnooped(s, run[0]);
      last := FillStates(t, run[1..]);
    } else {
      last := s;
      FillEnds(s);
    }
  }

  /** The first action of a run that serves a fill. */
  lemma FillNext(s: System, run: seq<Action>)
    requires Controlled(s) && s.inProgress && s.current.cmd.IsFill() && Serves(s, run)
    ensures run != [] && s.Wf() && Serves(Step(s, run[0]), run[1..]) && s.current.sender < NUMBER_OF_CORES
    ensures Possible(s, run) && Possible(Step(s, run[0]), run[1..])
    ensures End(s, run) == End(Step(s, run[0]), run[1..])
    ensures var t := Step(s, run[0]);
            && Controlled(t)
            && if t.inProgress then t.current == s.current else t == BusIter(s) && run[1..] == []
  {
    hide Step, Shape, StateAgrees, FrameAgrees, HeadAgrees, SingleWriter, BusIter;
    RequesterFrame(s);
    ServesIsPossible(s, run);
    if run[0].Clock? {
      StepIsClock(s, run[0]);
      ClockIsQuietStep(s);
      QuietStepKeepsControl(s, BusIter(s));
    } else {
      CallKeepsControl(s, run[0]);
      CallKeepsRegisters(s, run[0]);
    }
  }

  lemma FillEnds(s: System)
    requires Controlled(s) && Snooped(s) && s.inProgress && s.current.cmd.IsFill() && !BusIter(s).inProgress
    ensures s.current.sender < NUMBER_OF_CORES && !Bubble(s) && Completes(s) && FillSettled(s, BusIter(s))
  {
    hide BusIter, Shape, StateAgrees, FrameAgrees, HeadAgrees, SingleWriter, Snooped, FillSettled;
    ClockIsQuietStep(s);
    LastStepStates(s);
  }

  /** Nobody but the requester holds a block beside its Modified owner. */
  lemma OwnerSettles(s: System)
    requires Controlled(s) && s.inProgress && CurrentOwner(s).Some?
    ensures Settled(s) && (s.current.cmd.IsFill() ==> Snooped(s))
  {
    hide Gated, LockStep;
    forall c: CoreId | c != s.current.sender && Holds(s.caches[c], BlockTag(s), BlockIndex(s))
      ensures CurrentOwner(s) == Some(c)
    {
      assert Excludes(s, CurrentOwner(s).value, c, BlockIndex(s));
    }
  }

  /**
    Under the guards, whatever the cores did meanwhile, a fill ends with its block the same in memory, in
    the requester and in every other cache that still holds it, and it is the block of the flat memory.
   */
  lemma LastStepData(s: System, c: CoreId, o: Offset)
    requires Coherent(s) && Snooped(s) && s.inProgress && s.current.cmd.IsFill()
    requires !Bubble(s) && Completes(s) && OwnerSupplies(s)
    requires Holds(BusIter(s).caches[c], BlockTag(s), BlockIndex(s))
    ensures DataAt(BusIter(s).caches[c], BlockIndex(s), o) == MemoryAt(BusIter(s).memory, BlockTag(s), BlockIndex(s), o)
    ensures MemoryAt(BusIter(s).memory, BlockTag(s), BlockIndex(s), o) == Shown(s, BlockTag(s), BlockIndex(s), o)
  {
    hide BusIter, Shape, StateAgrees, FrameAgrees, HeadAgrees, LockStep, SingleWriter, PacketAfter, SharedLine;
    hide Transfer;
    var t, g, i := BusIter(s), BlockTag(s), BlockIndex(s);
    ArbitrationKeepsGate(s);
    ClockKeepsCoherence(s);
    LastStepStates(s);
    assert CleanAgrees(t, c, i, o);
    forall d: CoreId ensures !Owns(t.caches[d], g, i) {}
  }

  // ----- a fill served by a Modified owner ---------------------------------------------------------------

  /**
    Whatever the cores do while the fill runs, a word that the owner does not write again ends equal in memory,
    in the requester and in the former owner; every other cached word changes only by its own core's write.
   */
  lemma OwnerTransfer(s: System, run: seq<Action>, o: Offset)
    requires Starts(s) && s.current.cmd.IsFill() && CurrentOwner(s).Some? && s.current.sender < NUMBER_OF_CORES
    requires s.current.sender < CurrentOwner(s).value || s.caches[s.current.sender].tsram[BlockIndex(s)].mesi == Invalid
    requires Serves(s, run) && OwnerSpares(s, run, o)
    ensures Possible(s, run)
    ensures var e, r, j, t, i := End(s, run), s.current.sender, CurrentOwner(s).value, BlockTag(s), BlockIndex(s);
            && MemoryAt(e.memory, t, i, o) == DataAt(s.caches[j], i, o)
            && DataAt(e.caches[r], i, o) == DataAt(s.caches[j], i, o)
            && DataAt(e.caches[j], i, o) == DataAt(s.caches[j], i, o)
            && e.caches[r].tsram[i] == Frame(t, Shared)
            && e.caches[j].tsram[i] == Frame(t, if s.current.cmd.BusRd? then Shared else Invalid)
    ensures KeepsTheRest(s, run, o)
  {
    hide Gated, LockStep, SingleWriter, DataAgrees, Serves, Spares, Bystander, End, Settled, Snooped, DataAt, MemoryAt;
    var r, j, t, i := s.current.sender, CurrentOwner(s).value, BlockTag(s), BlockIndex(s);
    OwnerSettles(s);
    assert KeepsLineUp(s, j);
    LiveMemory(s, run, t, i, o);
    LiveData(s, run, r, i, o);
    LiveData(s, run, j, i, o);
    LiveFrame(s, run, r);
    LiveFrame(s, run, j);
    RestKept(s, run, o);
  }

  /** Nothing else of the word's offset changes in the run, but for the writes of the cores to their own copies. */
  ghost predicate KeepsTheRest(s: System, run: seq<Action>, o: Offset)
    requires Possible(s, run)
  {
    && (forall c: CoreId, i: Index :: CellKept(s, End(s, run), run, c, i, o))
    && (forall t: Tag, i: Index :: !IsCurrentBlock(s, t, i) ==>
          MemoryAt(End(s, run).memory, t, i, o) == MemoryAt(s.memory, t, i, o))
  }

  predicate CellKept(s: System, e: System, run: seq<Action>, c: CoreId, i: Index, o: Offset) {
    var f := s.caches[c].tsram[i];
    Bystander(s, c, f.tag, i) ==>
      && (Spares(run, c, f.tag, i, o) ==> DataAt(e.caches[c], i, o) == DataAt(s.caches[c], i, o))
      && ((forall o: Offset :: Spares(run, c, f.tag, i, o)) ==> e.caches[c].tsram[i] == f)
  }

  lemma RestKept(s: System, run: seq<Action>, o: Offset)
    requires Running(s) && s.current.sender < NUMBER_OF_CORES && Serves(s, run) && OwnerSpares(s, run, o)
    ensures Possible(s, run) && KeepsTheRest(s, run, o)
  {
    hide Running, Serves, Spares, OwnerSpares, DataAt, MemoryAt, TagOf, IndexOf;
    LiveMemory(s, run, 0, 0, o);
    forall c: CoreId, i: Index ensures CellKept(s, End(s, run), run, c, i, o) {
      var f := s.caches[c].tsram[i];
      if Bystander(s, c, f.tag, i) {
        if Spares(run, c, f.tag, i, o) { LiveData(s, run, c, i, o); }
        if forall o: Offset :: Spares(run, c, f.tag, i, o) { LiveBystander(s, run, c, i); }
      }
    }
    forall t: Tag, i: Index | !IsCurrentBlock(s, t, i)
      ensures MemoryAt(End(s, run).memory, t, i, o) == MemoryAt(s.memory, t, i, o)
    {
      LiveMemory(s, run, t, i, o);
    }
  }

  // ----- write-back ------------------------------------------------------------------------------------------

  /** The sender of a fresh write-back holds the block, so nobody else can own it. */
  lemma FreshSettles(s: System)
    requires Controlled(s) && Fresh(s) && s.inProgress && s.current.cmd.Flush?
    ensures Settled(s) && Snooped(s) && CurrentOwner(s).None? && s.current.sender < NUMBER_OF_CORES
  {
    hide Shape, StateAgrees, HeadAgrees, LockStep;
    RequesterFrame(s);
    ControlledHasSingleOwner(s);
    forall c: CoreId | c != s.current.sender ensures s.caches[c].tsram[BlockIndex(s)] != Frame(BlockTag(s), Exclusive) {
      assert Excludes(s, c, s.current.sender, BlockIndex(s));
    }
  }

  /**
    Whatever the cores do while it runs, a fresh write-back copies the sender's block to memory and leaves its
    line clean, whatever word was queued with it.
   */
  lemma WriteBack(s: System, run: seq<Action>, o: Offset)
    requires Controlled(s) && s.inProgress && s.offset == 0 && s.current.cmd.Flush? && Fresh(s)
    requires Serves(s, run)
    ensures Possible(s, run) && s.current.sender < NUMBER_OF_CORES
    ensures var e, r, t, i := End(s, run), s.current.sender, BlockTag(s), BlockIndex(s);
            && MemoryAt(e.memory, t, i, o) == DataAt(s.caches[r], i, o)
            && DataAt(e.caches[r], i, o) == DataAt(s.caches[r], i, o)
            && e.caches[r].tsram[i] == Frame(t, if SharedAtEnd(s) then Shared else Exclusive)
    ensures KeepsTheRest(s, run, o)
  {
    hide Gated, LockStep, SingleWriter, Serves, Spares, End, Settled, Snooped, DataAt, MemoryAt;
    FreshSettles(s);
    LiveMemory(s, run, BlockTag(s), BlockIndex(s), o);
    LiveData(s, run, s.current.sender, BlockIndex(s), o);
    LiveFrame(s, run, s.current.sender);
    RestKept(s, run, o);
  }

  // ----- G2: the write a running fill loses --------------------------------------------------------------------

  /** A fill takes the block from every owner. */
  lemma FillEndsOwnership(s: System, run: seq<Action>)
    requires Controlled(s) && Snooped(s) && s.inProgress && s.current.cmd.IsFill() && Serves(s, run)
    ensures Possible(s, run) && forall c: CoreId :: !Owns(End(s, run).caches[c], BlockTag(s), BlockIndex(s))
  {
    hide Controlled, Snooped, Serves, BusIter, Completes, End, CurrentOwner, Settled;
    var last := FillStates(s, run);
  }

  /** The write of the owner is the word that the fill leaves at address `a`. */
  predicate WriteSurvives(s: System, c: CoreId, a: Address, w: Word)
    requires s.current.sender < NUMBER_OF_CORES
  {
    if OffsetOf(a) < s.offset then w == ShownAt(s, a)
    else c < s.current.sender && RequesterAnswers(s, OffsetOf(a)) ==>
           w == DataAt(s.caches[s.current.sender], IndexOf(a), OffsetOf(a))
  }

  /**
    G2: a write by the owner of the block under transfer is in the flat memory when the transfer ends, whatever
    the cores do meanwhile, iff it did not change a word that had been transferred already and, for a word still
    to come, the requester does not replace it by another word of its own (G3).
   */
  lemma OwnerWriteExact(s: System, c: CoreId, a: Address, w: Word, run: seq<Action>)
    requires Coherent(s) && s.inProgress && s.current.cmd.IsFill() && s.current.sender < NUMBER_OF_CORES
    requires WriteHits(s, c, a) && IsCurrentBlock(s, TagOf(a), IndexOf(a))
    requires s.caches[c].tsram[IndexOf(a)].mesi == Modified
    requires Serves(WriteData(s, c, a, w), run) && Spares(run, c, TagOf(a), IndexOf(a), OffsetOf(a))
    ensures Possible(WriteData(s, c, a, w), run)
    ensures ShownAt(End(WriteData(s, c, a, w), run), a) == w <==> WriteSurvives(s, c, a, w)
  {
    hide Gated, LockStep, SingleWriter, DataAgrees, Serves, Spares, End, Settled, Snooped, DataAt, MemoryAt, WriteData;
    hide TagOf, IndexOf, OffsetOf;
    var t, o := WriteData(s, c, a, w), OffsetOf(a);
    var g, i := BlockTag(s), BlockIndex(s);
    WriteHitKeepsControl(s, c, a, w);
    WrittenOwner(s, c, a, w);
    OwnerSettles(t);
    LiveMemory(t, run, g, i, o);
    FillEndsOwnership(t, run);
    WrittenFinal(s, c, a, w);
  }

  /** After its write the core is still the owner of the block under transfer. */
  lemma WrittenOwner(s: System, c: CoreId, a: Address, w: Word)
    requires Controlled(s) && s.inProgress && s.current.cmd.IsFill() && s.current.sender < NUMBER_OF_CORES
    requires WriteHits(s, c, a) && IsCurrentBlock(s, TagOf(a), IndexOf(a))
    ensures var t := WriteData(s, c, a, w);
            && t == s.(caches := t.caches) && CurrentOwner(t) == Some(c) && c != s.current.sender
            && t.caches[s.current.sender] == s.caches[s.current.sender]
            && DataAt(t.caches[c], IndexOf(a), OffsetOf(a)) == w
  {
    hide Gated, LockStep, SingleWriter, TagOf, IndexOf, OffsetOf, DataAt, WriteData;
    var t := WriteData(s, c, a, w);
    WriteHitKeepsControl(s, c, a, w);
    IdleNotInTransit(s, c, 0);
    WrittenCell(s, c, a, w, c, IndexOf(a), OffsetOf(a));
    OwnerIsShown(t, c, BlockTag(s), BlockIndex(s));
    OwnerIsShown(t, CurrentOwner(t).value, BlockTag(s), BlockIndex(s));
    assert t.caches[s.current.sender] == s.caches[s.current.sender] by { OtherCache(s, c, a, w, s.current.sender); }
  }

  lemma OtherCache(s: System, c: CoreId, a: Address, w: Word, d: CoreId)
    requires d != c && WriteHits(s, c, a)
    ensures WriteData(s, c, a, w).caches[d] == s.caches[d]
  {
  }

  /** The closed form of the written word. */
  lemma WrittenFinal(s: System, c: CoreId, a: Address, w: Word)
    requires Coherent(s) && s.inProgress && s.current.cmd.IsFill() && s.current.sender < NUMBER_OF_CORES
    requires WriteHits(s, c, a) && IsCurrentBlock(s, TagOf(a), IndexOf(a))
    ensures var t := WriteData(s, c, a, w);
            FinalMemory(t, TagOf(a), IndexOf(a), OffsetOf(a)) == w <==> WriteSurvives(s, c, a, w)
  {
    hide Gated, LockStep, SingleWriter, DataAgrees, DataAt, MemoryAt, WriteData, Shown, TagOf, IndexOf, OffsetOf;
    WrittenOwner(s, c, a, w);
    if OffsetOf(a) < s.offset { TransferredShown(s, OffsetOf(a)); }
  }

  // ----- atomic upgrade --------------------------------------------------------------------------------------------

  /** An upgrade has ended, the packet behind it names nobody, and its core has not been released yet. */
  predicate UpgradeEnded(s: System, r: CoreId) {
    && !s.inProgress && s.states[r] == Finally && s.current.origid == r
    && s.queue != [] && s.queue[0].origid >= NUMBER_OF_CORES
  }

  /** A call of a core into its cache. */
  type Call = a: Action | !a.Clock? witness Read(0, 0)

  /** The system after some calls, with no clock step between. */
  function AfterCalls(s: System, calls: seq<Call>): System
    requires s.Wf()
    decreases |calls|
  {
    if calls == [] then s
    else
      CallKeepsWf(s, calls[0]);
      AfterCalls(Step(s, calls[0]), calls[1..])
  }

  lemma CallKeepsWf(s: System, call: Call)
    requires s.Wf()
    ensures Step(s, call).Wf()
  {
    hide Miss, AddTransaction, StoreWord, ReadHits, WriteHits, Location, IndexOf, OffsetOf, TagOf, DataAt;
    match call
    case Read(c, a) => MissUnfolded(s, c, a, BusRd);
    case Write(c, a, w) =>
      MissUnfolded(s, c, a, BusRdX);
      UpgradeUnfolded(s, c, a);
  }

  lemma CallKeepsUpgrade(s: System, r: CoreId, call: Call)
    requires s.Wf() && UpgradeEnded(s, r)
    ensures UpgradeEnded(Step(s, call), r) && Step(s, call).caches[r] == s.caches[r]
  {
    match call
    case Read(c, a) => MissUnfolded(s, c, a, BusRd);
    case Write(c, a, w) =>
      MissUnfolded(s, c, a, BusRdX);
      UpgradeUnfolded(s, c, a);
  }

  lemma {:induction false} CallsKeepUpgrade(s: System, r: CoreId, calls: seq<Call>)
    requires s.Wf() && UpgradeEnded(s, r)
    ensures AfterCalls(s, calls).Wf() && UpgradeEnded(AfterCalls(s, calls), r)
    ensures AfterCalls(s, calls).caches[r] == s.caches[r]
    decreases |calls|
  {
    if calls != [] {
      CallKeepsWf(s, calls[0]);
      CallKeepsUpgrade(s, r, calls[0]);
      CallsKeepUpgrade(Step(s, calls[0]), r, calls[1..]);
    }
  }

  /** An upgrade at the head of the queue, still holding its block, with the invalid packet behind it. */
  predicate UpgradeIsNext(s: System) {
    && |s.queue| > 1 && s.queue[0].cmd.BusRdX? && s.queue[0].origid < NUMBER_OF_CORES
    && HoldsAddress(s.caches[s.queue[0].origid], s.queue[0].addr)
    && s.queue[1].origid >= NUMBER_OF_CORES
  }

  /** A requester that holds its block at the grant leaves nobody who owns it or could come to own it. */
  lemma UpgradeGranted(s: System)
    requires Controlled(s) && !s.inProgress && UpgradeIsNext(s)
    ensures var g := Arbitrated(s);
            && Controlled(g) && Settled(g) && Snooped(g) && g.inProgress && g.current.cmd.BusRdX?
            && CurrentOwner(g).None?
            && g.current.addr == s.queue[0].addr && g.current.sender == s.queue[0].origid == g.current.origid
            && g.queue == s.queue[1..] && Arbitrated(g) == g
  {
    hide Shape, StateAgrees, FrameAgrees, HeadAgrees, TagOf, IndexOf;
    ArbitrationKeepsControl(s);
    var g := Arbitrated(s);
    ArbitrationKeepsGate(g);
    var i := BlockIndex(g);
    forall c: CoreId | c != g.current.sender
      ensures !Owns(g.caches[c], BlockTag(g), i) && g.caches[c].tsram[i] != Frame(BlockTag(g), Exclusive)
    {
      assert Excludes(s, c, g.current.sender, i);
    }
  }

  /** The run that begins with the grant. */
  lemma GrantServes(s: System, g: System, run: seq<Action>)
    requires s.Wf() && g == Arbitrated(s) && g.Wf() && g.inProgress && Arbitrated(g) == g && Serves(BusIter(s), run)
    ensures Serves(g, [Clock] + run) && Possible(BusIter(s), run) && Possible(g, [Clock] + run)
    ensures End(g, [Clock] + run) == End(BusIter(s), run)
  {
    hide Transfer, Arbitrated;
    assert ([Clock] + run)[0] == Clock && ([Clock] + run)[1..] == run;
    ServesIsPossible(BusIter(s), run);
    assert Step(g, Clock) == BusIter(s);
  }

  /** Whatever the cores do meanwhile, an upgrade whose copy is still there at the grant ends Exclusive and alone. */
  lemma UpgradeEnds(s: System, run: seq<Action>)
    requires Controlled(s) && !s.inProgress && UpgradeIsNext(s) && Serves(BusIter(s), run)
    ensures Possible(BusIter(s), run)
    ensures var e, r, a := End(BusIter(s), run), s.queue[0].origid, s.queue[0].addr;
            && Controlled(e) && UpgradeEnded(e, r)
            && e.caches[r].tsram[IndexOf(a)] == Frame(TagOf(a), Exclusive)
            && forall c: CoreId :: c != r ==> !HoldsAddress(e.caches[c], a)
  {
    hide Gated, LockStep, SingleWriter, Serves, Arbitrated, End, Possible, Settled;
    hide Snooped, CurrentOwner, TagOf, IndexOf, BusIter;
    ControlledIsOrdered(s);
    var g := Arbitrated(s);
    UpgradeGranted(s);
    ControlledIsOrdered(g);
    GrantServes(s, g, run);
    var last := FillStates(g, [Clock] + run);
    LiveControl(g, [Clock] + run);
  }

  lemma ControlledIsOrdered(s: System)
    requires Controlled(s)
    ensures s.Wf() && Ordered(s)
  {
  }

  /**
    The atomic upgrade: from the grant to the end of the transaction and beyond it to the next clock step, the cores
    may call their caches as they like. That next step grants nothing and snoops nothing, and the requester's
    store still finds its line Exclusive.
   */
  lemma AtomicUpgrade(s: System, run: seq<Action>, calls: seq<Call>, a: Address)
    requires Controlled(s) && !s.inProgress && UpgradeIsNext(s) && Serves(BusIter(s), run)
    requires TagOf(a) == TagOf(s.queue[0].addr) && IndexOf(a) == IndexOf(s.queue[0].addr)
    ensures Possible(BusIter(s), run) && End(BusIter(s), run).Wf()
    ensures var r, u := s.queue[0].origid, AfterCalls(End(BusIter(s), run), calls);
            && u.Wf()
            && u.caches[r].tsram[IndexOf(a)] == Frame(TagOf(a), Exclusive)
            && !BusIter(u).inProgress && BusIter(u).caches == u.caches && BusIter(u).memory == u.memory
            && WriteHits(BusIter(u), r, a)
  {
    hide Controlled, Serves, End, Possible, TagOf, IndexOf;
    UpgradeEnds(s, run);
    ControlledIsOrdered(s);
    var e, r := End(BusIter(s), run), s.queue[0].origid;
    ControlledIsOrdered(e);
    CallsKeepUpgrade(e, r, calls);
    UpgradeReleased(AfterCalls(e, calls), r, a);
  }

  /** The clock step after an upgrade drops the invalid packet and releases the core. */
  lemma UpgradeReleased(u: System, r: CoreId, a: Address)
    requires u.Wf() && UpgradeEnded(u, r) && u.caches[r].tsram[IndexOf(a)] == Frame(TagOf(a), Exclusive)
    ensures !BusIter(u).inProgress && BusIter(u).caches == u.caches && BusIter(u).memory == u.memory
    ensures WriteHits(BusIter(u), r, a)
  {
  }

  /** A requester that still holds the block leaves no room for an owner. */
  lemma SharedUpgradeUnowned(s: System)
    requires Coherent(s) && !s.inProgress && s.queue != [] && s.queue[0].origid < NUMBER_OF_CORES
    requires HoldsAddress(s.caches[s.queue[0].origid], s.queue[0].addr) && s.queue[0].cmd.IsFill()
    ensures CurrentOwner(Arbitrated(s)).None?
  {
    GrantStarts(s);
    ArbitrationKeepsControl(s);
    var t := Arbitrated(s);
    assert t.current == s.queue[0].(sender := s.queue[0].origid);
  }
}
