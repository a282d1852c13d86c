/**
  The closed form of a transaction while the cores go on: what it will leave in memory, in the caches and in
  the frames is not changed by their calls, up to the words that the owner of the block still writes itself.
 */
module LiveTransactions {
  import opened Types
  import opened Addressing
  import opened CacheModel
  import opened BusModel
  import opened TransferEffect
  import opened Gate
  import opened Order
  import opened Exclusion
  import opened Coherence
  import opened SharedMemory
  import opened Transactions
  import opened Timing

  /** No bystander holds the block Exclusive, so none can become its owner during the transaction. */
  ghost predicate Settled(s: System) {
    forall c: CoreId :: c != s.current.sender ==> s.caches[c].tsram[BlockIndex(s)] != Frame(BlockTag(s), Exclusive)
  }

  /** A transaction under way. */
  ghost predicate Running(s: System) { Controlled(s) && s.inProgress && Settled(s) }

  /** The action is core `c`'s write to word `o` of block (t, i). */
  predicate Writes(a: Action, c: CoreId, t: Tag, i: Index, o: Offset) {
    a.Write? && a.core == c && TagOf(a.addr) == t && IndexOf(a.addr) == i && OffsetOf(a.addr) == o
  }

  /** No call of the run is core `c`'s write to word `o` of block (t, i). */
  predicate Spares(run: seq<Action>, c: CoreId, t: Tag, i: Index, o: Offset) {
    forall k :: 0 <= k < |run| ==> !Writes(run[k], c, t, i, o)
  }

  /** The owner of the block, if it has one, does not write word `o` of it in this run. */
  predicate OwnerSpares(s: System, run: seq<Action>, o: Offset) {
    CurrentOwner(s).Some? ==> Spares(run, CurrentOwner(s).value, BlockTag(s), BlockIndex(s), o)
  }

  predicate StoresWord(s: System, a: Action) { a.Write? && WriteHits(s, a.core, a.addr) }

  // ----- one call -------------------------------------------------------------------------------------------------

  /** A call that is not a write hit changes at most the queue. */
  lemma CallOnlyQueues(s: System, a: Action)
    requires s.Wf() && !a.Clock? && !StoresWord(s, a)
    ensures var t := Step(s, a); t == s.(queue := t.queue, states := t.states)
  {
    hide Miss, AddTransaction, IndexOf, TagOf;
    match a
    case Read(c, addr) => MissUnfolded(s, c, addr, BusRd);
    case Write(c, addr, w) =>
      MissUnfolded(s, c, addr, BusRdX);
      UpgradeUnfolded(s, c, addr);
  }

  lemma StoredFrame(c: Cache, a: Address, w: Word)
    ensures forall i: Index ::
              StoreWord(c, a, w).tsram[i] == if i == IndexOf(a) then c.tsram[i].(mesi := Modified) else c.tsram[i]
  {
  }

  lemma StoredWord(c: Cache, a: Address, w: Word, i: Index, o: Offset)
    ensures DataAt(StoreWord(c, a, w), i, o) == if i == IndexOf(a) && o == OffsetOf(a) then w else DataAt(c, i, o)
  {
  }

  lemma CallKeepsRegisters(s: System, a: Action)
    requires s.Wf() && !a.Clock?
    ensures var t := Step(s, a);
            && t.memory == s.memory && t.inProgress == s.inProgress && t.current == s.current && t.offset == s.offset
            && t.firstShared == s.firstShared && t.memoryActive == s.memoryActive && t.counter == s.counter
  {
    hide StoreWord;
    if !StoresWord(s, a) { CallOnlyQueues(s, a); }
  }

  /** A write hit during a transaction is not the requester's. */
  lemma HitIsBystander(s: System, c: CoreId, a: Address)
    requires Controlled(s) && s.inProgress && WriteHits(s, c, a)
    ensures c != s.current.sender
  {
    hide TagOf, IndexOf;
    IdleNotInTransit(s, c, 0);
  }

  /** A call keeps the frames that matter to the transaction: the requester's, and every copy of the block. */
  lemma CallKeepsFrame(s: System, a: Action, c: CoreId)
    requires Running(s) && !a.Clock?
    ensures var f, g := s.caches[c].tsram[BlockIndex(s)], Step(s, a).caches[c].tsram[BlockIndex(s)];
            g.tag == f.tag && (c == s.current.sender || f.tag == BlockTag(s) ==> g == f)
  {
    hide Shape, StateAgrees, FrameAgrees, HeadAgrees, SingleWriter, LockStep, StoreWord, TagOf, IndexOf, Miss;
    if StoresWord(s, a) {
      HitIsBystander(s, a.core, a.addr);
      StoredFrame(s.caches[a.core], a.addr, a.data);
    } else {
      CallOnlyQueues(s, a);
    }
  }

  /** A call keeps every word that its core does not write. */
  lemma CallKeepsWord(s: System, a: Action, c: CoreId, i: Index, o: Offset)
    requires s.Wf() && !a.Clock?
    requires StoresWord(s, a) ==> !Writes(a, c, s.caches[c].tsram[i].tag, i, o)
    ensures DataAt(Step(s, a).caches[c], i, o) == DataAt(s.caches[c], i, o)
  {
    hide TagOf, IndexOf, OffsetOf, DataAt, Miss, StoreWord;
    if StoresWord(s, a) {
      StoredWord(s.caches[a.core], a.addr, a.data, i, o);
    } else {
      CallOnlyQueues(s, a);
    }
  }

  /** The frames of the block that a call leaves as they are decide who owns it and who keeps the line up. */
  ghost predicate SameCopies(s: System, t: System) {
    && t.current == s.current && t.offset == s.offset
    && forall c: CoreId :: SameCopy(s, t, c)
  }

  predicate SameCopy(s: System, t: System, c: CoreId) {
    var f, g := s.caches[c].tsram[BlockIndex(s)], t.caches[c].tsram[BlockIndex(s)];
    g.tag == f.tag && (c == s.current.sender || f.tag == BlockTag(s) ==> g == f)
  }

  lemma CallKeepsCopies(s: System, a: Action)
    requires Running(s) && !a.Clock?
    ensures SameCopies(s, Step(s, a))
  {
    hide Controlled, Settled, TagOf, IndexOf;
    RunningIsWf(s);
    CallKeepsRegisters(s, a);
    forall c: CoreId ensures SameCopy(s, Step(s, a), c) { CallKeepsFrame(s, a, c); }
  }

  lemma SameCopiesMean(s: System, t: System)
    requires SameCopies(s, t)
    ensures CurrentOwner(t) == CurrentOwner(s)
    ensures SharedAtEnd(t) <==> SharedAtEnd(s)
  {
    hide TagOf, IndexOf;
    assert BlockTag(t) == BlockTag(s) && BlockIndex(t) == BlockIndex(s);
    forall c: CoreId
      ensures KeepsLineUp(t, c) <==> KeepsLineUp(s, c)
      ensures c != s.current.sender ==>
                (Owns(t.caches[c], BlockTag(s), BlockIndex(s)) <==> Owns(s.caches[c], BlockTag(s), BlockIndex(s)))
    {
      assert SameCopy(s, t, c);
    }
  }

  lemma SettledKept(s: System, t: System)
    requires SameCopies(s, t) && Settled(s)
    ensures Settled(t)
  {
    hide TagOf, IndexOf;
    forall c: CoreId | c != t.current.sender ensures t.caches[c].tsram[BlockIndex(t)] != Frame(BlockTag(t), Exclusive) {
      assert SameCopy(s, t, c);
    }
  }

  lemma CallKeepsDelivered(s: System, a: Action, o: Offset)
    requires Running(s) && !a.Clock? && s.current.sender < NUMBER_OF_CORES
    requires CurrentOwner(s).Some? ==> !Writes(a, CurrentOwner(s).value, BlockTag(s), BlockIndex(s), o)
    ensures Delivered(Step(s, a), o) == Delivered(s, o) && UpdatesMemory(Step(s, a)) == UpdatesMemory(s)
  {
    hide Controlled, Settled, Step, TagOf, IndexOf, OffsetOf, DataAt, MemoryAt, SameCopies, Writes, StoresWord;
    assert s.Wf() by { RunningIsWf(s); }
    var t, r, i := Step(s, a), s.current.sender, BlockIndex(s);
    CallKeepsRegisters(s, a);
    CallKeepsCopies(s, a);
    SameCopiesMean(s, t);
    assert SameCopy(s, t, r) by { CopyOf(s, t, r); }
    RequesterWord(s, a, o);
    if CurrentOwner(s).Some? { CallKeepsWord(s, a, CurrentOwner(s).value, i, o); }
  }

  lemma RunningIsWf(s: System)
    requires Running(s)
    ensures s.Wf()
  {
  }

  lemma CopyOf(s: System, t: System, c: CoreId)
    requires SameCopies(s, t)
    ensures SameCopy(s, t, c)
  {
  }

  lemma RequesterWord(s: System, a: Action, o: Offset)
    requires Controlled(s) && s.inProgress && !a.Clock? && s.current.sender < NUMBER_OF_CORES
    ensures forall i: Index ::
              DataAt(Step(s, a).caches[s.current.sender], i, o) == DataAt(s.caches[s.current.sender], i, o)
    ensures forall i: Index :: Step(s, a).caches[s.current.sender].tsram[i] == s.caches[s.current.sender].tsram[i]
  {
    hide Shape, StateAgrees, FrameAgrees, HeadAgrees, LockStep, SingleWriter, TagOf;
    hide IndexOf, OffsetOf, DataAt, StoreWord;
    if StoresWord(s, a) { HitIsBystander(s, a.core, a.addr); } else { CallOnlyQueues(s, a); }
  }

  // ----- one action ----------------------------------------------------------------------------------------------

  /** A step of the running transaction leaves the clean copies as they have reacted. */
  lemma ClockKeepsSnooped(s: System)
    requires Controlled(s) && s.inProgress && Snooped(s) && BusIter(s).inProgress
    ensures Snooped(BusIter(s))
  {
    hide BusIter, Shape, StateAgrees, FrameAgrees, HeadAgrees, SingleWriter, Snooped;
    ClockIsQuietStep(s);
    if Bubble(s) { BubbleStates(s, BusIter(s), 0, 0); } else { SnoopedStays(s, BusIter(s)); }
  }

  /** No call of a core gives a clean copy of the block under transfer exclusive rights. */
  lemma CallKeepsSnooped(s: System, a: Action)
    requires Controlled(s) && Snooped(s) && !a.Clock?
    ensures Snooped(Step(s, a))
  {
    hide Shape, StateAgrees, FrameAgrees, HeadAgrees, SingleWriter, LockStep, StoreWord, TagOf, IndexOf;
    if StoresWord(s, a) {
      StoredFrame(s.caches[a.core], a.addr, a.data);
    } else {
      CallOnlyQueues(s, a);
    }
  }

  lemma StepKeepsSnooped(s: System, a: Action)
    requires Controlled(s) && s.inProgress && Snooped(s) && Step(s, a).inProgress
    ensures Snooped(Step(s, a))
  {
    hide Controlled, Snooped, BusIter;
    if a.Clock? { ClockKeepsSnooped(s); } else { CallKeepsSnooped(s, a); }
  }

  /** One clock step of a running transaction that does not end it. */
  lemma ClockKeepsRunning(s: System)
    requires Running(s) && BusIter(s).inProgress
    ensures Running(BusIter(s)) && BusIter(s).current == s.current
    ensures CurrentOwner(BusIter(s)) == CurrentOwner(s)
  {
    hide BusIter, Shape, StateAgrees, FrameAgrees, HeadAgrees, SingleWriter;
    var t := BusIter(s);
    ClockIsQuietStep(s);
    QuietStepKeepsControl(s, t);
    if !Bubble(s) {
      OwnerStays(s, t);
      SettledStays(s, t);
    }
  }

  lemma SettledStays(s: System, t: System)
    requires Running(s) && IsWordStep(s, t)
    ensures Settled(t)
  {
    hide Shape, StateAgrees, FrameAgrees, HeadAgrees, SingleWriter;
    forall c: CoreId | c != s.current.sender ensures t.caches[c].tsram[BlockIndex(s)] != Frame(BlockTag(s), Exclusive) {
      FrameOfStep(s, t, c, BlockIndex(s));
    }
  }

  lemma CallKeepsRunning(s: System, a: Action)
    requires Running(s) && !a.Clock?
    ensures var t := Step(s, a); Running(t) && t.current == s.current && CurrentOwner(t) == CurrentOwner(s)
  {
    hide Step, Controlled, Settled, SameCopies;
    RunningIsWf(s);
    var t := Step(s, a);
    CallKeepsRegisters(s, a);
    CallKeepsControl(s, a);
    CallKeepsCopies(s, a);
    SameCopiesMean(s, t);
    SettledKept(s, t);
  }

  lemma ClockKeepsMemory(s: System, g: Tag, i: Index, o: Offset)
    requires Running(s) && s.current.sender < NUMBER_OF_CORES
    ensures var t := BusIter(s);
            t.current == s.current &&
            if t.inProgress then FinalMemory(t, g, i, o) == FinalMemory(s, g, i, o)
            else MemoryAt(t.memory, g, i, o) == FinalMemory(s, g, i, o)
  {
    hide BusIter, FinalMemory, Controlled;
    RunningIsWf(s);
    ClockIsQuietStep(s);
    if Bubble(s) { BubbleMemory(s, BusIter(s), g, i, o); } else { FinalMemoryStays(s, BusIter(s), g, i, o); }
  }

  lemma ClockKeepsData(s: System, c: CoreId, i: Index, o: Offset)
    requires Running(s)
    ensures var t := BusIter(s);
            t.current == s.current &&
            if t.inProgress then FinalData(t, c, i, o) == FinalData(s, c, i, o)
            else DataAt(t.caches[c], i, o) == FinalData(s, c, i, o)
  {
    hide BusIter, FinalData, Controlled;
    RunningIsWf(s);
    ClockIsQuietStep(s);
    if Bubble(s) { BubbleData(s, BusIter(s), c, i, o); } else { FinalDataStays(s, BusIter(s), c, i, o); }
  }

  lemma ClockKeepsFrame(s: System, c: CoreId, i: Index)
    requires Running(s) && Snooped(s)
    ensures var t := BusIter(s);
            t.current == s.current &&
            if t.inProgress then FinalFrame(t, c, i) == FinalFrame(s, c, i) else t.caches[c].tsram[i] == FinalFrame(s, c, i)
  {
    hide BusIter, FinalFrame, Controlled;
    RunningIsWf(s);
    var t := BusIter(s);
    ClockIsQuietStep(s);
    if Bubble(s) { BubbleStates(s, t, c, i); }
    else if t.inProgress { FinalFrameStays(s, t, c, i); }
    else { FinalFrameNow(s, t, c, i); }
  }

  lemma CallKeepsFinalMemory(s: System, a: Action, g: Tag, i: Index, o: Offset)
    requires Running(s) && !a.Clock? && s.current.sender < NUMBER_OF_CORES
    requires CurrentOwner(s).Some? ==> !Writes(a, CurrentOwner(s).value, BlockTag(s), BlockIndex(s), o)
    ensures Step(s, a).current == s.current && FinalMemory(Step(s, a), g, i, o) == FinalMemory(s, g, i, o)
  {
    hide Step, Running, Delivered, UpdatesMemory, TagOf, IndexOf, MemoryAt;
    RunningIsWf(s);
    CallKeepsRegisters(s, a);
    CallKeepsDelivered(s, a, o);
  }

  lemma CallKeepsFinalData(s: System, a: Action, c: CoreId, i: Index, o: Offset)
    requires Running(s) && !a.Clock?
    requires CurrentOwner(s).Some? ==> !Writes(a, CurrentOwner(s).value, BlockTag(s), BlockIndex(s), o)
    requires c != s.current.sender ==> !Writes(a, c, s.caches[c].tsram[i].tag, i, o)
    ensures Step(s, a).current == s.current && FinalData(Step(s, a), c, i, o) == FinalData(s, c, i, o)
  {
    hide Step, Delivered, UpdatesMemory, TagOf, IndexOf, DataAt, Gated, LockStep, SingleWriter, Settled;
    RunningIsWf(s);
    CallKeepsRegisters(s, a);
    if c == s.current.sender {
      CallKeepsDelivered(s, a, o);
      RequesterWord(s, a, o);
    } else {
      CallKeepsWord(s, a, c, i, o);
    }
  }

  /** The frame of a copy of the block, or of the requester. */
  lemma CallKeepsFinalFrame(s: System, a: Action, c: CoreId)
    requires Running(s) && !a.Clock? && (c == s.current.sender || s.caches[c].tsram[BlockIndex(s)].tag == BlockTag(s))
    ensures Step(s, a).current == s.current
    ensures FinalFrame(Step(s, a), c, BlockIndex(s)) == FinalFrame(s, c, BlockIndex(s))
    ensures Step(s, a).caches[c].tsram[BlockIndex(s)] == s.caches[c].tsram[BlockIndex(s)]
  {
    hide Step, Running, SharedAtEnd, TagOf, IndexOf, SameCopies;
    RunningIsWf(s);
    CallKeepsRegisters(s, a);
    CallKeepsCopies(s, a);
    SameCopiesMean(s, Step(s, a));
    CopyOf(s, Step(s, a), c);
  }

  // ----- whole runs ----------------------------------------------------------------------------------------------

  lemma StepIsClock(s: System, a: Action)
    requires s.Wf() && a.Clock?
    ensures Step(s, a) == BusIter(s)
  {
  }

  /** The rest of a run after its first action. */
  lemma RunningNext(s: System, run: seq<Action>)
    requires Running(s) && Serves(s, run)
    ensures run != [] && s.Wf() && Serves(Step(s, run[0]), run[1..]) && s.current.sender < NUMBER_OF_CORES
    ensures Possible(s, run) && Possible(Step(s, run[0]), run[1..])
    ensures End(s, run) == End(Step(s, run[0]), run[1..])
    ensures var t := Step(s, run[0]);
            && (run[0].Clock? ==> t == BusIter(s))
            && if t.inProgress then Running(t) && t.current == s.current && CurrentOwner(t) == CurrentOwner(s)
               else run[1..] == [] && run[0].Clock?
  {
    hide Step, Shape, StateAgrees, FrameAgrees, HeadAgrees, SingleWriter, Settled, BusIter;
    RunningIsWf(s);
    RequesterFrame(s);
    ServesIsPossible(s, run);
    var t := Step(s, run[0]);
    if run[0].Clock? {
      StepIsClock(s, run[0]);
      if t.inProgress { ClockKeepsRunning(s); }
    } else {
      CallKeepsRunning(s, run[0]);
    }
  }

  lemma SparesNext(s: System, t: System, run: seq<Action>, o: Offset)
    requires run != [] && OwnerSpares(s, run, o) && t.current == s.current && CurrentOwner(t) == CurrentOwner(s)
    ensures OwnerSpares(t, run[1..], o)
    ensures CurrentOwner(s).Some? ==> !Writes(run[0], CurrentOwner(s).value, BlockTag(s), BlockIndex(s), o)
  {
    hide Writes, TagOf, IndexOf;
  }

  /** Memory at the end of a transaction is what its closed form says at any time before. */
  lemma {:induction false} LiveMemory(s: System, run: seq<Action>, g: Tag, i: Index, o: Offset)
    requires Running(s) && Serves(s, run) && OwnerSpares(s, run, o) && s.current.sender < NUMBER_OF_CORES
    ensures Possible(s, run) && MemoryAt(End(s, run).memory, g, i, o) == FinalMemory(s, g, i, o)
    decreases |run|
  {
    hide Step, Running, FinalMemory, OwnerSpares, Serves, CurrentOwner, BusIter;
    RunningNext(s, run);
    var t := Step(s, run[0]);
    if t.inProgress { SparesNext(s, t, run, o); }
    if run[0].Clock? {
      ClockKeepsMemory(s, g, i, o);
    } else {
      SparesNext(s, s, run, o);
      CallKeepsFinalMemory(s, run[0], g, i, o);
    }
    if t.inProgress { LiveMemory(t, run[1..], g, i, o); }
  }

  /** A word of the requester, or one that its own core does not write. */
  lemma {:induction false} LiveData(s: System, run: seq<Action>, c: CoreId, i: Index, o: Offset)
    requires Running(s) && Serves(s, run) && OwnerSpares(s, run, o)
    requires c != s.current.sender ==> Spares(run, c, s.caches[c].tsram[i].tag, i, o)
    ensures Possible(s, run) && DataAt(End(s, run).caches[c], i, o) == FinalData(s, c, i, o)
    decreases |run|
  {
    hide Step, Running, FinalData, OwnerSpares, Serves, CurrentOwner, BusIter, Writes;
    RunningNext(s, run);
    var t := Step(s, run[0]);
    if t.inProgress { SparesNext(s, t, run, o); }
    if run[0].Clock? {
      ClockKeepsData(s, c, i, o);
    } else {
      SparesNext(s, s, run, o);
      CallKeepsFinalData(s, run[0], c, i, o);
    }
    if t.inProgress {
      if c != s.current.sender { TagsStay(s, run[0], c, i); }
      LiveData(t, run[1..], c, i, o);
    }
  }

  /** Only the requester's frame can get a new tag. */
  lemma TagsStay(s: System, a: Action, c: CoreId, i: Index)
    requires Running(s) && c != s.current.sender
    ensures s.Wf() && Step(s, a).caches[c].tsram[i].tag == s.caches[c].tsram[i].tag
  {
    hide BusIter, Shape, StateAgrees, FrameAgrees, HeadAgrees, SingleWriter, StoreWord, TagOf, IndexOf, Miss;
    if a.Clock? {
      ClockIsQuietStep(s);
      if !Bubble(s) { FrameOfStep(s, BusIter(s), c, i); }
    } else if StoresWord(s, a) {
      StoredFrame(s.caches[a.core], a.addr, a.data);
    } else {
      CallOnlyQueues(s, a);
    }
  }

  /** Tag and state of the requester, and of every copy of the block. */
  lemma {:induction false} LiveFrame(s: System, run: seq<Action>, c: CoreId)
    requires Running(s) && Serves(s, run) && Snooped(s)
    requires c == s.current.sender || s.caches[c].tsram[BlockIndex(s)].tag == BlockTag(s)
    ensures Possible(s, run) && End(s, run).caches[c].tsram[BlockIndex(s)] == FinalFrame(s, c, BlockIndex(s))
    decreases |run|
  {
    hide Step, Controlled, FinalFrame, Snooped, Serves, CurrentOwner, BusIter, TagOf, IndexOf, Settled;
    RunningNext(s, run);
    if Step(s, run[0]).inProgress { StepKeepsSnooped(s, run[0]); }
    var t := Step(s, run[0]);
    if run[0].Clock? { ClockKeepsFrame(s, c, BlockIndex(s)); } else { CallKeepsFinalFrame(s, run[0], c); }
    if t.inProgress {
      if c != s.current.sender { TagsStay(s, run[0], c, BlockIndex(s)); }
      LiveFrame(t, run[1..], c);
    }
  }

  // ----- outside the block, and the registers --------------------------------------------------------------------

  /** Frame i of cache `c`, with tag `t`, is outside the block under transfer, or in a cache that takes no part. */
  predicate Bystander(s: System, c: CoreId, t: Tag, i: Index) {
    i != BlockIndex(s) || (c != s.current.sender && t != BlockTag(s))
  }

  /** An action changes the state of a bystander's frame only as its own core's write. */
  lemma StepKeepsBystander(s: System, a: Action, c: CoreId, i: Index)
    requires Running(s) && Bystander(s, c, s.caches[c].tsram[i].tag, i)
    requires forall o: Offset :: !Writes(a, c, s.caches[c].tsram[i].tag, i, o)
    ensures s.Wf() && Step(s, a).caches[c].tsram[i] == s.caches[c].tsram[i]
  {
    hide BusIter, Shape, StateAgrees, FrameAgrees, HeadAgrees, SingleWriter, StoreWord, TagOf, IndexOf, OffsetOf, Miss;
    if a.Clock? {
      ClockIsQuietStep(s);
      if !Bubble(s) { FrameOfStep(s, BusIter(s), c, i); }
    } else if StoresWord(s, a) {
      StoredFrame(s.caches[a.core], a.addr, a.data);
      assert !Writes(a, c, s.caches[c].tsram[i].tag, i, OffsetOf(a.addr));
    } else {
      CallOnlyQueues(s, a);
    }
  }

  lemma {:induction false} LiveBystander(s: System, run: seq<Action>, c: CoreId, i: Index)
    requires Running(s) && Serves(s, run) && Bystander(s, c, s.caches[c].tsram[i].tag, i)
    requires forall o: Offset :: Spares(run, c, s.caches[c].tsram[i].tag, i, o)
    ensures Possible(s, run) && End(s, run).caches[c].tsram[i] == s.caches[c].tsram[i]
    decreases |run|
  {
    hide Step, Running, Serves, CurrentOwner, BusIter, Writes, TagOf, IndexOf;
    RunningNext(s, run);
    var t := Step(s, run[0]);
    forall o: Offset
      ensures !Writes(run[0], c, s.caches[c].tsram[i].tag, i, o) && Spares(run[1..], c, s.caches[c].tsram[i].tag, i, o)
    {
      assert Spares(run, c, s.caches[c].tsram[i].tag, i, o);
    }
    StepKeepsBystander(s, run[0], c, i);
    if t.inProgress { LiveBystander(t, run[1..], c, i); }
  }

  /** The end of a transaction: its core is done, its packet is the last one run, and the queue has grown at its end. */
  ghost predicate Ended(s: System, e: System) {
    && !e.inProgress && Ordered(e) && e.current == s.current && s.queue <= e.queue
    && s.current.origid < NUMBER_OF_CORES && e.states[s.current.origid] == Finally
  }

  lemma OrderedNext(s: System, a: Action)
    requires Ordered(s) && s.inProgress
    ensures var t := Step(s, a);
            Ordered(t) && if t.inProgress then t.current == s.current && s.queue <= t.queue else Ended(s, t)
  {
    hide BusIter, Shape, StateAgrees, FrameAgrees, HeadAgrees, ModifiedLine, ReadData, WriteData;
    StepKeepsOrder(s, a);
    if a.Clock? {
      ClockAdvances(s);
    } else {
      CallKeepsOrder(s, a);
      var g := CallAppends(s, a);
    }
  }

  lemma {:induction false} LiveControl(s: System, run: seq<Action>)
    requires Ordered(s) && s.inProgress && Serves(s, run)
    ensures Possible(s, run) && Ended(s, End(s, run))
    decreases |run|
  {
    hide Step, Shape, StateAgrees, FrameAgrees, HeadAgrees, LockStep;
    ServesIsPossible(s, run);
    OrderedNext(s, run[0]);
    if Step(s, run[0]).inProgress { LiveControl(Step(s, run[0]), run[1..]); }
  }
}
