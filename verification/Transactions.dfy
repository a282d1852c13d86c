/**
  A whole transaction with the cores quiet, in closed form: which word arrives at each offset,
  who holds the block in which state afterwards, and what did not change.
 */
module Transactions {
  import opened Types
  import opened Addressing
  import opened CacheModel
  import opened BusModel
  import opened TransferEffect
  import opened Gate
  import opened Order
  import opened Exclusion
  import opened Coherence

  // ----- running a transaction to its end -------------------------------------------------------------

  const LENGTH := LAST_COUNT + 1

  /** Clock steps the running transaction can still take. */
  function Remaining(s: System): nat {
    (if s.firstShared then 1 else 0) +
    (if s.memoryActive then if s.counter <= LAST_COUNT then LENGTH - s.counter else 0 else LENGTH)
  }

  /** One clock step of a running transaction: a bubble, or a word step. */
  ghost predicate QuietStep(s: System, t: System)
    requires s.Wf() && s.inProgress
  {
    if Bubble(s) then t == s.(firstShared := false) else IsWordStep(s, t)
  }

  lemma ClockIsQuietStep(s: System)
    requires Controlled(s) && s.inProgress
    ensures QuietStep(s, BusIter(s))
  {
    ArbitrationKeepsGate(s);
    ControlledHasSingleOwner(s);
    if !Bubble(s) { TransferIsWordStep(s); }
  }

  lemma StepApproaches(s: System, t: System)
    requires s.Wf() && LockStep(s) && s.inProgress && Advances(s, t) && t.inProgress
    ensures Remaining(t) < Remaining(s)
  {
  }

  lemma QuietStepKeepsControl(s: System, t: System)
    requires Controlled(s) && s.inProgress && QuietStep(s, t)
    ensures Fresh(s) || t.inProgress ==> Controlled(t)
  {
    if Bubble(s) {
      BubbleKeepsGate(s);
      assert Transfer(s) == t;
      assert forall c: CoreId, d: CoreId, i: Index :: Excludes(s, c, d, i) ==> Excludes(t, c, d, i);
    } else if Fresh(s) || t.inProgress {
      WordStepKeepsControl(s, t);
    }
  }

  /** The state in which the running transaction ends if no core acts meanwhile. */
  ghost function Finish(s: System): System
    requires Controlled(s) && s.inProgress
    decreases Remaining(s)
  {
    var t := BusIter(s);
    ClockIsQuietStep(s);
    QuietStepKeepsControl(s, t);
    if t.inProgress then StepApproaches(s, t); Finish(t) else t
  }

  /** The states of a transaction run to its end with the cores quiet. */
  ghost predicate QuietRun(run: seq<System>) {
    && |run| > 1
    && Controlled(run[0]) && run[0].inProgress && QuietStep(run[0], run[1])
    && (if |run| > 2 then QuietRun(run[1..]) else !run[1].inProgress)
  }

  lemma {:induction false} FinishRuns(s: System) returns (run: seq<System>)
    requires Controlled(s) && s.inProgress
    ensures QuietRun(run) && run[0] == s && run[|run| - 1] == Finish(s)
    decreases Remaining(s)
  {
    hide BusIter, IsDataStep, IsControlStep, Shape, HeadAgrees, StateAgrees, PacketAgrees, SingleWriter, Fresh;
    var t := BusIter(s);
    ClockIsQuietStep(s);
    QuietStepKeepsControl(s, t);
    if t.inProgress {
      StepApproaches(s, t);
      var rest := FinishRuns(t);
      run := [s] + rest;
      assert run[1..] == rest;
    } else {
      run := [s, t];
    }
  }

  // ----- the closed form --------------------------------------------------------------------------------

  /** When word `o` is due, the requester's own frame answers a Flush: it is valid and tagged with the block. */
  predicate RequesterAnswers(s: System, o: Offset)
    requires s.current.sender < NUMBER_OF_CORES
  {
    var f := s.caches[s.current.sender].tsram[BlockIndex(s)];
    f.mesi != Invalid && (f.tag == BlockTag(s) || o > s.offset)
  }

  /** The word that arrives at offset `o`, not yet transferred in `s`. */
  function Delivered(s: System, o: Offset): Word
    requires s.current.sender < NUMBER_OF_CORES
  {
    var r, i := s.current.sender, BlockIndex(s);
    var own := DataAt(s.caches[r], i, o);
    if s.current.cmd.Flush? && Holds(s.caches[r], BlockTag(s), i) then own
    else match CurrentOwner(s)
      case Some(j) =>
        if s.current.cmd.IsFill() && j < r && RequesterAnswers(s, o) then own else DataAt(s.caches[j], i, o)
      case None =>
        if s.current.cmd.Flush? then s.current.data else MemoryAt(s.memory, BlockTag(s), i, o)
  }

  /** Cache `c` keeps the shared line up to the last word. */
  predicate KeepsLineUp(s: System, c: CoreId) {
    c != s.current.sender && Holds(s.caches[c], BlockTag(s), BlockIndex(s)) &&
    (s.current.cmd.BusRdX? ==> Owns(s.caches[c], BlockTag(s), BlockIndex(s)))
  }

  /** Some other cache still holds the block when the last word is on the bus. */
  predicate SharedAtEnd(s: System) { exists c: CoreId :: KeepsLineUp(s, c) }

  /** The closed form: data, memory, and frames at the end of the transaction running in `s`. */
  function FinalData(s: System, c: CoreId, i: Index, o: Offset): Word {
    if c == s.current.sender && i == BlockIndex(s) && o >= s.offset then Delivered(s, o) else DataAt(s.caches[c], i, o)
  }

  function FinalMemory(s: System, t: Tag, i: Index, o: Offset): Word
    requires s.current.sender < NUMBER_OF_CORES
  {
    if UpdatesMemory(s) && IsCurrentBlock(s, t, i) && o >= s.offset then Delivered(s, o) else MemoryAt(s.memory, t, i, o)
  }

  function FinalFrame(s: System, c: CoreId, i: Index): Frame {
    var f := s.caches[c].tsram[i];
    if i != BlockIndex(s) then f
    else if c != s.current.sender then SnoopedFrame(f, BlockTag(s), s.current.cmd, BLOCK_SIZE - 1)
    else Frame(BlockTag(s), if SharedAtEnd(s) then Shared else Exclusive)
  }

  /** Once memory is engaged, the clean copies have reacted to the request. */
  ghost predicate Snooped(s: System) {
    s.memoryActive && s.current.cmd.IsFill() ==>
      forall c: CoreId :: c != s.current.sender && Holds(s.caches[c], BlockTag(s), BlockIndex(s)) ==>
        Owns(s.caches[c], BlockTag(s), BlockIndex(s)) || (s.current.cmd.BusRd? && s.caches[c].tsram[BlockIndex(s)].mesi == Shared)
  }

  // ----- one step towards the end -----------------------------------------------------------------------

  /** The owner of the block is the same until the last word. */
  lemma OwnerStays(s: System, t: System)
    requires Controlled(s) && s.inProgress && IsWordStep(s, t) && !Completes(s)
    ensures CurrentOwner(t) == CurrentOwner(s)
  {
    LastWordMeansEnd(s);
    forall c: CoreId | c != s.current.sender
      ensures Owns(t.caches[c], BlockTag(s), BlockIndex(s)) <==> Owns(s.caches[c], BlockTag(s), BlockIndex(s))
    {
      FrameOfStep(s, t, c, BlockIndex(s));
    }
  }

  lemma RequesterStays(s: System, t: System)
    requires Controlled(s) && s.inProgress && IsWordStep(s, t) && !Completes(s)
    ensures var r, i := s.current.sender, BlockIndex(s);
            && t.caches[r].tsram[i].mesi == s.caches[r].tsram[i].mesi
            && (s.current.cmd.Flush? ==> t.caches[r].tsram[i] == s.caches[r].tsram[i])
            && (Responds(s) ==> t.caches[r].tsram[i].tag == BlockTag(s))
            && (!Responds(s) ==> t.caches[r].tsram[i] == s.caches[r].tsram[i])
  {
    RequesterFrame(s);
    LastWordMeansEnd(s);
    FrameOfStep(s, t, s.current.sender, BlockIndex(s));
  }

  lemma DeliveredStays(s: System, t: System, o: Offset)
    requires Controlled(s) && s.inProgress && IsWordStep(s, t) && !Completes(s) && o >= t.offset
    ensures Delivered(t, o) == Delivered(s, o)
  {
    var r, i := s.current.sender, BlockIndex(s);
    RequesterFrame(s);
    OwnerStays(s, t);
    RequesterStays(s, t);
    DataAfter(s, t, r, i, o);
    if CurrentOwner(s).Some? { DataAfter(s, t, CurrentOwner(s).value, i, o); }
    MemoryOfStep(s, t, BlockTag(s), i, o);
  }

  lemma DeliveredNow(s: System)
    requires Controlled(s) && s.inProgress
    ensures Delivered(s, s.offset) == SuppliedWord(s)
  {
    RequesterFrame(s);
    ControlledHasSingleOwner(s);
  }

  // ----- the closed form is where the steps lead -----------------------------------------------------------

  lemma {:induction false} RunFrame(run: seq<System>)
    requires QuietRun(run)
    ensures var s, f := run[0], run[|run| - 1];
            && f.queue == s.queue && f.current == s.current && !f.inProgress
            && s.current.sender < NUMBER_OF_CORES && f.states == s.states[s.current.sender := Finally]
  {
    if |run| > 2 { RunFrame(run[1..]); }
  }

  lemma FinalDataStays(s: System, t: System, c: CoreId, i: Index, o: Offset)
    requires Controlled(s) && s.inProgress && IsWordStep(s, t)
    ensures if t.inProgress then FinalData(t, c, i, o) == FinalData(s, c, i, o) else DataAt(t.caches[c], i, o) == FinalData(s, c, i, o)
  {
    RequesterFrame(s);
    DataAfter(s, t, c, i, o);
    DeliveredNow(s);
    LastWordMeansEnd(s);
    if t.inProgress && o >= t.offset { DeliveredStays(s, t, o); }
  }

  lemma FinalMemoryStays(s: System, t: System, g: Tag, i: Index, o: Offset)
    requires Controlled(s) && s.inProgress && IsWordStep(s, t) && s.current.sender < NUMBER_OF_CORES
    ensures if t.inProgress then FinalMemory(t, g, i, o) == FinalMemory(s, g, i, o) else MemoryAt(t.memory, g, i, o) == FinalMemory(s, g, i, o)
  {
    MemoryOfStep(s, t, g, i, o);
    DeliveredNow(s);
    LastWordMeansEnd(s);
    if t.inProgress {
      OwnerStays(s, t);
      if o >= t.offset { DeliveredStays(s, t, o); }
    }
  }

  lemma BubbleData(s: System, t: System, c: CoreId, i: Index, o: Offset)
    requires t == s.(firstShared := false)
    ensures FinalData(t, c, i, o) == FinalData(s, c, i, o)
  {
  }

  lemma BubbleMemory(s: System, t: System, g: Tag, i: Index, o: Offset)
    requires t == s.(firstShared := false) && s.current.sender < NUMBER_OF_CORES
    ensures FinalMemory(t, g, i, o) == FinalMemory(s, g, i, o)
  {
  }

  lemma {:induction false} RunData(run: seq<System>, c: CoreId, i: Index, o: Offset)
    requires QuietRun(run)
    ensures DataAt(run[|run| - 1].caches[c], i, o) == FinalData(run[0], c, i, o)
  {
    if Bubble(run[0]) { BubbleData(run[0], run[1], c, i, o); } else { FinalDataStays(run[0], run[1], c, i, o); }
    if |run| > 2 { RunData(run[1..], c, i, o); }
  }

  lemma {:induction false} RunMemory(run: seq<System>, g: Tag, i: Index, o: Offset)
    requires QuietRun(run)
    ensures run[0].current.sender < NUMBER_OF_CORES
    ensures MemoryAt(run[|run| - 1].memory, g, i, o) == FinalMemory(run[0], g, i, o)
  {
    RequesterFrame(run[0]);
    if Bubble(run[0]) { BubbleMemory(run[0], run[1], g, i, o); } else { FinalMemoryStays(run[0], run[1], g, i, o); }
    if |run| > 2 { RunMemory(run[1..], g, i, o); }
  }

  /** Tags and states at the end; the requester's state follows `SharedAtEnd`. */
  lemma {:induction false} RunStates(run: seq<System>, c: CoreId, i: Index)
    requires QuietRun(run) && Snooped(run[0])
    ensures run[|run| - 1].caches[c].tsram[i] == FinalFrame(run[0], c, i)
  {
    var s, t := run[0], run[1];
    RequesterFrame(s);
    if Bubble(s) {
      if |run| > 2 { BubbleStates(s, t, c, i); }
    } else if |run| > 2 {
      SnoopedStays(s, t);
      FinalFrameStays(s, t, c, i);
    } else {
      FinalFrameNow(s, t, c, i);
    }
    if |run| > 2 { RunStates(run[1..], c, i); }
  }

  lemma BubbleStates(s: System, t: System, c: CoreId, i: Index)
    requires t == s.(firstShared := false) && Snooped(s)
    ensures Snooped(t) && FinalFrame(t, c, i) == FinalFrame(s, c, i)
  {
    assert forall d: CoreId :: KeepsLineUp(t, d) <==> KeepsLineUp(s, d);
  }

  lemma FinalFrameStays(s: System, t: System, c: CoreId, i: Index)
    requires Controlled(s) && s.inProgress && IsWordStep(s, t) && !Completes(s)
    ensures FinalFrame(t, c, i) == FinalFrame(s, c, i)
  {
    SharedStays(s, t);
    FrameOfStep(s, t, c, i);
    LastWordMeansEnd(s);
  }

  lemma FinalFrameNow(s: System, t: System, c: CoreId, i: Index)
    requires Controlled(s) && s.inProgress && Snooped(s) && IsWordStep(s, t) && Completes(s)
    ensures t.caches[c].tsram[i] == FinalFrame(s, c, i)
  {
    SharedNow(s);
    FrameOfStep(s, t, c, i);
  }

  lemma SnoopedStays(s: System, t: System)
    requires Controlled(s) && s.inProgress && IsWordStep(s, t) && !Completes(s)
    ensures Snooped(t)
  {
    LastWordMeansEnd(s);
    forall c: CoreId | c != s.current.sender && s.current.cmd.IsFill() && Holds(t.caches[c], BlockTag(s), BlockIndex(s))
      ensures Owns(t.caches[c], BlockTag(s), BlockIndex(s)) || (s.current.cmd.BusRd? && t.caches[c].tsram[BlockIndex(s)].mesi == Shared)
    {
      FrameOfStep(s, t, c, BlockIndex(s));
    }
  }

  lemma SharedStays(s: System, t: System)
    requires Controlled(s) && s.inProgress && IsWordStep(s, t) && !Completes(s)
    ensures SharedAtEnd(t) <==> SharedAtEnd(s)
  {
    LastWordMeansEnd(s);
    forall c: CoreId ensures KeepsLineUp(t, c) <==> KeepsLineUp(s, c) {
      FrameOfStep(s, t, c, BlockIndex(s));
    }
  }

  lemma SharedNow(s: System)
    requires Controlled(s) && s.inProgress && Snooped(s) && Completes(s)
    ensures SharedAtEnd(s) <==> SharedLine(s.caches, s.current)
  {
    RequesterFrame(s);
    forall c: CoreId ensures RaisesShared(s.caches[c], c, s.current) <==> KeepsLineUp(s, c) {
    }
  }

  /** A transaction left to itself ends in the state given in closed form, cell by cell. */
  lemma FinishIsClosedForm(s: System)
    requires Controlled(s) && s.inProgress && Snooped(s)
    ensures s.current.sender < NUMBER_OF_CORES
    ensures var f := Finish(s);
            && f.queue == s.queue && f.current == s.current && !f.inProgress
            && f.states == s.states[s.current.sender := Finally]
            && (forall c: CoreId, i: Index, o: Offset :: DataAt(f.caches[c], i, o) == FinalData(s, c, i, o))
            && (forall t: Tag, i: Index, o: Offset :: MemoryAt(f.memory, t, i, o) == FinalMemory(s, t, i, o))
            && (forall c: CoreId, i: Index :: f.caches[c].tsram[i] == FinalFrame(s, c, i))
  {
    var run := FinishRuns(s);
    RunFrame(run);
    forall c: CoreId, i: Index, o: Offset ensures DataAt(Finish(s).caches[c], i, o) == FinalData(s, c, i, o) {
      RunData(run, c, i, o);
    }
    forall t: Tag, i: Index, o: Offset ensures MemoryAt(Finish(s).memory, t, i, o) == FinalMemory(s, t, i, o) {
      RunMemory(run, t, i, o);
    }
    forall c: CoreId, i: Index ensures Finish(s).caches[c].tsram[i] == FinalFrame(s, c, i) {
      RunStates(run, c, i);
    }
  }
}
