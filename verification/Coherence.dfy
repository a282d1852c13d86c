/**
  Caches, bus and memory refine one flat shared memory: clock steps leave it alone, a write hit
  updates one word of it, a read hit returns a word of it.
 */
module Coherence {
  import opened Types
  import opened Addressing
  import opened CacheModel
  import opened BusModel
  import opened TransferEffect
  import opened Gate
  import opened Exclusion

  function MemoryAt(m: Memory, t: Tag, i: Index, o: Offset): Word { m[Location(t, i, o)] }

  /** The flat shared memory: the Modified owner's word if there is one, main memory's otherwise. */
  function Shown(s: System, t: Tag, i: Index, o: Offset): Word {
    match OwnerBut(s.caches, NUMBER_OF_CORES, t, i)
    case Some(c) => DataAt(s.caches[c], i, o)
    case None => MemoryAt(s.memory, t, i, o)
  }

  function ShownAt(s: System, a: Address): Word { Shown(s, TagOf(a), IndexOf(a), OffsetOf(a)) }

  function FlatMemory(s: System): Memory {
    seq(MAIN_MEMORY_SIZE, m requires 0 <= m < MAIN_MEMORY_SIZE => ShownAt(s, m))
  }

  /** A clean copy agrees with memory. */
  predicate CleanAgrees(s: System, c: CoreId, i: Index, o: Offset) {
    var f := s.caches[c].tsram[i];
    !InTransit(s, c, i) && f.mesi != Invalid && f.mesi != Modified ==>
      DataAt(s.caches[c], i, o) == MemoryAt(s.memory, f.tag, i, o)
  }

  /** A word already transferred is the same in requester, memory and Modified owner. */
  predicate TransferredAgrees(s: System, o: Offset) {
    s.inProgress && o < s.offset && s.current.sender < NUMBER_OF_CORES ==>
      var r, t, i := s.current.sender, BlockTag(s), BlockIndex(s);
      && s.caches[r].tsram[i].tag == t
      && DataAt(s.caches[r], i, o) == MemoryAt(s.memory, t, i, o)
      && (CurrentOwner(s).Some? ==> DataAt(s.caches[CurrentOwner(s).value], i, o) == MemoryAt(s.memory, t, i, o))
  }

  ghost predicate DataAgrees(s: System) {
    && (forall c: CoreId, i: Index, o: Offset :: CleanAgrees(s, c, i, o))
    && (forall o: Offset :: TransferredAgrees(s, o))
  }

  /** A coherent state. */
  ghost predicate Coherent(s: System) { Controlled(s) && Fresh(s) && DataAgrees(s) }

  /**
    G3: in a fill, a Modified owner's word is not replaced by the requester's own. It fails when
    the requester is snooped after the owner and already matches the block.
   */
  predicate OwnerSupplies(s: System) {
    s.inProgress && s.current.cmd.IsFill() && s.current.sender < NUMBER_OF_CORES && CurrentOwner(s).Some? ==>
      Supplier(s) == CurrentOwner(s)
  }

  /** G2: no word of the block under transfer is written once it has been transferred. */
  predicate QuietOwner(s: System, c: CoreId, a: Address) {
    s.inProgress && TagOf(a) == BlockTag(s) && IndexOf(a) == BlockIndex(s) ==> OffsetOf(a) >= s.offset
  }

  // ----- who owns a block ------------------------------------------------------------------------

  lemma OwnerIsShown(s: System, c: CoreId, t: Tag, i: Index)
    requires Controlled(s) && Owns(s.caches[c], t, i)
    ensures OwnerBut(s.caches, NUMBER_OF_CORES, t, i) == Some(c)
  {
    var d := OwnerBut(s.caches, NUMBER_OF_CORES, t, i).value;
    if s.inProgress { RequesterFrame(s); }
    assert Excludes(s, c, d, i);
  }

  /** A valid copy that is not in transit shows the flat memory: what a read hit returns. */
  lemma CopyShows(s: System, c: CoreId, t: Tag, i: Index, o: Offset)
    requires Controlled(s) && DataAgrees(s) && Holds(s.caches[c], t, i) && !InTransit(s, c, i)
    ensures Shown(s, t, i, o) == DataAt(s.caches[c], i, o)
  {
    if Owns(s.caches[c], t, i) {
      OwnerIsShown(s, c, t, i);
    } else {
      assert CleanAgrees(s, c, i, o);
      if s.inProgress { RequesterFrame(s); }
      forall d: CoreId ensures !Owns(s.caches[d], t, i) { assert Excludes(s, d, c, i); }
    }
  }

  // ----- what a word step does to one place ----------------------------------------------------------

  predicate IsCurrentBlock(s: System, t: Tag, i: Index) { t == BlockTag(s) && i == BlockIndex(s) }

  /** A block loses its owner only with the last word: of a fill, or of its own write-back. */
  lemma OwnsAfter(s: System, s': System, c: CoreId, t: Tag, i: Index)
    requires Controlled(s) && Fresh(s) && s.inProgress && IsWordStep(s, s')
    ensures Owns(s'.caches[c], t, i) <==>
              Owns(s.caches[c], t, i) && !(Completes(s) && IsCurrentBlock(s, t, i))
  {
    RequesterFrame(s);
    LastWordMeansEnd(s);
    FrameOfStep(s, s', c, i);
    ControlledHasSingleOwner(s);
  }

  lemma OwnerAfter(s: System, s': System, t: Tag, i: Index)
    requires Controlled(s) && Fresh(s) && s.inProgress && IsWordStep(s, s')
    ensures OwnerBut(s'.caches, NUMBER_OF_CORES, t, i) ==
              if Completes(s) && IsCurrentBlock(s, t, i) then None else OwnerBut(s.caches, NUMBER_OF_CORES, t, i)
  {
    forall c: CoreId
      ensures Owns(s'.caches[c], t, i) <==> Owns(s.caches[c], t, i) && !(Completes(s) && IsCurrentBlock(s, t, i))
    {
      OwnsAfter(s, s', c, t, i);
    }
  }

  lemma DataAfter(s: System, s': System, c: CoreId, i: Index, o: Offset)
    requires s.Wf() && s.inProgress && IsWordStep(s, s')
    ensures DataAt(s'.caches[c], i, o) ==
              if c == s.current.sender && i == BlockIndex(s) && o == s.offset && Responds(s) then SuppliedWord(s)
              else DataAt(s.caches[c], i, o)
  {
    assert s'.caches[c] == CacheAfterStep(s, c);
  }

  lemma MemoryOfStep(s: System, s': System, t: Tag, i: Index, o: Offset)
    requires s.Wf() && s.inProgress && IsWordStep(s, s')
    ensures MemoryAt(s'.memory, t, i, o) ==
              if Responds(s) && UpdatesMemory(s) && IsCurrentBlock(s, t, i) && o == s.offset then SuppliedWord(s)
              else MemoryAt(s.memory, t, i, o)
  {
    if Location(t, i, o) == Location(BlockTag(s), BlockIndex(s), s.offset) {
      LocationInjective(t, i, o, BlockTag(s), BlockIndex(s), s.offset);
    }
  }

  /** The word on the bus is the flat memory's. */
  lemma SuppliedWordIsShown(s: System)
    requires Coherent(s) && s.inProgress && OwnerSupplies(s)
    ensures SuppliedWord(s) == Shown(s, BlockTag(s), BlockIndex(s), s.offset)
  {
    var r, t, i := s.current.sender, BlockTag(s), BlockIndex(s);
    RequesterFrame(s);
    ControlledHasSingleOwner(s);
    if s.current.cmd.Flush? {
      CopyShows(s, r, t, i, s.offset);
    } else if CurrentOwner(s).Some? {
      OwnerIsShown(s, CurrentOwner(s).value, t, i);
    }
  }

  // ----- the invariants across a word step -------------------------------------------------------------

  lemma WordStepTransferred(s: System, s': System, o: Offset)
    requires Coherent(s) && s.inProgress && IsWordStep(s, s') && OwnerSupplies(s)
    ensures TransferredAgrees(s', o)
  {
    var r, t, i := s.current.sender, BlockTag(s), BlockIndex(s);
    RequesterFrame(s);
    if s'.inProgress && o < s'.offset {
      assert TransferredAgrees(s, o);
      SuppliedWordIsShown(s);
      DataAfter(s, s', r, i, o);
      MemoryOfStep(s, s', t, i, o);
      FrameOfStep(s, s', r, i);
      if CurrentOwner(s').Some? { TransferredOwner(s, s', o); }
      if o == s.offset { UnchangedOrUpdated(s); }
    }
  }

  /** When memory does not take the word on the bus, it already has it. */
  lemma UnchangedOrUpdated(s: System)
    requires Coherent(s) && s.inProgress && OwnerSupplies(s)
    ensures UpdatesMemory(s) || SuppliedWord(s) == MemoryAt(s.memory, BlockTag(s), BlockIndex(s), s.offset)
  {
  }

  lemma TransferredOwner(s: System, s': System, o: Offset)
    requires Coherent(s) && s.inProgress && IsWordStep(s, s') && OwnerSupplies(s)
    requires s'.inProgress && o < s'.offset && CurrentOwner(s').Some?
    ensures DataAt(s'.caches[CurrentOwner(s').value], BlockIndex(s), o) == MemoryAt(s'.memory, BlockTag(s), BlockIndex(s), o)
  {
    var j, t, i := CurrentOwner(s').value, BlockTag(s), BlockIndex(s);
    RequesterFrame(s);
    OwnsAfter(s, s', j, t, i);
    OwnerIsShown(s, j, t, i);
    OwnerIsShown(s, CurrentOwner(s).value, t, i);
    DataAfter(s, s', j, i, o);
    MemoryOfStep(s, s', t, i, o);
    SuppliedWordIsShown(s);
    assert TransferredAgrees(s, o);
  }

  /** At the end all eight words of the block agree between memory, requester and former owner. */
  lemma CompletedBlock(s: System, s': System, c: CoreId, o: Offset)
    requires Coherent(s) && s.inProgress && IsWordStep(s, s') && OwnerSupplies(s) && Completes(s)
    requires c == s.current.sender || CurrentOwner(s) == Some(c)
    ensures DataAt(s'.caches[c], BlockIndex(s), o) == MemoryAt(s'.memory, BlockTag(s), BlockIndex(s), o)
    ensures MemoryAt(s'.memory, BlockTag(s), BlockIndex(s), o) == Shown(s, BlockTag(s), BlockIndex(s), o)
  {
    var t, i := BlockTag(s), BlockIndex(s);
    RequesterFrame(s);
    assert TransferredAgrees(s, o);
    DataAfter(s, s', c, i, o);
    MemoryOfStep(s, s', t, i, o);
    SuppliedWordIsShown(s);
    UnchangedOrUpdated(s);
    if CurrentOwner(s).Some? {
      OwnerIsShown(s, CurrentOwner(s).value, t, i);
    } else if Owns(s.caches[s.current.sender], t, i) {
      OwnerIsShown(s, s.current.sender, t, i);
    }
  }

  lemma WordStepShown(s: System, s': System, t: Tag, i: Index, o: Offset)
    requires Coherent(s) && s.inProgress && IsWordStep(s, s') && OwnerSupplies(s)
    ensures Shown(s', t, i, o) == Shown(s, t, i, o)
  {
    RequesterFrame(s);
    OwnerAfter(s, s', t, i);
    MemoryOfStep(s, s', t, i, o);
    if Completes(s) && IsCurrentBlock(s, t, i) {
      CompletedBlock(s, s', s.current.sender, o);
    } else if IsCurrentBlock(s, t, i) && o == s.offset {
      SuppliedWordIsShown(s);
      if OwnerBut(s.caches, NUMBER_OF_CORES, t, i).Some? { DataAfter(s, s', OwnerBut(s.caches, NUMBER_OF_CORES, t, i).value, i, o); }
    } else {
      if OwnerBut(s.caches, NUMBER_OF_CORES, t, i).Some? { DataAfter(s, s', OwnerBut(s.caches, NUMBER_OF_CORES, t, i).value, i, o); }
    }
  }

  lemma WordStepClean(s: System, s': System, c: CoreId, i: Index, o: Offset)
    requires Coherent(s) && s.inProgress && IsWordStep(s, s') && OwnerSupplies(s)
    ensures CleanAgrees(s', c, i, o)
  {
    var f := s'.caches[c].tsram[i];
    RequesterFrame(s);
    LastWordMeansEnd(s);
    ControlledHasSingleOwner(s);
    FrameOfStep(s, s', c, i);
    DataAfter(s, s', c, i, o);
    MemoryOfStep(s, s', f.tag, i, o);
    if !InTransit(s', c, i) && f.mesi != Invalid && f.mesi != Modified {
      if IsCurrentBlock(s, f.tag, i) && Completes(s) && (c == s.current.sender || CurrentOwner(s) == Some(c)) {
        CompletedBlock(s, s', c, o);
      } else {
        CleanBystander(s, s', c, i, o);
      }
    }
  }

  /** A clean copy that the step does not complete was clean before, and its word has not moved. */
  lemma CleanBystander(s: System, s': System, c: CoreId, i: Index, o: Offset)
    requires Coherent(s) && s.inProgress && IsWordStep(s, s') && OwnerSupplies(s)
    requires var f := s'.caches[c].tsram[i];
             && !InTransit(s', c, i) && f.mesi != Invalid && f.mesi != Modified
             && !(IsCurrentBlock(s, f.tag, i) && Completes(s) && (c == s.current.sender || CurrentOwner(s) == Some(c)))
    ensures DataAt(s'.caches[c], i, o) == MemoryAt(s'.memory, s'.caches[c].tsram[i].tag, i, o)
  {
    var f := s'.caches[c].tsram[i];
    RequesterFrame(s);
    LastWordMeansEnd(s);
    ControlledHasSingleOwner(s);
    FrameOfStep(s, s', c, i);
    DataAfter(s, s', c, i, o);
    MemoryOfStep(s, s', f.tag, i, o);
    assert CleanAgrees(s, c, i, o);
    assert Holds(s.caches[c], f.tag, i) && !InTransit(s, c, i);
    if IsCurrentBlock(s, f.tag, i) && o == s.offset {
      SuppliedWordIsShown(s);
      CopyShows(s, c, f.tag, i, o);
    }
  }

  lemma WordStepKeepsData(s: System, s': System)
    requires Coherent(s) && s.inProgress && IsWordStep(s, s') && OwnerSupplies(s)
    ensures DataAgrees(s')
  {
    forall c: CoreId, i: Index, o: Offset ensures CleanAgrees(s', c, i, o) {
      WordStepClean(s, s', c, i, o);
    }
    forall o: Offset ensures TransferredAgrees(s', o) {
      WordStepTransferred(s, s', o);
    }
  }

  // ----- the other steps of the clock ------------------------------------------------------------------

  lemma BubbleKeepsData(s: System)
    requires DataAgrees(s) && s.Wf() && s.inProgress && Bubble(s)
    ensures DataAgrees(Transfer(s))
  {
    var t := Transfer(s);
    assert forall c: CoreId, i: Index, o: Offset :: CleanAgrees(s, c, i, o) ==> CleanAgrees(t, c, i, o);
    assert forall o: Offset :: TransferredAgrees(s, o) ==> TransferredAgrees(t, o);
  }

  lemma ArbitrationKeepsData(s: System)
    requires DataAgrees(s) && Gated(s)
    ensures DataAgrees(Arbitrated(s))
  {
    var t := Arbitrated(s);
    ArbitrationKeepsGate(s);
    assert t.caches == s.caches && t.memory == s.memory;
    forall c: CoreId, i: Index, o: Offset ensures CleanAgrees(t, c, i, o) { assert CleanAgrees(s, c, i, o); }
    forall o: Offset ensures TransferredAgrees(t, o) { assert TransferredAgrees(s, o); }
  }

  /** A clock step leaves the flat memory as it is. */
  lemma ClockKeepsCoherence(s: System)
    requires Coherent(s) && Fresh(Arbitrated(s)) && OwnerSupplies(Arbitrated(s))
    ensures Coherent(BusIter(s))
    ensures forall t: Tag, i: Index, o: Offset :: Shown(BusIter(s), t, i, o) == Shown(s, t, i, o)
  {
    var a := Arbitrated(s);
    ArbitrationKeepsControl(s);
    ArbitrationKeepsData(s);
    if a.inProgress {
      TransferKeepsControl(a);
      var s' := Transfer(a);
      if Bubble(a) {
        BubbleKeepsData(a);
      } else {
        ControlledHasSingleOwner(a);
        TransferIsWordStep(a);
        WordStepKeepsData(a, s');
        forall t: Tag, i: Index, o: Offset ensures Shown(s', t, i, o) == Shown(a, t, i, o) {
          WordStepShown(a, s', t, i, o);
        }
      }
    }
  }

  // ----- core actions --------------------------------------------------------------------------------------

  lemma RequestKeepsData(s: System, t: System)
    requires DataAgrees(s) && t == s.(queue := t.queue, states := t.states)
    ensures DataAgrees(t)
    ensures forall g: Tag, i: Index, o: Offset :: Shown(t, g, i, o) == Shown(s, g, i, o)
  {
    forall c: CoreId, i: Index, o: Offset ensures CleanAgrees(t, c, i, o) { assert CleanAgrees(s, c, i, o); }
    forall o: Offset ensures TransferredAgrees(t, o) { assert TransferredAgrees(s, o); }
  }

  /** An idle core's frames are never in transit. */
  lemma IdleNotInTransit(s: System, c: CoreId, i: Index)
    requires Gated(s) && s.states[c] == Idle
    ensures !InTransit(s, c, i) && (s.inProgress ==> s.current.sender != c)
  {
    assert StateAgrees(s, c);
    assert s.inProgress ==> Line(s)[0].origid != c;
  }

  /** The cell of cache `x` after core `c` has written word (IndexOf(a), OffsetOf(a)). */
  lemma WrittenCell(s: System, c: CoreId, a: Address, w: Word, x: CoreId, i: Index, o: Offset)
    requires WriteHits(s, c, a)
    ensures var t := WriteData(s, c, a, w);
            && t == s.(caches := t.caches)
            && DataAt(t.caches[x], i, o) == (if x == c && i == IndexOf(a) && o == OffsetOf(a) then w else DataAt(s.caches[x], i, o))
            && t.caches[x].tsram[i] == (if x == c && i == IndexOf(a) then Frame(TagOf(a), Modified) else s.caches[x].tsram[i])
  {
    assert forall i': Index, o': Offset :: DataAt(StoreWord(s.caches[c], a, w), i', o') ==
             if i' == IndexOf(a) && o' == OffsetOf(a) then w else DataAt(s.caches[c], i', o');
  }

  lemma WriteHitClean(s: System, c: CoreId, a: Address, w: Word, x: CoreId, i: Index, o: Offset)
    requires Coherent(s) && WriteHits(s, c, a)
    ensures CleanAgrees(WriteData(s, c, a, w), x, i, o)
  {
    WrittenCell(s, c, a, w, x, i, o);
    assert CleanAgrees(s, x, i, o);
  }

  lemma WriteHitTransferred(s: System, c: CoreId, a: Address, w: Word, o: Offset)
    requires Coherent(s) && WriteHits(s, c, a) && QuietOwner(s, c, a)
    ensures TransferredAgrees(WriteData(s, c, a, w), o)
  {
    var t := WriteData(s, c, a, w);
    if t.inProgress && o < t.offset {
      var r, i := s.current.sender, BlockIndex(s);
      RequesterFrame(s);
      IdleNotInTransit(s, c, i);
      assert TransferredAgrees(s, o);
      WrittenCell(s, c, a, w, r, i, o);
      if CurrentOwner(t).Some? {
        var j := CurrentOwner(t).value;
        WrittenCell(s, c, a, w, j, i, o);
        if j == c {
          CopyShows(s, c, BlockTag(s), i, o);
          TransferredShown(s, o);
        } else {
          OwnerIsShown(s, j, BlockTag(s), i);
          OwnerIsShown(s, CurrentOwner(s).value, BlockTag(s), i);
        }
      }
    }
  }

  /** What has been transferred is in memory. */
  lemma TransferredShown(s: System, o: Offset)
    requires Coherent(s) && s.inProgress && o < s.offset
    ensures Shown(s, BlockTag(s), BlockIndex(s), o) == MemoryAt(s.memory, BlockTag(s), BlockIndex(s), o)
  {
    RequesterFrame(s);
    assert TransferredAgrees(s, o);
    match OwnerBut(s.caches, NUMBER_OF_CORES, BlockTag(s), BlockIndex(s)) {
      case None =>
      case Some(j) =>
        if CurrentOwner(s).Some? { OwnerIsShown(s, CurrentOwner(s).value, BlockTag(s), BlockIndex(s)); }
    }
  }

  lemma WriteHitShown(s: System, c: CoreId, a: Address, w: Word, t: Tag, i: Index, o: Offset)
    requires Coherent(s) && WriteHits(s, c, a)
    ensures Shown(WriteData(s, c, a, w), t, i, o) ==
              if t == TagOf(a) && i == IndexOf(a) && o == OffsetOf(a) then w else Shown(s, t, i, o)
  {
    var s' := WriteData(s, c, a, w);
    WriteHitKeepsControl(s, c, a, w);
    IdleNotInTransit(s, c, i);
    WrittenCell(s, c, a, w, c, i, o);
    if t == TagOf(a) && i == IndexOf(a) {
      CopyShows(s, c, t, i, o);
      OwnerIsShown(s', c, t, i);
    } else {
      forall x: CoreId ensures Owns(s'.caches[x], t, i) <==> Owns(s.caches[x], t, i) {
        WriteKeepsOtherBlock(s, c, a, w, x, t, i);
      }
      if OwnerBut(s.caches, NUMBER_OF_CORES, t, i).Some? {
        WrittenCell(s, c, a, w, OwnerBut(s.caches, NUMBER_OF_CORES, t, i).value, i, o);
      }
    }
  }

  lemma WriteKeepsOtherBlock(s: System, c: CoreId, a: Address, w: Word, x: CoreId, t: Tag, i: Index)
    requires WriteHits(s, c, a) && !(t == TagOf(a) && i == IndexOf(a))
    ensures Owns(WriteData(s, c, a, w).caches[x], t, i) <==> Owns(s.caches[x], t, i)
  {
    WrittenCell(s, c, a, w, x, i, 0);
  }

  /** A write hit changes exactly one word of the flat memory. */
  lemma WriteHitKeepsCoherence(s: System, c: CoreId, a: Address, w: Word)
    requires Coherent(s) && WriteHits(s, c, a) && QuietOwner(s, c, a)
    ensures Coherent(WriteData(s, c, a, w))
  {
    var s' := WriteData(s, c, a, w);
    WriteHitKeepsControl(s, c, a, w);
    forall x: CoreId, i: Index, o: Offset ensures CleanAgrees(s', x, i, o) { WriteHitClean(s, c, a, w, x, i, o); }
    forall o: Offset ensures TransferredAgrees(s', o) { WriteHitTransferred(s, c, a, w, o); }
  }

  /** A read hit returns the word of the flat memory. */
  lemma ReadHitReturnsShown(s: System, c: CoreId, a: Address)
    requires Coherent(s) && ReadHits(s, c, a)
    ensures ReadValue(s, c, a) == ShownAt(s, a)
  {
    IdleNotInTransit(s, c, IndexOf(a));
    CopyShows(s, c, TagOf(a), IndexOf(a), OffsetOf(a));
  }
}
