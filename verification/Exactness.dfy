/**
  What the closed form says about the flat memory: exactly which transactions keep it, and what
  a completed fill or write-back leaves where.
 */
module Exactness {
  import opened Types
  import opened Addressing
  import opened CacheModel
  import opened BusModel
  import opened TransferEffect
  import opened Gate
  import opened Exclusion
  import opened Coherence
  import opened Transactions

  /** A transaction that has just been granted in a coherent system. */
  ghost predicate Starts(s: System) {
    && Controlled(s) && DataAgrees(s)
    && s.inProgress && s.offset == 0 && !s.memoryActive
    && (RequesterHolds(s) && s.current.cmd.IsFill() ==> CurrentOwner(s).None?)
  }

  predicate RequesterHolds(s: System) {
    s.current.sender < NUMBER_OF_CORES && Holds(s.caches[s.current.sender], BlockTag(s), BlockIndex(s))
  }

  /** Granting the oldest packet of a coherent system starts a transaction. */
  lemma GrantStarts(s: System)
    requires Coherent(s) && !s.inProgress && s.queue != [] && s.queue[0].origid < NUMBER_OF_CORES
    ensures Starts(Arbitrated(s))
    ensures forall t: Tag, i: Index, o: Offset :: Shown(Arbitrated(s), t, i, o) == Shown(s, t, i, o)
  {
    ArbitrationKeepsControl(s);
    ArbitrationKeepsData(s);
    var a := Arbitrated(s);
    if CurrentOwner(a).Some? { assert Excludes(s, CurrentOwner(a).value, a.current.sender, BlockIndex(a)); }
  }

  /** The system is coherent at the end of the transaction, and the flat memory is the one it began with. */
  ghost predicate KeepsFlatMemory(s: System)
    requires Controlled(s) && s.inProgress
  {
    && Coherent(Finish(s))
    && forall t: Tag, i: Index, o: Offset :: Shown(Finish(s), t, i, o) == Shown(s, t, i, o)
  }

  /** Another cache holds the block Exclusive or Modified. */
  predicate ExclusiveElsewhere(s: System) {
    exists c: CoreId :: c != s.current.sender && HoldsExclusively(s, c)
  }

  predicate HoldsExclusively(s: System, c: CoreId) {
    s.caches[c].tsram[BlockIndex(s)].tag == BlockTag(s) && IsExclusive(s.caches[c].tsram[BlockIndex(s)])
  }

  /** Every word that arrives is the flat memory's. */
  ghost predicate DeliversFlatMemory(s: System)
    requires s.current.sender < NUMBER_OF_CORES
  {
    forall o: Offset :: Delivered(s, o) == Shown(s, BlockTag(s), BlockIndex(s), o)
  }

  // ----- control at the end of a quiet run --------------------------------------------------------

  lemma {:induction false} RunControl(run: seq<System>)
    requires QuietRun(run)
    ensures Gated(run[|run| - 1]) && LockStep(run[|run| - 1])
    ensures Fresh(run[0]) ==> Controlled(run[|run| - 1]) && Fresh(run[|run| - 1])
  {
    var s, t := run[0], run[1];
    if Bubble(s) {
      BubbleKeepsGate(s);
      assert t == Transfer(s);
    } else {
      WordStepEvolves(s, t);
      WordStepKeepsGate(s, t);
      WordStepKeepsLockStep(s, t);
      if Fresh(s) { WordStepKeepsControl(s, t); }
    }
    if |run| > 2 { RunControl(run[1..]); }
  }

  /** What the proofs below use of the final state `f` of the transaction starting in `s`. */
  ghost predicate Closed(s: System, f: System)
    requires s.current.sender < NUMBER_OF_CORES
  {
    && !f.inProgress
    && (forall c: CoreId, i: Index, o: Offset :: DataAt(f.caches[c], i, o) == FinalData(s, c, i, o))
    && (forall t: Tag, i: Index, o: Offset :: MemoryAt(f.memory, t, i, o) == FinalMemory(s, t, i, o))
    && (forall c: CoreId, i: Index :: f.caches[c].tsram[i] == FinalFrame(s, c, i))
  }

  lemma StartsClosed(s: System)
    requires Starts(s)
    ensures s.current.sender < NUMBER_OF_CORES && Closed(s, Finish(s))
    ensures !Finish(s).inProgress && Gated(Finish(s)) && LockStep(Finish(s))
    ensures Fresh(s) ==> Controlled(Finish(s))
  {
    FinishIsClosedForm(s);
    var run := FinishRuns(s);
    RunControl(run);
  }

  /** A stale write-back revives its sender's line; that is harmless only if nobody holds the block exclusively. */
  lemma StaleSingleWriter(s: System, f: System)
    requires Starts(s) && !Fresh(s) && s.current.sender < NUMBER_OF_CORES && Closed(s, f) && !ExclusiveElsewhere(s)
    ensures SingleWriter(f)
  {
    RequesterFrame(s);
    forall c: CoreId, d: CoreId, i: Index ensures Excludes(f, c, d, i) {
      assert Excludes(s, c, d, i);
      assert f.caches[c].tsram[i] == FinalFrame(s, c, i) && f.caches[d].tsram[i] == FinalFrame(s, d, i);
      assert KeepsLineUp(s, d) ==> SharedAtEnd(s);
      assert c != s.current.sender && i == BlockIndex(s) ==> !HoldsExclusively(s, c);
    }
  }

  lemma StaleNotSingleWriter(s: System, f: System)
    requires Starts(s) && !Fresh(s) && s.current.sender < NUMBER_OF_CORES && Closed(s, f) && ExclusiveElsewhere(s)
    ensures !SingleWriter(f)
  {
    RequesterFrame(s);
    var r, i := s.current.sender, BlockIndex(s);
    var c: CoreId :| c != r && HoldsExclusively(s, c);
    assert f.caches[c].tsram[i] == FinalFrame(s, c, i) && f.caches[r].tsram[i] == FinalFrame(s, r, i);
    assert !Excludes(f, c, r, i);
  }

  /** G1 again: single writer survives iff a write-back is fresh, or revives a line that nobody holds exclusively. */
  lemma SingleWriterExact(s: System)
    requires Starts(s)
    ensures SingleWriter(Finish(s)) <==> Fresh(s) || !ExclusiveElsewhere(s)
  {
    hide Gated, LockStep, DataAgrees, Fresh, ExclusiveElsewhere, SingleWriter, Closed;
    StartsClosed(s);
    if !Fresh(s) {
      if ExclusiveElsewhere(s) { StaleNotSingleWriter(s, Finish(s)); } else { StaleSingleWriter(s, Finish(s)); }
    }
  }

  // ----- data at the end --------------------------------------------------------------------------

  lemma FinalClean(s: System, f: System, c: CoreId, i: Index, o: Offset)
    requires Starts(s) && s.current.sender < NUMBER_OF_CORES && Closed(s, f) && DeliversFlatMemory(s)
    ensures CleanAgrees(f, c, i, o)
  {
    RequesterFrame(s);
    ControlledHasSingleOwner(s);
    var g := f.caches[c].tsram[i];
    assert g == FinalFrame(s, c, i);
    assert DataAt(f.caches[c], i, o) == FinalData(s, c, i, o);
    assert MemoryAt(f.memory, g.tag, i, o) == FinalMemory(s, g.tag, i, o);
    assert CleanAgrees(s, c, i, o);
    if c != s.current.sender && Holds(s.caches[c], g.tag, i) { CopyShows(s, c, g.tag, i, o); }
  }

  /** Blocks that lose no owner to this transaction keep the one they had. */
  lemma FinalOwns(s: System, f: System, c: CoreId, t: Tag, i: Index)
    requires Starts(s) && s.current.sender < NUMBER_OF_CORES && Closed(s, f)
    ensures Owns(f.caches[c], t, i) <==>
              Owns(s.caches[c], t, i) && !(IsCurrentBlock(s, t, i) && (s.current.cmd.IsFill() || c == s.current.sender))
  {
    RequesterFrame(s);
    assert f.caches[c].tsram[i] == FinalFrame(s, c, i);
  }

  lemma FinalShownElsewhere(s: System, f: System, t: Tag, i: Index, o: Offset)
    requires Starts(s) && s.current.sender < NUMBER_OF_CORES && Closed(s, f) && !IsCurrentBlock(s, t, i)
    ensures Shown(f, t, i, o) == Shown(s, t, i, o)
  {
    RequesterFrame(s);
    forall c: CoreId ensures Owns(f.caches[c], t, i) <==> Owns(s.caches[c], t, i) { FinalOwns(s, f, c, t, i); }
    assert MemoryAt(f.memory, t, i, o) == FinalMemory(s, t, i, o);
    match OwnerBut(s.caches, NUMBER_OF_CORES, t, i)
    case Some(c) => assert DataAt(f.caches[c], i, o) == FinalData(s, c, i, o);
    case None =>
  }

  /** The block itself is shown by memory at the end, which has the delivered words. */
  lemma FinalShownHere(s: System, f: System, o: Offset)
    requires Starts(s) && s.current.sender < NUMBER_OF_CORES && Closed(s, f)
    requires Fresh(s) || !ExclusiveElsewhere(s)
    ensures Shown(f, BlockTag(s), BlockIndex(s), o) == Delivered(s, o)
  {
    var t, i := BlockTag(s), BlockIndex(s);
    RequesterFrame(s);
    ControlledHasSingleOwner(s);
    forall c: CoreId ensures !Owns(f.caches[c], t, i) {
      FinalOwns(s, f, c, t, i);
      assert c != s.current.sender && HoldsExclusively(s, c) ==> ExclusiveElsewhere(s);
    }
    assert MemoryAt(f.memory, t, i, o) == FinalMemory(s, t, i, o);
  }

  // ----- the criterion -------------------------------------------------------------------------------

  lemma DeliveryKeeps(s: System)
    requires Starts(s) && s.current.sender < NUMBER_OF_CORES
    requires DeliversFlatMemory(s) && (Fresh(s) || !ExclusiveElsewhere(s))
    ensures KeepsFlatMemory(s)
  {
    hide Closed, DeliversFlatMemory, Shown, SingleWriter, Gated, LockStep, ExclusiveElsewhere, Finish, CleanAgrees;
    var f := Finish(s);
    StartsClosed(s);
    if !Fresh(s) { StaleSingleWriter(s, f); }
    forall c: CoreId, i: Index, o: Offset ensures CleanAgrees(f, c, i, o) { FinalClean(s, f, c, i, o); }
    forall t: Tag, i: Index, o: Offset ensures Shown(f, t, i, o) == Shown(s, t, i, o) { DeliveryShown(s, f, t, i, o); }
  }

  lemma DeliveryShown(s: System, f: System, t: Tag, i: Index, o: Offset)
    requires Starts(s) && s.current.sender < NUMBER_OF_CORES && Closed(s, f)
    requires DeliversFlatMemory(s) && (Fresh(s) || !ExclusiveElsewhere(s))
    ensures Shown(f, t, i, o) == Shown(s, t, i, o)
  {
    hide Starts, Closed, Shown, Delivered, Fresh, ExclusiveElsewhere;
    if IsCurrentBlock(s, t, i) { FinalShownHere(s, f, o); } else { FinalShownElsewhere(s, f, t, i, o); }
  }

  lemma KeepingDelivers(s: System)
    requires Starts(s) && s.current.sender < NUMBER_OF_CORES && KeepsFlatMemory(s)
    ensures DeliversFlatMemory(s) && (Fresh(s) || !ExclusiveElsewhere(s))
  {
    var f := Finish(s);
    StartsClosed(s);
    assert SingleWriter(f);
    if !Fresh(s) && ExclusiveElsewhere(s) { StaleNotSingleWriter(s, f); }
    forall o: Offset ensures Delivered(s, o) == Shown(s, BlockTag(s), BlockIndex(s), o) {
      FinalShownHere(s, f, o);
    }
  }

  /**
    A transaction keeps the flat memory exactly when every word it delivers is the flat memory's
    and it does not revive a line that another cache holds exclusively.
   */
  lemma TransactionCriterion(s: System)
    requires Starts(s)
    ensures s.current.sender < NUMBER_OF_CORES
    ensures KeepsFlatMemory(s) <==> DeliversFlatMemory(s) && (Fresh(s) || !ExclusiveElsewhere(s))
  {
    RequesterFrame(s);
    if KeepsFlatMemory(s) {
      KeepingDelivers(s);
    } else if DeliversFlatMemory(s) && (Fresh(s) || !ExclusiveElsewhere(s)) {
      DeliveryKeeps(s);
    }
  }

  /**
    G3: a fill taken over by a Modified owner keeps the flat memory iff the snoop order is right, or the
    victim's words happen to be the owner's.
   */
  lemma OwnedFillExact(s: System)
    requires Starts(s) && s.current.cmd.IsFill() && CurrentOwner(s).Some?
    ensures s.current.sender < NUMBER_OF_CORES
    ensures var r, i, j := s.current.sender, BlockIndex(s), CurrentOwner(s).value;
            KeepsFlatMemory(s) <==>
              || r < j
              || s.caches[r].tsram[i].mesi == Invalid
              || (forall o: Offset :: o > 0 ==> DataAt(s.caches[r], i, o) == DataAt(s.caches[j], i, o))
  {
    TransactionCriterion(s);
    var r, t, i, j := s.current.sender, BlockTag(s), BlockIndex(s), CurrentOwner(s).value;
    OwnerIsShown(s, j, t, i);
    forall o: Offset
      ensures Delivered(s, o) ==
              DataAt(s.caches[if j < r && o > 0 && s.caches[r].tsram[i].mesi != Invalid then r else j], i, o)
    {
    }
    if DeliversFlatMemory(s) && j < r && s.caches[r].tsram[i].mesi != Invalid {
      forall o: Offset | o > 0 ensures DataAt(s.caches[r], i, o) == DataAt(s.caches[j], i, o) {
        assert Delivered(s, o) == Shown(s, t, i, o);
      }
    }
  }

  /** A fill that no owner takes over always keeps the flat memory. */
  lemma UnownedFillKeeps(s: System)
    requires Starts(s) && s.current.cmd.IsFill() && CurrentOwner(s).None?
    ensures KeepsFlatMemory(s)
  {
    TransactionCriterion(s);
    RequesterFrame(s);
    forall c: CoreId ensures !Owns(s.caches[c], BlockTag(s), BlockIndex(s)) {
    }
  }

  /** G1: a write-back keeps the flat memory iff its sender still has the block, or nothing depends on it any more. */
  lemma WriteBackExact(s: System)
    requires Starts(s) && s.current.cmd.Flush?
    ensures s.current.sender < NUMBER_OF_CORES
    ensures var r, t, i := s.current.sender, BlockTag(s), BlockIndex(s);
            KeepsFlatMemory(s) <==>
              || Holds(s.caches[r], t, i)
              || (!ExclusiveElsewhere(s) && forall o: Offset :: MemoryAt(s.memory, t, i, o) == s.current.data)
  {
    TransactionCriterion(s);
    var r, t, i := s.current.sender, BlockTag(s), BlockIndex(s);
    RequesterFrame(s);
    if Holds(s.caches[r], t, i) {
      forall o: Offset ensures Delivered(s, o) == Shown(s, t, i, o) { CopyShows(s, r, t, i, o); }
    } else if !ExclusiveElsewhere(s) {
      forall o: Offset ensures Delivered(s, o) == s.current.data && Shown(s, t, i, o) == MemoryAt(s.memory, t, i, o) {
        UnownedShown(s, o);
      }
      if DeliversFlatMemory(s) {
        forall o: Offset ensures MemoryAt(s.memory, t, i, o) == s.current.data {
          assert Delivered(s, o) == Shown(s, t, i, o);
        }
      }
    }
  }

  lemma UnownedShown(s: System, o: Offset)
    requires Starts(s) && s.current.cmd.Flush? && !Fresh(s) && !ExclusiveElsewhere(s)
    ensures s.current.sender < NUMBER_OF_CORES
    ensures Delivered(s, o) == s.current.data
    ensures Shown(s, BlockTag(s), BlockIndex(s), o) == MemoryAt(s.memory, BlockTag(s), BlockIndex(s), o)
  {
    RequesterFrame(s);
    forall c: CoreId ensures !Owns(s.caches[c], BlockTag(s), BlockIndex(s)) {
      assert c != s.current.sender && HoldsExclusively(s, c) ==> ExclusiveElsewhere(s);
    }
  }
}
