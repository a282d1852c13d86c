/**
  Single writer, multiple readers. A block held Exclusive or Modified by one cache is held by no
  other, in every state of every run whose write-backs are still fresh when they are granted.
 */
module Exclusion {
  import opened Types
  import opened Addressing
  import opened CacheModel
  import opened BusModel
  import opened TransferEffect
  import opened Gate

  /** The frame a running fill is loading: it is in transit, and its own core cannot see it. */
  predicate InTransit(s: System, c: CoreId, i: Index) {
    s.inProgress && s.current.cmd.IsFill() && c == s.current.sender && i == BlockIndex(s)
  }

  predicate IsExclusive(f: Frame) { f.mesi == Exclusive || f.mesi == Modified }

  predicate Excludes(s: System, c: CoreId, d: CoreId, i: Index) {
    c != d && !InTransit(s, c, i) && !InTransit(s, d, i) && IsExclusive(s.caches[c].tsram[i]) ==>
      !Holds(s.caches[d], s.caches[c].tsram[i].tag, i)
  }

  ghost predicate SingleWriter(s: System) {
    forall c: CoreId, d: CoreId, i: Index :: Excludes(s, c, d, i)
  }

  /** A running write-back still finds its block valid in its sender. */
  predicate Fresh(s: System) {
    s.inProgress && s.current.cmd.Flush? && s.current.sender < NUMBER_OF_CORES ==>
      Holds(s.caches[s.current.sender], BlockTag(s), BlockIndex(s))
  }

  /** The control part of a reachable state. */
  ghost predicate Controlled(s: System) { Gated(s) && LockStep(s) && SingleWriter(s) }

  /** The requester's frame is clean under a fill, and carries the block under a write-back. */
  lemma RequesterFrame(s: System)
    requires Gated(s) && s.inProgress
    ensures s.current.sender == s.current.origid < NUMBER_OF_CORES
    ensures s.current.cmd.IsFill() ==> s.caches[s.current.sender].tsram[BlockIndex(s)].mesi != Modified
    ensures s.current.cmd.Flush? ==> s.caches[s.current.sender].tsram[BlockIndex(s)].tag == BlockTag(s)
  {
    assert FrameAgrees(s, Line(s), 0);
  }

  lemma ControlledHasSingleOwner(s: System)
    requires Controlled(s) && s.inProgress
    ensures SingleOwner(s)
  {
    RequesterFrame(s);
    var r, i := s.current.sender, BlockIndex(s);
    forall j: CoreId, c: CoreId | j != r && c != r && j != c && Owns(s.caches[j], BlockTag(s), i)
      ensures !Holds(s.caches[c], BlockTag(s), i)
    {
      assert Excludes(s, j, c, i);
    }
    if s.current.cmd.Flush? && CurrentOwner(s).Some? { assert Excludes(s, CurrentOwner(s).value, r, i); }
  }

  // ----- a word step ---------------------------------------------------------------------------

  /** Frame `i` of cache `c` after a word step. */
  function FrameAfterStep(s: System, c: CoreId, i: Index): Frame
    requires s.Wf() && s.inProgress
  {
    var f := s.caches[c].tsram[i];
    if i != BlockIndex(s) then f
    else if c != s.current.sender then SnoopedFrame(f, BlockTag(s), s.current.cmd, s.offset)
    else if !Responds(s) then f
    else Frame(BlockTag(s), if s.offset == BLOCK_SIZE - 1 then FinalMesi(s) else f.mesi)
  }

  lemma FrameOfStep(s: System, s': System, c: CoreId, i: Index)
    requires s.Wf() && s.inProgress && IsWordStep(s, s')
    ensures s'.caches[c].tsram[i] == FrameAfterStep(s, c, i)
  {
    assert s'.caches[c] == CacheAfterStep(s, c);
  }

  /** With the last word, whoever still holds the block after a fill holds it Shared at most. */
  lemma LastWordMeansEnd(s: System)
    requires s.Wf() && s.inProgress && LockStep(s)
    ensures s.offset == BLOCK_SIZE - 1 ==> Responds(s)
  {
  }

  lemma WordStepExcludes(s: System, s': System, c: CoreId, d: CoreId, i: Index)
    requires Controlled(s) && s.inProgress && IsWordStep(s, s')
    requires Fresh(s) || !Completes(s)
    ensures Excludes(s', c, d, i)
  {
    RequesterFrame(s);
    LastWordMeansEnd(s);
    FrameOfStep(s, s', c, i);
    FrameOfStep(s, s', d, i);
    assert Excludes(s, c, d, i) && Excludes(s, d, c, i);
    if c != d && d != s.current.sender && RaisesShared(s.caches[d], d, s.current) {
      assert SharedLine(s.caches, s.current);
    }
  }

  lemma WordStepKeepsControl(s: System, s': System)
    requires Controlled(s) && s.inProgress && IsWordStep(s, s')
    requires Fresh(s) || !Completes(s)
    ensures Controlled(s')
    ensures Fresh(s) ==> Fresh(s')
  {
    WordStepEvolves(s, s');
    WordStepKeepsGate(s, s');
    WordStepKeepsLockStep(s, s');
    forall c: CoreId, d: CoreId, i: Index ensures Excludes(s', c, d, i) {
      WordStepExcludes(s, s', c, d, i);
    }
    RequesterFrame(s);
    FrameOfStep(s, s', s.current.sender, BlockIndex(s));
  }

  // ----- runs ---------------------------------------------------------------------------------------

  /** G1: a write-back that is granted in this step still finds its block in its sender. */
  predicate FreshGrant(s: System, a: Action)
    requires s.Wf()
  {
    a.Clock? ==> Fresh(Arbitrated(s))
  }

  lemma TransferKeepsControl(s: System)
    requires Controlled(s) && s.inProgress && Fresh(s)
    ensures Controlled(Transfer(s)) && Fresh(Transfer(s))
  {
    if Bubble(s) {
      BubbleKeepsGate(s);
      assert forall c: CoreId, d: CoreId, i: Index :: Excludes(s, c, d, i) ==> Excludes(Transfer(s), c, d, i);
    } else {
      ControlledHasSingleOwner(s);
      TransferIsWordStep(s);
      WordStepKeepsControl(s, Transfer(s));
    }
  }

  lemma ArbitrationKeepsControl(s: System)
    requires Controlled(s)
    ensures Controlled(Arbitrated(s))
    ensures Arbitrated(s).caches == s.caches && Arbitrated(s).memory == s.memory
  {
    ArbitrationKeepsGate(s);
    var t := Arbitrated(s);
    assert forall c: CoreId, d: CoreId, i: Index :: Excludes(s, c, d, i) ==> Excludes(t, c, d, i);
  }

  lemma MissKeepsControl(s: System, t: System)
    requires Controlled(s) && Gated(t)
    requires t == s.(queue := t.queue, states := t.states)
    ensures Controlled(t) && (Fresh(s) ==> Fresh(t))
  {
    assert forall c: CoreId, d: CoreId, i: Index :: Excludes(s, c, d, i) ==> Excludes(t, c, d, i);
  }

  lemma WriteHitKeepsControl(s: System, c: CoreId, a: Address, w: Word)
    requires Controlled(s) && WriteHits(s, c, a)
    ensures Controlled(WriteData(s, c, a, w)) && (Fresh(s) ==> Fresh(WriteData(s, c, a, w)))
  {
    var t := WriteData(s, c, a, w);
    WriteHitKeepsGate(s, c, a, w);
    assert StateAgrees(s, c);
    assert s.inProgress ==> Line(s)[0].origid != c;
    forall x: CoreId, y: CoreId, i: Index ensures Excludes(t, x, y, i) {
      assert Excludes(s, x, y, i) && Excludes(s, y, x, i);
    }
  }

  /** A call of a core keeps the control part whatever the guards. */
  lemma CallKeepsControl(s: System, a: Action)
    requires Controlled(s) && !a.Clock?
    ensures Controlled(Step(s, a)) && (Fresh(s) ==> Fresh(Step(s, a)))
  {
    match a
    case Read(c, addr) =>
      ReadKeepsGate(s, c, addr);
      if !s.CoreBusy(c) && !ReadHits(s, c, addr) { MissUnfolded(s, c, addr, BusRd); }
      MissKeepsControl(s, ReadData(s, c, addr));
    case Write(c, addr, w) =>
      if WriteHits(s, c, addr) {
        WriteHitKeepsControl(s, c, addr, w);
      } else {
        WriteKeepsGate(s, c, addr, w);
        if !s.CoreBusy(c) {
          MissUnfolded(s, c, addr, BusRdX);
          UpgradeUnfolded(s, c, addr);
        }
        MissKeepsControl(s, WriteData(s, c, addr, w));
      }
  }

  /** One action keeps the control part, if a granted write-back is fresh. */
  lemma StepKeepsControl(s: System, a: Action)
    requires Controlled(s) && Fresh(s) && FreshGrant(s, a)
    ensures Controlled(Step(s, a)) && Fresh(Step(s, a))
  {
    if a.Clock? {
      ArbitrationKeepsControl(s);
      if Arbitrated(s).inProgress { TransferKeepsControl(Arbitrated(s)); }
    } else {
      CallKeepsControl(s, a);
    }
  }
}
