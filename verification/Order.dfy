/**
  What every state of every run keeps, with no guard at all: the request gate, and the lock step of
  bus and memory. Transactions deliver the eight words of their block in order.
 */
module Order {
  import opened Types
  import opened Addressing
  import opened CacheModel
  import opened BusModel
  import opened TransferEffect
  import opened Gate

  /** The request gate, and bus and memory in lock step. */
  ghost predicate Ordered(s: System) { Gated(s) && LockStep(s) }

  /** One clock step of a running transaction: a bubble, or a step of the memory. */
  ghost predicate Advances(s: System, t: System) {
    if Bubble(s) then t == s.(firstShared := false) else IsControlStep(s, t)
  }

  lemma ClockAdvances(s: System)
    requires Ordered(s) && s.inProgress
    ensures BusIter(s) == Transfer(s) && Advances(s, BusIter(s)) && Ordered(BusIter(s))
  {
    hide Transfer, Shape, HeadAgrees, StateAgrees, FrameAgrees, FrameEvolves, IsControlStep, ModifiedLine;
    ArbitrationKeepsGate(s);
    TransferKeepsOrder(s);
  }

  lemma TransferKeepsOrder(s: System)
    requires Ordered(s) && s.inProgress
    ensures Advances(s, Transfer(s)) && Ordered(Transfer(s))
  {
    hide Serve, Shape, HeadAgrees, StateAgrees, FrameAgrees, FrameEvolves, ModifiedLine, PacketAfter, CachesAfter;
    if Bubble(s) {
      BubbleKeepsGate(s);
    } else {
      TransferEvolves(s);
      WordStepKeepsGate(s, Transfer(s));
      WordStepKeepsLockStep(s, Transfer(s));
    }
  }

  lemma ArbitrationKeepsOrder(s: System)
    requires Ordered(s)
    ensures Ordered(Arbitrated(s))
  {
    hide Shape, HeadAgrees, StateAgrees, FrameAgrees;
    ArbitrationKeepsGate(s);
  }

  lemma CallKeepsOrder(s: System, a: Action)
    requires Ordered(s) && !a.Clock?
    ensures Ordered(Step(s, a))
    ensures var t := Step(s, a);
            && t.inProgress == s.inProgress && t.current == s.current && t.offset == s.offset
            && t.firstShared == s.firstShared && t.counter == s.counter && t.memoryActive == s.memoryActive
  {
    hide Gated, StoreWord, DataAt;
    match a
    case Read(c, addr) =>
      ReadKeepsGate(s, c, addr);
    case Write(c, addr, w) =>
      if WriteHits(s, c, addr) { WriteHitKeepsGate(s, c, addr, w); } else { WriteKeepsGate(s, c, addr, w); }
  }

  /** No action breaks the order, whatever the cores call and whatever the guards say. */
  lemma StepKeepsOrder(s: System, a: Action)
    requires Ordered(s)
    ensures Ordered(Step(s, a))
  {
    hide Shape, HeadAgrees, StateAgrees, FrameAgrees, Arbitrated, Transfer, ReadData, WriteData;
    if a.Clock? {
      ArbitrationKeepsOrder(s);
      if Arbitrated(s).inProgress { TransferKeepsOrder(Arbitrated(s)); }
    } else {
      CallKeepsOrder(s, a);
    }
  }

  // ----- runs without guards --------------------------------------------------------------------------------

  /** The state at the end of a run of which every step is defined. */
  ghost predicate Possible(s: System, run: seq<Action>)
    decreases |run|
  {
    run == [] || (s.Wf() && Possible(Step(s, run[0]), run[1..]))
  }

  ghost function End(s: System, run: seq<Action>): System
    requires Possible(s, run)
    decreases |run|
  {
    if run == [] then s else End(Step(s, run[0]), run[1..])
  }

  /** Every run from an ordered state is possible, and ordered throughout. */
  lemma {:induction false} OrderAlways(s: System, run: seq<Action>)
    requires Ordered(s)
    ensures Possible(s, run) && Ordered(End(s, run))
    decreases |run|
  {
    hide Step, Shape, HeadAgrees, LockStep;
    if run != [] {
      StepKeepsOrder(s, run[0]);
      OrderAlways(Step(s, run[0]), run[1..]);
    }
  }

  /** A running fill never overwrites dirty data: its frame in the requester is not Modified. */
  lemma FillFrameIsClean(s: System)
    requires Ordered(s) && s.inProgress && s.current.cmd.IsFill()
    ensures s.current.sender < NUMBER_OF_CORES && s.caches[s.current.sender].tsram[BlockIndex(s)].mesi != Modified
  {
    assert FrameAgrees(s, Line(s), 0);
  }

  // ----- eight words in order --------------------------------------------------------------------------------

  /** Bus and memory end a transaction in the same step. */
  lemma FlagsDropTogether(s: System)
    requires Ordered(s) && s.inProgress && !Bubble(s)
    ensures BusIter(s).inProgress <==> BusIter(s).memoryActive
  {
    hide Shape, HeadAgrees, StateAgrees, FrameAgrees, Transfer, BusIter;
    ClockAdvances(s);
    WordStepKeepsLockStep(s, BusIter(s));
  }

  /** The offset of the word that this action hands to the requester, if it does. */
  function WordOf(s: System, a: Action): seq<nat> {
    if a.Clock? && s.inProgress && !Bubble(s) && Responds(s) then [s.offset] else []
  }

  /** The offsets of the words that a run hands out up to the end of the running transaction. */
  ghost function Words(s: System, run: seq<Action>): seq<nat>
    requires Possible(s, run)
    decreases |run|
  {
    if run == [] || !s.inProgress then [] else WordOf(s, run[0]) + Words(Step(s, run[0]), run[1..])
  }

  /** The run goes on to the end of the running transaction. */
  ghost predicate Serves(s: System, run: seq<Action>)
    decreases |run|
  {
    if run == [] then !s.inProgress
    else s.Wf() && s.inProgress && Serves(Step(s, run[0]), run[1..])
  }

  lemma {:induction false} ServesIsPossible(s: System, run: seq<Action>)
    requires Serves(s, run)
    ensures Possible(s, run)
    decreases |run|
  {
    hide Step;
    if run != [] { ServesIsPossible(Step(s, run[0]), run[1..]); }
  }

  /** The words from offset `o` on. */
  function From(o: nat): seq<nat>
    requires o <= BLOCK_SIZE
    decreases BLOCK_SIZE - o
  {
    if o == BLOCK_SIZE then [] else [o] + From(o + 1)
  }

  /** The address on the lines belongs to the requested block, at the offset of the step. */
  lemma LineAddress(s: System)
    ensures TagOf(LinePacket(s).addr) == BlockTag(s) && IndexOf(LinePacket(s).addr) == BlockIndex(s)
    ensures OffsetOf(LinePacket(s).addr) == s.offset
  {
  }

  /**
    Whatever the cores do meanwhile, and whatever word the request named, a transaction hands out the
    words of its block from the current one to the last, once each and in ascending order.
   */
  lemma {:induction false} WordsInOrder(s: System, run: seq<Action>)
    requires Ordered(s) && s.inProgress && Serves(s, run)
    ensures Possible(s, run) && Words(s, run) == From(s.offset)
    decreases |run|
  {
    hide Shape, HeadAgrees, StateAgrees, FrameAgrees, Step, ModifiedLine;
    ServesIsPossible(s, run);
    var t := Step(s, run[0]);
    NextWord(s, run[0]);
    StepKeepsOrder(s, run[0]);
    if t.inProgress { WordsInOrder(t, run[1..]); }
  }

  /** A step hands out the current word and goes on to the next, or does neither. */
  lemma NextWord(s: System, a: Action)
    requires Ordered(s) && s.inProgress
    ensures var t := Step(s, a);
            && (t.inProgress ==> From(s.offset) == WordOf(s, a) + From(t.offset))
            && (!t.inProgress ==> From(s.offset) == WordOf(s, a))
  {
    hide Shape, HeadAgrees, StateAgrees, FrameAgrees, Transfer, BusIter, ModifiedLine, ReadData, WriteData;
    if a.Clock? {
      ClockAdvances(s);
      if !Bubble(s) { WordStepKeepsLockStep(s, BusIter(s)); }
    } else {
      CallKeepsOrder(s, a);
    }
  }
}
