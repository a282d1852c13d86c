/**
  States that runs from the start of the simulator reach, with calls in the order of the main loop, and the
  fills that lead to them.
 */
module Reachable {
  import opened Types
  import opened Addressing
  import opened CacheModel
  import opened BusModel
  import opened TransferEffect
  import opened Gate
  import opened Order
  import opened Exclusion
  import opened Coherence
  import opened SharedMemory
  import opened Transactions
  import opened Exactness

  // ----- runs in the order of the main loop -----------------------------------------------------------------------

  /** The first core whose turn may still come before the next clock step. */
  function NextTurn(a: Action): nat { if a.Clock? then 0 else a.core + 1 }

  function TurnAfter(run: seq<Action>, turn: nat): nat
    decreases |run|
  {
    if run == [] then turn else TurnAfter(run[1..], NextTurn(run[0]))
  }

  /** Between two clock steps each core calls once at most, in the order of the ids. */
  predicate InOrder(run: seq<Action>, turn: nat)
    decreases |run|
  {
    run == [] || ((run[0].Clock? || turn <= run[0].core) && InOrder(run[1..], NextTurn(run[0])))
  }

  /** The accesses that a run completes, in order; no guard is needed. */
  ghost function Record(s: System, run: seq<Action>): seq<Access>
    requires Possible(s, run)
    decreases |run|
  {
    if run == [] then [] else Completed(s, run[0]) + Record(Step(s, run[0]), run[1..])
  }

  /** Where a run starts: a state, the first core whose turn may come, and the flat memory that stands for the past. */
  datatype Origin = Origin(state: System, turn: nat, memory: Memory)

  /** The start of the simulator, whose first action is a clock step. */
  function Begin(image: Memory): Origin { Origin(Initial(image), NUMBER_OF_CORES, image) }

  /** The run ends in `s`, and the flat memory accepts its accesses and ends as `m`. */
  ghost predicate Leads(o: Origin, run: seq<Action>, s: System, turn: nat, m: Memory) {
    && InOrder(run, o.turn) && TurnAfter(run, o.turn) == turn
    && Possible(o.state, run) && End(o.state, run) == s
    && Replay(o.memory, Record(o.state, run)) == Some(m)
  }

  ghost predicate Reached(o: Origin, s: System, turn: nat, m: Memory) {
    exists run: seq<Action> :: Leads(o, run, s, turn, m)
  }

  /** A run in the order of the main loop whose accesses the flat memory does not accept. */
  ghost predicate Refused(o: Origin, run: seq<Action>) {
    InOrder(run, o.turn) && Possible(o.state, run) && Replay(o.memory, Record(o.state, run)) == None
  }

  /** The system is coherent, and its flat memory is the one that its history has made. */
  ghost predicate Sound(o: Origin, s: System, turn: nat) { Coherent(s) && Reached(o, s, turn, FlatMemory(s)) }

  lemma {:induction false} RunAppend(s: System, a: seq<Action>, turn: nat, b: seq<Action>)
    requires Possible(s, a) && Possible(End(s, a), b)
    ensures Possible(s, a + b) && End(s, a + b) == End(End(s, a), b)
    ensures Record(s, a + b) == Record(s, a) + Record(End(s, a), b)
    ensures TurnAfter(a + b, turn) == TurnAfter(b, TurnAfter(a, turn))
    ensures InOrder(a, turn) && InOrder(b, TurnAfter(a, turn)) ==> InOrder(a + b, turn)
    decreases |a|
  {
    hide Step, Completed;
    if a == [] {
      assert a + b == b;
    } else {
      assert (a + b)[0] == a[0] && (a + b)[1..] == a[1..] + b;
      RunAppend(Step(s, a[0]), a[1..], NextTurn(a[0]), b);
    }
  }

  lemma RunOfOne(s: System, turn: nat, a: Action)
    requires s.Wf()
    ensures Possible(s, [a]) && Record(s, [a]) == Completed(s, a) && End(s, [a]) == Step(s, a)
    ensures TurnAfter([a], turn) == NextTurn(a) && (InOrder([a], turn) <==> a.Clock? || turn <= a.core)
  {
    hide Step, Completed;
    assert [a][1..] == [];
    assert Record(Step(s, a), []) == [] && InOrder([], NextTurn(a));
  }

  /** One more action; the flat memory `m` performs the access it completes. */
  lemma ReachedStep(o: Origin, s: System, turn: nat, m: Memory, a: Action, n: Memory)
    requires Reached(o, s, turn, m) && s.Wf() && (a.Clock? || turn <= a.core) && Replay(m, Completed(s, a)) == Some(n)
    ensures Reached(o, Step(s, a), NextTurn(a), n)
  {
    hide Step, Possible, End, Completed, Replay, Record, InOrder, TurnAfter;
    var run: seq<Action> :| Leads(o, run, s, turn, m);
    RunOfOne(s, turn, a);
    RunAppend(o.state, run, o.turn, [a]);
    ReplayAppend(o.memory, Record(o.state, run), Completed(s, a));
    assert Leads(o, run + [a], Step(s, a), NextTurn(a), n);
  }

  /** What follows a reached state and is refused there makes the whole run refused. */
  lemma WholeRunRefused(o: Origin, s: System, turn: nat, m: Memory, more: seq<Action>) returns (run: seq<Action>)
    requires Reached(o, s, turn, m) && Refused(Origin(s, turn, m), more)
    ensures Refused(o, run)
  {
    hide Step, Possible, End, Completed, Replay, Record, InOrder, TurnAfter;
    var before: seq<Action> :| Leads(o, before, s, turn, m);
    run := before + more;
    RunAppend(o.state, before, o.turn, more);
    ReplayAppend(o.memory, Record(o.state, before), Record(s, more));
  }

  lemma ReachedItself(o: Origin)
    ensures Reached(o, o.state, o.turn, o.memory)
  {
    assert Leads(o, [], o.state, o.turn, o.memory);
  }

  lemma ClockReached(o: Origin, s: System, turn: nat, m: Memory)
    requires Reached(o, s, turn, m) && s.Wf()
    ensures Reached(o, BusIter(s), 0, m)
  {
    hide Reached, BusIter;
    ReachedStep(o, s, turn, m, Clock, m);
  }

  /** A guarded action keeps the state sound. */
  lemma SoundStep(o: Origin, s: System, turn: nat, a: Action)
    requires Sound(o, s, turn) && s.Wf() && (a.Clock? || turn <= a.core) && Guarded(s, a)
    ensures Sound(o, Step(s, a), NextTurn(a))
  {
    hide Coherent, Reached, Step, Guarded, Completed, Replay, FlatMemory;
    StepRefines(s, a);
    ReachedStep(o, s, turn, FlatMemory(s), a, FlatMemory(Step(s, a)));
  }

  /** A transaction left to itself is a run of clock steps. */
  lemma {:induction false} FinishReached(o: Origin, s: System, turn: nat, m: Memory)
    requires Reached(o, s, turn, m) && Controlled(s) && s.inProgress
    ensures Reached(o, Finish(s), 0, m)
    decreases Remaining(s)
  {
    hide Reached, BusIter, IsDataStep, IsControlStep, Shape, HeadAgrees, StateAgrees, FrameAgrees, SingleWriter, Fresh;
    var t := BusIter(s);
    ClockIsQuietStep(s);
    QuietStepKeepsControl(s, t);
    ClockReached(o, s, turn, m);
    if t.inProgress {
      StepApproaches(s, t);
      FinishReached(o, t, 0, m);
    }
  }

  /** Nothing runs, waits or is about to be released. */
  ghost predicate Quiescent(s: System) {
    !s.inProgress && s.queue == [] && forall c: CoreId :: s.states[c] == Idle
  }

  lemma InitiallySound(m: Memory)
    ensures Quiescent(Initial(m)) && Sound(Begin(m), Initial(m), NUMBER_OF_CORES)
  {
    hide Coherent, FlatMemory;
    InitialCoherent(m);
    ReachedItself(Begin(m));
    assert forall c: CoreId :: Initial(m).states[c] == Idle;
  }

  /** The grant of the oldest packet and the run to its end. */
  lemma GrantFinishReached(o: Origin, s: System, turn: nat, m: Memory)
    requires Reached(o, s, turn, m) && Controlled(s) && !s.inProgress && Arbitrated(s).inProgress
    ensures Controlled(Arbitrated(s)) && Reached(o, Finish(Arbitrated(s)), 0, m)
  {
    hide Reached, Shape, HeadAgrees, StateAgrees, FrameAgrees, SingleWriter, DataAgrees, Transfer, LockStep, Arbitrated;
    var a := Arbitrated(s);
    ArbitrationKeepsControl(s);
    ArbitrationKeepsGate(a);
    ClockReached(o, s, turn, m);
    assert BusIter(s) == BusIter(a);
    ClockIsQuietStep(a);
    QuietStepKeepsControl(a, BusIter(a));
    if BusIter(a).inProgress { FinishReached(o, BusIter(a), 0, m); }
  }

  /** Nobody holds the block of `a`, and core `c` has a clean frame for it. */
  predicate Uncontended(s: System, c: CoreId, a: Address) {
    && (forall d: CoreId :: !HoldsAddress(s.caches[d], a))
    && s.caches[c].tsram[IndexOf(a)].mesi != Modified
  }

  /** A word of cache `d` once the block of `a` has been loaded into core `c`. */
  predicate FilledWord(s: System, t: System, c: CoreId, a: Address, d: CoreId, i: Index, o: Offset) {
    DataAt(t.caches[d], i, o) ==
    if d == c && i == IndexOf(a) then MemoryAt(s.memory, TagOf(a), i, o) else DataAt(s.caches[d], i, o)
  }

  predicate FilledFrame(s: System, t: System, c: CoreId, a: Address, d: CoreId, i: Index) {
    t.caches[d].tsram[i] ==
    if d == c && i == IndexOf(a) then Frame(TagOf(a), Exclusive) else s.caches[d].tsram[i]
  }

  /** `t` is `s` with the block of `a` loaded into core `c`, alone and Exclusive. */
  ghost predicate Filled(s: System, t: System, c: CoreId, a: Address) {
    && (forall g: Tag, i: Index, o: Offset :: MemoryAt(t.memory, g, i, o) == MemoryAt(s.memory, g, i, o))
    && (forall d: CoreId, i: Index :: FilledFrame(s, t, c, a, d, i))
    && (forall d: CoreId, i: Index, o: Offset :: FilledWord(s, t, c, a, d, i, o))
  }

  /** A miss on a clean frame of an idle core queues its request behind what is there. */
  lemma MissReached(o: Origin, s: System, turn: nat, c: CoreId, a: Address, cmd: Command) returns (t: System)
    requires Sound(o, s, turn) && turn <= c && cmd.IsFill() && !s.CoreBusy(c)
    requires !HoldsAddress(s.caches[c], a) && s.caches[c].tsram[IndexOf(a)].mesi != Modified
    ensures Sound(o, t, c + 1)
    ensures t == s.(queue := s.queue + [Request(c, cmd, a)], states := s.states[c := Wait])
  {
    hide Reached, Coherent, TagOf, IndexOf;
    var call := if cmd.BusRd? then Read(c, a) else Write(c, a, 0);
    CoherentIsWf(s);
    t := Step(s, call);
    SoundStep(o, s, turn, call);
  }

  lemma CoherentIsWf(s: System)
    requires Coherent(s)
    ensures s.Wf()
  {
  }

  /** The step that grants the request of a quiescent core. */
  lemma GrantOnly(s: System, p: Packet)
    requires !s.inProgress && s.queue == [p] && p.origid < NUMBER_OF_CORES && s.Wf() && !s.memoryActive
    ensures var a := Arbitrated(s);
            && a.inProgress && a.queue == [] && a.caches == s.caches && a.memory == s.memory
            && a.current == p.(sender := p.origid) && a.offset == 0 && !a.memoryActive && a.firstShared
            && a.states == Release(s).states[p.origid := Operation]
  {
  }

  /** The step after a transaction releases its core, and the bus is quiet again. */
  lemma ReleaseReached(o: Origin, f: System, turn: nat, c: CoreId, m: Memory) returns (t: System)
    requires Reached(o, f, turn, m) && f.Wf() && !f.inProgress && f.queue == []
    requires f.states[c] == Finally ==> f.current.origid == c
    requires forall d: CoreId :: d != c ==> f.states[d] == Idle
    requires f.states[c] == Finally || f.states[c] == Idle
    ensures t == BusIter(f) && Reached(o, t, 0, m) && Quiescent(t) && t.caches == f.caches && t.memory == f.memory
  {
    hide Reached;
    t := BusIter(f);
    ClockReached(o, f, turn, m);
  }

  /** The same in a sound system: also a clock step in which nothing happens. */
  lemma ReleaseSound(o: Origin, f: System, turn: nat, c: CoreId) returns (t: System)
    requires Sound(o, f, turn) && !f.inProgress && f.queue == []
    requires f.states[c] == Finally ==> f.current.origid == c
    requires forall d: CoreId :: d != c ==> f.states[d] == Idle
    requires f.states[c] == Finally || f.states[c] == Idle
    ensures Sound(o, t, 0) && Quiescent(t) && t.caches == f.caches && t.memory == f.memory
  {
    hide Reached, Coherent, FlatMemory;
    CoherentIsWf(f);
    t := ReleaseReached(o, f, turn, c, FlatMemory(f));
    StepRefines(f, Clock);
    assert t == Step(f, Clock);
  }

  /** A fill that nobody contends for, from the miss to the released core. */
  lemma UncontendedFill(o: Origin, s: System, turn: nat, c: CoreId, a: Address, cmd: Command) returns (t: System)
    requires Sound(o, s, turn) && turn <= c && Quiescent(s) && Uncontended(s, c, a) && cmd.IsFill()
    ensures Sound(o, t, 0) && Quiescent(t) && Filled(s, t, c, a)
  {
    hide Reached, Coherent, Arbitrated, Filled, HoldsAddress, IndexOf, TagOf, FlatMemory;
    var s1 := MissReached(o, s, turn, c, a, cmd);
    var g := Arbitrated(s1);
    FreeBus(s1);
    GrantOnly(s1, Request(c, cmd, a));
    GrantStarts(s1);
    GrantFinishReached(o, s1, c + 1, FlatMemory(s1));
    var f := FilledAtFinish(s1, g, c, a);
    assert FlatMemory(f) == FlatMemory(s1) by { SameShown(s1, g, f); }
    t := ReleaseSound(o, f, 0, c);
    assert Filled(s, t, c, a) by { FilledKept(s, s1, f, t, c, a); }
  }

  /** A grant and a transaction that keeps every word keep the flat memory. */
  lemma SameShown(s: System, g: System, f: System)
    requires forall t: Tag, i: Index, o: Offset :: Shown(g, t, i, o) == Shown(s, t, i, o)
    requires forall t: Tag, i: Index, o: Offset :: Shown(f, t, i, o) == Shown(g, t, i, o)
    ensures FlatMemory(f) == FlatMemory(s)
  {
    hide Shown;
  }

  lemma FreeBus(s: System)
    requires Coherent(s)
    ensures s.Wf() && Controlled(s) && (!s.inProgress ==> !s.memoryActive)
  {
  }

  lemma FilledKept(s: System, s1: System, f: System, t: System, c: CoreId, a: Address)
    requires Filled(s1, f, c, a) && s1.caches == s.caches && s1.memory == s.memory && t.caches == f.caches
    requires t.memory == f.memory
    ensures Filled(s, t, c, a)
  {
    hide IndexOf, TagOf;
    assert forall d: CoreId, i: Index, o: Offset :: FilledWord(s1, f, c, a, d, i, o) ==> FilledWord(s, t, c, a, d, i, o);
    assert forall d: CoreId, i: Index :: FilledFrame(s1, f, c, a, d, i) ==> FilledFrame(s, t, c, a, d, i);
  }

  /** The closed form of an uncontended fill. */
  lemma FilledAtFinish(s: System, g: System, c: CoreId, a: Address) returns (f: System)
    requires Starts(g) && g.caches == s.caches && g.memory == s.memory && Uncontended(s, c, a)
    requires g.queue == [] && g.current.addr == a && g.current.sender == c == g.current.origid && g.current.cmd.IsFill()
    requires forall d: CoreId :: d != c ==> g.states[d] == Idle
    ensures f == Finish(g) && Coherent(f) && Filled(s, f, c, a)
    ensures forall t: Tag, i: Index, o: Offset :: Shown(f, t, i, o) == Shown(g, t, i, o)
    ensures !f.inProgress && f.queue == [] && f.current.origid == c && f.states == g.states[c := Finally]
  {
    hide Gated, LockStep, SingleWriter, DataAgrees, TagOf, IndexOf;
    NobodyHolds(s, g, c, a);
    UnownedFillKeeps(g);
    FinishIsClosedForm(g);
    f := Finish(g);
    forall d: CoreId, i: Index ensures FilledFrame(s, f, c, a, d, i) {
      assert f.caches[d].tsram[i] == FinalFrame(g, d, i);
      FinalUncontended(s, g, c, a, d, i, 0);
    }
    forall d: CoreId, i: Index, o: Offset ensures FilledWord(s, f, c, a, d, i, o) {
      assert DataAt(f.caches[d], i, o) == FinalData(g, d, i, o);
      FinalUncontended(s, g, c, a, d, i, o);
    }
    forall t: Tag, i: Index, o: Offset ensures MemoryAt(f.memory, t, i, o) == MemoryAt(s.memory, t, i, o) {
      assert MemoryAt(f.memory, t, i, o) == FinalMemory(g, t, i, o);
    }
  }

  lemma NobodyHolds(s: System, g: System, c: CoreId, a: Address)
    requires g.caches == s.caches && g.current.addr == a && Uncontended(s, c, a)
    ensures CurrentOwner(g).None? && !SharedAtEnd(g)
  {
    hide TagOf, IndexOf;
    assert forall d: CoreId :: !HoldsAddress(s.caches[d], a);
  }

  lemma FinalUncontended(s: System, g: System, c: CoreId, a: Address, d: CoreId, i: Index, o: Offset)
    requires g.caches == s.caches && g.memory == s.memory && Uncontended(s, c, a) && g.offset == 0
    requires g.current.addr == a && g.current.sender == c && g.current.cmd.IsFill() && CurrentOwner(g).None?
    requires !SharedAtEnd(g)
    ensures FinalFrame(g, d, i) == if d == c && i == IndexOf(a) then Frame(TagOf(a), Exclusive) else s.caches[d].tsram[i]
    ensures FinalData(g, d, i, o) == if d == c && i == IndexOf(a) then MemoryAt(s.memory, TagOf(a), i, o) else DataAt(s.caches[d], i, o)
  {
    hide TagOf, IndexOf;
    assert !HoldsAddress(s.caches[d], a);
  }
}
