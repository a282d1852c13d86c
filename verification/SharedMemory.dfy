/** Runs of any length: single writer under G1, and one flat shared memory under G1 to G3. */
module SharedMemory {
  import opened Types
  import opened Addressing
  import opened CacheModel
  import opened BusModel
  import opened TransferEffect
  import opened Gate
  import opened Exclusion
  import opened Coherence

  // ----- the specification: a flat memory ----------------------------------------------------------

  /** A memory access that a core has completed. */
  datatype Access =
    | Load(core: CoreId, location: nat, value: Word)
    | Store(core: CoreId, location: nat, value: Word)

  /** A flat memory performs the accesses one by one; a load that would return another word is refused. */
  function Replay(m: Memory, log: seq<Access>): Option<Memory>
    decreases |log|
  {
    if log == [] then Some(m)
    else if log[0].location >= MAIN_MEMORY_SIZE then None
    else match log[0]
      case Load(_, a, v) => if m[a] == v then Replay(m, log[1..]) else None
      case Store(_, a, v) => Replay(m[a := v], log[1..])
  }

  lemma {:induction false} ReplayAppend(m: Memory, a: seq<Access>, b: seq<Access>)
    ensures Replay(m, a + b) == match Replay(m, a) case Some(n) => Replay(n, b) case None => None
    decreases |a|
  {
    if a == [] {
      assert a + b == b;
    } else {
      assert (a + b)[0] == a[0] && (a + b)[1..] == a[1..] + b;
      match a[0]
      case Load(_, x, v) => ReplayAppend(m, a[1..], b);
      case Store(_, x, v) => if x < MAIN_MEMORY_SIZE { ReplayAppend(m[x := v], a[1..], b); }
    }
  }

  // ----- runs ----------------------------------------------------------------------------------------

  /** The access, if any, that an action completes. */
  function Completed(s: System, a: Action): seq<Access> {
    match a
    case Clock => []
    case Read(c, addr) => if ReadHits(s, c, addr) then [Load(c, MemoryAddress(addr), ReadValue(s, c, addr))] else []
    case Write(c, addr, w) => if WriteHits(s, c, addr) then [Store(c, MemoryAddress(addr), w)] else []
  }

  /** G1 to G3 for one action. */
  predicate Guarded(s: System, a: Action)
    requires s.Wf()
  {
    match a
    case Clock => Fresh(Arbitrated(s)) && OwnerSupplies(Arbitrated(s))
    case Read(_, _) => true
    case Write(c, addr, _) => WriteHits(s, c, addr) ==> QuietOwner(s, c, addr)
  }

  /** Every action of the run satisfies G1 in the state it is taken in. */
  ghost predicate FreshRun(s: System, run: seq<Action>)
    decreases |run|
  {
    run == [] || (s.Wf() && FreshGrant(s, run[0]) && FreshRun(Step(s, run[0]), run[1..]))
  }

  /** Every action of the run satisfies G1 to G3 in the state it is taken in. */
  ghost predicate GuardedRun(s: System, run: seq<Action>)
    decreases |run|
  {
    run == [] || (s.Wf() && Guarded(s, run[0]) && GuardedRun(Step(s, run[0]), run[1..]))
  }

  /** The state at the end of a run. */
  ghost function After(s: System, run: seq<Action>): System
    requires FreshRun(s, run)
    decreases |run|
  {
    if run == [] then s else After(Step(s, run[0]), run[1..])
  }

  /** The accesses a run completes, in order. */
  ghost function Log(s: System, run: seq<Action>): seq<Access>
    requires FreshRun(s, run)
    decreases |run|
  {
    if run == [] then [] else Completed(s, run[0]) + Log(Step(s, run[0]), run[1..])
  }

  lemma {:induction false} GuardedIsFresh(s: System, run: seq<Action>)
    requires GuardedRun(s, run)
    ensures FreshRun(s, run)
    decreases |run|
  {
    if run != [] { GuardedIsFresh(Step(s, run[0]), run[1..]); }
  }

  // ----- the initial state -------------------------------------------------------------------------------

  function EmptyCache(): Cache { CacheData(seq(FRAME_SIZE, _ => Frame(0, Invalid)), seq(CACHE_SIZE, _ => 0)) }

  /** The zeroed statics of the bus. */
  function Start(caches: Caches, m: Memory, counter: nat, active: bool): System {
    System(caches, m, [], Packet(0, 0, NoCommand, 0, 0, false), false, 0, [Idle, Idle, Idle, Idle], true, counter, active)
  }

  /** MainMemory_Init and Cache_Init before the first bus iteration. */
  function Initial(m: Memory): System {
    Start([EmptyCache(), EmptyCache(), EmptyCache(), EmptyCache()], m, 0, false)
  }

  lemma InitialCoherent(m: Memory)
    ensures Coherent(Initial(m)) && FlatMemory(Initial(m)) == m
  {
    var s := Initial(m);
    assert Line(s) == [];
    forall c: CoreId ensures s.caches[c] == EmptyCache() {}
    assert forall c: CoreId :: StateAgrees(s, c);
    forall l | 0 <= l < MAIN_MEMORY_SIZE ensures FlatMemory(s)[l] == m[l] {
      LocationOnto(l);
    }
  }

  // ----- main results ----------------------------------------------------------------------------------------

  /** Single writer, multiple readers, after every run that satisfies G1. */
  lemma {:induction false} SingleWriterAlways(s: System, run: seq<Action>)
    requires Controlled(s) && Fresh(s) && FreshRun(s, run)
    ensures Controlled(After(s, run)) && Fresh(After(s, run))
    decreases |run|
  {
    if run != [] {
      StepKeepsControl(s, run[0]);
      SingleWriterAlways(Step(s, run[0]), run[1..]);
    }
  }

  /** One action under its guards: coherence stays, and the flat memory performs the completed access. */
  lemma StepRefines(s: System, a: Action)
    requires Coherent(s) && Guarded(s, a)
    ensures Coherent(Step(s, a))
    ensures Replay(FlatMemory(s), Completed(s, a)) == Some(FlatMemory(Step(s, a)))
  {
    StepKeepsControl(s, a);
    var t := Step(s, a);
    match a
    case Clock =>
      ClockKeepsCoherence(s);
      assert FlatMemory(t) == FlatMemory(s);
    case Read(c, addr) =>
      if ReadHits(s, c, addr) {
        ReadHitReturnsShown(s, c, addr);
        FlatAt(s, addr);
      } else {
        RequestRefines(s, a);
      }
    case Write(c, addr, w) =>
      if WriteHits(s, c, addr) {
        WriteHitKeepsCoherence(s, c, addr, w);
        WriteHitRefines(s, c, addr, w);
      } else {
        RequestRefines(s, a);
      }
  }

  /** The flat memory at an address is what the system shows there. */
  lemma FlatAt(s: System, a: Address)
    ensures FlatMemory(s)[MemoryAddress(a)] == ShownAt(s, a)
  {
    var m := MemoryAddress(a);
    LocationOnto(m);
    LocationInjective(TagOf(a), IndexOf(a), OffsetOf(a), TagOf(m), IndexOf(m), OffsetOf(m));
  }

  lemma WriteHitRefines(s: System, c: CoreId, a: Address, w: Word)
    requires Coherent(s) && WriteHits(s, c, a)
    ensures FlatMemory(WriteData(s, c, a, w)) == FlatMemory(s)[MemoryAddress(a) := w]
  {
    var t := WriteData(s, c, a, w);
    forall m | 0 <= m < MAIN_MEMORY_SIZE
      ensures FlatMemory(t)[m] == FlatMemory(s)[MemoryAddress(a) := w][m]
    {
      LocationOnto(m);
      WriteHitShown(s, c, a, w, TagOf(m), IndexOf(m), OffsetOf(m));
      if m == MemoryAddress(a) {
        LocationInjective(TagOf(a), IndexOf(a), OffsetOf(a), TagOf(m), IndexOf(m), OffsetOf(m));
      }
    }
  }

  /** A call that misses, or finds its core busy, changes at most the queue. */
  lemma RequestOnly(s: System, a: Action)
    requires s.Wf() && !a.Clock? && Completed(s, a) == []
    ensures Step(s, a) == s.(queue := Step(s, a).queue, states := Step(s, a).states)
  {
    match a
    case Read(c, addr) => MissUnfolded(s, c, addr, BusRd);
    case Write(c, addr, w) =>
      MissUnfolded(s, c, addr, BusRdX);
      UpgradeUnfolded(s, c, addr);
  }

  lemma RequestRefines(s: System, a: Action)
    requires Coherent(s) && !a.Clock? && Completed(s, a) == []
    ensures DataAgrees(Step(s, a)) && FlatMemory(Step(s, a)) == FlatMemory(s)
  {
    RequestOnly(s, a);
    RequestKeepsData(s, Step(s, a));
  }

  /** Under G1 to G3, every run of the caches, the bus and memory is a run of one flat memory. */
  lemma {:induction false} RunRefinesFlatMemory(s: System, run: seq<Action>)
    requires Coherent(s) && GuardedRun(s, run)
    ensures FreshRun(s, run)
    ensures Coherent(After(s, run))
    ensures Replay(FlatMemory(s), Log(s, run)) == Some(FlatMemory(After(s, run)))
    decreases |run|
  {
    GuardedIsFresh(s, run);
    if run != [] {
      StepRefines(s, run[0]);
      RunRefinesFlatMemory(Step(s, run[0]), run[1..]);
      ReplayAppend(FlatMemory(s), Completed(s, run[0]), Log(Step(s, run[0]), run[1..]));
    }
  }
}
