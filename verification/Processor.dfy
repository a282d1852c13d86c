/** The whole simulator: one bus iteration, then the four cores, over and over (MulticoreProcessor.c). */
module Processor {
  import opened Types
  import opened Addressing
  import opened BusModel
  import opened SharedMemory
  import opened Coherence
  import CacheModel
  import FinalFlush
  import Gate
  import Outcomes
  import Isa
  import Interpreter
  import PipelineModel
  import Simulation
  import PipelineRuns

  type Programs = s: seq<Isa.Program> | |s| == NUMBER_OF_CORES
    witness [Isa.EmptyProgram(), Isa.EmptyProgram(), Isa.EmptyProgram(), Isa.EmptyProgram()]
  type Cores = s: seq<PipelineModel.CoreState> | |s| == NUMBER_OF_CORES
    witness [PipelineModel.InitialCore(Isa.ZeroRegisters()), PipelineModel.InitialCore(Isa.ZeroRegisters()),
             PipelineModel.InitialCore(Isa.ZeroRegisters()), PipelineModel.InitialCore(Isa.ZeroRegisters())]

  datatype State = State(bus: System, cores: Cores)

  // ----- the steps of the main loop ---------------------------------------------------------------------------

  datatype Tick = Bus | Turn(core: CoreId)

  /** One iteration of the main loop. */
  function Iteration(): seq<Tick> { [Bus, Turn(0), Turn(1), Turn(2), Turn(3)] }

  /** The call to the cache, if any, that the core makes in its turn. */
  function Call(c: PipelineModel.CoreState, id: CoreId): Option<Action> {
    if PipelineModel.Runs(c) && PipelineModel.Requests(c) then Some(Request(c, id)) else None
  }

  /** The memory stage's call. */
  function Request(c: PipelineModel.CoreState, id: CoreId): Action {
    if c.mem.instruction.opcode == Isa.LW then Read(id, PipelineModel.RequestAddress(c))
    else Write(id, PipelineModel.RequestAddress(c), PipelineModel.RequestData(c))
  }

  /** What the call does to the caches and the bus. */
  function CallStep(s: System, a: Action): System {
    match a
    case Clock => s
    case Read(c, addr) => ReadData(s, c, addr)
    case Write(c, addr, w) => WriteData(s, c, addr, w)
  }

  /** What Cache_ReadData or Cache_WriteData answers. */
  function AnswerTo(s: System, a: Action): Option<Word> {
    match a
    case Clock => None
    case Read(c, addr) => if ReadHits(s, c, addr) then Some(ReadValue(s, c, addr)) else None
    case Write(c, addr, _) => if WriteHits(s, c, addr) then Some(0) else None
  }

  /** The answer to the core's call, and the caches and the bus after it. */
  function CallAnswer(s: System, c: PipelineModel.CoreState, id: CoreId): Option<Word> {
    var call := Call(c, id);
    if call.Some? then AnswerTo(s, call.value) else None
  }

  function BusAfterTurn(s: System, c: PipelineModel.CoreState, id: CoreId): System {
    var call := Call(c, id);
    if call.Some? then CallStep(s, call.value) else s
  }

  function AnswerInTurn(s: State, id: CoreId): Option<Word> { CallAnswer(s.bus, s.cores[id], id) }

  /** The step is defined: packets are well formed, and a fetch stays within the instruction memory. */
  predicate Possible(s: State, t: Tick) {
    s.bus.Wf() && (t.Turn? ==> PipelineRuns.InRange(s.cores[t.core]))
  }

  lemma PossibleBus(s: State)
    requires Possible(s, Bus)
    ensures s.bus.Wf()
  {
  }

  lemma PossibleTurn(s: State, id: CoreId)
    requires Possible(s, Turn(id))
    ensures PipelineRuns.InRange(s.cores[id])
  {
  }

  function TickStep(programs: Programs, s: State, t: Tick): State
    requires Possible(s, t)
  {
    match t
    case Bus => s.(bus := BusIter(s.bus))
    case Turn(id) =>
      State(BusAfterTurn(s.bus, s.cores[id], id),
            s.cores[id := PipelineModel.CoreIter(programs[id], s.cores[id], AnswerInTurn(s, id))])
  }

  /** G1 to G4 for one step. */
  predicate GuardedTick(s: State, t: Tick)
    requires Possible(s, t)
  {
    match t
    case Bus => Guarded(s.bus, Clock)
    case Turn(id) =>
      var call := Call(s.cores[id], id);
      && (call.Some? ==> Guarded(s.bus, call.value))
      && (PipelineModel.Runs(s.cores[id]) ==> Simulation.HazardLasts(s.cores[id], AnswerInTurn(s, id)))
  }

  // ----- runs --------------------------------------------------------------------------------------------------------

  ghost predicate PossibleTicks(programs: Programs, s: State, ticks: seq<Tick>)
    decreases |ticks|
  {
    ticks == [] || (Possible(s, ticks[0]) && PossibleTicks(programs, TickStep(programs, s, ticks[0]), ticks[1..]))
  }

  /** G1 to G4 in every step. */
  ghost predicate GuardedTicks(programs: Programs, s: State, ticks: seq<Tick>)
    requires PossibleTicks(programs, s, ticks)
    decreases |ticks|
  {
    ticks == [] || (GuardedTick(s, ticks[0]) && GuardedTicks(programs, TickStep(programs, s, ticks[0]), ticks[1..]))
  }

  lemma FirstTick(programs: Programs, s: State, t: Tick, rest: seq<Tick>)
    requires PossibleTicks(programs, s, [t] + rest)
    ensures Possible(s, t) && PossibleTicks(programs, TickStep(programs, s, t), rest)
    ensures Final(programs, s, [t] + rest) == Final(programs, TickStep(programs, s, t), rest)
  {
    hide Possible, TickStep;
    assert ([t] + rest)[0] == t && ([t] + rest)[1..] == rest;
  }

  ghost function Final(programs: Programs, s: State, ticks: seq<Tick>): State
    requires PossibleTicks(programs, s, ticks)
    decreases |ticks|
  {
    if ticks == [] then s else Final(programs, TickStep(programs, s, ticks[0]), ticks[1..])
  }

  /** The access a step completes. */
  function TickAccess(s: State, t: Tick): seq<Access> {
    match t
    case Bus => []
    case Turn(id) =>
      var call := Call(s.cores[id], id);
      if call.Some? then Completed(s.bus, call.value) else []
  }

  /** All accesses of a run, in the order in which the caches performed them. */
  ghost function History(programs: Programs, s: State, ticks: seq<Tick>): seq<Access>
    requires PossibleTicks(programs, s, ticks)
    decreases |ticks|
  {
    if ticks == [] then [] else TickAccess(s, ticks[0]) + History(programs, TickStep(programs, s, ticks[0]), ticks[1..])
  }

  // ----- histories and machines -----------------------------------------------------------------------------------

  /** The accesses of one core. */
  function Of(log: seq<Access>, id: CoreId): seq<Access>
    decreases |log|
  {
    if log == [] then [] else (if log[0].core == id then [log[0]] else []) + Of(log[1..], id)
  }

  lemma {:induction false} OfAppend(a: seq<Access>, b: seq<Access>, id: CoreId)
    ensures Of(a + b, id) == Of(a, id) + Of(b, id)
    decreases |a|
  {
    if a == [] {
      assert a + b == b;
    } else {
      assert (a + b)[0] == a[0] && (a + b)[1..] == a[1..] + b;
      OfAppend(a[1..], b, id);
    }
  }

  /** A sequential machine's access as an access of its core to a location of memory. */
  function AccessOf(id: CoreId, e: Interpreter.Effect): Access {
    match e
    case Loaded(a, w) => Load(id, MemoryAddress(a), w)
    case Stored(a, w) => Store(id, MemoryAddress(a), w)
  }

  function AccessesOf(id: CoreId, es: seq<Interpreter.Effect>): (r: seq<Access>)
    ensures |r| == |es| && forall k :: 0 <= k < |es| ==> r[k] == AccessOf(id, es[k])
  {
    seq(|es|, k requires 0 <= k < |es| => AccessOf(id, es[k]))
  }

  lemma AccessesAppend(id: CoreId, a: seq<Interpreter.Effect>, b: seq<Interpreter.Effect>)
    ensures AccessesOf(id, a + b) == AccessesOf(id, a) + AccessesOf(id, b)
  {
  }

  /** Each core is in step with a sequential machine that has made exactly its accesses in the log. */
  ghost predicate CoreInStep(p: Isa.Program, c: PipelineModel.CoreState, m: Interpreter.Machine, log: seq<Access>, id: CoreId) {
    PipelineRuns.InStep(p, c, m) && Of(log, id) == AccessesOf(id, m.effects)
  }

  /** The completed call is the access of the core's pipeline. */
  lemma TurnAccess(s: State, id: CoreId)
    ensures TickAccess(s, Turn(id)) == AccessesOf(id, PipelineRuns.Accesses(s.cores[id], AnswerInTurn(s, id)))
    ensures Of(TickAccess(s, Turn(id)), id) == TickAccess(s, Turn(id))
    ensures forall d: CoreId :: d != id ==> Of(TickAccess(s, Turn(id)), d) == []
  {
    hide MemoryAddress, PipelineModel.RequestAddress, PipelineModel.RequestData, PipelineModel.PipeFlushed;
  }

  // ----- one step ------------------------------------------------------------------------------------------------

  /** Nothing else in the log is touched by a turn of `id`. */
  lemma OtherCore(p: Isa.Program, s: State, t: Tick, m: Interpreter.Machine, log: seq<Access>, d: CoreId)
    requires CoreInStep(p, s.cores[d], m, log, d) && t != Turn(d)
    ensures CoreInStep(p, s.cores[d], m, log + TickAccess(s, t), d)
  {
    hide PipelineRuns.InStep, Call, AnswerTo, Of;
    OfAppend(log, TickAccess(s, t), d);
    if t.Turn? { TurnAccess(s, t.core); } else { assert Of([], d) == [] by { OfNothing(d); } }
  }

  lemma OfNothing(d: CoreId)
    ensures Of([], d) == []
  {
  }

  /** A turn under G4 is at most one instruction of the core's machine, with its access. */
  lemma TurnInStep(p: Isa.Program, s: State, id: CoreId, m: Interpreter.Machine, log: seq<Access>)
    requires Isa.SupportedProgram(p) && CoreInStep(p, s.cores[id], m, log, id) && PipelineRuns.InRange(s.cores[id])
    requires PipelineModel.Runs(s.cores[id]) ==> Simulation.HazardLasts(s.cores[id], AnswerInTurn(s, id))
    ensures var answer := AnswerInTurn(s, id);
            CoreInStep(p, PipelineModel.CoreIter(p, s.cores[id], answer), PipelineRuns.MachineAfter(s.cores[id], m, answer),
                       log + TickAccess(s, Turn(id)), id)
  {
    hide PipelineRuns.InStep, PipelineModel.CoreIter, Call, AnswerTo, Of, AnswerInTurn, TickAccess;
    hide PipelineRuns.MachineAfter, PipelineRuns.Accesses, AccessesOf;
    var c, answer := s.cores[id], AnswerInTurn(s, id);
    PipelineRuns.IterInStep(p, c, m, answer);
    PipelineRuns.IterAccesses(p, c, m, answer);
    OfAppend(log, TickAccess(s, Turn(id)), id);
    TurnAccess(s, id);
    AccessesAppend(id, m.effects, PipelineRuns.Accesses(c, answer));
  }

  /** The caches, the bus and memory take a step of the flat memory. */
  lemma TickRefines(programs: Programs, s: State, t: Tick)
    requires Possible(s, t) && GuardedTick(s, t) && Coherent(s.bus)
    ensures Coherent(TickStep(programs, s, t).bus)
    ensures Replay(FlatMemory(s.bus), TickAccess(s, t)) == Some(FlatMemory(TickStep(programs, s, t).bus))
  {
    hide Coherent, Guarded, PipelineModel.CoreIter, PipelineModel.Runs, BusIter, FlatMemory, Completed;
    hide Simulation.HazardLasts;
    match t
    case Bus => StepRefines(s.bus, Clock); assert Completed(s.bus, Clock) == [] by { ClockCompletesNothing(s.bus); }
    case Turn(id) => if Call(s.cores[id], id).Some? { StepRefines(s.bus, Call(s.cores[id], id).value); }
  }

  lemma ClockCompletesNothing(s: System)
    ensures Completed(s, Clock) == []
  {
  }

  // ----- sequential consistency ----------------------------------------------------------------------------------

  /** What is known of core `id` during a run: its machine is the interpreter fed with `inputs`. */
  ghost predicate Interprets(p: Isa.Program, regs: Isa.Registers, c: PipelineModel.CoreState, inputs: seq<Word>,
                             log: seq<Access>, id: CoreId)
  {
    var m := Interpreter.Interpret(p, regs, inputs);
    CoreInStep(p, c, m, log, id) && |inputs| == m.count
  }

  lemma InterpretsNext(p: Isa.Program, regs: Isa.Registers, s: State, t: Tick, inputs: seq<Word>, log: seq<Access>, id: CoreId)
    returns (next: seq<Word>)
    requires Isa.SupportedProgram(p) && Interprets(p, regs, s.cores[id], inputs, log, id)
    requires Possible(s, t) && GuardedTick(s, t)
    ensures var c := s.cores[id];
            Interprets(p, regs, if t == Turn(id) then PipelineModel.CoreIter(p, c, AnswerInTurn(s, id)) else c,
                       next, log + TickAccess(s, t), id)
  {
    hide CoreInStep, PipelineModel.CoreIter, Call, AnswerInTurn, TickAccess, Guarded, PipelineRuns.InStep;
    hide Interpreter.Interpret;
    hide Simulation.HazardLasts, PipelineRuns.MachineAfter;
    var m := Interpreter.Interpret(p, regs, inputs);
    if t == Turn(id) {
      var answer := AnswerInTurn(s, id);
      assert PipelineRuns.InStep(p, s.cores[id], m) by { InStepOf(p, s.cores[id], m, log, id); }
      next := PipelineRuns.InterpretedNext(p, s.cores[id], regs, inputs, answer);
      TurnInStep(p, s, id, m, log);
    } else {
      next := inputs;
      OtherCore(p, s, t, m, log, id);
    }
  }

  lemma InStepOf(p: Isa.Program, c: PipelineModel.CoreState, m: Interpreter.Machine, log: seq<Access>, id: CoreId)
    requires CoreInStep(p, c, m, log, id)
    ensures PipelineRuns.InStep(p, c, m)
  {
  }

  /** Core `id` of the final state, its machine and its part of the whole log. */
  lemma {:induction false} CoreRun(programs: Programs, regs: Isa.Registers, s: State, ticks: seq<Tick>, inputs: seq<Word>,
                                   log: seq<Access>, id: CoreId) returns (all: seq<Word>)
    requires Isa.SupportedProgram(programs[id]) && PossibleTicks(programs, s, ticks) && GuardedTicks(programs, s, ticks)
    requires Interprets(programs[id], regs, s.cores[id], inputs, log, id)
    ensures Interprets(programs[id], regs, Final(programs, s, ticks).cores[id], all, log + History(programs, s, ticks), id)
    decreases |ticks|
  {
    hide Interprets, Possible, GuardedTick, TickAccess, Call, AnswerInTurn, PipelineModel.CoreIter;
    if ticks == [] {
      all := inputs;
      assert log + History(programs, s, ticks) == log;
    } else {
      var u := TickStep(programs, s, ticks[0]);
      var next := InterpretsNext(programs[id], regs, s, ticks[0], inputs, log, id);
      StepCore(programs, s, ticks[0], id);
      all := CoreRun(programs, regs, u, ticks[1..], next, log + TickAccess(s, ticks[0]), id);
      assert log + TickAccess(s, ticks[0]) + History(programs, u, ticks[1..]) == log + History(programs, s, ticks);
    }
  }

  lemma StepCore(programs: Programs, s: State, t: Tick, id: CoreId)
    requires Possible(s, t)
    ensures TickStep(programs, s, t).cores[id] ==
            if t == Turn(id) then PipelineModel.CoreIter(programs[id], s.cores[id], AnswerInTurn(s, id)) else s.cores[id]
  {
    hide PipelineModel.CoreIter, Call, AnswerInTurn, BusIter;
  }

  lemma {:induction false} MemoryRun(programs: Programs, s: State, ticks: seq<Tick>)
    requires PossibleTicks(programs, s, ticks) && GuardedTicks(programs, s, ticks) && Coherent(s.bus)
    ensures Coherent(Final(programs, s, ticks).bus)
    ensures Replay(FlatMemory(s.bus), History(programs, s, ticks)) == Some(FlatMemory(Final(programs, s, ticks).bus))
    decreases |ticks|
  {
    hide Coherent, Possible, GuardedTick, TickStep, TickAccess, FlatMemory;
    if ticks != [] {
      var u := TickStep(programs, s, ticks[0]);
      TickRefines(programs, s, ticks[0]);
      MemoryRun(programs, u, ticks[1..]);
      ReplayAppend(FlatMemory(s.bus), TickAccess(s, ticks[0]), History(programs, u, ticks[1..]));
    }
  }

  /** The simulator before its first iteration. */
  function InitialState(image: Memory): State {
    var core := PipelineModel.InitialCore(Isa.ZeroRegisters());
    State(Initial(image), [core, core, core, core])
  }

  /**
    Sequential consistency. Under G1 to G4, for every schedule of bus iterations and core turns (the main
    loop's is one of them), there is one flat memory that performs the accesses of all cores in one order,
    each load returning the last word stored, and in that order each core's accesses are those of a
    sequential machine running its program, with the registers of the core.
   */
  lemma SequentiallyConsistent(programs: Programs, image: Memory, ticks: seq<Tick>, id: CoreId) returns (inputs: seq<Word>)
    requires forall c: CoreId :: Isa.SupportedProgram(programs[c])
    requires PossibleTicks(programs, InitialState(image), ticks) && GuardedTicks(programs, InitialState(image), ticks)
    ensures var log, s := History(programs, InitialState(image), ticks), Final(programs, InitialState(image), ticks);
            && Coherent(s.bus) && Replay(image, log) == Some(FlatMemory(s.bus))
            && var m := Interpreter.Interpret(programs[id], Isa.ZeroRegisters(), inputs);
               Of(log, id) == AccessesOf(id, m.effects) && PipelineRuns.InStep(programs[id], s.cores[id], m)
  {
    hide Coherent, PossibleTicks, GuardedTicks, PipelineModel.InitialCore, Initial, FlatMemory;
    hide PipelineRuns.InStep, Of, AccessesOf;
    hide Replay, History, Final, Interprets, CoreInStep, Interpreter.Interpret;
    var s := InitialState(image);
    InitialCoherent(image);
    MemoryRun(programs, s, ticks);
    InitiallyInterprets(programs[id], s.cores[id], id);
    inputs := CoreRun(programs, Isa.ZeroRegisters(), s, ticks, [], [], id);
    assert [] + History(programs, s, ticks) == History(programs, s, ticks);
    var core, log := Final(programs, s, ticks).cores[id], History(programs, s, ticks);
    InterpretsMeans(programs[id], Isa.ZeroRegisters(), core, inputs, log, id);
  }

  lemma InterpretsMeans(p: Isa.Program, regs: Isa.Registers, c: PipelineModel.CoreState, inputs: seq<Word>,
                        log: seq<Access>, id: CoreId)
    requires Interprets(p, regs, c, inputs, log, id)
    ensures var m := Interpreter.Interpret(p, regs, inputs);
            Of(log, id) == AccessesOf(id, m.effects) && PipelineRuns.InStep(p, c, m)
  {
  }

  /**
    What a finished program leaves. Once core `id` has emptied its pipe, its sequential machine stands at HALT
    with the core's registers, and the printed count is one more than its instructions. The main memory that the
    code dumps, without writing the caches back, has the word that results from all accesses, performed one after
    the other, exactly at the locations of which no cache has a dirty word; writing the caches back in any order
    would give it everywhere.
   */
  lemma FinishedProgram(programs: Programs, image: Memory, ticks: seq<Tick>, id: CoreId, order: seq<CoreId>)
    returns (inputs: seq<Word>)
    requires forall c: CoreId :: Isa.SupportedProgram(programs[c])
    requires PossibleTicks(programs, InitialState(image), ticks) && GuardedTicks(programs, InitialState(image), ticks)
    requires PipelineModel.PipeFlushed(Final(programs, InitialState(image), ticks).cores[id])
    requires forall c: CoreId :: c in order
    ensures var log, s := History(programs, InitialState(image), ticks), Final(programs, InitialState(image), ticks);
            var m := Interpreter.Interpret(programs[id], Isa.ZeroRegisters(), inputs);
            && Replay(image, log) == Some(FinalFlush.FlushInOrder(s.bus.memory, s.bus.caches, order))
            && (forall m :: 0 <= m < MAIN_MEMORY_SIZE ==>
                  (s.bus.memory[m] == Replay(image, log).value[m] <==> !FinalFlush.Dirty(s.bus, m)))
            && Of(log, id) == AccessesOf(id, m.effects)
            && Interpreter.Halts(programs[id], m) && s.cores[id].instructions - 1 == m.count + 1
            && (forall r :: Simulation.MutableRegister(r) ==> s.cores[id].regs[r] == m.regs[r])
  {
    hide PossibleTicks, GuardedTicks, InitialState, FlatMemory, PipelineRuns.InStep, Of, AccessesOf;
    hide PipelineModel.PipeFlushed;
    hide Replay, History, Final, Interpreter.Interpret, FinalFlush.FlushInOrder, Interpreter.Halts, FinalFlush.Dirty;
    inputs := SequentiallyConsistent(programs, image, ticks, id);
    var s := Final(programs, InitialState(image), ticks);
    FinalFlush.FlushMakesFlatMemory(s.bus, order);
    forall m | 0 <= m < MAIN_MEMORY_SIZE
      ensures s.bus.memory[m] == FlatMemory(s.bus)[m] <==> !FinalFlush.Dirty(s.bus, m)
    {
      FinalFlush.DumpedWord(s.bus, m);
    }
    PipelineRuns.FlushedAtHalt(programs[id], s.cores[id], Interpreter.Interpret(programs[id], Isa.ZeroRegisters(), inputs));
  }

  lemma InitiallyInterprets(p: Isa.Program, c: PipelineModel.CoreState, id: CoreId)
    requires c == PipelineModel.InitialCore(Isa.ZeroRegisters())
    ensures Interprets(p, Isa.ZeroRegisters(), c, [], [], id)
  {
    hide PipelineRuns.InStep, PipelineModel.InitialCore;
    PipelineRuns.StartsInStep(p, Isa.ZeroRegisters());
  }

  // ----- the store behind an upgrade -----------------------------------------------------------------------------

  /** Core `r` is about to store `w`, and its cache would take it. */
  ghost predicate StoreReady(s: State, r: CoreId, a: Address, w: Word) {
    WriteHits(s.bus, r, a) && Call(s.cores[r], r) == Some(Write(r, a, w))
  }

  /** The turn of another core leaves the store ready. */
  lemma OtherTurnKeepsStore(programs: Programs, s: State, id: CoreId, r: CoreId, a: Address, w: Word)
    requires Possible(s, Turn(id)) && id != r && StoreReady(s, r, a, w)
    ensures StoreReady(TickStep(programs, s, Turn(id)), r, a, w)
  {
    hide PipelineModel.CoreIter, PipelineModel.Runs, PipelineModel.Requests, AnswerTo, TagOf, IndexOf;
    hide Request, Miss, StoreWord;
    var call := Call(s.cores[id], id);
    if call.Some? { OtherCallKeepsHit(s.bus, call.value, id, r, a) by { CallNamesCore(s.cores[id], id); } }
  }

  lemma CallNamesCore(c: PipelineModel.CoreState, id: CoreId)
    requires Call(c, id).Some?
    ensures !Call(c, id).value.Clock? && Call(c, id).value.core == id
  {
    hide PipelineModel.Runs, PipelineModel.Requests;
  }

  lemma OtherCallKeepsHit(s: System, call: Action, id: CoreId, r: CoreId, a: Address)
    requires !call.Clock? && call.core == id != r && WriteHits(s, r, a)
    ensures WriteHits(CallStep(s, call), r, a)
  {
    hide TagOf, IndexOf, StoreWord, Miss, AddTransaction;
    match call
    case Read(c, x) => Gate.MissUnfolded(s, c, x, BusRd);
    case Write(c, x, w) =>
      Gate.MissUnfolded(s, c, x, BusRdX);
      Gate.UpgradeUnfolded(s, c, x);
  }

  /** Among the turns of the cores, the one of core `r` performs the store. */
  lemma {:induction false} TurnsCommit(programs: Programs, s: State, turns: seq<Tick>, r: CoreId, a: Address, w: Word)
    requires PossibleTicks(programs, s, turns) && (forall t :: t in turns ==> t.Turn?) && Turn(r) in turns
    requires StoreReady(s, r, a, w)
    ensures Store(r, MemoryAddress(a), w) in History(programs, s, turns)
    decreases |turns|
  {
    hide Possible, TickStep, Call, WriteHits, MemoryAddress;
    var t := turns[0];
    if t == Turn(r) {
      assert TickAccess(s, t) == [Store(r, MemoryAddress(a), w)];
    } else {
      OtherTurnKeepsStore(programs, s, t.core, r, a, w);
      TurnsCommit(programs, TickStep(programs, s, t), turns[1..], r, a, w);
    }
  }

  /**
    An upgrade has ended and its core still wants to store: in the next iteration of the main loop the store is
    performed, and no other request reaches the line before it.
   */
  lemma UpgradeCommits(programs: Programs, s: State, r: CoreId, a: Address, w: Word)
    requires PossibleTicks(programs, s, Iteration()) && Outcomes.UpgradeEnded(s.bus, r)
    requires s.bus.caches[r].tsram[IndexOf(a)] == CacheModel.Frame(TagOf(a), Exclusive)
    requires Call(s.cores[r], r) == Some(Write(r, a, w))
    ensures Store(r, MemoryAddress(a), w) in History(programs, s, Iteration())
    ensures !TickStep(programs, s, Bus).bus.inProgress && TickStep(programs, s, Bus).bus.caches == s.bus.caches
  {
    hide Call, MemoryAddress, BusIter, WriteHits, TagOf, IndexOf, Outcomes.UpgradeEnded;
    var turns := [Turn(0), Turn(1), Turn(2), Turn(3)];
    assert Iteration() == [Bus] + turns;
    FirstTick(programs, s, Bus, turns);
    PossibleBus(s);
    Outcomes.UpgradeReleased(s.bus, r, a);
    assert turns[r] == Turn(r);
    TurnsCommit(programs, TickStep(programs, s, Bus), turns, r, a, w);
    assert Iteration()[1..] == turns;
  }
}
