/** Whole runs of one core: they are runs of the sequential machine, with the same registers, accesses and count. */
module PipelineRuns {
  import opened Types
  import opened Isa
  import opened Interpreter
  import opened PipelineModel
  import opened Simulation
  import opened SimulationCycle
  import opened SimulationProof

  // ----- runs ------------------------------------------------------------------------------------------------------

  /** A fetch in this iteration stays within the instruction memory. */
  predicate InRange(c: CoreState) { Runs(c) && Fetches(c) ==> c.pc < INSTRUCTIONS_MEMORY_SIZE }

  /** Iterations of the core, with the answer of the cache in each. */
  ghost predicate Run(p: Program, c: CoreState, answers: seq<Option<Word>>)
    decreases |answers|
  {
    answers == [] || (InRange(c) && Run(p, CoreIter(p, c, answers[0]), answers[1..]))
  }

  /** G4 in every iteration of the run. */
  ghost predicate HazardsLast(p: Program, c: CoreState, answers: seq<Option<Word>>)
    requires Run(p, c, answers)
    decreases |answers|
  {
    answers == [] ||
    ((Runs(c) ==> HazardLasts(c, answers[0])) && HazardsLast(p, CoreIter(p, c, answers[0]), answers[1..]))
  }

  ghost function After(p: Program, c: CoreState, answers: seq<Option<Word>>): CoreState
    requires Run(p, c, answers)
    decreases |answers|
  {
    if answers == [] then c else After(p, CoreIter(p, c, answers[0]), answers[1..])
  }

  /** The access that an iteration completes. */
  function Accesses(c: CoreState, answer: Option<Word>): seq<Effect> {
    if !(Runs(c) && Requests(c) && answer.Some?) then []
    else if c.mem.instruction.opcode == LW then [Loaded(RequestAddress(c), answer.value)]
    else [Stored(RequestAddress(c), RequestData(c))]
  }

  ghost function Trace(p: Program, c: CoreState, answers: seq<Option<Word>>): seq<Effect>
    requires Run(p, c, answers)
    decreases |answers|
  {
    if answers == [] then [] else Accesses(c, answers[0]) + Trace(p, CoreIter(p, c, answers[0]), answers[1..])
  }

  // ----- counting ----------------------------------------------------------------------------------------------------

  function One(b: bool): nat { if b then 1 else 0 }

  /** The instructions that have entered DECODE and are not executed yet; HALT stays one of them. */
  function InFlight(c: CoreState): nat {
    One(c.mem.Active()) + One(c.execute.Active()) + One(c.halted || c.decode.Live())
  }

  /** The last cycle moved an instruction into DECODE, or none has run yet. */
  predicate Entered(c: CoreState) { !c.halted && !c.memoryStall && !c.hazardStall }

  /** The counter is one ahead of the entries into DECODE before the last cycle. */
  predicate CountAgrees(c: CoreState, m: Machine) {
    c.instructions + One(Entered(c)) == m.count + InFlight(c) + 1
  }

  lemma CountKept(p: Program, c: CoreState, m: Machine, b: CoreState, answer: Option<Word>)
    requires Agrees(p, c, m) && Worked(p, c, m, b, answer)
    ensures var t, m' := BubbleCommands(b), Committed(c, m, answer);
            m'.count + InFlight(t) == m.count + InFlight(c) + One(Entered(t)) && t.instructions == b.instructions
  {
    hide HazardWith, OnPath, ResultsAgree, RegistersAgree, Executed, Decoded, Answered, WorkedRegisters, Following;
    hide NoReadAfterWrite, Fields, RegistersAfter, EffectsOf;
  }

  // ----- one iteration -------------------------------------------------------------------------------------------

  /** The core and the sequential machine correspond. */
  ghost predicate InStep(p: Program, c: CoreState, m: Machine) { Agrees(p, c, m) && CountAgrees(c, m) }

  /** The machine after the core's iteration. */
  function MachineAfter(c: CoreState, m: Machine, answer: Option<Word>): Machine {
    if Runs(c) then Committed(c, m, answer) else m
  }

  lemma StartsInStep(p: Program, regs: Registers)
    requires regs[ZERO_REGISTER] == 0
    ensures InStep(p, InitialCore(regs), Start(regs))
  {
  }

  lemma IterInStep(p: Program, c: CoreState, m: Machine, answer: Option<Word>)
    requires SupportedProgram(p) && InStep(p, c, m) && InRange(c) && (Runs(c) ==> HazardLasts(c, answer))
    ensures InStep(p, CoreIter(p, c, answer), MachineAfter(c, m, answer))
  {
    hide FrontEnd, BackEnd, BubbleCommands, Worked, Committed, Hazard;
    if Runs(c) {
      var d := Counted(c);
      AgreesWithout(p, c, d, m, answer);
      CycleAgrees(p, d, m, answer);
      CycleWorks(p, d, m, answer);
      CountKept(p, d, m, BackEnd(FrontEnd(p, d), answer), answer);
      CountsFrame(p, d, answer);
    } else if !c.stopped {
      AgreesWithout(p, c, c.(stopped := true), m, answer);
    }
  }

  /** The relation does not look at the counter and the stop flag. */
  lemma AgreesWithout(p: Program, c: CoreState, d: CoreState, m: Machine, answer: Option<Word>)
    requires Agrees(p, c, m) && d == c.(instructions := d.instructions, stopped := d.stopped)
    ensures Agrees(p, d, m) && Committed(d, m, answer) == Committed(c, m, answer) && InFlight(d) == InFlight(c)
    ensures HazardLasts(d, answer) == HazardLasts(c, answer)
  {
    hide Following, Executed, Decoded, Settled, Compares;
  }

  lemma CountsFrame(p: Program, c: CoreState, answer: Option<Word>)
    requires Fetches(c) ==> c.pc < INSTRUCTIONS_MEMORY_SIZE
    requires c.memoryStall ==> Requests(c)
    ensures BackEnd(FrontEnd(p, c), answer).instructions == c.instructions
  {
    hide FrontEnd, BackEnd, Hazard;
    FrontEndFrame(p, c);
    BackEndFrame(FrontEnd(p, c), answer);
  }

  /** The accesses of an iteration are those of the instruction that the sequential machine executes. */
  lemma IterAccesses(p: Program, c: CoreState, m: Machine, answer: Option<Word>)
    requires SupportedProgram(p) && InStep(p, c, m)
    ensures MachineAfter(c, m, answer).effects == m.effects + Accesses(c, answer)
  {
    hide HazardWith, OnPath, ResultsAgree, RegistersAgree, Executed, Decoded, NoReadAfterWrite, Following;
    hide RegistersAfter;
    hide RequestAddress, Address, RequestData, Operand, CountAgrees, HaltIsLast, Stalled;
    if Requests(c) { RequestAgrees(p, c, m); }
  }

  /** The machine's step is the interpreter's next instruction. */
  lemma InterpretedNext(p: Program, c: CoreState, regs: Registers, inputs: seq<Word>, answer: Option<Word>)
    returns (next: seq<Word>)
    requires InStep(p, c, Interpret(p, regs, inputs)) && |inputs| == Interpret(p, regs, inputs).count
    ensures Interpret(p, regs, next) == MachineAfter(c, Interpret(p, regs, inputs), answer)
    ensures |next| == Interpret(p, regs, next).count
  {
    hide HazardWith, ResultsAgree, RegistersAgree, NoReadAfterWrite, Following, RegistersAfter, EffectsOf;
    hide CountAgrees, HaltIsLast;
    hide FetchOnPath, Stalled, Fields;
    var m := Interpret(p, regs, inputs);
    if Runs(c) && Commits(c, answer) {
      next := inputs + [Answer(answer)];
      assert next[..|next| - 1] == inputs;
    } else {
      next := inputs;
    }
  }

  // ----- main results --------------------------------------------------------------------------------------------

  lemma {:induction false} RunInStep(p: Program, c: CoreState, regs: Registers, inputs: seq<Word>, answers: seq<Option<Word>>)
    returns (all: seq<Word>)
    requires SupportedProgram(p) && Run(p, c, answers) && HazardsLast(p, c, answers)
    requires InStep(p, c, Interpret(p, regs, inputs)) && |inputs| == Interpret(p, regs, inputs).count
    ensures InStep(p, After(p, c, answers), Interpret(p, regs, all))
    ensures Interpret(p, regs, all).effects == Interpret(p, regs, inputs).effects + Trace(p, c, answers)
    ensures |all| == Interpret(p, regs, all).count
    decreases |answers|
  {
    hide InStep, Interpret, CoreIter, HazardLasts, Accesses, MachineAfter, Runs, Fetches;
    if answers == [] {
      all := inputs;
    } else {
      var m := Interpret(p, regs, inputs);
      IterInStep(p, c, m, answers[0]);
      IterAccesses(p, c, m, answers[0]);
      var next := InterpretedNext(p, c, regs, inputs, answers[0]);
      all := RunInStep(p, CoreIter(p, c, answers[0]), regs, next, answers[1..]);
    }
  }

  /**
    Under G4, for any memory delays, a core is at every point in step with the sequential machine: the
    accesses completed are the machine's, in order, and its registers are the machine's up to the
    instruction in the write-back stage.
   */
  lemma PipelineRefinesInterpreter(p: Program, regs: Registers, answers: seq<Option<Word>>) returns (inputs: seq<Word>)
    requires SupportedProgram(p) && regs[ZERO_REGISTER] == 0
    requires Run(p, InitialCore(regs), answers) && HazardsLast(p, InitialCore(regs), answers)
    ensures var c, m := After(p, InitialCore(regs), answers), Interpret(p, regs, inputs);
            && m.effects == Trace(p, InitialCore(regs), answers) && m.count == |inputs|
            && (forall r :: MutableRegister(r) ==>
                  m.regs[r] == if c.writeBack.Produces(r) then c.writeBack.result else c.regs[r])
            && InStep(p, c, m)
  {
    hide InStep, InitialCore, CoreIter, InRange, HazardLasts;
    StartsInStep(p, regs);
    inputs := RunInStep(p, InitialCore(regs), regs, [], answers);
    assert Interpret(p, regs, []).effects == [];
    RegistersInStep(p, After(p, InitialCore(regs), answers), Interpret(p, regs, inputs));
  }

  lemma RegistersInStep(p: Program, c: CoreState, m: Machine)
    requires InStep(p, c, m)
    ensures forall r :: MutableRegister(r) ==>
              m.regs[r] == if c.writeBack.Produces(r) then c.writeBack.result else c.regs[r]
  {
  }

  /** After a write-back, R2 .. R15 are the sequential machine's after that instruction. */
  lemma RegistersAfterWriteBack(p: Program, c: CoreState, m: Machine, answer: Option<Word>)
    requires SupportedProgram(p) && InStep(p, c, m) && InRange(c) && Runs(c)
    ensures forall r :: MutableRegister(r) ==> CoreIter(p, c, answer).regs[r] == m.regs[r]
  {
    hide FrontEnd, BackEnd, WorkedFrame, WorkedFront, Executed, Answered, Hazard, Agrees;
    var d := Counted(c);
    AgreesWithout(p, c, d, m, answer);
    CycleWorks(p, d, m, answer);
  }

  /** When the pipe is empty the machine is at HALT, with the same registers; the printed count includes HALT. */
  lemma FlushedAtHalt(p: Program, c: CoreState, m: Machine)
    requires InStep(p, c, m) && PipeFlushed(c)
    ensures Halts(p, m) && c.instructions - 1 == m.count + 1
    ensures forall r :: MutableRegister(r) ==> c.regs[r] == m.regs[r]
  {
    hide ResultsAgree, NoReadAfterWrite, HoldsProgram, Stalled, Fields;
  }
}
