/** G4: what happens when a miss begins while the decoded instruction waits for WRITE_BACK alone. */
module PipelineGuard {
  import opened Types
  import opened Isa
  import opened Interpreter
  import opened PipelineModel
  import opened Simulation
  import opened SimulationCycle
  import opened SimulationProof
  import opened PipelineRuns

  /** A miss begins in this cycle, with an instruction in DECODE. */
  ghost predicate MissBegins(p: Program, c: CoreState, j: Machine) {
    && SupportedProgram(p) && Agrees(p, c, j)
    && !c.memoryStall && Requests(c) && c.decode.Live() && c.pc < INSTRUCTIONS_MEMORY_SIZE
  }

  /** The decoded instruction slips past decode: its hazard goes away with the write-back. */
  predicate Slips(c: CoreState) { !HazardLasts(c, None) }

  /**
    A slip does no harm if the instruction has nothing left to do in decode and fetching its successor
    twice is right: that is HALT, or the instruction is a taken branch to it.
   */
  predicate SlipIsHarmless(p: Program, c: CoreState, j: Machine)
    requires c.pc < INSTRUCTIONS_MEMORY_SIZE
  {
    var i := c.decode.instruction;
    && i.opcode != HALT && Decoded(j.regs, c.decode)
    && (InstructionAt(p, c.pc).opcode == HALT || Following(j.regs, i, c.pc) == c.pc)
  }

  /** The state a slip leaves, with the hazard flag that the next cycle computes. */
  function Slipped(p: Program, c: CoreState): CoreState
    requires Fetches(c) ==> c.pc < INSTRUCTIONS_MEMORY_SIZE
  {
    Cycle(p, c, None).(hazardStall := false)
  }

  /** The cycle that begins the miss: nothing moves, and the successor has been fetched without counting it. */
  lemma SlippedShape(p: Program, c: CoreState, j: Machine)
    requires MissBegins(p, c, j) && Slips(c)
    ensures var t := Slipped(p, c);
            && !t.halted && !c.halted && t.memoryStall && !Hazard(t) && Requests(t) && !t.writeBack.Live()
            && t.decode == c.decode && SameInstruction(c.execute, t.execute) && SameInstruction(c.mem, t.mem)
            && t.pc == c.pc && t.fetched.pc == c.pc && t.fetched.instruction == InstructionAt(p, c.pc)
            && Independent(c.decode.instruction, c.mem) && Independent(c.decode.instruction, c.execute)
  {
    hide FrontEnd, BackEnd, OnPath, ResultsAgree, RegistersAgree, Executed, Answered, Following, Decoded;
    CycleWorks(p, c, j, None);
    SlipIndependent(c);
  }

  lemma SlipIndependent(c: CoreState)
    requires Slips(c)
    ensures Independent(c.decode.instruction, c.mem) && Independent(c.decode.instruction, c.execute)
  {
  }

  /** The slipped state agrees with the sequential machine exactly when the slip is harmless. */
  lemma SlippedAgrees(p: Program, c: CoreState, j: Machine)
    requires MissBegins(p, c, j) && Slips(c) && SlipIsHarmless(p, c, j)
    ensures Agrees(p, Slipped(p, c), j)
  {
    hide FrontEnd, BackEnd, BubbleCommands, WorkedFront, WorkedRegisters, HazardLasts, HoldsProgram, HaltIsLast;
    hide NoReadAfterWrite;
    hide Hazard, Executed, Answered, RegistersAgree, ResultsAgree, OnPath, Decoded, Following;
    var b := BackEnd(FrontEnd(p, c), None);
    var u := Cycle(p, c, None);
    CycleWorks(p, c, j, None);
    SlippedShape(p, c, j);
    KeepsProgram(p, c, j, b, u, None);
    KeepsHaltLast(p, c, j, b, u, None);
    KeepsIndependence(p, c, j, b, u, None);
    KeepsRegisters(p, c, j, b, u, None);
    KeepsResults(p, c, j, b, u, None);
    SlippedFacts(p, c, j, b, u);
  }

  lemma SlippedFacts(p: Program, c: CoreState, j: Machine, b: CoreState, u: CoreState)
    requires MissBegins(p, c, j) && Slips(c) && SlipIsHarmless(p, c, j)
    requires Moves(p, c, j, b, u, None) && b.memoryStall && u == Cycle(p, c, None)
    requires HoldsProgram(p, u) && HaltIsLast(u) && NoReadAfterWrite(u) && RegistersAgree(u, j) && ResultsAgree(u, j)
    ensures var t := Slipped(p, c);
            && HoldsProgram(p, t) && HaltIsLast(t) && NoReadAfterWrite(t) && RegistersAgree(t, j) && ResultsAgree(t, j)
            && OnPath(p, t, j)
  {
    hide FrontEnd, BackEnd, BubbleCommands, Worked, HazardLasts, Executed, Decoded, Following, Settled, Hazard;
    SlippedShape(p, c, j);
    StallKeepsPositions(p, c, j, b, u, None);
  }

  /** The next cycle computes the hazard flag itself. */
  lemma NextFromSlipped(p: Program, c: CoreState, answer: Option<Word>)
    requires (Fetches(c) ==> c.pc < INSTRUCTIONS_MEMORY_SIZE) && Cycle(p, c, None).memoryStall
    ensures Cycle(p, Cycle(p, c, None), answer) == Cycle(p, Slipped(p, c), answer)
  {
    hide FrontEnd, BackEnd, BubbleCommands;
    var u := Cycle(p, c, None);
    SameFrontEnd(p, u);
  }

  lemma SameFrontEnd(p: Program, u: CoreState)
    requires u.memoryStall
    ensures FrontEnd(p, u.(hazardStall := false)) == FrontEnd(p, u)
  {
    hide Compares;
  }

  /** A cycle of the slipped state: it waits again, or its stages move on. */
  lemma SlippedCycle(p: Program, c: CoreState, j: Machine, answer: Option<Word>)
    requires MissBegins(p, c, j) && Slips(c)
    ensures var t := Cycle(p, Slipped(p, c), answer);
            && !t.halted && t.memoryStall == answer.None? && !t.hazardStall && t.pc == c.pc
            && t.regs[ZERO_REGISTER] == Slipped(p, c).regs[ZERO_REGISTER]
    ensures var t := Cycle(p, Slipped(p, c), answer);
            if answer.None?
            then t.decode == c.decode && t.fetched.pc == c.pc && t.fetched.instruction == InstructionAt(p, c.pc)
                 && SameInstruction(c.execute, t.execute) && SameInstruction(c.mem, t.mem)
            else t.execute == c.decode && t.decode.pc == c.pc && t.decode.instruction == InstructionAt(p, c.pc)
                 && SameInstruction(c.execute, t.mem) && SameInstruction(c.mem, t.writeBack)
  {
    hide FrontEnd, BackEnd, Hazard, Slipped, Agrees;
    var s := Slipped(p, c);
    SlippedShape(p, c, j);
    FrontEndFrame(p, s);
    BackEndFrame(FrontEnd(p, s), answer);
    BackEndRegisters(FrontEnd(p, s), answer);
  }

  /**
    Once the miss is answered, the next cycle without a stall leaves the successor of the slipped instruction in
    EXECUTE and in DECODE at once: it will be executed twice, unless it is HALT.
   */
  lemma SuccessorTwice(p: Program, c: CoreState, j: Machine, loaded: Word, answer: Option<Word>)
    requires MissBegins(p, c, j) && Slips(c) && InstructionAt(p, c.pc).opcode != HALT
    ensures var t := Cycle(p, Slipped(p, c), Some(loaded));
            && !t.halted && t.pc == c.pc
            && var u := Cycle(p, t, answer);
               !u.memoryStall && !u.hazardStall ==>
                 && u.execute.pc == c.pc && u.execute.instruction == InstructionAt(p, c.pc)
                 && u.decode.pc == c.pc && u.decode.instruction == InstructionAt(p, c.pc)
  {
    hide FrontEnd, BackEnd, Slipped, Agrees, Slips;
    SlippedShape(p, c, j);
    SlippedCycle(p, c, j, Some(loaded));
    var t := Cycle(p, Slipped(p, c), Some(loaded));
    FrontEndFrame(p, t);
    BackEndFrame(FrontEnd(p, t), answer);
  }

  /** Agreement after the next cycle means that the slip was harmless: the wait goes on. */
  lemma WaitingNeedsHarmless(p: Program, c: CoreState, j: Machine, t: CoreState)
    requires MissBegins(p, c, j) && Slips(c) && t == Cycle(p, Slipped(p, c), None) && Agrees(p, t, j)
    ensures SlipIsHarmless(p, c, j)
  {
    hide Slipped, Cycle, Hazard, Following, Decoded, Executed, RegistersAgree, NoReadAfterWrite, Fields, Settled;
    SlippedCycle(p, c, j, None);
    assert AfterExecute(t, j) == AfterExecute(c, j);
  }

  /** Or the stages move on. */
  lemma MovingNeedsHarmless(p: Program, c: CoreState, j: Machine, t: CoreState, answer: Option<Word>)
    requires MissBegins(p, c, j) && Slips(c) && t == Cycle(p, Slipped(p, c), answer) && answer.Some?
    requires Agrees(p, t, Committed(c, j, answer))
    ensures SlipIsHarmless(p, c, j)
  {
    hide Slipped, Cycle, Hazard, Following, Executed, RegistersAgree, Fields, Settled, Independent, Committed, Operand;
    var i, j' := c.decode.instruction, Committed(c, j, answer);
    SlippedCycle(p, c, j, answer);
    SlipIndependent(c);
    StageKept(c, j, answer, c.execute, AfterMem(c, j));
    StageKept(c, j, answer, c.decode, AfterExecute(c, j));
    CommittedPosition(c, j, answer);
    assert AfterMem(t, j') == AfterExecute(c, j);
    assert AfterExecute(t, j') == Past(j.regs, c.decode, AfterExecute(c, j));
    if i.IsBranch() { OperandKept(c, j, answer, i, i.rd); }
  }

  lemma CommittedPosition(c: CoreState, j: Machine, answer: Option<Word>)
    requires Requests(c) && answer.Some?
    ensures Position(Committed(c, j, answer).pc, Committed(c, j, answer).npc) == AfterMem(c, j)
  {
    hide Following, RegistersAfter, EffectsOf;
  }

  /**
    Exactly when a miss may begin: the pipeline is in step with the sequential machine after the next
    cycle if and only if G4 holds or the slip is harmless.
   */
  lemma MissExact(p: Program, c: CoreState, j: Machine, answer: Option<Word>)
    requires MissBegins(p, c, j)
    ensures Cycle(p, c, None).memoryStall
    ensures Agrees(p, Cycle(p, Cycle(p, c, None), answer), Committed(Cycle(p, c, None), j, answer)) <==>
              HazardLasts(c, None) || SlipIsHarmless(p, c, j)
  {
    hide FrontEnd, BackEnd, BubbleCommands, Worked, HazardLasts, SlipIsHarmless, HoldsProgram, NoReadAfterWrite, Hazard;
    hide RegistersAgree, ResultsAgree, OnPath, HaltIsLast, Cycle, Slipped;
    MissStalls(p, c, j, answer);
    var u := Cycle(p, c, None);
    if HazardLasts(c, None) {
      CycleAgrees(p, c, j, None);
      HazardLastsWhileStalled(u, answer);
      CycleAgrees(p, u, j, answer);
    } else {
      NextFromSlipped(p, c, answer);
      var t := Cycle(p, Slipped(p, c), answer);
      if SlipIsHarmless(p, c, j) {
        SlippedAgrees(p, c, j);
        HazardLastsWhileStalled(Slipped(p, c), answer);
        CycleAgrees(p, Slipped(p, c), j, answer);
      } else if Agrees(p, t, Committed(u, j, answer)) {
        if answer.None? { WaitingNeedsHarmless(p, c, j, t); } else { MovingNeedsHarmless(p, c, j, t, answer); }
      }
    }
  }

  lemma HazardLastsWhileStalled(c: CoreState, answer: Option<Word>)
    requires c.memoryStall
    ensures HazardLasts(c, answer)
  {
  }

  lemma MissStalls(p: Program, c: CoreState, j: Machine, answer: Option<Word>)
    requires MissBegins(p, c, j)
    ensures Cycle(p, c, None).memoryStall && Slipped(p, c).memoryStall && Committed(c, j, None) == j
    ensures Committed(Cycle(p, c, None), j, answer) == Committed(c, j, answer)
    ensures Committed(Slipped(p, c), j, answer) == Committed(c, j, answer)
  {
    hide FrontEnd, BackEnd, OnPath, ResultsAgree, RegistersAgree, Executed, Answered, Following, Decoded;
    hide Hazard, RegistersAfter, EffectsOf;
    CycleWorks(p, c, j, None);
  }

  // ----- a program that breaks G4 ------------------------------------------------------------------------------------

  const ADD_R2 := Instruction(ADD, 2, 0, 1, 5)    // R2 = 5
  const LOAD_R3 := Instruction(LW, 3, 0, 1, 0)    // R3 = memory[0]: misses
  const NOP := Instruction(ADD, 0, 0, 0, 0)
  const LOAD_R4 := Instruction(LW, 4, 2, 0, 0)    // R4 = memory[R2]: waits for R2
  const STORE_R1 := Instruction(SW, 1, 0, 0, 7)   // memory[0] = 7
  const STOP := Instruction(HALT, 0, 0, 0, 0)

  function Example(): Program {
    [0x0020_1005, 0x1030_1000, 0, 0x1042_0000, 0x1110_0007, 0x1400_0000] + seq(INSTRUCTIONS_MEMORY_SIZE - 6, _ => 0)
  }

  lemma ExampleInstructions()
    ensures var p := Example();
            && InstructionAt(p, 0) == ADD_R2 && InstructionAt(p, 1) == LOAD_R3 && InstructionAt(p, 2) == NOP
            && InstructionAt(p, 3) == LOAD_R4 && InstructionAt(p, 4) == STORE_R1 && InstructionAt(p, 5) == STOP
            && SupportedProgram(p)
  {
    var p := Example();
    forall pc | 0 <= pc < INSTRUCTIONS_MEMORY_SIZE ensures InstructionAt(p, pc).Supported() {
      assert pc >= 6 ==> p[pc] == 0;
    }
  }

  function At(pc: Pc, i: Instruction, result: Word, operation: nat): Stage { Stage(pc, i, result, operation) }

  function Core(n: nat): CoreState
    requires 1 <= n <= 4
  {
    var none := NO_OPERATION;
    var off := EmptyStage(BUBBLE);
    if n == 1 then
      CoreState(1, ZeroRegisters(), At(0, ADD_R2, 0, none), At(0, ADD_R2, 0, none), off, off, off, false, false, false, 1, false)
    else if n == 2 then
      CoreState(2, ZeroRegisters(), At(1, LOAD_R3, 0, none), At(1, LOAD_R3, 0, none), At(0, ADD_R2, 0, ADD), off, off,
                false, false, false, 2, false)
    else if n == 3 then
      CoreState(3, ZeroRegisters()[1 := 5], At(2, NOP, 0, none), At(2, NOP, 0, none), At(1, LOAD_R3, 0, none), At(0, ADD_R2, 5, ADD), off,
                false, false, false, 3, false)
    else
      CoreState(4, ZeroRegisters()[1 := 5], At(3, LOAD_R4, 0, none), At(3, LOAD_R4, 0, none), At(2, NOP, 0, ADD), At(1, LOAD_R3, 0, none),
                At(0, ADD_R2, 5, ADD), false, false, false, 4, false)
  }

  lemma FirstCycle()
    ensures InRange(InitialCore(ZeroRegisters())) && CoreIter(Example(), InitialCore(ZeroRegisters()), None) == Core(1)
  {
    hide Example, InstructionAt;
    ExampleInstructions();
  }

  lemma SecondCycle()
    ensures InRange(Core(1)) && CoreIter(Example(), Core(1), None) == Core(2)
  {
    hide Example, InstructionAt;
    ExampleInstructions();
  }

  lemma ThirdCycle()
    ensures InRange(Core(2)) && CoreIter(Example(), Core(2), None) == Core(3)
  {
    hide Example, InstructionAt;
    ExampleInstructions();
  }

  lemma FourthCycle()
    ensures InRange(Core(3)) && CoreIter(Example(), Core(3), None) == Core(4)
  {
    hide Example, InstructionAt;
    ExampleInstructions();
  }

  lemma ExampleRun()
    ensures var p, c, answers := Example(), InitialCore(ZeroRegisters()), [None, None, None, None];
            Run(p, c, answers) && HazardsLast(p, c, answers) && After(p, c, answers) == Core(4)
            && Trace(p, c, answers) == []
  {
    hide Example, CoreIter, InRange;
    FirstCycle();
    SecondCycle();
    ThirdCycle();
    FourthCycle();
  }

  /** The core after the slip, up to the first store in MEM. */
  function SlippedCore(n: nat): CoreState
    requires 5 <= n <= 8
  {
    var none := NO_OPERATION;
    var regs := ZeroRegisters()[2 := 5];
    if n == 5 then
      CoreState(4, regs, At(4, STORE_R1, 0, none), At(3, LOAD_R4, 0, none), At(2, NOP, 0, ADD), At(1, LOAD_R3, 0, none),
                At(BUBBLE, ADD_R2, 5, ADD), false, true, true, 5, false)
    else if n == 6 then
      CoreState(4, regs, At(4, STORE_R1, 0, none), At(4, STORE_R1, 0, none), At(3, LOAD_R4, 0, none), At(2, NOP, 0, ADD),
                At(1, LOAD_R3, 0, none), false, false, false, 5, false)
    else if n == 7 then
      CoreState(5, regs, At(4, STORE_R1, 0, none), At(4, STORE_R1, 0, none), At(4, STORE_R1, 0, none), At(3, LOAD_R4, 0, none),
                At(2, NOP, 0, ADD), false, false, false, 6, false)
    else
      CoreState(6, regs, At(5, STOP, 0, none), At(5, STOP, 0, none), At(4, STORE_R1, 0, none), At(4, STORE_R1, 0, none),
                At(3, LOAD_R4, 9, none), false, false, false, 7, false)
  }

  lemma FifthCycle()
    ensures InRange(Core(4)) && Accesses(Core(4), None) == []
    ensures CoreIter(Example(), Core(4), None) == SlippedCore(5)
  {
    hide Example, InstructionAt;
    ExampleInstructions();
  }

  /** While the core waits, its front end only drops the hazard. */
  lemma SixthFrontEnd()
    ensures InRange(SlippedCore(5)) && Runs(SlippedCore(5)) && Accesses(SlippedCore(5), Some(0)) == [Loaded(0, 0)]
    ensures Counted(SlippedCore(5)) == SlippedCore(5)
    ensures FrontEnd(Example(), SlippedCore(5)) == SlippedCore(5).(hazardStall := false)
  {
    hide Example, InstructionAt;
  }

  lemma SixthBackEnd()
    ensures var c := SlippedCore(5).(hazardStall := false);
            BackEnd(c, Some(0)) == c.(mem := At(1, LOAD_R3, 0, NO_OPERATION), memoryStall := false)
  {
  }

  lemma SixthCycle()
    ensures InRange(SlippedCore(5)) && Accesses(SlippedCore(5), Some(0)) == [Loaded(0, 0)]
    ensures CoreIter(Example(), SlippedCore(5), Some(0)) == SlippedCore(6)
  {
    hide Example, InstructionAt, FrontEnd, BackEnd, Runs, Counted, Accesses;
    SixthFrontEnd();
    SixthBackEnd();
  }

  lemma SeventhCycle()
    ensures InRange(SlippedCore(6)) && Accesses(SlippedCore(6), None) == []
    ensures CoreIter(Example(), SlippedCore(6), None) == SlippedCore(7)
  {
    hide Example, InstructionAt;
    ExampleInstructions();
  }

  lemma EighthCycle()
    ensures InRange(SlippedCore(7)) && Accesses(SlippedCore(7), Some(9)) == [Loaded(5, 9)]
    ensures CoreIter(Example(), SlippedCore(7), Some(9)) == SlippedCore(8)
  {
    hide Example, InstructionAt;
    ExampleInstructions();
  }

  /** The second of the two stores follows the first. */
  lemma LastCycles()
    ensures InRange(SlippedCore(8)) && Accesses(SlippedCore(8), Some(0)) == [Stored(0, 7)]
    ensures var c := CoreIter(Example(), SlippedCore(8), Some(0)); InRange(c) && Accesses(c, Some(0)) == [Stored(0, 7)]
  {
    hide Example, InstructionAt;
    ExampleInstructions();
  }

  /** The answers of the cache from the miss on: the two loads and then two stores. */
  const ANSWERS: seq<Option<Word>> := [None, Some(0), None, Some(9), Some(0), Some(0)]

  /** From the slip on the core makes four accesses. */
  lemma SlippedTrace()
    ensures Run(Example(), Core(4), ANSWERS)
    ensures Trace(Example(), Core(4), ANSWERS) == [Loaded(0, 0), Loaded(5, 9), Stored(0, 7), Stored(0, 7)]
  {
    hide Example, CoreIter, InRange, Accesses;
    FifthCycle();
    SixthCycle();
    SeventhCycle();
    EighthCycle();
    LastCycles();
  }

  /** The accesses of the sequential machine when it stands at a given instruction. */
  function AccessesBefore(pc: nat): nat { if pc <= 1 then 0 else if pc <= 3 then 1 else if pc == 4 then 2 else 3 }

  ghost predicate OnExamplePath(m: Machine) {
    m.pc <= 5 && m.npc == m.pc + 1 && |m.effects| == AccessesBefore(m.pc)
  }

  lemma ExampleStep(m: Machine, w: Word)
    requires OnExamplePath(m) && !Halts(Example(), m)
    ensures OnExamplePath(Execute(m, InstructionAt(Example(), m.pc), w))
  {
    hide Example, InstructionAt, Operand, Taken, Target, Wrap, RegistersAfter;
    ExampleInstructions();
  }

  /** One instruction at a time, the program makes three accesses and stops. */
  lemma {:induction false} ThreeAccesses(inputs: seq<Word>)
    ensures OnExamplePath(Interpret(Example(), ZeroRegisters(), inputs))
  {
    hide Example, InstructionAt, Execute, Halts;
    if inputs != [] {
      var n := |inputs| - 1;
      ThreeAccesses(inputs[..n]);
      var m := Interpret(Example(), ZeroRegisters(), inputs[..n]);
      if !Halts(Example(), m) { ExampleStep(m, inputs[n]); }
    }
  }

  /**
    G4 is needed: this run reaches a miss while the load in DECODE waits for WRITE_BACK alone. The store behind
    that load is then fetched twice, and the core makes four accesses where the sequential machine never makes
    more than three. Whatever the cache answers next, the relation to that machine is broken one cycle later.
   */
  lemma ExampleSlips() returns (inputs: seq<Word>)
    ensures Fetches(Core(4)) ==> Core(4).pc < INSTRUCTIONS_MEMORY_SIZE
    ensures var p, c, start := Example(), Core(4), [None, None, None, None];
            && Run(p, InitialCore(ZeroRegisters()), start) && After(p, InitialCore(ZeroRegisters()), start) == c
            && Run(p, InitialCore(ZeroRegisters()), start + ANSWERS)
            && Trace(p, InitialCore(ZeroRegisters()), start + ANSWERS) ==
                 [Loaded(0, 0), Loaded(5, 9), Stored(0, 7), Stored(0, 7)]
    ensures forall all: seq<Word> :: |Interpret(Example(), ZeroRegisters(), all).effects| <= 3
    ensures var p, c := Example(), Core(4);
            var m := Interpret(p, ZeroRegisters(), inputs);
            && Agrees(p, c, m) && Slips(c) && Cycle(p, c, None).memoryStall
            && forall answer: Option<Word> ::
                 !Agrees(p, Cycle(p, Cycle(p, c, None), answer), Committed(Cycle(p, c, None), m, answer))
  {
    hide Example, InstructionAt, Cycle, Agrees, CoreIter, Interpret, InitialCore, Slips, Committed, Run, After, Trace;
    ExampleInstructions();
    ExampleRun();
    SlippedTrace();
    TraceAppend(Example(), InitialCore(ZeroRegisters()), [None, None, None, None], ANSWERS);
    forall all: seq<Word> ensures |Interpret(Example(), ZeroRegisters(), all).effects| <= 3 { ThreeAccesses(all); }
    inputs := PipelineRefinesInterpreter(Example(), ZeroRegisters(), [None, None, None, None]);
    var p, m := Example(), Interpret(Example(), ZeroRegisters(), inputs);
    ExampleMisses(m);
    var u := Cycle(p, Core(4), None);
    forall answer: Option<Word> ensures !Agrees(p, Cycle(p, u, answer), Committed(u, m, answer)) {
      MissExact(p, Core(4), m, answer);
    }
  }

  lemma ExampleMisses(m: Machine)
    requires Agrees(Example(), Core(4), m) && SupportedProgram(Example()) && InstructionAt(Example(), 4) == STORE_R1
    ensures MissBegins(Example(), Core(4), m) && Slips(Core(4)) && !SlipIsHarmless(Example(), Core(4), m)
    ensures Cycle(Example(), Core(4), None).memoryStall
  {
    hide Example, InstructionAt, Cycle, Agrees;
    MissStalls(Example(), Core(4), m, None);
  }

  /** A run of the core, continued. */
  lemma {:induction false} TraceAppend(p: Program, c: CoreState, a: seq<Option<Word>>, b: seq<Option<Word>>)
    requires Run(p, c, a) && Run(p, After(p, c, a), b)
    ensures Run(p, c, a + b) && Trace(p, c, a + b) == Trace(p, c, a) + Trace(p, After(p, c, a), b)
    decreases |a|
  {
    hide CoreIter, Accesses, Runs, Fetches;
    if a == [] {
      assert a + b == b;
    } else {
      assert (a + b)[0] == a[0] && (a + b)[1..] == a[1..] + b;
      TraceAppend(p, CoreIter(p, c, a[0]), a[1..], b);
    }
  }
}
