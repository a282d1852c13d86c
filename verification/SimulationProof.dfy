/** One cycle keeps the relation between the pipeline and the sequential machine. */
module SimulationProof {
  import opened Types
  import opened Isa
  import opened Interpreter
  import opened PipelineModel
  import opened Simulation
  import opened SimulationCycle

  /** A cycle from `c` to `t`: `b` is the pipeline before its stages move. */
  ghost predicate Moves(p: Program, c: CoreState, j: Machine, b: CoreState, t: CoreState, answer: Option<Word>) {
    SupportedProgram(p) && Agrees(p, c, j) && Worked(p, c, j, b, answer) && t == BubbleCommands(b)
  }

  lemma KeepsProgram(p: Program, c: CoreState, j: Machine, b: CoreState, t: CoreState, answer: Option<Word>)
    requires Moves(p, c, j, b, t, answer)
    ensures HoldsProgram(p, t)
  {
    hide HazardWith, OnPath, ResultsAgree, RegistersAgree, Executed, Decoded, Answered, WorkedRegisters, Following;
    hide NoReadAfterWrite, Fields;
  }

  lemma KeepsHaltLast(p: Program, c: CoreState, j: Machine, b: CoreState, t: CoreState, answer: Option<Word>)
    requires Moves(p, c, j, b, t, answer)
    ensures HaltIsLast(t)
  {
    hide HazardWith, OnPath, ResultsAgree, RegistersAgree, Executed, Decoded, Answered, WorkedRegisters, Following;
    hide NoReadAfterWrite, Fields;
  }

  lemma KeepsIndependence(p: Program, c: CoreState, j: Machine, b: CoreState, t: CoreState, answer: Option<Word>)
    requires Moves(p, c, j, b, t, answer)
    ensures NoReadAfterWrite(t)
  {
    hide HazardWith, OnPath, ResultsAgree, RegistersAgree, Executed, Decoded, Answered, WorkedRegisters, Following;
    hide Fields;
    if !Hazard(c) { DecodeIsIndependent(c); }
  }

  lemma KeepsStalled(p: Program, c: CoreState, j: Machine, b: CoreState, t: CoreState, answer: Option<Word>)
    requires Moves(p, c, j, b, t, answer) && HazardLasts(c, answer)
    ensures Stalled(t)
  {
    hide OnPath, ResultsAgree, RegistersAgree, Executed, Decoded, Answered, WorkedRegisters, Following;
    hide NoReadAfterWrite, Fields;
  }

  lemma KeepsRegisters(p: Program, c: CoreState, j: Machine, b: CoreState, t: CoreState, answer: Option<Word>)
    requires Moves(p, c, j, b, t, answer)
    ensures RegistersAgree(t, Committed(c, j, answer))
  {
    hide HazardWith, OnPath, ResultsAgree, Decoded, Following, NoReadAfterWrite, Fields, Alu;
  }

  lemma KeepsResults(p: Program, c: CoreState, j: Machine, b: CoreState, t: CoreState, answer: Option<Word>)
    requires Moves(p, c, j, b, t, answer)
    ensures ResultsAgree(t, Committed(c, j, answer))
  {
    hide HazardWith, OnPath, RegistersAgree, Following, Fields, AluResult, Operand, Committed, Independent;
    var q := Position(0, 0);
    StageKept(c, j, answer, b.execute, q);
    if !Hazard(c) {
      DecodeIsIndependent(c);
      StageKept(c, j, answer, b.decode, q);
    }
    if !b.memoryStall { WriteBackSettled(c, j, b, answer); }
  }

  lemma WriteBackSettled(c: CoreState, j: Machine, b: CoreState, answer: Option<Word>)
    requires b.mem.Live() ==> SameInstruction(c.mem, b.mem) && b.mem.instruction.Supported()
    requires Answered(j.regs, b.mem, answer)
    ensures Settled(Committed(c, j, answer).regs, b.mem)
  {
    hide Alu, Following;
    if b.mem.Live() && b.mem.instruction.IsAlu() { AluOfZeros(b.mem.instruction.opcode); }
  }

  // ----- the path ------------------------------------------------------------------------------------------------

  /** A cycle that ends in a memory stall leaves the three oldest stages where they were. */
  lemma StallKeepsPositions(p: Program, c: CoreState, j: Machine, b: CoreState, t: CoreState, answer: Option<Word>)
    requires Moves(p, c, j, b, t, answer) && b.memoryStall
    ensures Committed(c, j, answer) == j && AfterMem(t, j) == AfterMem(c, j) && AfterExecute(t, j) == AfterExecute(c, j)
    ensures Stands(t.mem, Position(j.pc, j.npc)) && Stands(t.execute, AfterMem(t, j))
  {
    hide HazardWith, ResultsAgree, RegistersAgree, Executed, Decoded, Answered, WorkedRegisters, Following;
    hide NoReadAfterWrite, Fields, HaltIsLast, FetchOnPath;
  }

  /** Otherwise each instruction moves on, and the sequential machine executes the one that leaves MEM. */
  lemma MovePositions(p: Program, c: CoreState, j: Machine, b: CoreState, t: CoreState, answer: Option<Word>)
    requires Moves(p, c, j, b, t, answer) && !b.memoryStall
    ensures var j' := Committed(c, j, answer);
            var q := AfterExecute(c, j);
            && Position(j'.pc, j'.npc) == AfterMem(c, j) && AfterMem(t, j') == q
            && Stands(t.mem, Position(j'.pc, j'.npc))
            && AfterExecute(t, j') == if Hazard(c) then q else Past(j.regs, c.decode, q)
  {
    hide HazardWith, ResultsAgree, RegistersAgree, Executed, Decoded, Answered, WorkedRegisters, Following;
    hide Fields, FetchOnPath, Independent;
    StageKept(c, j, answer, c.execute, AfterMem(c, j));
    if !Hazard(c) {
      DecodeIsIndependent(c);
      StageKept(c, j, answer, c.decode, AfterExecute(c, j));
    }
  }

  lemma StallKeepsPath(p: Program, c: CoreState, j: Machine, b: CoreState, t: CoreState, answer: Option<Word>)
    requires Moves(p, c, j, b, t, answer) && b.memoryStall
    ensures OnPath(p, t, Committed(c, j, answer))
  {
    hide Committed, HazardWith, ResultsAgree, RegistersAgree, Executed, Decoded, Answered, WorkedRegisters, Following;
    hide NoReadAfterWrite, Fields, AfterMem, AfterExecute;
    StallKeepsPositions(p, c, j, b, t, answer);
  }

  lemma MoveKeepsPath(p: Program, c: CoreState, j: Machine, b: CoreState, t: CoreState, answer: Option<Word>)
    requires Moves(p, c, j, b, t, answer) && !b.memoryStall
    ensures OnPath(p, t, Committed(c, j, answer))
  {
    hide Committed, HazardWith, ResultsAgree, RegistersAgree, Executed, Decoded, Answered, WorkedRegisters, Following;
    hide NoReadAfterWrite, Fields, AfterMem, AfterExecute;
    MovePositions(p, c, j, b, t, answer);
  }

  // ----- one cycle -------------------------------------------------------------------------------------------------

  /** Under G4, a cycle of the pipeline is at most one instruction of the sequential machine. */
  lemma CycleAgrees(p: Program, c: CoreState, j: Machine, answer: Option<Word>)
    requires SupportedProgram(p) && Agrees(p, c, j) && HazardLasts(c, answer)
    requires Fetches(c) ==> c.pc < INSTRUCTIONS_MEMORY_SIZE
    ensures Agrees(p, Cycle(p, c, answer), Committed(c, j, answer))
  {
    hide FrontEnd, BackEnd, BubbleCommands, Worked, HazardLasts, Committed, HoldsProgram, HaltIsLast;
    hide NoReadAfterWrite, Stalled;
    hide RegistersAgree, ResultsAgree, OnPath;
    var b := BackEnd(FrontEnd(p, c), answer);
    var t := Cycle(p, c, answer);
    CycleWorks(p, c, j, answer);
    KeepsProgram(p, c, j, b, t, answer);
    KeepsHaltLast(p, c, j, b, t, answer);
    KeepsIndependence(p, c, j, b, t, answer);
    KeepsStalled(p, c, j, b, t, answer);
    KeepsRegisters(p, c, j, b, t, answer);
    KeepsResults(p, c, j, b, t, answer);
    if b.memoryStall { StallKeepsPath(p, c, j, b, t, answer); } else { MoveKeepsPath(p, c, j, b, t, answer); }
  }
}
