/** What one cycle does to a pipeline that agrees with the sequential machine. */
module SimulationCycle {
  import opened Types
  import opened Isa
  import opened Interpreter
  import opened PipelineModel
  import opened Simulation

  /** The same instruction, or a bubble in both. */
  predicate SameInstruction(s: Stage, t: Stage) {
    s.Live() == t.Live() && (s.Live() ==> t.pc == s.pc && t.instruction == s.instruction)
  }

  /** The decoded instruction goes through decode in this cycle. */
  predicate Decodes(c: CoreState) {
    !c.memoryStall && c.decode.Live() && !Hazard(c)
  }

  /** Hazard detection finds exactly the instructions in flight that the decoded one depends on. */
  lemma HazardIsDependence(c: CoreState)
    requires c.execute.Live() ==> c.execute.instruction.Supported()
    requires c.mem.Live() ==> c.mem.instruction.Supported()
    requires c.writeBack.Live() ==> c.writeBack.instruction.Supported()
    ensures Hazard(c) <==>
              !(Independent(c.decode.instruction, c.execute) && Independent(c.decode.instruction, c.mem)
                && Independent(c.decode.instruction, c.writeBack))
  {
  }

  // ----- fetch and decode ----------------------------------------------------------------------------------------

  lemma FrontEndFrame(p: Program, c: CoreState)
    requires Fetches(c) ==> c.pc < INSTRUCTIONS_MEMORY_SIZE
    ensures var f := FrontEnd(p, c);
            && f.execute == c.execute && f.mem == c.mem && f.writeBack == c.writeBack
            && f.memoryStall == c.memoryStall && f.hazardStall == Hazard(c)
            && f.instructions == c.instructions && f.stopped == c.stopped
            && SameInstruction(c.decode, f.decode) && SameButImmediate(c.regs, f.regs)
            && f.halted == (c.halted || (Decodes(c) && c.decode.instruction.opcode == HALT))
    ensures var f := FrontEnd(p, c);
            if Fetches(c) then f.fetched.pc == c.pc && f.fetched.instruction == InstructionAt(p, c.pc) else f.fetched == c.fetched
    ensures !Decodes(c) ==>
              && FrontEnd(p, c).decode == c.decode && FrontEnd(p, c).regs == c.regs
              && FrontEnd(p, c).pc == if Fetches(c) && !Hazard(c) then c.pc + 1 else c.pc
  {
    hide Operate, HazardWith, Fields;
  }

  /** Decode leaves the instruction decoded and the program counter at its successor's successor. */
  lemma FrontEndDecodes(p: Program, c: CoreState, j: Machine)
    requires SupportedProgram(p) && Agrees(p, c, j) && c.pc < INSTRUCTIONS_MEMORY_SIZE
    requires Decodes(c) && c.decode.instruction.opcode != HALT
    ensures Decoded(j.regs, FrontEnd(p, c).decode)
    ensures FrontEnd(p, c).pc == Following(j.regs, c.decode.instruction, c.pc)
  {
    hide HazardWith, OnPath, Alu;
    var i := c.decode.instruction;
    var regs := c.regs;
    assert i.Supported() && !Empty(c) && !c.writeBack.Runs(HALT);
    assert Independent(i, c.writeBack) by { DecodeIsIndependent(c); }
    ReadsAgree(c, j, regs, i, i.rs);
    ReadsAgree(c, j, regs, i, i.rt);
    if i.IsBranch() { ReadsAgree(c, j, regs, i, i.rd); }
  }

  lemma DecodeIsIndependent(c: CoreState)
    requires !Hazard(c)
    ensures Independent(c.decode.instruction, c.execute) && Independent(c.decode.instruction, c.mem)
    ensures Independent(c.decode.instruction, c.writeBack)
  {
  }

  // ----- execute, memory and write-back ----------------------------------------------------------------------------

  lemma ExecuteFrame(f: CoreState)
    ensures var e := RunExecute(f);
            && e == f.(regs := e.regs, execute := e.execute, pc := e.pc)
            && SameInstruction(f.execute, e.execute) && SameButImmediate(f.regs, e.regs)
    ensures f.memoryStall ==> RunExecute(f) == f
  {
    hide Operate;
  }

  lemma MemFrame(e: CoreState, answer: Option<Word>)
    ensures var m := RunMem(e, answer);
            && m == e.(regs := m.regs, mem := m.mem, memoryStall := m.memoryStall)
            && SameInstruction(e.mem, m.mem) && SameButImmediate(e.regs, m.regs)
            && m.memoryStall == (if Requests(e) then answer.None? else e.memoryStall)
    ensures !Requests(e) ==> RunMem(e, answer).mem == e.mem
  {
  }

  lemma BackEndFrame(f: CoreState, answer: Option<Word>)
    requires f.memoryStall ==> Requests(f)
    ensures var b := BackEnd(f, answer);
            && b == f.(regs := b.regs, execute := b.execute, mem := b.mem, pc := b.pc, memoryStall := b.memoryStall)
            && SameInstruction(f.execute, b.execute) && SameInstruction(f.mem, b.mem)
            && b.memoryStall == (Requests(f) && answer.None?)
    ensures f.memoryStall ==> BackEnd(f, answer).execute == f.execute && BackEnd(f, answer).pc == f.pc
    ensures !Requests(f) ==> BackEnd(f, answer).mem == f.mem
  {
    hide RunExecute, RunMem;
    ExecuteFrame(f);
    MemFrame(RunExecute(f), answer);
  }

  /** The write-back stage's result arrives in its register, and nothing else changes but R1. */
  lemma BackEndRegisters(f: CoreState, answer: Option<Word>)
    requires f.writeBack.Live() ==> f.writeBack.instruction.opcode != JAL
    ensures forall r :: 0 <= r < NUMBER_OF_REGISTERS && r != IMMEDIATE_REGISTER ==>
              BackEnd(f, answer).regs[r] ==
              if f.writeBack.Live() && f.writeBack.instruction.rd == r then f.writeBack.result else f.regs[r]
  {
    hide RunExecute, RunMem;
    ExecuteFrame(f);
    MemFrame(RunExecute(f), answer);
  }

  /** `f` is the front end's outcome, as far as the stages behind it are concerned. */
  ghost predicate FrontOf(c: CoreState, f: CoreState) {
    && f.execute == c.execute && f.mem == c.mem && f.writeBack == c.writeBack
    && f.memoryStall == c.memoryStall && SameButImmediate(c.regs, f.regs)
  }

  /** Execute computes what the sequential machine computes, and leaves the program counter alone. */
  lemma BackEndExecutes(p: Program, c: CoreState, j: Machine, f: CoreState, answer: Option<Word>)
    requires SupportedProgram(p) && Agrees(p, c, j) && !c.memoryStall && FrontOf(c, f)
    ensures Executed(j.regs, BackEnd(f, answer).execute) && BackEnd(f, answer).pc == f.pc
  {
    hide RunMem, RunExecute, HazardWith, OnPath;
    MemFrame(RunExecute(f), answer);
    ExecuteComputes(p, c, j, f);
  }

  lemma ExecuteComputes(p: Program, c: CoreState, j: Machine, f: CoreState)
    requires SupportedProgram(p) && Agrees(p, c, j) && !c.memoryStall && FrontOf(c, f)
    ensures Executed(j.regs, RunExecute(f).execute) && RunExecute(f).pc == f.pc
  {
    hide HazardWith, OnPath, Alu, Taken, Raw, Operand;
    var i := c.execute.instruction;
    if c.execute.Active() {
      assert i.Supported();
      ReadsAgree(c, j, f.regs, i, i.rs);
      ReadsAgree(c, j, f.regs, i, i.rt);
    }
  }

  /** The memory stage puts the sequential machine's access to the cache. */
  lemma RequestAgrees(p: Program, c: CoreState, j: Machine)
    requires SupportedProgram(p) && Agrees(p, c, j) && Requests(c)
    ensures RequestAddress(c) == Address(j.regs, c.mem.instruction)
    ensures c.mem.instruction.opcode == SW ==> RequestData(c) == Operand(j.regs, c.mem.instruction, c.mem.instruction.rd)
  {
    hide HazardWith, OnPath, Wrap, ResultsAgree;
    var i := c.mem.instruction;
    ReadsAgree(c, j, c.regs, i, i.rs);
    ReadsAgree(c, j, c.regs, i, i.rt);
    if i.opcode == SW { ReadsAgree(c, j, c.regs, i, i.rd); }
  }

  /** What the memory stage leaves in its result. */
  predicate Answered(regs: Registers, s: Stage, answer: Option<Word>) {
    && Executed(regs, s)
    && (s.Runs(LW) ==> s.result == Answer(answer))
    && (s.Runs(SW) ==> s.result == Operand(regs, s.instruction, s.instruction.rd))
  }

  lemma BackEndAnswers(p: Program, c: CoreState, j: Machine, f: CoreState, answer: Option<Word>)
    requires SupportedProgram(p) && Agrees(p, c, j) && FrontOf(c, f)
    requires Requests(c) ==> answer.Some?
    ensures Answered(j.regs, BackEnd(f, answer).mem, answer)
  {
    hide RunExecute, RunMem, HazardWith, OnPath, Answered;
    ExecuteFrame(f);
    MemAnswers(p, c, j, RunExecute(f), answer);
  }

  lemma MemAnswers(p: Program, c: CoreState, j: Machine, e: CoreState, answer: Option<Word>)
    requires SupportedProgram(p) && Agrees(p, c, j) && e.mem == c.mem && SameButImmediate(c.regs, e.regs)
    requires Requests(c) ==> answer.Some?
    ensures Answered(j.regs, RunMem(e, answer).mem, answer)
  {
    hide HazardWith, OnPath, Alu, Raw, Operand;
    var i := c.mem.instruction;
    if Requests(c) && i.opcode == SW { ReadsAgree(c, j, e.regs, i, i.rd); }
  }

  // ----- the whole cycle, before the stages move ---------------------------------------------------------------------

  /** What the stages of a cycle leave behind in `b`. */
  ghost predicate Worked(p: Program, c: CoreState, j: Machine, b: CoreState, answer: Option<Word>) {
    && WorkedFrame(c, b, answer) && WorkedRegisters(c, j, b) && WorkedFront(p, c, j, b)
    && Executed(j.regs, b.execute)
    && (b.memoryStall || Answered(j.regs, b.mem, answer))
  }

  ghost predicate WorkedFrame(c: CoreState, b: CoreState, answer: Option<Word>) {
    && SameInstruction(c.decode, b.decode) && SameInstruction(c.execute, b.execute) && SameInstruction(c.mem, b.mem)
    && b.writeBack == c.writeBack && b.instructions == c.instructions && b.stopped == c.stopped
    && b.hazardStall == Hazard(c) && b.memoryStall == (Requests(c) && answer.None?)
    && b.halted == (c.halted || (Decodes(c) && c.decode.instruction.opcode == HALT))
  }

  ghost predicate WorkedRegisters(c: CoreState, j: Machine, b: CoreState) {
    && (forall r :: MutableRegister(r) ==> b.regs[r] == j.regs[r])
    && (b.regs[ZERO_REGISTER] == 0 || c.writeBack.Runs(HALT) || Empty(c))
  }

  ghost predicate WorkedFront(p: Program, c: CoreState, j: Machine, b: CoreState) {
    && (if Fetches(c)
        then c.pc < INSTRUCTIONS_MEMORY_SIZE && b.fetched.pc == c.pc && b.fetched.instruction == InstructionAt(p, c.pc)
        else b.fetched == c.fetched)
    && (if Decodes(c)
        then c.decode.instruction.opcode != HALT ==>
          Decoded(j.regs, b.decode) && b.pc == Following(j.regs, c.decode.instruction, c.pc)
        else b.decode == c.decode && b.pc == if Fetches(c) && !Hazard(c) then c.pc + 1 else c.pc)
  }

  lemma CycleWorks(p: Program, c: CoreState, j: Machine, answer: Option<Word>)
    requires SupportedProgram(p) && Agrees(p, c, j) && (Fetches(c) ==> c.pc < INSTRUCTIONS_MEMORY_SIZE)
    ensures Worked(p, c, j, BackEnd(FrontEnd(p, c), answer), answer)
  {
    hide FrontEnd, BackEnd, OnPath, HazardWith, Executed, Decoded, Answered, Settled, RegistersAgree, Independent;
    var f := FrontEnd(p, c);
    FrontEndFrame(p, c);
    BackEndFrame(f, answer);
    if c.memoryStall { assert Executed(j.regs, c.execute); } else { BackEndExecutes(p, c, j, f, answer); }
    if !(Requests(c) && answer.None?) { BackEndAnswers(p, c, j, f, answer); }
    if Decodes(c) && c.decode.instruction.opcode != HALT { FrontEndDecodes(p, c, j); }
    RegistersWritten(p, c, j, answer);
  }

  lemma RegistersWritten(p: Program, c: CoreState, j: Machine, answer: Option<Word>)
    requires SupportedProgram(p) && Agrees(p, c, j) && (Fetches(c) ==> c.pc < INSTRUCTIONS_MEMORY_SIZE)
    ensures WorkedRegisters(c, j, BackEnd(FrontEnd(p, c), answer))
  {
    hide FrontEnd, BackEnd, OnPath, HazardWith, Executed, Decoded, Answered, Independent, Alu;
    var f := FrontEnd(p, c);
    FrontEndFrame(p, c);
    var i := c.writeBack.instruction;
    assert c.writeBack.Live() ==> i.Supported();
    BackEndRegisters(f, answer);
  }
}
