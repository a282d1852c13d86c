/** The relation between a core's pipeline and the sequential machine, and how one cycle keeps it. */
module Simulation {
  import opened Types
  import opened Isa
  import opened Interpreter
  import opened PipelineModel

  // ----- no read after write ---------------------------------------------------------------------------------

  /** The stage will not write a register that the instruction reads. */
  predicate Independent(i: Instruction, s: Stage) {
    s.Live() && s.instruction.IsProducer() ==> !i.Reads(s.instruction.rd)
  }

  /** No instruction in EXECUTE or MEM reads a register that an older instruction in flight is to write. */
  predicate NoReadAfterWrite(c: CoreState) {
    && (c.execute.Live() ==> Independent(c.execute.instruction, c.mem) && Independent(c.execute.instruction, c.writeBack))
    && (c.mem.Live() ==> Independent(c.mem.instruction, c.writeBack))
  }

  // ----- the relation ------------------------------------------------------------------------------------------

  /** A point of the sequential execution: an instruction, and the one after it. */
  datatype Position = Position(pc: nat, npc: nat)

  /** The point after the instruction of a stage, if it has one. */
  function Past(regs: Registers, s: Stage, q: Position): Position {
    if s.Active() then Position(q.npc, Following(regs, s.instruction, q.npc)) else q
  }

  predicate Stands(s: Stage, q: Position) { s.Active() ==> s.pc == q.pc }

  function AfterMem(c: CoreState, j: Machine): Position { Past(j.regs, c.mem, Position(j.pc, j.npc)) }

  function AfterExecute(c: CoreState, j: Machine): Position { Past(j.regs, c.execute, AfterMem(c, j)) }

  /** The decoded instruction has already been through decode: it waits for the memory stage. */
  predicate DecodeDone(c: CoreState) { c.memoryStall && !c.hazardStall }

  /** The stages hold, oldest first, the instructions that the sequential machine executes next. */
  predicate OnPath(p: Program, c: CoreState, j: Machine) {
    var q := AfterExecute(c, j);
    && Stands(c.mem, Position(j.pc, j.npc)) && Stands(c.execute, AfterMem(c, j))
    && (if c.halted then q.pc < INSTRUCTIONS_MEMORY_SIZE && InstructionAt(p, q.pc).opcode == HALT
        else if !c.decode.Live() then c.pc == q.pc && q.npc == q.pc + 1
        else c.decode.pc == q.pc && FetchOnPath(c, j.regs, q))
  }

  predicate FetchOnPath(c: CoreState, regs: Registers, q: Position) {
    if DecodeDone(c)
    then c.fetched.pc == q.npc &&
         (c.pc == Following(regs, c.decode.instruction, q.npc) || c.fetched.instruction.opcode == HALT)
    else c.pc == q.npc || c.decode.instruction.opcode == HALT
  }

  predicate InProgram(p: Program, s: Stage) {
    s.Live() ==> s.pc < INSTRUCTIONS_MEMORY_SIZE && s.instruction == InstructionAt(p, s.pc)
  }

  predicate HoldsProgram(p: Program, c: CoreState) {
    && InProgram(p, c.decode) && InProgram(p, c.execute) && InProgram(p, c.mem) && InProgram(p, c.writeBack)
    && (DecodeDone(c) ==> InProgram(p, c.fetched))
  }

  /** HALT is the youngest instruction in flight; only the start has an empty pipeline that is not halted. */
  predicate HaltIsLast(c: CoreState) {
    && (c.halted ==> !c.decode.Live() && !c.fetched.Live())
    && (!c.halted && !c.decode.Live() ==>
          !c.memoryStall && !c.execute.Live() && !c.mem.Live() && !c.writeBack.Live())
    && (c.execute.Runs(HALT) ==> c.halted)
    && (c.mem.Runs(HALT) ==> c.halted && !c.execute.Live())
    && (c.writeBack.Runs(HALT) ==> c.halted && !c.execute.Live() && !c.mem.Live())
    && (DecodeDone(c) && c.decode.Live() ==> c.decode.instruction.opcode != HALT && c.fetched.Live())
  }

  predicate MutableRegister(r: int) { FIRST_MUTABLE_REGISTER <= r < NUMBER_OF_REGISTERS }

  /** The sequential registers are the core's, with the write-back stage's register still to come. */
  ghost predicate RegistersAgree(c: CoreState, j: Machine) {
    && (c.regs[ZERO_REGISTER] == 0 || c.writeBack.Runs(HALT) || Empty(c))
    && (forall r :: MutableRegister(r) ==>
          j.regs[r] == if c.writeBack.Produces(r) then c.writeBack.result else c.regs[r])
  }

  predicate Empty(c: CoreState) { c.halted && !c.execute.Live() && !c.mem.Live() && !c.writeBack.Live() }

  /** A branch has its target, an arithmetic instruction its operation. */
  predicate Decoded(regs: Registers, s: Stage) {
    && (s.Live() && s.instruction.IsAlu() ==> s.operation == s.instruction.opcode)
    && BranchDone(regs, s)
  }

  predicate BranchDone(regs: Registers, s: Stage) {
    s.Live() && s.instruction.IsBranch() ==> s.result == Operand(regs, s.instruction, s.instruction.rd)
  }

  function AluResult(regs: Registers, i: Instruction): Word
    requires i.IsAlu()
  {
    Alu(i.opcode, Operand(regs, i, i.rs), Operand(regs, i, i.rt))
  }

  predicate Executed(regs: Registers, s: Stage) {
    && (s.Live() && s.instruction.IsAlu() ==> s.result == AluResult(regs, s.instruction))
    && BranchDone(regs, s)
  }

  /** What is still to be written back leaves every register as the sequential machine has it. */
  predicate Settled(regs: Registers, s: Stage) {
    var i := s.instruction;
    s.Live() ==>
      && (i.IsAlu() && i.rd == ZERO_REGISTER ==> s.result == 0)
      && (i.IsBranch() || i.opcode == SW ==> s.result == Operand(regs, i, i.rd))
  }

  predicate ResultsAgree(c: CoreState, j: Machine) {
    && Settled(j.regs, c.writeBack)
    && (if c.memoryStall
        then Executed(j.regs, c.execute) && (DecodeDone(c) ==> Decoded(j.regs, c.decode))
        else Executed(j.regs, c.mem) && Decoded(j.regs, c.execute))
  }

  /** In a memory stall MEM waits for the cache, WRITE_BACK is empty, and the hazard is the one looked for again. */
  predicate Stalled(c: CoreState) {
    c.memoryStall ==> Requests(c) && !c.writeBack.Live() && (c.decode.Live() ==> c.hazardStall == Hazard(c))
  }

  ghost predicate Agrees(p: Program, c: CoreState, j: Machine) {
    && HoldsProgram(p, c) && HaltIsLast(c) && NoReadAfterWrite(c) && Stalled(c)
    && RegistersAgree(c, j) && ResultsAgree(c, j) && OnPath(p, c, j)
  }

  /** The instruction of MEM is executed by the sequential machine when it leaves MEM. */
  predicate Commits(c: CoreState, answer: Option<Word>) {
    c.mem.Active() && (Requests(c) ==> answer.Some?)
  }

  function Answer(answer: Option<Word>): Word { if answer.Some? then answer.value else 0 }

  function Committed(c: CoreState, j: Machine, answer: Option<Word>): Machine {
    if Commits(c, answer) then Interpreter.Execute(j, c.mem.instruction, Answer(answer)) else j
  }

  /** G4: when a miss begins, a hazard of the decoded instruction is not against WRITE_BACK alone. */
  predicate HazardLasts(c: CoreState, answer: Option<Word>) {
    !c.memoryStall && Requests(c) && answer.None? && c.decode.Live() && Hazard(c) ==>
      HazardWith(c, c.execute) || HazardWith(c, c.mem)
  }

  // ----- reading registers -----------------------------------------------------------------------------------

  /** The registers apart from the scratch R1. */
  ghost predicate SameButImmediate(regs: Registers, regs': Registers) {
    forall r :: 0 <= r < NUMBER_OF_REGISTERS && r != IMMEDIATE_REGISTER ==> regs'[r] == regs[r]
  }

  predicate IsOperand(i: Instruction, r: Register) { r < FIRST_MUTABLE_REGISTER || i.Reads(r) }

  /** An instruction that does not wait for WRITE_BACK reads what the sequential machine has. */
  lemma ReadsAgree(c: CoreState, j: Machine, regs: Registers, i: Instruction, r: Register)
    requires RegistersAgree(c, j) && SameButImmediate(c.regs, regs) && IsOperand(i, r)
    requires Independent(i, c.writeBack) && !c.writeBack.Runs(HALT) && !Empty(c)
    ensures Raw(regs, i, r) == Operand(j.regs, i, r)
  {
    assert MutableRegister(r) ==> !c.writeBack.Produces(r);
  }

  /** Executing the instruction of MEM leaves the operands of an independent one. */
  lemma OperandKept(c: CoreState, j: Machine, answer: Option<Word>, i: Instruction, r: Register)
    requires Independent(i, c.mem) && IsOperand(i, r)
    ensures Operand(Committed(c, j, answer).regs, i, r) == Operand(j.regs, i, r)
  {
    hide Following, EffectsOf, Alu;
  }

  lemma StageKept(c: CoreState, j: Machine, answer: Option<Word>, s: Stage, q: Position)
    requires s.Live() ==> Independent(s.instruction, c.mem)
    ensures var regs := Committed(c, j, answer).regs;
            && Past(regs, s, q) == Past(j.regs, s, q)
            && (Decoded(j.regs, s) ==> Decoded(regs, s))
            && (Executed(j.regs, s) ==> Executed(regs, s))
  {
    hide Committed, Alu, Operand;
    if s.Live() {
      var i := s.instruction;
      OperandKept(c, j, answer, i, i.rs);
      OperandKept(c, j, answer, i, i.rt);
      if i.IsBranch() { OperandKept(c, j, answer, i, i.rd); }
    }
  }
}
