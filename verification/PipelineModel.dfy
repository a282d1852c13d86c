/** The five-stage pipeline of one core, as functions on values (Pipeline.c, Core.c). */
module PipelineModel {
  import opened Types
  import opened Isa

  const BUBBLE := 0xFFFF
  const NO_OPERATION := 21   // an empty entry of the operation table

  type Pc = p: nat | p < 0x1_0000

  datatype Stage = Stage(pc: Pc, instruction: Instruction, result: Word, operation: nat) {
    predicate Live() { pc != BUBBLE }

    predicate Runs(opcode: nat) { Live() && instruction.opcode == opcode }

    /** The stage holds an instruction of the program other than HALT. */
    predicate Active() { Live() && instruction.opcode != HALT }

    /** The stage's instruction is to write a register that others may wait for. */
    predicate Produces(r: Register) { Live() && instruction.IsProducer() && instruction.rd == r }
  }

  datatype CoreState = CoreState(
    pc: Pc,
    regs: Registers,
    fetched: Stage,
    decode: Stage,
    execute: Stage,
    mem: Stage,
    writeBack: Stage,
    halted: bool,
    hazardStall: bool,       // data_hazard_stall
    memoryStall: bool,
    instructions: nat,       // statistics.instructions
    stopped: bool            // Core_isHalted
  )

  // ----- hazards -----------------------------------------------------------------------------------------

  /** compare_register: the decoded instruction uses `reg`. */
  predicate Compares(decoded: Instruction, reg: Register) {
    if reg == IMMEDIATE_REGISTER || reg == ZERO_REGISTER then false
    else if decoded.opcode <= SRL || decoded.opcode == LW then reg == decoded.rs || reg == decoded.rt
    else reg == decoded.rd || reg == decoded.rs || reg == decoded.rt
  }

  /** check_registers_hazrads. */
  predicate HazardWith(c: CoreState, s: Stage) {
    && s.Live()
    && !(s.instruction.opcode == SW || s.instruction.IsBranch() || s.instruction.opcode == HALT)
    && Compares(c.decode.instruction, s.instruction.rd)
  }

  /** is_pipeline_needs_data_hazard_stall. */
  predicate Hazard(c: CoreState) {
    HazardWith(c, c.execute) || HazardWith(c, c.writeBack) || HazardWith(c, c.mem)
  }

  // ----- the stages ----------------------------------------------------------------------------------------

  /** A register as a stage reads it, with its immediate in R1. */
  function Raw(regs: Registers, i: Instruction, r: Register): Word {
    if r == IMMEDIATE_REGISTER then i.immediate else regs[r]
  }

  function WithImmediate(regs: Registers, i: Instruction): Registers { regs[IMMEDIATE_REGISTER := i.immediate] }

  /** An entry of the operation table: what it leaves in the result and in the program counter. */
  function Operate(operation: nat, rd: Word, rs: Word, rt: Word, pc: Pc): (Word, Pc) {
    if operation <= SRL then (Alu(operation, rs, rt), pc)
    else if operation <= BGE then (rd, if Taken(operation, rs, rt) then Target(rd) else pc)
    else if operation == JAL then (pc, Target(pc))
    else (rd, pc)
  }

  /** fetch. */
  function Fetch(p: Program, c: CoreState): CoreState
    requires c.memoryStall || c.pc < INSTRUCTIONS_MEMORY_SIZE
  {
    if c.memoryStall then c
    else c.(fetched := c.fetched.(pc := c.pc, instruction := InstructionAt(p, c.pc)),
            pc := if c.hazardStall then c.pc else c.pc + 1)
  }

  /** The stage and the program counter after the stage's operation has run on the registers. */
  function Operated(c: CoreState, s: Stage): (Stage, Pc) {
    var i := s.instruction;
    var out := Operate(s.operation, Raw(c.regs, i, i.rd), Raw(c.regs, i, i.rs), Raw(c.regs, i, i.rt), c.pc);
    (s.(result := out.0), out.1)
  }

  /** decode. */
  function DecodeStage(c: CoreState): CoreState {
    var i := c.decode.instruction;
    if i.opcode == HALT then c.(halted := true)
    else
      var s := c.decode.(operation := if i.opcode <= JAL then i.opcode else NO_OPERATION);
      if !i.IsBranch() then c.(decode := s)
      else
        var out := Operated(c, s);
        c.(regs := WithImmediate(c.regs, i), decode := out.0, pc := out.1)
  }

  /** execute. */
  function ExecuteStage(c: CoreState): CoreState {
    var i := c.execute.instruction;
    if i.IsBranch() || i.IsMemory() || i.opcode == HALT then c
    else
      var out := Operated(c, c.execute);
      c.(regs := WithImmediate(c.regs, i), execute := out.0, pc := out.1)
  }

  /** The address and, for SW, the word that the memory stage puts to the cache. */
  function RequestAddress(c: CoreState): Word {
    var i := c.mem.instruction;
    Wrap(Raw(c.regs, i, i.rs) + Raw(c.regs, i, i.rt))
  }

  function RequestData(c: CoreState): Word { Raw(c.regs, c.mem.instruction, c.mem.instruction.rd) }

  /** The memory stage holds a load or a store. */
  predicate Requests(c: CoreState) { c.mem.Live() && c.mem.instruction.IsMemory() }

  /** mem, with the answer of the cache: none, or the word loaded (a store ignores it). */
  function MemStage(c: CoreState, answer: Option<Word>): CoreState {
    var i := c.mem.instruction;
    if !i.IsMemory() then c
    else
      var result := if i.opcode == LW && answer.Some? then answer.value else RequestData(c);
      c.(regs := WithImmediate(c.regs, i), mem := c.mem.(result := result), memoryStall := answer.None?)
  }

  /** writeback. */
  function WriteBackStage(c: CoreState): CoreState {
    var i := c.writeBack.instruction;
    c.(regs := c.regs[if i.opcode == JAL then LINK_REGISTER else i.rd := c.writeBack.result])
  }

  // ----- one cycle -----------------------------------------------------------------------------------------

  /** Whether this cycle fetches. */
  predicate Fetches(c: CoreState) { !c.halted && !c.memoryStall }

  /** The core once this cycle has looked for hazards and fetched. */
  function Fetched(p: Program, c: CoreState): CoreState
    requires Fetches(c) ==> c.pc < INSTRUCTIONS_MEMORY_SIZE
  {
    var d := c.(hazardStall := Hazard(c));
    if d.halted then d else Fetch(p, d)
  }

  /** The core once this cycle has looked for hazards, fetched and decoded. */
  function FrontEnd(p: Program, c: CoreState): CoreState
    requires Fetches(c) ==> c.pc < INSTRUCTIONS_MEMORY_SIZE
  {
    var d := Fetched(p, c);
    if !d.memoryStall && !d.hazardStall && d.decode.Live() then DecodeStage(d) else d
  }

  /** EXECUTE is passed over while the memory stage waits. */
  function RunExecute(c: CoreState): CoreState {
    if !c.memoryStall && c.execute.Live() then ExecuteStage(c) else c
  }

  function RunMem(c: CoreState, answer: Option<Word>): CoreState {
    if c.mem.Live() then MemStage(c, answer) else c
  }

  function RunWriteBack(c: CoreState): CoreState {
    if c.writeBack.Live() then WriteBackStage(c) else c
  }

  /** The rest of Pipeline_Execute. */
  function BackEnd(c: CoreState, answer: Option<Word>): CoreState {
    RunWriteBack(RunMem(RunExecute(c), answer))
  }

  /** What a stage holds after its predecessor has moved in: a bubble changes the pc alone. */
  function Moved(to: Stage, from: Stage): Stage {
    if from.Live() then from else to.(pc := BUBBLE)
  }

  /** Pipeline_BubbleCommands. */
  function BubbleCommands(c: CoreState): CoreState {
    var t :=
      if c.memoryStall then c.(writeBack := c.writeBack.(pc := BUBBLE))
      else
        var u := c.(writeBack := Moved(c.writeBack, c.mem), mem := Moved(c.mem, c.execute));
        if c.hazardStall then u.(execute := c.execute.(pc := BUBBLE))
        else u.(execute := Moved(c.execute, c.decode), decode := Moved(c.decode, c.fetched));
    if t.halted then t.(fetched := t.fetched.(pc := BUBBLE), decode := t.decode.(pc := BUBBLE)) else t
  }

  function Cycle(p: Program, c: CoreState, answer: Option<Word>): CoreState
    requires Fetches(c) ==> c.pc < INSTRUCTIONS_MEMORY_SIZE
  {
    BubbleCommands(BackEnd(FrontEnd(p, c), answer))
  }

  // ----- Core_Iter -------------------------------------------------------------------------------------------

  /** Pipeline_PipeFlushed. */
  predicate PipeFlushed(c: CoreState) {
    && c.halted
    && !c.fetched.Live() && !c.decode.Live() && !c.execute.Live() && !c.mem.Live() && !c.writeBack.Live()
  }

  /** update_statistics of Core.c. */
  function Counted(c: CoreState): CoreState {
    if !c.halted && !c.memoryStall && !c.hazardStall then c.(instructions := c.instructions + 1) else c
  }

  /** The core runs a cycle in this iteration. */
  predicate Runs(c: CoreState) { !c.stopped && !PipeFlushed(c) }

  function CoreIter(p: Program, c: CoreState, answer: Option<Word>): CoreState
    requires Runs(c) && Fetches(c) ==> c.pc < INSTRUCTIONS_MEMORY_SIZE
  {
    if c.stopped then c
    else if PipeFlushed(c) then c.(stopped := true)
    else Cycle(p, Counted(c), answer)
  }

  /** Core_Init and Pipeline_Init. */
  function EmptyStage(pc: Pc): Stage { Stage(pc, Instruction(0, 0, 0, 0, 0), 0, NO_OPERATION) }

  function InitialCore(regs: Registers): CoreState {
    CoreState(0, regs, EmptyStage(0), EmptyStage(BUBBLE), EmptyStage(BUBBLE), EmptyStage(BUBBLE), EmptyStage(BUBBLE),
              false, false, false, 0, false)
  }
}
