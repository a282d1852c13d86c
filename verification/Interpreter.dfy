/** One instruction at a time, with a delay slot: what the pipeline is meant to compute. */
module Interpreter {
  import opened Types
  import opened Isa

  /** A memory access of one instruction. */
  datatype Effect =
    | Loaded(address: Word, value: Word)
    | Stored(address: Word, value: Word)

  datatype Machine = Machine(
    pc: nat,                 // the next instruction
    npc: nat,                // the one after it
    regs: Registers,         // R2 .. R15 are meaningful
    count: nat,              // instructions executed
    effects: seq<Effect>
  )

  function Start(regs: Registers): Machine { Machine(0, 1, regs, 0, []) }

  /** R0 is zero and R1 is the instruction's own immediate. */
  function Operand(regs: Registers, i: Instruction, r: Register): Word {
    if r == ZERO_REGISTER then 0 else if r == IMMEDIATE_REGISTER then i.immediate else regs[r]
  }

  /** The instruction after the delay slot. */
  function Following(regs: Registers, i: Instruction, npc: nat): nat {
    if i.IsBranch() && Taken(i.opcode, Operand(regs, i, i.rs), Operand(regs, i, i.rt))
    then Target(Operand(regs, i, i.rd))
    else npc + 1
  }

  function Address(regs: Registers, i: Instruction): Word {
    Wrap(Operand(regs, i, i.rs) + Operand(regs, i, i.rt))
  }

  function SetRegister(regs: Registers, r: Register, w: Word): Registers { regs[r := w] }

  /** The registers after one instruction; a load takes the given word. */
  function RegistersAfter(regs: Registers, i: Instruction, loaded: Word): Registers {
    if i.IsAlu() then SetRegister(regs, i.rd, Alu(i.opcode, Operand(regs, i, i.rs), Operand(regs, i, i.rt)))
    else if i.opcode == LW then SetRegister(regs, i.rd, loaded)
    else regs
  }

  function EffectsOf(regs: Registers, i: Instruction, loaded: Word): seq<Effect> {
    if i.opcode == LW then [Loaded(Address(regs, i), loaded)]
    else if i.opcode == SW then [Stored(Address(regs, i), Operand(regs, i, i.rd))]
    else []
  }

  /** One instruction other than HALT. */
  function Execute(m: Machine, i: Instruction, loaded: Word): Machine {
    Machine(m.npc, Following(m.regs, i, m.npc), RegistersAfter(m.regs, i, loaded), m.count + 1,
            m.effects + EffectsOf(m.regs, i, loaded))
  }

  /** The machine stops at HALT. */
  predicate Halts(p: Program, m: Machine) {
    m.pc < INSTRUCTIONS_MEMORY_SIZE && InstructionAt(p, m.pc).opcode == HALT
  }

  /** |answers| instructions from the start; the k-th word answers the k-th instruction if that is a load. */
  function Interpret(p: Program, regs: Registers, answers: seq<Word>): Machine {
    if answers == [] then Start(regs)
    else
      var n := |answers| - 1;
      var m := Interpret(p, regs, answers[..n]);
      if m.pc < INSTRUCTIONS_MEMORY_SIZE && !Halts(p, m) then Execute(m, InstructionAt(p, m.pc), answers[n]) else m
  }

  // ----- what one instruction does ---------------------------------------------------------------------------------

  /** An arithmetic instruction sets its target register, and nothing else. */
  lemma AluMeans(m: Machine, i: Instruction, loaded: Word)
    requires i.IsAlu()
    ensures var n := Execute(m, i, loaded);
            && n.regs[i.rd] == Alu(i.opcode, Operand(m.regs, i, i.rs), Operand(m.regs, i, i.rt))
            && (forall r: Register :: r != i.rd ==> n.regs[r] == m.regs[r])
            && n.effects == m.effects && n.pc == m.npc && n.npc == m.npc + 1
  {
    hide Alu;
  }

  /** A load and a store go to the address that ADD would compute from the same registers. */
  lemma MemoryMeans(m: Machine, i: Instruction, loaded: Word)
    requires i.IsMemory()
    ensures var n, a := Execute(m, i, loaded), Alu(ADD, Operand(m.regs, i, i.rs), Operand(m.regs, i, i.rt));
            && n.effects ==
                 m.effects + (if i.opcode == LW then [Loaded(a, loaded)] else [Stored(a, Operand(m.regs, i, i.rd))])
            && (i.opcode == LW ==> n.regs[i.rd] == loaded)
            && (forall r: Register :: i.opcode == SW || r != i.rd ==> n.regs[r] == m.regs[r])
            && n.pc == m.npc && n.npc == m.npc + 1
  {
  }

  /** A branch compares its source registers, unsigned, and goes to its target after the next instruction. */
  lemma BranchMeans(m: Machine, i: Instruction, loaded: Word)
    requires BEQ <= i.opcode <= BGE
    ensures var n, a, b := Execute(m, i, loaded), Operand(m.regs, i, i.rs), Operand(m.regs, i, i.rt);
            && n.regs == m.regs && n.effects == m.effects && n.pc == m.npc
            && n.npc == if (i.opcode == BEQ && a == b) || (i.opcode == BNE && a != b)
                           || (i.opcode == BLT && a < b) || (i.opcode == BGT && b < a)
                           || (i.opcode == BLE && !(b < a)) || (i.opcode == BGE && !(a < b))
                        then Operand(m.regs, i, i.rd) % 512 else m.npc + 1
  {
  }
}
