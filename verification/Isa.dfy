/** Instructions, arithmetic and branches (Helpers.h, Opcodes.c). */
module Isa {
  import opened Types

  const NUMBER_OF_REGISTERS := 16
  const ZERO_REGISTER := 0
  const IMMEDIATE_REGISTER := 1
  const LINK_REGISTER := 15
  const FIRST_MUTABLE_REGISTER := 2
  const INSTRUCTIONS_MEMORY_SIZE := 1024

  const ADD := 0
  const SUB := 1
  const AND := 2
  const OR := 3
  const XOR := 4
  const MUL := 5
  const SLL := 6
  const SRA := 7
  const SRL := 8
  const BEQ := 9
  const BNE := 10
  const BLT := 11
  const BGT := 12
  const BLE := 13
  const BGE := 14
  const JAL := 15
  const LW := 16
  const SW := 17
  const HALT := 20

  type Register = r: nat | r < NUMBER_OF_REGISTERS
  type Registers = s: seq<Word> | |s| == NUMBER_OF_REGISTERS
    witness [0, 0, 0, 0, 0, 0, 0, 0, 0, 0, 0, 0, 0, 0, 0, 0]
  type Immediate = i: nat | i < 0x1000
  type Program = s: seq<Word> | |s| == INSTRUCTIONS_MEMORY_SIZE
    witness seq(INSTRUCTIONS_MEMORY_SIZE, _ => 0)

  function ZeroRegisters(): Registers { [0, 0, 0, 0, 0, 0, 0, 0, 0, 0, 0, 0, 0, 0, 0, 0] }

  function EmptyProgram(): Program { seq(INSTRUCTIONS_MEMORY_SIZE, _ => 0) }

  datatype Instruction = Instruction(opcode: nat, rd: Register, rs: Register, rt: Register, immediate: Immediate) {
    predicate IsAlu() { opcode <= SRL }

    /** Opcode_IsBranchResulotion. */
    predicate IsBranch() { BEQ <= opcode < LW }

    /** Opcode_IsMemoryCommand. */
    predicate IsMemory() { opcode == LW || opcode == SW }

    /** The instruction computes a value for its target register. */
    predicate IsProducer() { IsAlu() || opcode == LW }

    /** The registers an instruction takes operands from, apart from the two fixed ones. */
    predicate Reads(r: Register) {
      r >= FIRST_MUTABLE_REGISTER && (r == rs || r == rt || (!IsAlu() && opcode != LW && r == rd))
    }

    /** The instructions the sequential semantics covers: no JAL, no gap in the table, R0 kept at zero. */
    predicate Supported() {
      && (opcode <= BGE || opcode == LW || opcode == SW || opcode == HALT)
      && (IsAlu() ==> rd != ZERO_REGISTER || (rs == ZERO_REGISTER && rt == ZERO_REGISTER))
      && (opcode == LW ==> rd != ZERO_REGISTER)
      && (opcode == HALT ==> rd < FIRST_MUTABLE_REGISTER)
    }
  }

  /** The bit fields of a 32-bit command, lowest first: immediate:12, rt:4, rs:4, rd:4, opcode:8. */
  function Fields(command: Word): Instruction {
    Instruction(command / 0x100_0000, command / 0x10_0000 % 16, command / 0x1_0000 % 16, command / 0x1000 % 16,
                command % 0x1000)
  }

  /** The five fields make up the command, so no two commands decode alike. */
  lemma FieldsMakeCommand(command: Word)
    ensures var i := Fields(command);
            command == i.opcode * 0x100_0000 + i.rd * 0x10_0000 + i.rs * 0x1_0000 + i.rt * 0x1000 + i.immediate
    ensures Fields(command).opcode < 0x100
  {
    var a, b, c := command / 0x1000, command / 0x1_0000, command / 0x10_0000;
    assert b == a / 16 && c == b / 16 && command / 0x100_0000 == c / 16;
  }

  function InstructionAt(p: Program, pc: nat): Instruction
    requires pc < INSTRUCTIONS_MEMORY_SIZE
  {
    Fields(p[pc])
  }

  ghost predicate SupportedProgram(p: Program) {
    forall pc :: 0 <= pc < INSTRUCTIONS_MEMORY_SIZE ==> InstructionAt(p, pc).Supported()
  }

  // ----- arithmetic ------------------------------------------------------------------------------------

  function Wrap(n: int): Word { n % 0x1_0000_0000 }

  function PowerOfTwo(k: nat): (r: nat)
    ensures r > 0
  {
    if k == 0 then 1 else 2 * PowerOfTwo(k - 1)
  }

  /** The word read as a two's complement number. */
  function Signed(w: Word): int { if w < 0x8000_0000 then w else w - 0x1_0000_0000 }

  datatype BitOperation = And | Or | Xor

  predicate Through(g: BitOperation, x: bool, y: bool) {
    match g
    case And => x && y
    case Or => x || y
    case Xor => x != y
  }

  function Digit(x: bool): nat { if x then 1 else 0 }

  /** Both words through the gate, bit by bit. */
  function Bitwise(g: BitOperation, a: nat, b: nat, width: nat): (r: nat)
    ensures r < PowerOfTwo(width)
  {
    if width == 0 then 0
    else Digit(Through(g, a % 2 == 1, b % 2 == 1)) + 2 * Bitwise(g, a / 2, b / 2, width - 1)
  }

  /** The nine arithmetic operations; a shift uses the low five bits of its amount. */
  function Alu(opcode: nat, rs: Word, rt: Word): Word
    requires opcode <= SRL
  {
    PowerOf32();
    if opcode == ADD then Wrap(rs + rt)
    else if opcode == SUB then Wrap(rs - rt)
    else if opcode == AND then Bitwise(And, rs, rt, 32)
    else if opcode == OR then Bitwise(Or, rs, rt, 32)
    else if opcode == XOR then Bitwise(Xor, rs, rt, 32)
    else if opcode == MUL then Wrap(rs * rt)
    else if opcode == SLL then Wrap(rs * PowerOfTwo(rt % 32))
    else if opcode == SRA then Wrap(Signed(rs) / PowerOfTwo(rt % 32))
    else Wrap(rs / PowerOfTwo(rt % 32))
  }

  lemma PowerOf32()
    ensures PowerOfTwo(32) == 0x1_0000_0000
  {
    assert PowerOfTwo(8) == 0x100;
    assert PowerOfTwo(16) == 0x1_0000;
    assert PowerOfTwo(24) == 0x100_0000;
  }

  lemma {:induction false} BitwiseOfZeros(g: BitOperation, width: nat)
    ensures Bitwise(g, 0, 0, width) == 0
  {
    if width > 0 { BitwiseOfZeros(g, width - 1); }
  }

  lemma AluOfZeros(opcode: nat)
    requires opcode <= SRL
    ensures Alu(opcode, 0, 0) == 0
  {
    if opcode in {AND, OR, XOR} {
      hide PowerOfTwo, Bitwise;
      BitwiseOfZeros(if opcode == AND then And else if opcode == OR then Or else Xor, 32);
    } else {
      assert PowerOfTwo(0) == 1;
      hide PowerOfTwo, Bitwise;
    }
  }

  /** Bit `k` of a number. */
  predicate Bit(n: nat, k: nat) { if k == 0 then n % 2 == 1 else Bit(n / 2, k - 1) }

  /** Each bit of the result is the gate of the operands' bits. */
  lemma {:induction false} BitwiseMeans(g: BitOperation, a: nat, b: nat, width: nat, k: nat)
    requires k < width
    ensures Bit(Bitwise(g, a, b, width), k) <==> Through(g, Bit(a, k), Bit(b, k))
  {
    var high := Bitwise(g, a / 2, b / 2, width - 1);
    assert (Digit(Through(g, a % 2 == 1, b % 2 == 1)) + 2 * high) / 2 == high;
    if k > 0 { BitwiseMeans(g, a / 2, b / 2, width - 1, k - 1); }
  }

  lemma BitwiseOperations(a: Word, b: Word, k: nat)
    requires k < 32
    ensures Bit(Alu(AND, a, b), k) <==> Bit(a, k) && Bit(b, k)
    ensures Bit(Alu(OR, a, b), k) <==> Bit(a, k) || Bit(b, k)
    ensures Bit(Alu(XOR, a, b), k) <==> Bit(a, k) != Bit(b, k)
  {
    hide PowerOfTwo, Bitwise, Bit;
    BitwiseMeans(And, a, b, 32, k);
    BitwiseMeans(Or, a, b, 32, k);
    BitwiseMeans(Xor, a, b, 32, k);
  }

  lemma WrapOnce(n: int)
    requires -0x1_0000_0000 <= n < 0x2_0000_0000
    ensures Wrap(n) == if n < 0 then n + 0x1_0000_0000 else if n < 0x1_0000_0000 then n else n - 0x1_0000_0000
  {
  }

  /** Subtraction undoes addition, and addition subtraction, with 32-bit wrap-around. */
  lemma SubtractionUndoesAddition(a: Word, b: Word)
    ensures Alu(SUB, Alu(ADD, a, b), b) == a && Alu(ADD, Alu(SUB, a, b), b) == a
  {
    hide PowerOfTwo, Bitwise;
    assert Alu(ADD, a, b) == Wrap(a + b) && Alu(SUB, a, b) == Wrap(a - b);
    assert Alu(SUB, Wrap(a + b), b) == Wrap(Wrap(a + b) - b) && Alu(ADD, Wrap(a - b), b) == Wrap(Wrap(a - b) + b);
    hide Wrap, Alu;
    WrapOnce(a + b);
    WrapOnce(a - b);
    WrapOnce(Wrap(a + b) - b);
    WrapOnce(Wrap(a - b) + b);
  }

  lemma QuotientBounds(n: int, d: nat)
    requires d > 0
    ensures n / d * d <= n < (n / d + 1) * d
  {
    var q, m := n / d, n % d;
    assert n == q * d + m;
    assert (q + 1) * d == q * d + d;
  }

  lemma ProductGrows(x: int, d: nat)
    requires d > 0
    ensures x >= 0 ==> x * d >= x
    ensures x <= 0 ==> x * d <= x
  {
  }

  /** A quotient is no further from zero than what is divided, and on the same side. */
  lemma QuotientShrinks(n: int, q: int, d: nat)
    requires d > 0 && q * d <= n < (q + 1) * d
    ensures if n >= 0 then 0 <= q <= n else n <= q < 0
  {
    ProductGrows(q, d);
    ProductGrows(q + 1, d);
  }

  /** The right shifts divide by a power of two, rounding down; the arithmetic one divides the signed number. */
  lemma RightShiftsDivide(a: Word, b: Word)
    requires b < 32
    ensures Alu(SRL, a, b) * PowerOfTwo(b) <= a < (Alu(SRL, a, b) + 1) * PowerOfTwo(b)
    ensures Signed(Alu(SRA, a, b)) * PowerOfTwo(b) <= Signed(a) < (Signed(Alu(SRA, a, b)) + 1) * PowerOfTwo(b)
  {
    hide PowerOfTwo, Bitwise;
    var d := PowerOfTwo(b);
    var q, r := a / d, Signed(a) / d;
    assert Alu(SRL, a, b) == Wrap(q) && Alu(SRA, a, b) == Wrap(r);
    hide Alu, Wrap;
    QuotientBounds(a, d);
    QuotientBounds(Signed(a), d);
    QuotientShrinks(a, q, d);
    QuotientShrinks(Signed(a), r, d);
    WrapOnce(q);
    WrapOnce(r);
  }

  // ----- what the operations are, by the laws that determine them -----------------------------------------------

  /** Addition is counting on from zero, 0xFFFFFFFF being followed by 0. */
  lemma AdditionCounts(a: Word, b: Word)
    ensures Alu(ADD, a, 0) == a
    ensures Alu(ADD, a, 1) == if a == 0xFFFF_FFFF then 0 else a + 1
    ensures Alu(ADD, a, Alu(ADD, b, 1)) == Alu(ADD, Alu(ADD, a, b), 1)
  {
    hide PowerOfTwo, Bitwise;
    assert forall x: Word, y: Word :: Alu(ADD, x, y) == Wrap(x + y);
    hide Alu;
    WrapOfWrap(a, b + 1);
    WrapOfWrap(1, a + b);
    assert a + (b + 1) == 1 + (a + b);
  }

  lemma WrapOfWrap(a: int, n: int)
    ensures Wrap(a + Wrap(n)) == Wrap(a + n)
  {
    var k := n / 0x1_0000_0000;
    assert n == Wrap(n) + 0x1_0000_0000 * k;
    ModuloMultiple(a + Wrap(n), k);
  }

  lemma ModuloMultiple(m: int, k: int)
    ensures Wrap(m + 0x1_0000_0000 * k) == Wrap(m)
  {
  }

  /** Multiplication is repeated addition. */
  lemma MultiplicationAdds(a: Word, b: Word)
    ensures Alu(MUL, a, 0) == 0
    ensures Alu(MUL, a, Alu(ADD, b, 1)) == Alu(ADD, Alu(MUL, a, b), a)
  {
    hide PowerOfTwo, Bitwise;
    assert Alu(MUL, a, 0) == Wrap(a * 0) && Alu(ADD, b, 1) == Wrap(b + 1) && Alu(MUL, a, b) == Wrap(a * b);
    assert Alu(MUL, a, Wrap(b + 1)) == Wrap(a * Wrap(b + 1)) && Alu(ADD, Wrap(a * b), a) == Wrap(Wrap(a * b) + a);
    hide Alu;
    WrapOfWrap(a, a * b);
    WrapOnce(b + 1);
    if b + 1 == 0x1_0000_0000 { ModuloMultiple(0, a); }
    assert a + a * b == a * (b + 1);
  }

  lemma LeftShiftIs(a: Word, k: nat)
    requires k < 32
    ensures Alu(SLL, a, k) == Wrap(a * PowerOfTwo(k))
  {
    hide PowerOfTwo, Bitwise, Wrap;
    assert k % 32 == k;
  }

  lemma DoubledProduct(a: nat, k: nat)
    ensures a * PowerOfTwo(0) == a && a * PowerOfTwo(k + 1) == a * PowerOfTwo(k) + a * PowerOfTwo(k)
  {
    assert PowerOfTwo(k + 1) == PowerOfTwo(k) + PowerOfTwo(k);
  }

  /** A left shift by one more place doubles once more. */
  lemma LeftShiftDoubles(a: Word, k: nat)
    requires k < 31
    ensures Alu(SLL, a, 0) == a
    ensures Alu(SLL, a, k + 1) == Alu(ADD, Alu(SLL, a, k), Alu(SLL, a, k))
  {
    LeftShiftIs(a, 0);
    LeftShiftIs(a, k);
    LeftShiftIs(a, k + 1);
    DoubledProduct(a, k);
    hide PowerOfTwo, Bitwise;
    var n := a * PowerOfTwo(k);
    assert Alu(ADD, Wrap(n), Wrap(n)) == Wrap(Wrap(n) + Wrap(n));
    hide Alu;
    WrapOfWrap(Wrap(n), n);
    WrapOfWrap(n, n);
    WrapOnce(a);
  }

  // ----- the right shifts, bit by bit -----------------------------------------------------------------------------

  /** A quotient by a power of two drops the low bits. */
  lemma {:induction false} BitOfQuotient(n: nat, b: nat, k: nat, q: nat, d: nat)
    requires d == PowerOfTwo(b) && q * d <= n < q * d + d
    ensures Bit(q, k) <==> Bit(n, k + b)
    decreases b
  {
    if b > 0 {
      var e := PowerOfTwo(b - 1);
      assert q * d == 2 * (q * e);
      BitOfQuotient(n / 2, b - 1, k, q, e);
    }
  }

  lemma QuotientInTwo(n: nat, d: nat)
    requires d > 0
    ensures n / (2 * d) == n / 2 / d
  {
    var q := n / 2 / d;
    QuotientBounds(n, 2);
    QuotientBounds(n / 2, d);
    assert q * d <= n / 2 < (q + 1) * d;
    QuotientIs(n, 2 * d, q);
  }

  lemma QuotientIs(n: nat, d: nat, q: nat)
    requires d > 0 && q * d <= n < (q + 1) * d
    ensures n / d == q
  {
    var p := n / d;
    QuotientBounds(n, d);
    if p > q { ProductOrder(q + 1, p, d); } else if p < q { ProductOrder(p + 1, q, d); }
  }

  lemma ProductOrder(x: int, y: int, d: nat)
    requires x <= y
    ensures x * d <= y * d
  {
    ProductSplits(x, y - x, d);
  }

  lemma ProductSplits(x: int, y: nat, d: nat)
    ensures (x + y) * d == x * d + y * d && y * d >= 0
  {
  }

  /** A number below a power of two has no bit there or above. */
  lemma {:induction false} NoHighBits(n: nat, width: nat, k: nat)
    requires n < PowerOfTwo(width) && k >= width
    ensures !Bit(n, k)
  {
    if width > 0 { NoHighBits(n / 2, width - 1, k - 1); } else { ZeroHasNoBits(k); }
  }

  lemma {:induction false} ZeroHasNoBits(k: nat)
    ensures !Bit(0, k)
  {
    if k > 0 { ZeroHasNoBits(k - 1); }
  }

  /** The logical right shift brings in zeros. */
  lemma LogicalShiftBits(a: Word, b: Word, k: nat)
    requires b < 32 && k < 32
    ensures Bit(Alu(SRL, a, b), k) <==> k + b < 32 && Bit(a, k + b)
  {
    RightShiftsDivide(a, b);
    PowerOf32();
    hide PowerOfTwo, Alu, Bit;
    BitOfQuotient(a, b, k, Alu(SRL, a, b), PowerOfTwo(b));
    if k + b >= 32 { NoHighBits(a, 32, k + b); }
  }

  /** The bits of the complement are the opposite bits. */
  lemma {:induction false} BitOfComplement(n: nat, width: nat, k: nat)
    requires n < PowerOfTwo(width) && k < width
    ensures Bit(PowerOfTwo(width) - 1 - n, k) <==> !Bit(n, k)
    decreases width
  {
    var m := PowerOfTwo(width) - 1 - n;
    assert m / 2 == PowerOfTwo(width - 1) - 1 - n / 2;
    if k > 0 { BitOfComplement(n / 2, width - 1, k - 1); }
  }

  lemma SignBit(a: Word)
    ensures Bit(a, 31) <==> a >= 0x8000_0000
  {
    assert PowerOfTwo(31) == 0x8000_0000 by { PowerOf32(); }
    BitOfQuotient(a, 31, 0, if a < 0x8000_0000 then 0 else 1, PowerOfTwo(31));
  }

  /** The arithmetic right shift brings in copies of the sign bit. */
  lemma ArithmeticShiftBits(a: Word, b: Word, k: nat)
    requires b < 32 && k < 32
    ensures Bit(Alu(SRA, a, b), k) <==> Bit(a, if k + b < 32 then k + b else 31)
  {
    SignBit(a);
    if a < 0x8000_0000 {
      LogicalShiftBits(a, b, k);
      SignedShift(a, b);
    } else {
      NegativeShift(a, b, k);
    }
  }

  lemma SignedShift(a: Word, b: Word)
    requires b < 32 && a < 0x8000_0000
    ensures Alu(SRA, a, b) == Alu(SRL, a, b)
  {
    hide PowerOfTwo, Bitwise, Wrap;
  }

  lemma ComplementBounds(n: int, q: int, d: nat)
    requires q * d <= n < (q + 1) * d
    ensures (-1 - q) * d <= -1 - n < (-1 - q) * d + d
  {
    assert (-1 - q) * d == -1 * d - q * d && (q + 1) * d == q * d + d;
  }

  /** A negative number is the complement of a natural one, and so is its quotient. */
  lemma NegativeShift(a: Word, b: Word, k: nat)
    requires b < 32 && k < 32 && a >= 0x8000_0000
    ensures Bit(Alu(SRA, a, b), k) <==> k + b >= 32 || Bit(a, k + b)
  {
    RightShiftsDivide(a, b);
    var d, r := PowerOfTwo(b), Signed(Alu(SRA, a, b));
    hide PowerOfTwo, Alu, Bit;
    QuotientShrinks(Signed(a), r, d);
    ComplementBounds(Signed(a), r, d);
    ComplementShift(0xFFFF_FFFF - a, b, k, -1 - r, d);
    assert Alu(SRA, a, b) == 0xFFFF_FFFF - (-1 - r);
  }

  lemma ComplementShift(n: Word, b: nat, k: nat, q: Word, d: nat)
    requires d == PowerOfTwo(b) && q * d <= n < q * d + d && b < 32 && k < 32
    ensures Bit(0xFFFF_FFFF - q, k) <==> k + b >= 32 || Bit(0xFFFF_FFFF - n, k + b)
  {
    PowerOf32();
    hide PowerOfTwo, Bit;
    BitOfQuotient(n, b, k, q, d);
    BitOfComplement(q, 32, k);
    if k + b < 32 { BitOfComplement(n, 32, k + b); } else { NoHighBits(n, 32, k + b); }
  }

  // ----- branches --------------------------------------------------------------------------------------

  /** Branches compare unsigned words. */
  predicate Taken(opcode: nat, rs: Word, rt: Word) {
    if opcode == BEQ then rs == rt
    else if opcode == BNE then rs != rt
    else if opcode == BLT then rs < rt
    else if opcode == BGT then rs > rt
    else if opcode == BLE then rs <= rt
    else opcode == BGE && rs >= rt
  }

  /** The six conditions are three of them and their negations, and the order of words is total. */
  lemma BranchesAreComplementary(rs: Word, rt: Word)
    ensures Taken(BEQ, rs, rt) <==> !Taken(BNE, rs, rt)
    ensures Taken(BLT, rs, rt) <==> !Taken(BGE, rs, rt)
    ensures Taken(BGT, rs, rt) <==> !Taken(BLE, rs, rt)
    ensures Taken(BLE, rs, rt) <==> Taken(BLT, rs, rt) || Taken(BEQ, rs, rt)
    ensures Taken(BGT, rs, rt) <==> Taken(BLT, rt, rs)
  {
  }

  /** Counting `k` on from `a` leads to `b`. */
  predicate Apart(a: nat, k: nat, b: nat) { a + k == b }

  /** The conditions in terms of counting and of the ALU: BLT holds iff something must be added to reach rt. */
  lemma BranchesMean(a: Word, b: Word)
    ensures Taken(BEQ, a, b) <==> Alu(SUB, a, b) == 0
    ensures Taken(BNE, a, b) <==> Alu(XOR, a, b) != 0
    ensures Taken(BLT, a, b) <==> exists k: nat :: k > 0 && Apart(a, k, b)
    ensures Taken(BGT, a, b) <==> exists k: nat :: k > 0 && Apart(b, k, a)
    ensures Taken(BLE, a, b) <==> exists k: nat :: Apart(a, k, b)
    ensures Taken(BGE, a, b) <==> exists k: nat :: Apart(b, k, a)
  {
    hide PowerOfTwo, Bitwise;
    if a <= b { assert Apart(a, b - a, b); }
    if b <= a { assert Apart(b, a - b, a); }
    assert Alu(SUB, a, b) == Wrap(a - b) && Alu(XOR, a, b) == Bitwise(Xor, a, b, 32);
    WrapOnce(a - b);
    PowerOf32();
    XorIsZero(a, b, 32);
  }

  /** Only equal words have no differing bit. */
  lemma {:induction false} XorIsZero(a: nat, b: nat, width: nat)
    requires a < PowerOfTwo(width) && b < PowerOfTwo(width)
    ensures Bitwise(Xor, a, b, width) == 0 <==> a == b
  {
    if width > 0 { XorIsZero(a / 2, b / 2, width - 1); }
  }

  /** A branch goes to the low nine bits of its target register. */
  function Target(rd: Word): nat { rd % 0x200 }

  /** The target has the nine low bits of the word and no other. */
  lemma TargetIsLowNineBits(w: Word, k: nat)
    ensures Target(w) < 512 && Target(w) == w - w / 512 * 512
    ensures Bit(Target(w), k) <==> k < 9 && Bit(w, k)
  {
    assert PowerOfTwo(9) == 512;
    if k < 9 { RemainderBits(w, 9, k); } else { NoHighBits(Target(w), 9, k); }
  }

  lemma {:induction false} RemainderBits(n: nat, width: nat, k: nat)
    requires k < width
    ensures Bit(n % PowerOfTwo(width), k) <==> Bit(n, k)
    decreases width
  {
    var d := PowerOfTwo(width - 1);
    RemainderInTwo(n, d);
    if k > 0 { RemainderBits(n / 2, width - 1, k - 1); }
  }

  lemma RemainderInTwo(n: nat, d: nat)
    requires d > 0
    ensures n % (2 * d) / 2 == n / 2 % d && n % (2 * d) % 2 == n % 2
  {
    QuotientInTwo(n, d);
    var q := n / (2 * d);
    var r := n % (2 * d);
    assert n == 2 * d * q + r && 2 * d * q == 2 * (d * q);
    assert r == 2 * (n / 2 - d * q) + n % 2;
    assert n / 2 == d * q + n / 2 % d;
  }
}
