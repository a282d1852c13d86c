/**
  The counter test: the four cores take turns at incrementing word 0 of memory, core `id` when it is `id` modulo 4,
  128 times each. Whatever the schedule, the four programs end with the outputs that the test expects.
 */
module Counter {
  import opened Types
  import opened Addressing
  import opened Isa
  import opened Interpreter
  import opened BusModel
  import opened SharedMemory
  import opened Processor
  import opened CacheModel
  import opened TransferEffect
  import opened Gate
  import opened Exclusion
  import opened Coherence
  import opened Transactions
  import PipelineModel
  import PipelineRuns
  import Simulation

  // ----- the four programs -----------------------------------------------------------------------------------------

  const ROUNDS := 128

  /** The commands of tests/counter; core 3 reads word 512 before it halts. */
  function Commands(id: CoreId): seq<Word> {
    [if id == 0 then 0x00A0_0000 else 0x00A1_0000 + id, 0x0030_1080, 0x1020_0000, 0x0242_1003, 0x0A14_A002, 0,
     0x0022_1001, 0x1120_0000, 0x0133_1001, 0x0A13_0002, 0]
    + if id == 3 then [0x1050_1200, 0x1400_0000] else [0x1400_0000]
  }

  function CounterProgram(id: CoreId): Program {
    Commands(id) + seq(INSTRUCTIONS_MEMORY_SIZE - |Commands(id)|, _ => 0)
  }

  function Counters(): (p: Programs)
    ensures forall id: CoreId :: p[id] == CounterProgram(id)
  {
    [CounterProgram(0), CounterProgram(1), CounterProgram(2), CounterProgram(3)]
  }

  const POLL := Instruction(LW, 2, 0, 0, 0)        // R2 = memory[0]
  const TURN := Instruction(AND, 4, 2, 1, 3)       // R4 = R2 & 3
  const UNLESS := Instruction(BNE, 1, 4, 10, 2)    // back to 2 if it is not this core's turn
  const NOTHING := Instruction(ADD, 0, 0, 0, 0)
  const COUNT := Instruction(ADD, 2, 2, 1, 1)      // R2 = R2 + 1
  const PUBLISH := Instruction(SW, 2, 0, 0, 0)     // memory[0] = R2
  const ROUND := Instruction(SUB, 3, 3, 1, 1)      // R3 = R3 - 1
  const AGAIN := Instruction(BNE, 1, 3, 0, 2)      // back to 2 if R3 is not 0
  const EVICT := Instruction(LW, 5, 0, 1, 512)     // R5 = memory[512]
  const STOP := Instruction(HALT, 0, 0, 0, 0)

  /** The instruction at each address. */
  function Code(id: CoreId, pc: nat): Instruction
    requires pc < INSTRUCTIONS_MEMORY_SIZE
  {
    if pc == 0 then if id == 0 then Instruction(ADD, 10, 0, 0, 0) else Instruction(ADD, 10, 1, 0, id)
    else if pc == 1 then Instruction(ADD, 3, 0, 1, ROUNDS)
    else if pc == 2 then POLL
    else if pc == 3 then TURN
    else if pc == 4 then UNLESS
    else if pc == 6 then COUNT
    else if pc == 7 then PUBLISH
    else if pc == 8 then ROUND
    else if pc == 9 then AGAIN
    else if pc == 11 then if id == 3 then EVICT else STOP
    else if pc == 12 && id == 3 then STOP
    else NOTHING
  }

  lemma CodeIs(id: CoreId, pc: nat)
    requires pc < INSTRUCTIONS_MEMORY_SIZE
    ensures InstructionAt(CounterProgram(id), pc) == Code(id, pc)
  {
    CommandAt(id, pc);
    if pc < 6 { FirstCommands(id, pc); } else if pc < |Commands(id)| { LastCommands(id, pc); }
    hide CounterProgram, Commands;
  }

  lemma FirstCommands(id: CoreId, pc: nat)
    requires pc < 6
    ensures Fields(Commands(id)[pc]) == Code(id, pc)
  {
  }

  lemma LastCommands(id: CoreId, pc: nat)
    requires 6 <= pc < |Commands(id)|
    ensures Fields(Commands(id)[pc]) == Code(id, pc)
  {
  }

  lemma CommandAt(id: CoreId, pc: nat)
    requires pc < INSTRUCTIONS_MEMORY_SIZE
    ensures CounterProgram(id)[pc] == if pc < |Commands(id)| then Commands(id)[pc] else 0
  {
    hide Commands;
  }

  lemma CountersSupported()
    ensures forall id: CoreId :: SupportedProgram(Counters()[id])
  {
    hide CounterProgram, InstructionAt;
    forall id: CoreId, pc | 0 <= pc < INSTRUCTIONS_MEMORY_SIZE
      ensures InstructionAt(CounterProgram(id), pc).Supported()
    {
      CodeIs(id, pc);
    }
  }

  // ----- the discipline of one core --------------------------------------------------------------------------------

  /**
    What core `c` has done: the count it has read, if it is its turn, its stores, the last of them, and whether it
    has read word 512 since.
   */
  datatype Player = Player(turn: Option<Word>, stores: nat, last: Word, evicted: bool)

  /** One access of core `c`; None if it breaks the discipline. */
  function Play(c: CoreId, p: Player, e: Access): Option<Player> {
    match e
    case Load(_, l, v) =>
      if l == 0 && p.turn.None? then Some(p.(turn := if v % 4 == c then Some(v) else None))
      else if l == 512 && p.turn.None? then Some(p.(evicted := true))
      else None
    case Store(_, l, w) =>
      if l == 0 && p.turn.Some? && w == Wrap(p.turn.value + 1) && p.stores < ROUNDS
      then Some(Player(None, p.stores + 1, w, false))
      else None
  }

  /** All accesses of core `c` in a log. */
  function Played(c: CoreId, log: seq<Access>): Option<Player>
    decreases |log|
  {
    if log == [] then Some(Player(None, 0, 0, false))
    else
      var n := |log| - 1;
      var p := Played(c, log[..n]);
      if p.None? || log[n].core != c then p else Play(c, p.value, log[n])
  }

  lemma PlayedNext(c: CoreId, log: seq<Access>, e: Access)
    ensures Played(c, log + [e]) ==
              var p := Played(c, log); if p.None? || e.core != c then p else Play(c, p.value, e)
  {
    assert (log + [e])[..|log|] == log;
  }

  /** The accesses of the other cores do not matter. */
  lemma {:induction false} PlayedOwn(c: CoreId, log: seq<Access>)
    ensures Played(c, Of(log, c)) == Played(c, log)
    decreases |log|
  {
    if log != [] {
      var n := |log| - 1;
      var e := log[n];
      assert log == log[..n] + [e];
      PlayedOwn(c, log[..n]);
      OfAppend(log[..n], [e], c);
      OfOne(e, c);
      if e.core == c { PlayedNext(c, Of(log[..n], c), e); } else { assert Of(log[..n], c) + [] == Of(log[..n], c); }
    }
  }

  lemma OfOne(e: Access, c: CoreId)
    ensures Of([e], c) == if e.core == c then [e] else []
  {
    assert [e][1..] == [];
    OfNothing(c);
  }

  // ----- one core's machine ----------------------------------------------------------------------------------------

  lemma {:induction false} AndZero(v: nat, width: nat)
    ensures Bitwise(And, v, 0, width) == 0
  {
    if width > 0 { AndZero(v / 2, width - 1); }
  }

  /** The low two bits are the remainder by four. */
  lemma AndThree(v: Word)
    ensures Alu(AND, v, 3) == v % 4
  {
    hide Bitwise, PowerOfTwo;
    AndZero(v / 2 / 2, 30);
    LowBit(v, 3, 32);
    LowBit(v / 2, 1, 31);
  }

  lemma LowBit(a: nat, b: nat, width: nat)
    requires width > 0
    ensures Bitwise(And, a, b, width) ==
              (if a % 2 == 1 && b % 2 == 1 then 1 else 0) + 2 * Bitwise(And, a / 2, b / 2, width - 1)
  {
  }

  /** The registers and the place of core `id`'s machine once it has behaved as `p`. */
  predicate InLoop(id: CoreId, m: Machine, p: Player) {
    var r2, r3, r4 := m.regs[2], m.regs[3], m.regs[4];
    var mine := r2 % 4 == id;
    && m.regs[10] == id && p.stores <= ROUNDS
    && (m.pc in {2, 3, 4, 5, 6, 7} ==> r3 == ROUNDS - p.stores && r3 > 0)
    && (m.pc in {3, 4, 5} ==> p.turn == if mine then Some(r2) else None)
    && (m.pc in {4, 5} ==> r4 == r2 % 4)
    && (m.pc in {6, 7} ==> p.turn.Some? && p.turn.value % 4 == id)
    && (m.pc == 6 ==> p.turn == Some(r2))
    && (m.pc == 7 ==> r2 == Wrap(p.turn.value + 1))
    && (m.pc in {6, 7, 8, 9, 10, 11, 12} ==> r4 == id)
    && (m.pc in {2, 8, 9, 10, 11, 12} ==> p.turn.None?)
    && (m.pc in {8, 9, 10, 11, 12} ==> p.stores > 0 && p.last == r2)
    && (m.pc == 8 ==> r3 == ROUNDS - p.stores + 1)
    && (m.pc in {9, 10} ==> r3 == ROUNDS - p.stores)
    && (m.pc in {11, 12} ==> r3 == 0 && p.stores == ROUNDS)
    && (m.pc == 12 ==> p.evicted)
    && (if m.pc == 5 then m.npc == (if mine then 6 else 2)
        else if m.pc == 10 then m.npc == (if r3 != 0 then 2 else 11)
        else m.npc == m.pc + 1)
  }

  predicate OnPath(id: CoreId, m: Machine, p: Player) {
    && m.pc <= (if id == 3 then 12 else 11)
    && (if m.pc == 0 then m.npc == 1 && p == Player(None, 0, 0, false)
        else if m.pc == 1 then m.npc == 2 && m.regs[10] == id && p == Player(None, 0, 0, false)
        else InLoop(id, m, p))
  }

  /** The player after one instruction. */
  function Moved(id: CoreId, m: Machine, p: Player, loaded: Word): Player {
    if m.pc == 2 then p.(turn := if loaded % 4 == id then Some(loaded) else None)
    else if m.pc == 7 then Player(None, p.stores + 1, m.regs[2], false)
    else if m.pc == 11 then p.(evicted := true)
    else p
  }

  lemma StepOnPath(id: CoreId, m: Machine, p: Player, loaded: Word)
    requires OnPath(id, m, p) && Code(id, m.pc) != STOP
    ensures OnPath(id, Execute(m, Code(id, m.pc), loaded), Moved(id, m, p, loaded))
  {
    hide Execute;
    if m.pc <= 1 { Prologue(id, m, p, loaded); }
    else if m.pc <= 5 { PollSteps(id, m, p, loaded); }
    else if m.pc <= 7 { CountSteps(id, m, p, loaded); }
    else { RoundSteps(id, m, p, loaded); }
  }

  lemma Prologue(id: CoreId, m: Machine, p: Player, loaded: Word)
    requires OnPath(id, m, p) && m.pc <= 1
    ensures OnPath(id, Execute(m, Code(id, m.pc), loaded), Moved(id, m, p, loaded))
  {
    hide Alu, EffectsOf;
    AluFacts(m.regs[2]);
  }

  lemma PollSteps(id: CoreId, m: Machine, p: Player, loaded: Word)
    requires OnPath(id, m, p) && 2 <= m.pc <= 5
    ensures OnPath(id, Execute(m, Code(id, m.pc), loaded), Moved(id, m, p, loaded))
  {
    hide Alu, EffectsOf;
    AluFacts(m.regs[2]);
  }

  lemma CountSteps(id: CoreId, m: Machine, p: Player, loaded: Word)
    requires OnPath(id, m, p) && 6 <= m.pc <= 7
    ensures OnPath(id, Execute(m, Code(id, m.pc), loaded), Moved(id, m, p, loaded))
  {
    hide Alu, EffectsOf;
    AluFacts(m.regs[2]);
  }

  lemma RoundSteps(id: CoreId, m: Machine, p: Player, loaded: Word)
    requires OnPath(id, m, p) && 8 <= m.pc && Code(id, m.pc) != STOP
    ensures OnPath(id, Execute(m, Code(id, m.pc), loaded), Moved(id, m, p, loaded))
  {
    hide Alu, EffectsOf;
    AluFacts(m.regs[2]);
    SubtractOne(m.regs[3]);
  }

  lemma AluFacts(v: Word)
    ensures Alu(ADD, 0, 0) == 0 && Alu(ADD, 0, ROUNDS) == ROUNDS && Alu(ADD, v, 1) == Wrap(v + 1)
    ensures Alu(AND, v, 3) == v % 4
    ensures forall id: CoreId :: Alu(ADD, id, 0) == id
  {
    AndThree(v);
    hide Bitwise, PowerOfTwo;
  }

  lemma SubtractOne(v: Word)
    ensures v > 0 ==> Alu(SUB, v, 1) == v - 1
  {
    hide Bitwise, PowerOfTwo;
  }

  /** The machine of core `id` is on its path, and its accesses keep the discipline. */
  lemma {:induction false} StaysOnPath(id: CoreId, inputs: seq<Word>) returns (p: Player)
    ensures var m := Interpret(CounterProgram(id), ZeroRegisters(), inputs);
            OnPath(id, m, p) && Played(id, AccessesOf(id, m.effects)) == Some(p)
  {
    hide CounterProgram, InstructionAt, Execute, OnPath, Played, Code;
    if inputs == [] {
      p := Player(None, 0, 0, false);
      AtStart(id);
    } else {
      var n := |inputs| - 1;
      var m := Interpret(CounterProgram(id), ZeroRegisters(), inputs[..n]);
      var q := StaysOnPath(id, inputs[..n]);
      PathInRange(id, m, q);
      CodeIs(id, m.pc);
      if Code(id, m.pc).opcode == HALT {
        p := q;
      } else {
        p := Moved(id, m, q, inputs[n]);
        StepOnPath(id, m, q, inputs[n]);
        StepPlays(id, m, q, inputs[n]);
      }
    }
  }

  lemma AtStart(id: CoreId)
    ensures OnPath(id, Interpreter.Start(ZeroRegisters()), Player(None, 0, 0, false))
    ensures Played(id, AccessesOf(id, [])) == Some(Player(None, 0, 0, false))
  {
  }

  lemma PathInRange(id: CoreId, m: Machine, p: Player)
    requires OnPath(id, m, p)
    ensures m.pc < INSTRUCTIONS_MEMORY_SIZE
  {
  }

  /** The accesses of one instruction. */
  lemma EffectsAre(id: CoreId, m: Machine, p: Player, loaded: Word)
    requires OnPath(id, m, p) && Code(id, m.pc).opcode != HALT
    ensures EffectsOf(m.regs, Code(id, m.pc), loaded) ==
              if m.pc == 2 then [Loaded(0, loaded)] else if m.pc == 7 then [Stored(0, m.regs[2])]
              else if m.pc == 11 then [Loaded(512, loaded)] else []
  {
    hide InLoop;
  }

  /** Each of them keeps the discipline. */
  lemma EffectPlays(id: CoreId, m: Machine, p: Player, loaded: Word)
    requires OnPath(id, m, p)
    ensures m.pc == 2 ==> Play(id, p, Load(id, 0, loaded)) == Some(Moved(id, m, p, loaded))
    ensures m.pc == 7 ==> Play(id, p, Store(id, 0, m.regs[2])) == Some(Moved(id, m, p, loaded))
    ensures m.pc == 11 ==> Play(id, p, Load(id, 512, loaded)) == Some(Moved(id, m, p, loaded))
    ensures m.pc !in {2, 7, 11} ==> Moved(id, m, p, loaded) == p
  {
  }

  lemma StepPlays(id: CoreId, m: Machine, p: Player, loaded: Word)
    requires OnPath(id, m, p) && m.pc < INSTRUCTIONS_MEMORY_SIZE && Code(id, m.pc).opcode != HALT
    requires Played(id, AccessesOf(id, m.effects)) == Some(p)
    ensures Played(id, AccessesOf(id, Execute(m, Code(id, m.pc), loaded).effects)) == Some(Moved(id, m, p, loaded))
  {
    hide Alu, Played, RegistersAfter, Following, AccessesOf, MemoryAddress, EffectsOf, OnPath;
    hide Code, Play, Moved, Location;
    var es := EffectsOf(m.regs, Code(id, m.pc), loaded);
    EffectsAre(id, m, p, loaded);
    EffectPlays(id, m, p, loaded);
    AccessesAppend(id, m.effects, es);
    AddressIs(0);
    AddressIs(512);
    if es != [] {
      OneAccess(id, es[0]);
      PlayedNext(id, AccessesOf(id, m.effects), AccessOf(id, es[0]));
    } else {
      NoAccess(id);
      assert AccessesOf(id, m.effects) + [] == AccessesOf(id, m.effects);
    }
  }

  lemma AddressIs(a: Address)
    requires a < MAIN_MEMORY_SIZE
    ensures MemoryAddress(a) == a
  {
    hide Location, TagOf, IndexOf, OffsetOf;
  }

  lemma OneAccess(id: CoreId, e: Effect)
    ensures AccessesOf(id, [e]) == [AccessOf(id, e)]
  {
  }

  lemma NoAccess(id: CoreId)
    ensures AccessesOf(id, []) == []
  {
  }

  /** At HALT the core has had its 128 turns. */
  lemma HaltedMeans(id: CoreId, m: Machine, p: Player)
    requires OnPath(id, m, p) && Halts(CounterProgram(id), m)
    ensures p.stores == ROUNDS && m.regs[2] == p.last && m.regs[3] == 0 && m.regs[4] == id && m.regs[10] == id
    ensures id == 3 ==> p.evicted
  {
    CodeIs(id, m.pc);
    hide CounterProgram, InstructionAt;
  }

  // ----- all four cores together -----------------------------------------------------------------------------------

  /** What the log says about the count in memory and about core `c`. */
  ghost predicate InTurn(m: Memory, c: CoreId, p: Option<Player>, holder: Option<CoreId>) {
    p.Some? ==>
      && (holder == Some(c) ==> m[0] > 0 && (m[0] - 1) % 4 == c && !p.value.evicted)
      && p.value.stores == Share(m[0], c)
      && (p.value.turn.Some? ==> p.value.turn.value == m[0] && m[0] % 4 == c)
      && (p.value.stores > 0 ==> p.value.last == 4 * (p.value.stores - 1) + c + 1)
  }

  /** The core that has stored to word 0 last, unless it has read word 512 since. */
  function Holder(log: seq<Access>): Option<CoreId>
    decreases |log|
  {
    if log == [] then None
    else
      var n := |log| - 1;
      match log[n]
      case Store(c, _, _) => Some(c)
      case Load(c, l, _) => if l == 512 && Holder(log[..n]) == Some(c) then None else Holder(log[..n])
  }

  lemma HolderNext(log: seq<Access>, e: Access)
    ensures Holder(log + [e]) ==
              match e
              case Store(c, _, _) => Some(c)
              case Load(c, l, _) => if l == 512 && Holder(log) == Some(c) then None else Holder(log)
  {
    assert (log + [e])[..|log|] == log;
  }

  /** Every core keeps the discipline in the log. */
  ghost predicate AllPlay(log: seq<Access>) { forall c: CoreId :: Played(c, log).Some? }

  lemma PlaysMean(log: seq<Access>, c: CoreId)
    requires AllPlay(log)
    ensures Played(c, log).Some?
  {
  }

  lemma PrefixPlays(log: seq<Access>, e: Access)
    requires AllPlay(log + [e])
    ensures AllPlay(log)
  {
    hide Played;
    forall c: CoreId ensures Played(c, log).Some? { PlayedNext(c, log, e); }
  }

  /** After every part of the history, the count is the number of stores, and only the core whose turn it is may hold it. */
  lemma {:induction false} CountIsShared(image: Memory, log: seq<Access>) returns (m: Memory)
    requires image[0] == 0 && AllPlay(log) && Replay(image, log).Some?
    ensures Replay(image, log) == Some(m) && m[0] <= 4 * ROUNDS
    ensures forall c: CoreId :: InTurn(m, c, Played(c, log), Holder(log))
    decreases |log|
  {
    hide Played, Replay, InTurn, AllPlay, Holder;
    if log == [] {
      m := image;
      NothingPlayed(image);
    } else {
      var n := |log| - 1;
      var before, e := log[..n], log[n];
      assert log == before + [e];
      PrefixPlays(before, e);
      ReplayAppend(image, before, [e]);
      var k := CountIsShared(image, before);
      m := Replay(k, [e]).value;
      forall c: CoreId ensures InTurn(m, c, Played(c, log), Holder(log)) && m[0] <= 4 * ROUNDS {
        PlayedNext(c, before, e);
        PlayedNext(e.core, before, e);
        PlaysMean(before, c);
        PlaysMean(before, e.core);
        HolderNext(before, e);
        NextTurn(k, e, c, Played(c, before), Played(e.core, before), Holder(before), log);
      }
      assert InTurn(m, 0, Played(0, log), Holder(log)) && m[0] <= 4 * ROUNDS;
    }
  }

  lemma NothingPlayed(image: Memory)
    requires image[0] == 0
    ensures Replay(image, []) == Some(image) && forall c: CoreId :: InTurn(image, c, Played(c, []), Holder([]))
  {
  }

  /** The share of core `c` in a count of `n`. */
  function Share(n: nat, c: CoreId): nat { (n + 3 - c) / 4 }

  lemma NextShare(n: nat, c: CoreId)
    ensures Share(n + 1, c) == Share(n, c) + if n % 4 == c then 1 else 0
  {
  }

  lemma LastOfShare(n: nat, c: CoreId)
    requires n % 4 == c
    ensures 4 * Share(n, c) + c == n
  {
  }

  /** One access. */
  lemma NextTurn(k: Memory, e: Access, c: CoreId, p: Option<Player>, q: Option<Player>, holder: Option<CoreId>,
                 log: seq<Access>)
    requires AllPlay(log) && Replay(k, [e]).Some?
    requires Holder(log) == match e
                            case Store(c, _, _) => Some(c)
                            case Load(c, l, _) => if l == 512 && holder == Some(c) then None else holder
    requires InTurn(k, c, p, holder) && InTurn(k, e.core, q, holder) && p.Some? && q.Some?
    requires (c == e.core ==> p == q) && k[0] <= 4 * ROUNDS
    requires Played(c, log) == if e.core == c then Play(c, p.value, e) else p
    requires Played(e.core, log) == Play(e.core, q.value, e)
    ensures var m := Replay(k, [e]).value; InTurn(m, c, Played(c, log), Holder(log)) && m[0] <= 4 * ROUNDS
  {
    hide Played, Holder, Share, AllPlay, Replay;
    PlaysMean(log, e.core);
    OneReplayed(k, e);
    if e.Store? {
      var n := k[0];
      LastOfShare(n, e.core);
      NextShare(n, e.core);
      NextShare(n, c);
    }
  }

  lemma OneReplayed(k: Memory, e: Access)
    requires Replay(k, [e]).Some?
    ensures e.location < MAIN_MEMORY_SIZE
    ensures Replay(k, [e]).value == match e
                                    case Load(_, _, _) => k
                                    case Store(_, l, w) => k[l := w]
    ensures e.Load? ==> k[e.location] == e.value
  {
    assert [e][1..] == [];
  }

  /** A memory of zeros. */
  function Zeros(): Memory { seq(MAIN_MEMORY_SIZE, _ => 0) }

  /** The registers that the test expects of core `id`. */
  ghost predicate Finished(c: PipelineModel.CoreState, id: CoreId) {
    c.regs[2] == 509 + id && c.regs[3] == 0 && c.regs[4] == id && c.regs[10] == id
  }

  /** The discipline of core `id` in the history, and its registers at the end. */
  lemma CorePlays(ticks: seq<Tick>, id: CoreId) returns (p: Player)
    requires PossibleTicks(Counters(), InitialState(Zeros()), ticks)
    requires GuardedTicks(Counters(), InitialState(Zeros()), ticks)
    ensures var log, s := History(Counters(), InitialState(Zeros()), ticks), Final(Counters(), InitialState(Zeros()), ticks);
            && Played(id, log) == Some(p)
            && Replay(Zeros(), log) == Some(FlatMemory(s.bus))
            && (PipelineModel.PipeFlushed(s.cores[id]) ==>
                  && p.stores == ROUNDS && s.cores[id].regs[2] == p.last && s.cores[id].regs[3] == 0
                  && s.cores[id].regs[4] == id && s.cores[id].regs[10] == id && (id == 3 ==> p.evicted))
  {
    hide PossibleTicks, GuardedTicks, InitialState, Final, History, Replay;
    hide PipelineRuns.InStep, Interpret, OnPath, Played;
    hide PipelineModel.PipeFlushed, Halts, Of, AccessesOf, FlatMemory, Zeros, CounterProgram;
    CountersSupported();
    var inputs := SequentiallyConsistent(Counters(), Zeros(), ticks, id);
    p := StaysOnPath(id, inputs);
    var log, s := History(Counters(), InitialState(Zeros()), ticks), Final(Counters(), InitialState(Zeros()), ticks);
    PlayedOwn(id, log);
    var m := Interpret(CounterProgram(id), ZeroRegisters(), inputs);
    if PipelineModel.PipeFlushed(s.cores[id]) {
      PipelineRuns.FlushedAtHalt(CounterProgram(id), s.cores[id], m);
      HaltedMeans(id, m, p);
    }
  }

  // ----- who owns the block ----------------------------------------------------------------------------------------

  /** Whoever owns block 0 has stored to it last, and has not read word 512 since. */
  ghost predicate OwnerHolds(b: System, log: seq<Access>) {
    forall d: CoreId :: Owns(b.caches[d], 0, 0) ==> Holder(log) == Some(d)
  }

  lemma ClockKeepsHolder(b: System, log: seq<Access>)
    requires Coherent(b) && Fresh(Arbitrated(b)) && OwnerHolds(b, log)
    ensures OwnerHolds(BusIter(b), log)
  {
    hide Gated, LockStep, SingleWriter, DataAgrees, Holder, Transfer, Fresh;
    CoherentIsWf(b);
    ArbitrationKeepsControl(b);
    var a := Arbitrated(b);
    if a.inProgress {
      ArbitrationIsDone(a);
      ClockIsQuietStep(a);
      forall d: CoreId | Owns(BusIter(b).caches[d], 0, 0) ensures Owns(b.caches[d], 0, 0) {
        if !Bubble(a) { OwnsAfter(a, Transfer(a), d, 0, 0); }
      }
    }
  }

  lemma CoherentIsWf(b: System)
    requires Coherent(b)
    ensures b.Wf() && Controlled(b)
  {
  }

  lemma ArbitrationIsDone(a: System)
    requires Controlled(a) && a.inProgress
    ensures Arbitrated(a) == a
  {
    hide Shape, StateAgrees, FrameAgrees, HeadAgrees, LockStep, SingleWriter;
    ArbitrationKeepsGate(a);
  }

  lemma HitIsAtBlock(b: System, c: CoreId, a: Address, t: Tag, l: nat)
    requires HoldsAddress(b.caches[c], a) && MemoryAddress(a) == l && l == Location(t, 0, 0)
    ensures b.caches[c].tsram[0].tag == t && TagOf(a) == t && IndexOf(a) == 0
  {
    hide TagOf, IndexOf, OffsetOf;
    LocationInjective(TagOf(a), IndexOf(a), OffsetOf(a), t, 0, 0);
  }

  /** One call under the guards. */
  lemma CallKeepsHolder(b: System, call: Action, log: seq<Access>)
    requires Coherent(b) && Coherent(Step(b, call)) && !call.Clock? && OwnerHolds(b, log)
    requires forall e :: e in Completed(b, call) ==> (e.Store? ==> e.location == 0)
    ensures OwnerHolds(Step(b, call), log + Completed(b, call))
  {
    hide Gated, LockStep, DataAgrees, Holder, TagOf, IndexOf, OffsetOf, MemoryAddress, Location, StoreWord;
    CoherentIsWf(b);
    if Completed(b, call) == [] {
      assert log + [] == log;
      RequestOnly(b, call);
    } else {
      var e := Completed(b, call)[0];
      assert Completed(b, call) == [e];
      HolderNext(log, e);
      Blocks();
      if call.Read? {
        if e.location == 512 { HitIsAtBlock(b, call.core, call.addr, 1, 512); }
      } else {
        HitIsAtBlock(b, call.core, call.addr, 0, 0);
        WriterAlone(b, call, Step(b, call));
      }
    }
  }

  lemma Blocks()
    ensures Location(0, 0, 0) == 0 && Location(1, 0, 0) == 512
  {
  }

  /** After its write hit the core owns the block and no other does. */
  lemma WriterAlone(b: System, call: Action, t: System)
    requires Coherent(b) && call.Write? && WriteHits(b, call.core, call.addr) && t == Step(b, call) && Coherent(t)
    requires TagOf(call.addr) == 0 && IndexOf(call.addr) == 0
    ensures forall d: CoreId :: d != call.core ==> !Owns(t.caches[d], 0, 0)
  {
    hide Gated, LockStep, SingleWriter, DataAgrees, TagOf, IndexOf, OffsetOf;
    WrittenCell(b, call.core, call.addr, call.data, call.core, 0, 0);
    forall d: CoreId | Owns(t.caches[d], 0, 0) ensures d == call.core {
      OwnerIsShown(t, d, 0, 0);
      OwnerIsShown(t, call.core, 0, 0);
    }
  }

  /** A run under the guards in which every core keeps the discipline. */
  lemma {:induction false} HolderRun(programs: Programs, s: State, ticks: seq<Tick>, log: seq<Access>)
    requires PossibleTicks(programs, s, ticks) && GuardedTicks(programs, s, ticks) && Coherent(s.bus)
    requires OwnerHolds(s.bus, log) && StoresAtZero(log + History(programs, s, ticks))
    ensures OwnerHolds(Final(programs, s, ticks).bus, log + History(programs, s, ticks))
    decreases |ticks|
  {
    hide Coherent, Processor.Possible, GuardedTick, TickStep, TickAccess, OwnerHolds, StoresAtZero;
    if ticks == [] {
      assert log + [] == log;
    } else {
      var u := TickStep(programs, s, ticks[0]);
      TickRefines(programs, s, ticks[0]);
      var next := log + TickAccess(s, ticks[0]);
      assert log + History(programs, s, ticks) == next + History(programs, u, ticks[1..]);
      TickKeepsHolder(programs, s, ticks[0], log, History(programs, u, ticks[1..]));
      HolderRun(programs, u, ticks[1..], next);
    }
  }

  predicate StoresAtZero(log: seq<Access>) { forall k :: 0 <= k < |log| && log[k].Store? ==> log[k].location == 0 }

  lemma TickKeepsHolder(programs: Programs, s: State, t: Tick, log: seq<Access>, rest: seq<Access>)
    requires Processor.Possible(s, t) && GuardedTick(s, t) && Coherent(s.bus) && Coherent(TickStep(programs, s, t).bus)
    requires OwnerHolds(s.bus, log) && StoresAtZero(log + TickAccess(s, t) + rest)
    ensures OwnerHolds(TickStep(programs, s, t).bus, log + TickAccess(s, t))
  {
    hide Coherent, OwnerHolds, PipelineModel.CoreIter, PipelineModel.Runs;
    hide PipelineModel.Requests, Simulation.HazardLasts;
    hide BusIter, AnswerTo, Fresh, OwnerSupplies, Completed, Processor.Request;
    match t
    case Bus =>
      ClockKeepsHolder(s.bus, log);
      assert log + [] == log;
    case Turn(id) =>
      if Call(s.cores[id], id).Some? {
        var call := Call(s.cores[id], id).value;
        CallNamesCore(s.cores[id], id);
        StoresInside(log, Completed(s.bus, call), rest);
        CallKeepsHolder(s.bus, call, log);
      } else {
        assert log + [] == log;
      }
  }

  lemma StoresInside(log: seq<Access>, es: seq<Access>, rest: seq<Access>)
    requires StoresAtZero(log + es + rest)
    ensures forall e :: e in es ==> (e.Store? ==> e.location == 0)
  {
    forall k | 0 <= k < |es| ensures es[k].Store? ==> es[k].location == 0 {
      assert (log + es + rest)[|log| + k] == es[k];
    }
  }

  /** The discipline has stores at word 0 only. */
  lemma {:induction false} DisciplinedStores(log: seq<Access>)
    requires AllPlay(log)
    ensures StoresAtZero(log)
    decreases |log|
  {
    hide Played, AllPlay;
    if log != [] {
      var n := |log| - 1;
      var before, e := log[..n], log[n];
      assert log == before + [e];
      PrefixPlays(before, e);
      DisciplinedStores(before);
      PlayedNext(e.core, before, e);
      PlaysMean(log, e.core);
      PlaysMean(before, e.core);
    }
  }

  lemma StartHasNoOwner()
    ensures OwnerHolds(Initial(Zeros()), []) && Coherent(Initial(Zeros()))
  {
    hide Coherent, Zeros, Holder;
    InitialCoherent(Zeros());
    forall d: CoreId ensures Initial(Zeros()).caches[d] == EmptyCache() {}
  }

  /** Nobody owns block 0 when core 3 has stored last and read word 512 since. */
  lemma NobodyOwns(b: System, log: seq<Access>, m: Memory)
    requires OwnerHolds(b, log) && m[0] == 512 && (forall c: CoreId :: InTurn(m, c, Played(c, log), Holder(log)))
    requires AllPlay(log) && Played(3, log).Some? && Played(3, log).value.evicted
    ensures forall d: CoreId :: !Owns(b.caches[d], 0, 0)
  {
    hide Played, Holder;
    forall d: CoreId ensures Holder(log) != Some(d) { assert InTurn(m, d, Played(d, log), Holder(log)); }
  }

  lemma MemoryIsFlat(b: System)
    requires forall d: CoreId :: !Owns(b.caches[d], 0, 0)
    ensures b.memory[0] == FlatMemory(b)[0]
  {
    hide FlatMemory, MemoryAddress, TagOf, IndexOf, OffsetOf, Location, DataAt;
    FlatAt(b, 0);
    AddressIs(0);
    ZeroFields();
    Blocks();
  }

  lemma ZeroFields()
    ensures TagOf(0) == 0 && IndexOf(0) == 0 && OffsetOf(0) == 0
  {
  }

  // ----- the outputs of the test -----------------------------------------------------------------------------------

  /**
    The counter test passes under G1 to G4, for every schedule: when all pipes are empty, word 0 of main memory is 512,
    with no cache flushed, since core 3 has evicted it, and each core has the registers that the test expects.
   */
  lemma CounterTest(ticks: seq<Tick>)
    requires PossibleTicks(Counters(), InitialState(Zeros()), ticks)
    requires GuardedTicks(Counters(), InitialState(Zeros()), ticks)
    requires forall id: CoreId :: PipelineModel.PipeFlushed(Final(Counters(), InitialState(Zeros()), ticks).cores[id])
    ensures var s := Final(Counters(), InitialState(Zeros()), ticks);
            s.bus.memory[0] == 512 && forall id: CoreId :: Finished(s.cores[id], id)
  {
    hide PossibleTicks, GuardedTicks, InitialState, Final, History, Replay, Played, PipelineModel.PipeFlushed;
    hide FlatMemory, Zeros, Holder, Coherent;
    var log, s := History(Counters(), InitialState(Zeros()), ticks), Final(Counters(), InitialState(Zeros()), ticks);
    forall id: CoreId ensures Played(id, log).Some? && Played(id, log).value.stores == ROUNDS {
      var p := CorePlays(ticks, id);
    }
    var last := CorePlays(ticks, 3);
    ZeroFirst();
    var m := CountIsShared(Zeros(), log);
    assert InTurn(m, 0, Played(0, log), Holder(log)) && InTurn(m, 3, Played(3, log), Holder(log));
    forall id: CoreId ensures Finished(s.cores[id], id) {
      var p := CorePlays(ticks, id);
      assert InTurn(m, id, Played(id, log), Holder(log));
    }
    DisciplinedStores(log);
    OwnershipAtEnd(ticks);
    NobodyOwns(s.bus, log, m);
    MemoryIsFlat(s.bus);
  }

  lemma OwnershipAtEnd(ticks: seq<Tick>)
    requires PossibleTicks(Counters(), InitialState(Zeros()), ticks)
    requires GuardedTicks(Counters(), InitialState(Zeros()), ticks)
    requires StoresAtZero(History(Counters(), InitialState(Zeros()), ticks))
    ensures OwnerHolds(Final(Counters(), InitialState(Zeros()), ticks).bus, History(Counters(), InitialState(Zeros()), ticks))
  {
    hide PossibleTicks, GuardedTicks, Final, History, PipelineModel.InitialCore, Initial;
    hide Zeros, OwnerHolds, StoresAtZero, Coherent;
    StartHasNoOwner();
    var log := History(Counters(), InitialState(Zeros()), ticks);
    assert [] + log == log;
    HolderRun(Counters(), InitialState(Zeros()), ticks, []);
  }

  lemma ZeroFirst()
    ensures Zeros()[0] == 0
  {
  }
}
