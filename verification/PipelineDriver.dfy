/** One core as an object: its registers and pipeline stages are updated in place, cycle by cycle (Pipeline.c, Core.c). */
module PipelineDriver {
  import opened Types
  import opened Isa
  import opened PipelineModel
  import Addressing
  import BusFifo
  import BusModel
  import BusDriver
  import PipelineRuns
  import Processor
  import SimulationCycle

  const PIPELINE_SIZE := 5
  const FETCH := 0
  const DECODE := 1
  const EXECUTE := 2
  const MEM := 3
  const WRITE_BACK := 4

  /** The core after the stages below `stage` have run, from the state at the beginning of the cycle. */
  ghost function Progress(p: Program, c: CoreState, answer: Option<Word>, stage: nat): CoreState
    requires Fetches(c) ==> c.pc < INSTRUCTIONS_MEMORY_SIZE
  {
    if stage <= DECODE then Fetched(p, c)
    else if stage == EXECUTE then FrontEnd(p, c)
    else if stage == MEM then RunExecute(FrontEnd(p, c))
    else if stage == WRITE_BACK then RunMem(RunExecute(FrontEnd(p, c)), answer)
    else BackEnd(FrontEnd(p, c), answer)
  }

  /** init_memory: at most as many lines as fit, and zeros behind them. */
  function Loaded(lines: seq<Word>): Program {
    seq(INSTRUCTIONS_MEMORY_SIZE, k requires 0 <= k < INSTRUCTIONS_MEMORY_SIZE => if k < |lines| then lines[k] else 0)
  }

  /** pipe_functions. */
  ghost function StageStep(c: CoreState, answer: Option<Word>, stage: nat): CoreState {
    if stage == DECODE then DecodeStage(c)
    else if stage == EXECUTE then ExecuteStage(c)
    else if stage == MEM then MemStage(c, answer)
    else WriteBackStage(c)
  }

  /** Decode and execute leave the request of the memory stage as it was. */
  lemma RequestKept(p: Program, c: CoreState, id: CoreId)
    requires Fetches(c) ==> c.pc < INSTRUCTIONS_MEMORY_SIZE
    ensures var e := RunExecute(FrontEnd(p, c));
            e.mem == c.mem && Processor.Request(e, id) == Processor.Request(c, id)
  {
    hide FrontEnd, RunExecute, Hazard, Wrap;
    SimulationCycle.FrontEndFrame(p, c);
    SimulationCycle.ExecuteFrame(FrontEnd(p, c));
  }

  /** What the loop has done before MEM, and in the end. */
  lemma ProgressIs(p: Program, c: CoreState, answer: Option<Word>, id: CoreId)
    requires Fetches(c) ==> c.pc < INSTRUCTIONS_MEMORY_SIZE
    ensures Progress(p, c, answer, MEM).mem == c.mem
    ensures Processor.Request(Progress(p, c, answer, MEM), id) == Processor.Request(c, id)
    ensures Progress(p, c, answer, PIPELINE_SIZE) == BackEnd(FrontEnd(p, c), answer)
  {
    hide FrontEnd, RunExecute, BackEnd;
    RequestKept(p, c, id);
  }

  /** The memory stage with its operands prepared. */
  function Prepared(c: CoreState): CoreState {
    c.(regs := WithImmediate(c.regs, c.mem.instruction), mem := c.mem.(result := RequestData(c)))
  }

  /** The call of the prepared memory stage. */
  function PreparedCall(c: CoreState, id: CoreId, address: Word): BusModel.Action {
    if c.mem.instruction.opcode == LW then BusModel.Read(id, address) else BusModel.Write(id, address, c.mem.result)
  }

  /** The prepared memory stage with the answer of the cache. */
  function WithAnswer(c: CoreState, answer: Option<Word>): CoreState {
    var result := if c.mem.instruction.opcode == LW && answer.Some? then answer.value else c.mem.result;
    c.(mem := c.mem.(result := result), memoryStall := answer.None?)
  }

  lemma MemInParts(c: CoreState, id: CoreId, answer: Option<Word>)
    requires c.mem.instruction.IsMemory()
    ensures PreparedCall(Prepared(c), id, RequestAddress(c)) == Processor.Request(c, id)
    ensures WithAnswer(Prepared(c), answer) == MemStage(c, answer)
  {
    hide RequestAddress, RequestData, WithImmediate;
  }

  /** One turn of the stage loop. */
  lemma ProgressStep(p: Program, c: CoreState, answer: Option<Word>, a: Option<Word>, stage: nat)
    requires (Fetches(c) ==> c.pc < INSTRUCTIONS_MEMORY_SIZE) && c.hazardStall == Hazard(c) && DECODE <= stage <= WRITE_BACK
    requires stage >= (if c.memoryStall then MEM else if c.hazardStall then EXECUTE else DECODE)
    requires stage == MEM ==> a == answer
    ensures var d := Progress(p, c, answer, stage);
            Progress(p, c, answer, stage + 1) == if StageAt(d, stage).Live() then StageStep(d, a, stage) else d
  {
    hide DecodeStage, ExecuteStage, MemStage, WriteBackStage, Hazard;
    SimulationCycle.FrontEndFrame(p, c);
  }

  function StageAt(c: CoreState, stage: nat): Stage {
    if stage == FETCH then c.fetched else if stage == DECODE then c.decode else if stage == EXECUTE then c.execute
    else if stage == MEM then c.mem else c.writeBack
  }

  /** Where the stage loop starts, fetching is all that has been done. */
  lemma ProgressStart(p: Program, c: CoreState, answer: Option<Word>)
    requires (Fetches(c) ==> c.pc < INSTRUCTIONS_MEMORY_SIZE) && c.hazardStall == Hazard(c)
    ensures Progress(p, c, answer, if c.memoryStall then MEM else if c.hazardStall then EXECUTE else DECODE) ==
            if c.halted then c else PipelineModel.Fetch(p, c)
  {
    hide DecodeStage, ExecuteStage, Hazard;
  }

  /** The hazard flag is computed at the start of the cycle. */
  lemma SameCycle(p: Program, c: CoreState, id: CoreId)
    requires Fetches(c) ==> c.pc < INSTRUCTIONS_MEMORY_SIZE
    ensures var d := c.(hazardStall := Hazard(c));
            && FrontEnd(p, d) == FrontEnd(p, c) && Hazard(d) == Hazard(c)
            && Processor.Request(d, id) == Processor.Request(c, id) && Requests(d) == Requests(c)
  {
    hide DecodeStage, Compares, Fetch;
  }

  lemma CountedRequest(c: CoreState, id: CoreId)
    ensures Processor.Request(Counted(c), id) == Processor.Request(c, id) && Requests(Counted(c)) == Requests(c)
  {
    hide Raw;
  }

  /** An iteration that runs a cycle; without a request the answer does not matter. */
  lemma RunningIter(p: Program, c: CoreState, s: BusModel.System, id: CoreId)
    requires Runs(c) && (Fetches(c) ==> c.pc < INSTRUCTIONS_MEMORY_SIZE)
    ensures CoreIter(p, c, Processor.CallAnswer(s, c, id)) == Cycle(p, Counted(c), Processor.AnswerTo(s, Processor.Request(c, id)))
    ensures Processor.BusAfterTurn(s, c, id) == if Requests(c) then Processor.CallStep(s, Processor.Request(c, id)) else s
  {
    hide FrontEnd, RunExecute, PipelineModel.BubbleCommands, Processor.CallStep, Processor.AnswerTo;
    hide Processor.Request, Hazard;
    SimulationCycle.FrontEndFrame(p, Counted(c));
    SimulationCycle.ExecuteFrame(FrontEnd(p, Counted(c)));
  }

  lemma StoppedIter(p: Program, c: CoreState, s: BusModel.System, id: CoreId)
    requires c.stopped || PipelineModel.PipeFlushed(c)
    ensures CoreIter(p, c, Processor.CallAnswer(s, c, id)) == c.(stopped := true)
    ensures Processor.BusAfterTurn(s, c, id) == s
  {
  }

  class Core {
    const id: CoreId
    const program: Program                // insturcionts_p
    const registers: array<Word>          // core_registers_p
    const stages: array<Stage>            // pipe_stages
    var pc: Pc                            // program_counter
    var halted: bool
    var hazardStall: bool
    var memoryStall: bool
    var instructions: nat
    var stopped: bool

    ghost predicate Valid() { registers.Length == NUMBER_OF_REGISTERS && stages.Length == PIPELINE_SIZE }

    ghost function Value(): CoreState
      requires Valid()
      reads this, registers, stages
    {
      CoreState(pc, registers[..], stages[FETCH], stages[DECODE], stages[EXECUTE], stages[MEM], stages[WRITE_BACK],
                halted, hazardStall, memoryStall, instructions, stopped)
    }

    /** Core_Init and Pipeline_Init; a core whose instruction file has no lines is stopped from the start. */
    constructor (id: CoreId, lines: seq<Word>)
      ensures Valid() && fresh(registers) && fresh(stages) && this.id == id
      ensures forall k :: 0 <= k < INSTRUCTIONS_MEMORY_SIZE ==> program[k] == if k < |lines| then lines[k] else 0
      ensures Value() == InitialCore(ZeroRegisters()).(stopped := lines == [])
    {
      this.id := id;
      this.program := Loaded(lines);
      registers := new Word[NUMBER_OF_REGISTERS](_ => 0);
      stages := new Stage[PIPELINE_SIZE](_ => EmptyStage(BUBBLE));
      pc, halted, hazardStall, memoryStall, instructions, stopped := 0, false, false, false, 0, lines == [];
      new;
      stages[FETCH] := stages[FETCH].(pc := 0);
      assert registers[..] == ZeroRegisters();
    }

    // ----- Pipeline_BubbleCommands, Pipeline_PipeFlushed ---------------------------------------------------------

    /** Pipeline_PipeFlushed. */
    method PipeFlushed() returns (flushed: bool)
      requires Valid()
      ensures flushed == PipelineModel.PipeFlushed(Value())
    {
      flushed := halted;
      for stage := 0 to PIPELINE_SIZE
        invariant flushed <==> halted && forall k :: 0 <= k < stage ==> !stages[k].Live()
      {
        flushed := flushed && stages[stage].pc == BUBBLE;
      }
    }

    /** Pipeline_BubbleCommands. */
    method BubbleCommands()
      requires Valid()
      modifies stages
      ensures Value() == PipelineModel.BubbleCommands(old(Value()))
    {
      var stage := PIPELINE_SIZE - 1;
      while stage > FETCH
        invariant 0 <= stage < PIPELINE_SIZE
        invariant stage < WRITE_BACK ==> !memoryStall
        invariant stage < EXECUTE ==> !hazardStall
        invariant forall k :: stage < k < PIPELINE_SIZE ==> stages[k] == Moved(old(stages[k]), old(stages[k - 1]))
        invariant forall k :: 0 <= k <= stage ==> stages[k] == old(stages[k])
      {
        if memoryStall {
          stages[WRITE_BACK] := stages[WRITE_BACK].(pc := BUBBLE);
          break;
        } else if hazardStall && stage == EXECUTE {
          stages[EXECUTE] := stages[EXECUTE].(pc := BUBBLE);
          break;
        } else if stages[stage - 1].pc == BUBBLE {
          stages[stage] := stages[stage].(pc := BUBBLE);
        } else {
          stages[stage] := stages[stage - 1];
        }
        stage := stage - 1;
      }
      if halted {
        stages[FETCH] := stages[FETCH].(pc := BUBBLE);
        stages[DECODE] := stages[DECODE].(pc := BUBBLE);
      }
    }

    // ----- hazards ---------------------------------------------------------------------------------------------------

    /** check_registers_hazrads and compare_register. */
    method CheckHazard(stage: nat) returns (hazard: bool)
      requires Valid() && stage < PIPELINE_SIZE
      ensures hazard == HazardWith(Value(), stages[stage])
    {
      if stages[stage].pc == BUBBLE { return false; }
      var i := stages[stage].instruction;
      if i.opcode == SW || i.IsBranch() || i.opcode == HALT { return false; }
      return Compares(stages[DECODE].instruction, i.rd);
    }

    /** is_pipeline_needs_data_hazard_stall. */
    method NeedsHazardStall() returns (hazard: bool)
      requires Valid()
      ensures hazard == Hazard(Value()) && Value() == old(Value())
    {
      hide HazardWith;
      hazard := CheckHazard(EXECUTE);
      if !hazard { hazard := CheckHazard(WRITE_BACK); }
      if !hazard { hazard := CheckHazard(MEM); }
    }

    // ----- the stages ------------------------------------------------------------------------------------------------

    /** fetch. */
    method Fetch()
      requires Valid() && (memoryStall || pc < INSTRUCTIONS_MEMORY_SIZE)
      modifies `pc, stages
      ensures Value() == PipelineModel.Fetch(program, old(Value()))
    {
      hide Fields;
      if memoryStall { return; }
      stages[FETCH] := stages[FETCH].(pc := pc, instruction := InstructionAt(program, pc));
      if !hazardStall { pc := pc + 1; }
    }

    /** prepare_registers_params: the immediate goes to R1, the target register's value to the result. */
    method Prepare(stage: nat) returns (rs: Word, rt: Word)
      requires Valid() && stage < PIPELINE_SIZE
      modifies registers, stages
      ensures var s := old(stages[stage]);
              && registers[..] == WithImmediate(old(registers[..]), s.instruction)
              && stages[..] == old(stages[..])[stage := s.(result := Raw(old(registers[..]), s.instruction, s.instruction.rd))]
              && rs == Raw(old(registers[..]), s.instruction, s.instruction.rs)
              && rt == Raw(old(registers[..]), s.instruction, s.instruction.rt)
    {
      var i := stages[stage].instruction;
      registers[IMMEDIATE_REGISTER] := i.immediate;
      stages[stage] := stages[stage].(result := registers[i.rd]);
      rs, rt := registers[i.rs], registers[i.rt];
    }

    /** A stage's operation: it may write its result and the program counter. */
    method RunOperation(stage: nat)
      requires Valid() && stage < PIPELINE_SIZE
      modifies `pc, registers, stages
      ensures var s := old(stages[stage]);
              var out := Operated(old(Value()), s);
              && registers[..] == WithImmediate(old(registers[..]), s.instruction)
              && stages[..] == old(stages[..])[stage := out.0] && pc == out.1
    {
      hide Operate, Raw, WithImmediate;
      var rs, rt := Prepare(stage);
      var out := Operate(stages[stage].operation, stages[stage].result, rs, rt, pc);
      stages[stage] := stages[stage].(result := out.0);
      pc := out.1;
    }

    /** decode. */
    method Decode()
      requires Valid()
      modifies `pc, `halted, registers, stages
      ensures Value() == DecodeStage(old(Value()))
    {
      hide Operate, Raw, WithImmediate;
      var opcode := stages[DECODE].instruction.opcode;
      if opcode == HALT {
        halted := true;
        return;
      }
      stages[DECODE] := stages[DECODE].(operation := if opcode <= JAL then opcode else NO_OPERATION);
      if stages[DECODE].instruction.IsBranch() { RunOperation(DECODE); }
    }

    /** execute. */
    method Execute()
      requires Valid()
      modifies `pc, registers, stages
      ensures Value() == ExecuteStage(old(Value()))
    {
      hide Operate, Raw, WithImmediate;
      var i := stages[EXECUTE].instruction;
      if !i.IsBranch() && !i.IsMemory() && i.opcode != HALT { RunOperation(EXECUTE); }
    }

    /** writeback. */
    method WriteBack()
      requires Valid()
      modifies registers
      ensures Value() == WriteBackStage(old(Value()))
    {
      var i := stages[WRITE_BACK].instruction;
      registers[if i.opcode == JAL then LINK_REGISTER else i.rd] := stages[WRITE_BACK].result;
    }

    /** The core's registers are no array of the bus. */
    ghost predicate Apart(bus: BusDriver.Bus) { registers !in bus.Dsrams() && registers != bus.memory.data }

    /** Cache_ReadData or Cache_WriteData, as the instruction in MEM asks. */
    method CallCache(bus: BusDriver.Bus, address: Word) returns (answer: Option<Word>)
      requires Valid() && bus.Valid() && Apart(bus)
      modifies bus.queue, bus.queue.repr, bus.states, bus.Tsrams(), bus.Dsrams()
      ensures bus.Valid() && fresh(bus.queue.repr - old(bus.queue.repr))
      ensures Value() == old(Value())
      ensures var s, call := old(bus.State()), PreparedCall(Value(), id, address);
              bus.State() == Processor.CallStep(s, call) && answer == Processor.AnswerTo(s, call)
    {
      hide BusDriver.Bus.Valid, BusDriver.Bus.State, BusModel.ReadData, BusModel.WriteData, BusModel.ReadHits;
      hide BusModel.WriteHits, BusModel.ReadValue, BusDriver.EndsWith, BusDriver.Bus.CacheOf;
      hide Addressing.TagOf, Addressing.IndexOf, Addressing.OffsetOf;
      var response, data;
      if stages[MEM].instruction.opcode == LW {
        response, data := bus.ReadData(id, address);
      } else {
        response := bus.WriteData(id, address, stages[MEM].result);
        data := 0;
      }
      answer := if response then Some(data) else None;
    }

    /** The address and the word to store, with the immediate in R1. */
    method PrepareMem() returns (address: Word)
      requires Valid()
      modifies registers, stages
      ensures address == RequestAddress(old(Value())) && Value() == Prepared(old(Value()))
    {
      hide Raw, WithImmediate;
      var rs: int, rt: int := Prepare(MEM);
      address := Wrap(rs + rt);
    }

    /** The answer of the cache: a loaded word becomes the result, and no answer stalls the pipeline. */
    method TakeAnswer(answer: Option<Word>)
      requires Valid()
      modifies `memoryStall, stages
      ensures Value() == WithAnswer(old(Value()), answer)
    {
      if stages[MEM].instruction.opcode == LW && answer.Some? {
        stages[MEM] := stages[MEM].(result := answer.value);
      }
      memoryStall := answer.None?;
    }

    /** The cache's part of mem. */
    method Access(bus: BusDriver.Bus, address: Word)
      requires Valid() && bus.Valid() && Apart(bus)
      modifies `memoryStall, stages, bus.queue, bus.queue.repr, bus.states, bus.Tsrams(), bus.Dsrams()
      ensures bus.Valid() && fresh(bus.queue.repr - old(bus.queue.repr))
      ensures var c, s := old(Value()), old(bus.State());
              var call := PreparedCall(c, id, address);
              bus.State() == Processor.CallStep(s, call) && Value() == WithAnswer(c, Processor.AnswerTo(s, call))
    {
      hide BusDriver.Bus.Valid, BusDriver.Bus.State, Processor.CallStep, Processor.AnswerTo, Value, WithAnswer;
      hide PreparedCall;
      var answer := CallCache(bus, address);
      TakeAnswer(answer);
    }

    /** mem. */
    method Mem(bus: BusDriver.Bus)
      requires Valid() && bus.Valid() && Apart(bus)
      modifies `memoryStall, registers, stages, bus.queue, bus.queue.repr, bus.states, bus.Tsrams(), bus.Dsrams()
      ensures bus.Valid() && fresh(bus.queue.repr - old(bus.queue.repr))
      ensures var c, s := old(Value()), old(bus.State());
              var call := Processor.Request(c, id);
              && Value() == (if c.mem.instruction.IsMemory() then MemStage(c, Processor.AnswerTo(s, call)) else c)
              && bus.State() == (if c.mem.instruction.IsMemory() then Processor.CallStep(s, call) else s)
    {
      hide BusDriver.Bus.Shaped, BusFifo.Fifo.Valid, BusDriver.Bus.State, Processor.CallStep, Processor.AnswerTo;
      hide MemStage, Processor.Request, Prepared, PreparedCall, WithAnswer, RequestAddress;
      ghost var c, s := Value(), bus.State();
      if !stages[MEM].instruction.IsMemory() { return; }
      assert c.mem.instruction.IsMemory();
      hide Value;
      var address := PrepareMem();
      assert bus.Valid() && bus.State() == s;
      MemInParts(c, id, Processor.AnswerTo(s, Processor.Request(c, id)));
      ghost var nodes := bus.queue.repr;
      label prepared:
      Access(bus, address);
      forall q | q in bus.queue.repr && q !in nodes ensures fresh(q) {
        assert fresh@prepared(q);
      }
    }

    // ----- Pipeline_Execute, Core_Iter ---------------------------------------------------------------------------

    /** A call through pipe_functions, other than mem. */
    method RunStage(stage: nat)
      requires Valid() && DECODE <= stage <= WRITE_BACK && stage != MEM
      modifies `pc, `halted, registers, stages
      ensures Value() == StageStep(old(Value()), None, stage)
    {
      hide DecodeStage, ExecuteStage, WriteBackStage, Value;
      if stage == DECODE { Decode(); } else if stage == EXECUTE { Execute(); } else { WriteBack(); }
    }

    /** A stage of the loop: it runs unless it holds a bubble. */
    method StepStage(stage: nat, bus: BusDriver.Bus)
      requires Valid() && bus.Valid() && Apart(bus) && DECODE <= stage <= WRITE_BACK
      modifies `pc, `halted, `memoryStall, registers, stages, bus.queue, bus.queue.repr, bus.states, bus.Tsrams(), bus.Dsrams()
      ensures bus.Valid() && fresh(bus.queue.repr - old(bus.queue.repr))
      ensures var c, s := old(Value()), old(bus.State());
              var call := Processor.Request(c, id);
              && Value() == (if StageAt(c, stage).Live() then StageStep(c, Processor.AnswerTo(s, call), stage) else c)
              && bus.State() == (if stage == MEM && Requests(c) then Processor.CallStep(s, call) else s)
    {
      hide BusDriver.Bus.Shaped, BusFifo.Fifo.Valid, BusDriver.Bus.State, Processor.CallStep;
      hide Processor.AnswerTo, Processor.Request;
      hide DecodeStage, ExecuteStage, WriteBackStage, RequestData;
      if stages[stage].pc == BUBBLE { return; }
      if stage == MEM { Mem(bus); } else { RunStage(stage); }
    }

    /** The start of execute_stages: the first stage to run, and the fetch. */
    method StartStages(ghost answer: Option<Word>) returns (stage: nat)
      requires Valid() && Value().hazardStall == Hazard(Value())
      requires Fetches(Value()) ==> Value().pc < INSTRUCTIONS_MEMORY_SIZE
      modifies `pc, stages
      ensures stage == if old(memoryStall) then MEM else if old(hazardStall) then EXECUTE else DECODE
      ensures Value() == Progress(program, old(Value()), answer, stage)
    {
      hide Hazard, DecodeStage, RunExecute, Fields;
      ProgressStart(program, Value(), answer);
      stage := if memoryStall then MEM else if hazardStall then EXECUTE else DECODE;
      if !halted { Fetch(); }
    }

    /** One turn of the stage loop, in the terms of the cycle it belongs to. */
    method AdvanceStage(stage: nat, bus: BusDriver.Bus, ghost c: CoreState, ghost answer: Option<Word>)
      requires Valid() && bus.Valid() && Apart(bus) && DECODE <= stage <= WRITE_BACK
      requires (Fetches(c) ==> c.pc < INSTRUCTIONS_MEMORY_SIZE) && c.hazardStall == Hazard(c)
      requires stage >= (if c.memoryStall then MEM else if c.hazardStall then EXECUTE else DECODE)
      requires Value() == Progress(program, c, answer, stage)
      requires stage == MEM ==> answer == Processor.AnswerTo(bus.State(), Processor.Request(c, id))
      modifies `pc, `halted, `memoryStall, registers, stages, bus.queue, bus.queue.repr, bus.states, bus.Tsrams(), bus.Dsrams()
      ensures bus.Valid() && fresh(bus.queue.repr - old(bus.queue.repr))
      ensures Value() == Progress(program, c, answer, stage + 1)
      ensures var s := old(bus.State());
              bus.State() == if stage == MEM && Requests(c) then Processor.CallStep(s, Processor.Request(c, id)) else s
    {
      hide BusDriver.Bus.Shaped, BusFifo.Fifo.Valid, BusDriver.Bus.State, Processor.CallStep;
      hide Processor.AnswerTo, Processor.Request;
      hide Hazard, StageStep, Progress, FrontEnd, BackEnd, RunExecute, Value, StageAt;
      ProgressIs(program, c, answer, id);
      ProgressStep(program, c, answer, Processor.AnswerTo(bus.State(), Processor.Request(Value(), id)), stage);
      StepStage(stage, bus);
    }

    /** The stage loop of execute_stages. */
    method RunStages(start: nat, bus: BusDriver.Bus, ghost c: CoreState, ghost answer: Option<Word>)
      requires Valid() && bus.Valid() && Apart(bus)
      requires (Fetches(c) ==> c.pc < INSTRUCTIONS_MEMORY_SIZE) && c.hazardStall == Hazard(c)
      requires start == if c.memoryStall then MEM else if c.hazardStall then EXECUTE else DECODE
      requires Value() == Progress(program, c, answer, start)
      requires answer == Processor.AnswerTo(bus.State(), Processor.Request(c, id))
      modifies `pc, `halted, `memoryStall, registers, stages, bus.queue, bus.queue.repr, bus.states, bus.Tsrams(), bus.Dsrams()
      ensures bus.Valid() && fresh(bus.queue.repr - old(bus.queue.repr))
      ensures Value() == BackEnd(FrontEnd(program, c), answer)
      ensures var s := old(bus.State());
              bus.State() == if Requests(c) then Processor.CallStep(s, Processor.Request(c, id)) else s
    {
      hide BusDriver.Bus.Shaped, BusFifo.Fifo.Valid, BusDriver.Bus.State, Processor.CallStep;
      hide Processor.AnswerTo, Processor.Request;
      hide Hazard, Progress, FrontEnd, BackEnd, Value, Requests, Fetches, Apart;
      ghost var s := bus.State();
      ProgressIs(program, c, answer, id);
      var stage := start;
      while stage < PIPELINE_SIZE
        invariant start <= stage <= PIPELINE_SIZE && bus.Valid() && fresh(bus.queue.repr - old(bus.queue.repr))
        invariant Value() == Progress(program, c, answer, stage)
        invariant bus.State() == if stage > MEM && Requests(c) then Processor.CallStep(s, Processor.Request(c, id)) else s
      {
        ghost var nodes := bus.queue.repr;
        label step:
        AdvanceStage(stage, bus, c, answer);
        forall q | q in bus.queue.repr && q !in old(bus.queue.repr) ensures fresh(q) {
          assert q !in nodes ==> fresh@step(q);
        }
        stage := stage + 1;
      }
    }

    /** execute_stages. */
    method ExecuteStages(bus: BusDriver.Bus)
      requires Valid() && bus.Valid() && Apart(bus) && Value().hazardStall == Hazard(Value())
      requires Fetches(Value()) ==> Value().pc < INSTRUCTIONS_MEMORY_SIZE
      modifies `pc, `halted, `memoryStall, registers, stages, bus.queue, bus.queue.repr, bus.states, bus.Tsrams(), bus.Dsrams()
      ensures bus.Valid() && fresh(bus.queue.repr - old(bus.queue.repr))
      ensures var c, s := old(Value()), old(bus.State());
              var call := Processor.Request(c, id);
              && Value() == BackEnd(FrontEnd(program, c), Processor.AnswerTo(s, call))
              && bus.State() == if Requests(c) then Processor.CallStep(s, call) else s
    {
      hide BusDriver.Bus.Shaped, BusFifo.Fifo.Valid, BusDriver.Bus.State, Processor.CallStep;
      hide Processor.AnswerTo, Processor.Request;
      hide Hazard, StageStep, Progress, FrontEnd, BackEnd;
      ghost var c, s, nodes := Value(), bus.State(), bus.queue.repr;
      assert c.memoryStall == memoryStall && c.hazardStall == hazardStall;
      hide Value;
      ghost var answer := Processor.AnswerTo(s, Processor.Request(c, id));
      var stage := StartStages(answer);
      assert bus.Valid() && bus.State() == s && bus.queue.repr == nodes;
      label started:
      RunStages(stage, bus, c, answer);
      forall q | q in bus.queue.repr && q !in nodes ensures fresh(q) {
        assert fresh@started(q);
      }
    }

    /** Pipeline_Execute. */
    method RunPipeline(bus: BusDriver.Bus)
      requires Valid() && bus.Valid() && Apart(bus)
      requires Fetches(Value()) ==> Value().pc < INSTRUCTIONS_MEMORY_SIZE
      modifies this, registers, stages, bus.queue, bus.queue.repr, bus.states, bus.Tsrams(), bus.Dsrams()
      ensures bus.Valid() && fresh(bus.queue.repr - old(bus.queue.repr))
      ensures var c, s := old(Value()), old(bus.State());
              var call := Processor.Request(c, id);
              && Value() == BackEnd(FrontEnd(program, c), Processor.AnswerTo(s, call))
              && bus.State() == if Requests(c) then Processor.CallStep(s, call) else s
    {
      hide BusDriver.Bus.Shaped, BusFifo.Fifo.Valid, BusDriver.Bus.State, Processor.CallStep;
      hide Processor.AnswerTo, Processor.Request;
      hide Hazard, FrontEnd, BackEnd, Apart;
      ghost var c, s, nodes := Value(), bus.State(), bus.queue.repr;
      hazardStall := NeedsHazardStall();
      ghost var d := Value();
      assert d == c.(hazardStall := Hazard(c));
      SameCycle(program, c, id);
      assert bus.Valid() && bus.State() == s && bus.queue.repr == nodes;
      label ready:
      ExecuteStages(bus);
      forall q | q in bus.queue.repr && q !in nodes ensures fresh(q) {
        assert fresh@ready(q);
      }
    }

    /** The part of Core_Iter that runs a cycle. */
    method RunCycle(bus: BusDriver.Bus)
      requires Valid() && bus.Valid() && Apart(bus)
      requires Fetches(Value()) ==> Value().pc < INSTRUCTIONS_MEMORY_SIZE
      modifies this, registers, stages, bus.queue, bus.queue.repr, bus.states, bus.Tsrams(), bus.Dsrams()
      ensures bus.Valid() && fresh(bus.queue.repr - old(bus.queue.repr))
      ensures var c, s := old(Value()), old(bus.State());
              var call := Processor.Request(c, id);
              && Value() == Cycle(program, Counted(c), Processor.AnswerTo(s, call))
              && bus.State() == if Requests(c) then Processor.CallStep(s, call) else s
    {
      hide BusDriver.Bus.Shaped, BusFifo.Fifo.Valid, BusDriver.Bus.State, Processor.CallStep;
      hide Processor.AnswerTo, Processor.Request;
      hide FrontEnd, BackEnd, Apart, PipelineModel.BubbleCommands;
      ghost var c, s, nodes := Value(), bus.State(), bus.queue.repr;
      if !halted && !memoryStall && !hazardStall { instructions := instructions + 1; }
      assert Value() == Counted(c);
      hide Value;
      CountedRequest(c, id);
      assert bus.Valid() && bus.State() == s && bus.queue.repr == nodes;
      label counted:
      RunPipeline(bus);
      forall q | q in bus.queue.repr && q !in nodes ensures fresh(q) {
        assert fresh@counted(q);
      }
      MoveStages(bus);
    }

    /** The stages move on; the bus is not concerned. */
    method MoveStages(ghost bus: BusDriver.Bus)
      requires Valid() && bus.Valid()
      modifies stages
      ensures Value() == PipelineModel.BubbleCommands(old(Value()))
      ensures bus.Valid() && bus.State() == old(bus.State()) && bus.queue.repr == old(bus.queue.repr)
    {
      hide BusFifo.Fifo.Valid, BusDriver.Bus.State, PipelineModel.BubbleCommands;
      BubbleCommands();
      bus.Untouched();
    }

    /** Core_Iter. */
    method Iter(bus: BusDriver.Bus)
      requires Valid() && bus.Valid() && Apart(bus) && PipelineRuns.InRange(Value())
      modifies this, registers, stages, bus.queue, bus.queue.repr, bus.states, bus.Tsrams(), bus.Dsrams()
      ensures bus.Valid() && fresh(bus.queue.repr - old(bus.queue.repr))
      ensures var c, s := old(Value()), old(bus.State());
              && Value() == CoreIter(program, c, Processor.CallAnswer(s, c, id))
              && bus.State() == Processor.BusAfterTurn(s, c, id)
    {
      hide BusDriver.Bus.Shaped, BusFifo.Fifo.Valid, BusDriver.Bus.State, Processor.CallStep;
      hide Processor.AnswerTo, Processor.Request;
      hide Apart, Cycle, Requests, Fetches, CoreIter, Processor.BusAfterTurn, Processor.CallAnswer;
      hide PipelineModel.PipeFlushed;
      ghost var c, s, nodes := Value(), bus.State(), bus.queue.repr;
      if stopped {
        StoppedIter(program, c, s, id);
        return;
      }
      var flushed := PipeFlushed();
      assert bus.Valid() && bus.State() == s && bus.queue.repr == nodes && Value() == c;
      if flushed {
        StoppedIter(program, c, s, id);
        stopped := true;
        return;
      }
      RunningIter(program, c, s, id);
      hide Value;
      label running:
      RunCycle(bus);
      forall q | q in bus.queue.repr && q !in nodes ensures fresh(q) {
        assert fresh@running(q);
      }
    }
  }
}
