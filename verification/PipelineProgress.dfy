/** What every run of a core keeps, whatever the program and the memory delays: no read after write, and progress. */
module PipelineProgress {
  import opened Types
  import opened Isa
  import opened PipelineModel
  import opened Simulation
  import opened SimulationCycle
  import opened PipelineRuns

  /** A memory stall waits for a load or store in MEM. */
  predicate StallHasRequest(c: CoreState) { c.memoryStall ==> Requests(c) }

  /** A cycle moves instructions as its two stall flags say. */
  lemma CycleMoves(p: Program, c: CoreState, answer: Option<Word>)
    requires StallHasRequest(c) && (Fetches(c) ==> c.pc < INSTRUCTIONS_MEMORY_SIZE)
    ensures var t := Cycle(p, c, answer);
            && t.memoryStall == (Requests(c) && answer.None?) && t.hazardStall == Hazard(c)
            && t.halted == (c.halted || (Decodes(c) && c.decode.instruction.opcode == HALT))
            && (t.halted ==> !t.fetched.Live() && !t.decode.Live())
            && (if t.memoryStall
                then SameInstruction(c.execute, t.execute) && SameInstruction(c.mem, t.mem) && !t.writeBack.Live()
                else SameInstruction(c.mem, t.writeBack) && SameInstruction(c.execute, t.mem)
                     && (if Hazard(c) then !t.execute.Live() else SameInstruction(c.decode, t.execute)))
  {
    hide FrontEnd, BackEnd, Hazard;
    FrontEndFrame(p, c);
    BackEndFrame(FrontEnd(p, c), answer);
  }

  // ----- no read after write -------------------------------------------------------------------------------------

  lemma CycleKeepsIndependence(p: Program, c: CoreState, answer: Option<Word>)
    requires StallHasRequest(c) && NoReadAfterWrite(c) && (Fetches(c) ==> c.pc < INSTRUCTIONS_MEMORY_SIZE)
    ensures StallHasRequest(Cycle(p, c, answer)) && NoReadAfterWrite(Cycle(p, c, answer))
  {
    hide Cycle, HazardWith, Compares;
    CycleMoves(p, c, answer);
    if !Hazard(c) { DecodeIsIndependent(c); }
  }

  /**
    In every cycle of every run, memory stalls and hazards against WRITE_BACK alone included, no
    instruction in EXECUTE or MEM reads a register that an older ALU or LW instruction in flight will write.
   */
  lemma {:induction false} NeverReadsAfterWrite(p: Program, c: CoreState, answers: seq<Option<Word>>)
    requires StallHasRequest(c) && NoReadAfterWrite(c) && Run(p, c, answers)
    ensures StallHasRequest(After(p, c, answers)) && NoReadAfterWrite(After(p, c, answers))
    decreases |answers|
  {
    hide Cycle, Independent;
    if answers != [] {
      var t := CoreIter(p, c, answers[0]);
      if Runs(c) {
        assert NoReadAfterWrite(Counted(c)) && StallHasRequest(Counted(c));
        CycleKeepsIndependence(p, Counted(c), answers[0]);
      }
      NeverReadsAfterWrite(p, t, answers[1..]);
    }
  }

  lemma InitiallyIndependent(regs: Registers)
    ensures StallHasRequest(InitialCore(regs)) && NoReadAfterWrite(InitialCore(regs))
  {
  }

  // ----- progress ------------------------------------------------------------------------------------------------

  /** How many moves it takes to empty the stages behind DECODE. */
  function Depth(c: CoreState): nat {
    if c.execute.Live() then 3 else if c.mem.Live() then 2 else if c.writeBack.Live() then 1 else 0
  }

  /** A hazard needs an instruction behind DECODE; a cycle that brings in no new one moves them on, memory permitting. */
  lemma CycleDrains(p: Program, c: CoreState, answer: Option<Word>)
    requires StallHasRequest(c) && (Fetches(c) ==> c.pc < INSTRUCTIONS_MEMORY_SIZE)
    requires Hazard(c) || !c.decode.Live()
    ensures var t := Cycle(p, c, answer);
            && StallHasRequest(t) && (c.halted ==> t.halted)
            && (t.halted ==> !t.fetched.Live() && !t.decode.Live())
            && Depth(t) == (if t.memoryStall || Depth(c) == 0 then Depth(c) else Depth(c) - 1)
    ensures Hazard(c) ==> Depth(c) > 0
  {
    hide Cycle, Compares;
    CycleMoves(p, c, answer);
  }

  /** Consecutive states of a core that runs a cycle in each. */
  ghost predicate Cycles(p: Program, run: seq<CoreState>, answers: seq<Option<Word>>) {
    && |run| == |answers| + 1
    && StallHasRequest(run[0])
    && (answers != [] ==>
          && Runs(run[0]) && InRange(run[0]) && run[1] == CoreIter(p, run[0], answers[0])
          && Cycles(p, run[1..], answers[1..]))
  }

  /** The cycles of a run that do not end in a memory stall. */
  function Moving(run: seq<CoreState>): nat
    decreases |run|
  {
    if |run| < 2 then 0 else One(!run[1].memoryStall) + Moving(run[1..])
  }

  /** Nothing new comes out of DECODE in this cycle, and something is still behind it. */
  predicate Draining(c: CoreState) { (Hazard(c) || !c.decode.Live()) && Depth(c) > 0 }

  lemma {:induction false} MovingIsDepth(p: Program, run: seq<CoreState>, answers: seq<Option<Word>>)
    requires Cycles(p, run, answers) && forall k :: 0 <= k < |answers| ==> Draining(run[k])
    ensures Moving(run) + Depth(run[|run| - 1]) == Depth(run[0])
    decreases |run|
  {
    hide Cycle, Compares;
    if answers != [] {
      var c, rest := run[0], run[1..];
      assert Draining(c);
      var d := Counted(c);
      assert Hazard(d) == Hazard(c) && Depth(d) == Depth(c);
      CycleDrains(p, d, answers[0]);
      forall k | 0 <= k < |answers[1..]| ensures Draining(rest[k]) { assert rest[k] == run[k + 1]; }
      MovingIsDepth(p, rest, answers[1..]);
      assert rest[|rest| - 1] == run[|run| - 1];
    }
  }

  /** Of consecutive hazard stalls, at most three do not end in a memory stall. */
  lemma AtMostThreeHazardStalls(p: Program, run: seq<CoreState>, answers: seq<Option<Word>>)
    requires Cycles(p, run, answers) && forall k :: 0 <= k < |answers| ==> Hazard(run[k])
    ensures Moving(run) <= 3
  {
    hide Cycle, Compares, CoreIter;
    forall k | 0 <= k < |answers| ensures Draining(run[k]) { assert Hazard(run[k]) ==> Depth(run[k]) > 0; }
    MovingIsDepth(p, run, answers);
  }

  lemma {:induction false} HaltedRun(p: Program, run: seq<CoreState>, answers: seq<Option<Word>>, k: nat)
    requires Cycles(p, run, answers) && k < |run|
    requires run[0].halted && !run[0].fetched.Live() && !run[0].decode.Live()
    ensures run[k].halted && !run[k].fetched.Live() && !run[k].decode.Live()
    ensures k < |answers| ==> Draining(run[k])
    decreases k
  {
    hide Cycle, Hazard;
    if k > 0 {
      CycleDrains(p, Counted(run[0]), answers[0]);
      HaltedRun(p, run[1..], answers[1..], k - 1);
    }
  }

  /** Once HALT has been decoded the pipe is empty after at most three cycles that do not end in a memory stall. */
  lemma EmptyAfterHalt(p: Program, run: seq<CoreState>, answers: seq<Option<Word>>)
    requires Cycles(p, run, answers)
    requires run[0].halted && !run[0].fetched.Live() && !run[0].decode.Live()
    ensures Moving(run) <= 3
    ensures PipeFlushed(run[|run| - 1]) <==> Moving(run) == Depth(run[0])
  {
    hide Cycle, Hazard, CoreIter;
    forall k | 0 <= k < |run|
      ensures run[k].halted && !run[k].fetched.Live() && !run[k].decode.Live() && (k < |answers| ==> Draining(run[k]))
    {
      HaltedRun(p, run, answers, k);
    }
    MovingIsDepth(p, run, answers);
    var last := run[|run| - 1];
    assert PipeFlushed(last) <==> Depth(last) == 0;
  }

  // ----- the instruction count -------------------------------------------------------------------------------------

  /** A cycle that ends with neither stall flag, before HALT is decoded, moves an instruction into DECODE; no other does. */
  lemma EntryIntoDecode(p: Program, c: CoreState, answer: Option<Word>)
    requires StallHasRequest(c) && (Fetches(c) ==> c.pc < INSTRUCTIONS_MEMORY_SIZE)
    ensures var t := Cycle(p, c, answer);
            if Entered(t) then t.decode.pc == (if c.memoryStall then c.fetched.pc else c.pc)
            else t.decode.Live() ==> SameInstruction(c.decode, t.decode)
  {
    hide FrontEnd, BackEnd, Hazard;
    FrontEndFrame(p, c);
    BackEndFrame(FrontEnd(p, c), answer);
  }

  /** The cycles of a run that moved an instruction into DECODE. */
  ghost function Entries(p: Program, c: CoreState, answers: seq<Option<Word>>): nat
    requires Run(p, c, answers)
    decreases |answers|
  {
    if answers == [] then 0
    else
      var t := CoreIter(p, c, answers[0]);
      One(Runs(c) && Entered(t)) + Entries(p, t, answers[1..])
  }

  lemma CountsEntry(p: Program, c: CoreState, answer: Option<Word>)
    requires StallHasRequest(c) && InRange(c)
    ensures var t := CoreIter(p, c, answer);
            && t.instructions + One(Entered(t)) == c.instructions + One(Entered(c)) + One(Runs(c) && Entered(t))
            && StallHasRequest(t)
  {
    hide FrontEnd, BackEnd, Hazard;
    if Runs(c) {
      CountsFrame(p, Counted(c), answer);
      CycleMoves(p, Counted(c), answer);
    }
  }

  /** In every run, the counter less one is the number of entries into DECODE, but for an entry in the last cycle. */
  lemma {:induction false} CountIsEntries(p: Program, c: CoreState, answers: seq<Option<Word>>)
    requires StallHasRequest(c) && Run(p, c, answers)
    ensures var t := After(p, c, answers);
            t.instructions + One(Entered(t)) == c.instructions + One(Entered(c)) + Entries(p, c, answers)
    decreases |answers|
  {
    hide CoreIter, Requests, Fetches;
    if answers != [] {
      CountsEntry(p, c, answers[0]);
      CountIsEntries(p, CoreIter(p, c, answers[0]), answers[1..]);
    }
  }

  /** The count printed once the pipe is empty is the number of entries into DECODE, HALT's included. */
  lemma PrintedCount(p: Program, regs: Registers, answers: seq<Option<Word>>)
    requires Run(p, InitialCore(regs), answers) && PipeFlushed(After(p, InitialCore(regs), answers))
    ensures After(p, InitialCore(regs), answers).instructions - 1 == Entries(p, InitialCore(regs), answers)
  {
    hide CoreIter;
    CountIsEntries(p, InitialCore(regs), answers);
  }
}
