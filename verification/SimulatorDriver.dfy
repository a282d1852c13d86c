/** The simulator as an object: four cores and the bus they share (MulticoreProcessor.c). */
module SimulatorDriver {
  import opened Types
  import Isa
  import PipelineModel
  import PipelineRuns
  import BusDriver
  import BusFifo
  import BusModel
  import PipelineDriver
  import Processor

  class Simulator {
    const bus: BusDriver.Bus
    const core0: PipelineDriver.Core      // cores
    const core1: PipelineDriver.Core
    const core2: PipelineDriver.Core
    const core3: PipelineDriver.Core

    function CoreOf(c: CoreId): PipelineDriver.Core {
      if c == 0 then core0 else if c == 1 then core1 else if c == 2 then core2 else core3
    }

    ghost function Cores(): set<PipelineDriver.Core> { {core0, core1, core2, core3} }

    ghost function Registers(): set<array<Word>> { {core0.registers, core1.registers, core2.registers, core3.registers} }

    ghost function Stages(): set<array<PipelineModel.Stage>> { {core0.stages, core1.stages, core2.stages, core3.stages} }

    /** The cores share nothing with each other, and their registers are no array of the bus. */
    ghost predicate Separate() {
      && (forall c: CoreId :: CoreOf(c).Valid() && CoreOf(c).id == c && CoreOf(c).Apart(bus))
      && (forall c: CoreId :: CoreOf(c) in Cores() && CoreOf(c).registers in Registers() && CoreOf(c).stages in Stages())
      && (forall c: CoreId, d: CoreId :: c != d ==>
            CoreOf(c) != CoreOf(d) && CoreOf(c).registers != CoreOf(d).registers && CoreOf(c).stages != CoreOf(d).stages)
    }

    ghost predicate Valid()
      reads bus.queue, bus.queue.repr
    {
      Separate() && bus.Valid()
    }

    function Programs(): (p: Processor.Programs)
      ensures forall c: CoreId :: p[c] == CoreOf(c).program
    {
      [core0.program, core1.program, core2.program, core3.program]
    }

    ghost function Values(): (v: Processor.Cores)
      requires Separate()
      reads Cores(), Registers(), Stages()
      ensures forall c: CoreId :: v[c] == CoreOf(c).Value()
    {
      [CoreOf(0).Value(), CoreOf(1).Value(), CoreOf(2).Value(), CoreOf(3).Value()]
    }

    ghost function State(): Processor.State
      requires Valid()
      reads Cores(), Registers(), Stages()
      reads bus, bus.Tsrams(), bus.Dsrams(), bus.memory, bus.memory.data, bus.queue, bus.queue.repr, bus.states
    {
      Processor.State(bus.State(), Values())
    }

    /** The cores and the bus that CoresInit and MainMemory_Init have set up. */
    constructor (bus: BusDriver.Bus, core0: PipelineDriver.Core, core1: PipelineDriver.Core, core2: PipelineDriver.Core,
                 core3: PipelineDriver.Core)
      requires bus.Valid() && core0.Valid() && core1.Valid() && core2.Valid() && core3.Valid()
      requires core0.id == 0 && core1.id == 1 && core2.id == 2 && core3.id == 3
      requires core0.Apart(bus) && core1.Apart(bus) && core2.Apart(bus) && core3.Apart(bus)
      requires core0.registers !in {core1.registers, core2.registers, core3.registers}
      requires core2.registers != core3.registers
      requires core1.registers !in {core2.registers, core3.registers} && core1.stages !in {core2.stages, core3.stages}
      requires core0.stages !in {core1.stages, core2.stages, core3.stages} && core2.stages != core3.stages
      ensures Valid() && this.bus == bus
      ensures CoreOf(0) == core0 && CoreOf(1) == core1 && CoreOf(2) == core2 && CoreOf(3) == core3
    {
      hide BusDriver.Bus.Shaped, BusFifo.Fifo.Valid, PipelineDriver.Core.Apart;
      this.bus, this.core0, this.core1, this.core2, this.core3 := bus, core0, core1, core2, core3;
    }

    /** ProcessorHalted. */
    method Halted() returns (halted: bool)
      requires Valid()
      ensures halted <==> forall c: CoreId :: Values()[c].stopped
    {
      halted := true;
      for core := 0 to NUMBER_OF_CORES
        invariant halted <==> forall c: CoreId :: c < core ==> Values()[c].stopped
      {
        assert Values()[core].stopped == CoreOf(core).stopped;
        halted := halted && CoreOf(core).stopped;
      }
    }

    /** The body of the loop in main, for one core. */
    method Turn(i: CoreId)
      requires Valid() && PipelineRuns.InRange(CoreOf(i).Value())
      modifies Cores(), Registers(), Stages(), bus.queue, bus.queue.repr, bus.states, bus.Tsrams(), bus.Dsrams()
      ensures Valid() && fresh(bus.queue.repr - old(bus.queue.repr))
      ensures bus.State() == old(Processor.BusAfterTurn(bus.State(), CoreOf(i).Value(), i))
      ensures Values() == old(Values())[i := PipelineModel.CoreIter(CoreOf(i).program, old(CoreOf(i).Value()),
                                                                     old(Processor.CallAnswer(bus.State(), CoreOf(i).Value(), i)))]
    {
      hide BusDriver.Bus.Shaped, BusFifo.Fifo.Valid, BusDriver.Bus.State, Processor.BusAfterTurn, Processor.CallAnswer;
      hide PipelineModel.CoreIter, PipelineDriver.Core.Value, CoreOf, Cores, Registers, Stages, Values;
      ghost var v := Values();
      CoreOf(i).Iter(bus);
      forall c: CoreId ensures c != i ==> Values()[c] == v[c] {
        if c != i {
          assert CoreOf(c) != CoreOf(i) && CoreOf(c).registers != CoreOf(i).registers && CoreOf(c).stages != CoreOf(i).stages;
          assert CoreOf(c).Apart(bus);
          assert CoreOf(c).Value() == old(CoreOf(c).Value());
        }
      }
    }

    /** The bus iteration at the head of the loop in main. */
    method Clock()
      requires Valid() && bus.State().Wf()
      modifies bus, bus.Tsrams(), bus.Dsrams(), bus.memory, bus.memory.data, bus.queue, bus.queue.repr, bus.states
      ensures Valid() && bus.queue.repr == old(bus.queue.repr)
      ensures bus.State() == BusModel.BusIter(old(bus.State())) && Values() == old(Values())
    {
      hide BusDriver.Bus.Shaped, BusFifo.Fifo.Valid, BusDriver.Bus.State, BusModel.BusIter;
      hide PipelineDriver.Core.Value, CoreOf, Cores, Registers, Stages, Values;
      ghost var v := Values();
      bus.Iter();
      forall c: CoreId ensures Values()[c] == v[c] {
        assert CoreOf(c).Apart(bus);
        assert CoreOf(c).Value() == old(CoreOf(c).Value());
      }
    }

    /** A core's turn, as a step of the whole simulator. */
    method TakeTurn(i: CoreId, ghost rest: seq<Processor.Tick>, ghost goal: Processor.State)
      requires Valid() && Processor.PossibleTicks(Programs(), State(), [Processor.Turn(i)] + rest)
      requires Processor.Final(Programs(), State(), [Processor.Turn(i)] + rest) == goal
      modifies Cores(), Registers(), Stages(), bus.queue, bus.queue.repr, bus.states, bus.Tsrams(), bus.Dsrams()
      ensures Valid() && fresh(bus.queue.repr - old(bus.queue.repr))
      ensures Processor.PossibleTicks(Programs(), State(), rest) && Processor.Final(Programs(), State(), rest) == goal
    {
      hide BusDriver.Bus.Shaped, BusFifo.Fifo.Valid, BusDriver.Bus.State, Processor.Possible;
      hide Values, CoreOf, Cores, Registers, Stages, Programs, Separate, Processor.BusAfterTurn, Processor.CallAnswer;
      ghost var u := State();
      Processor.FirstTick(Programs(), u, Processor.Turn(i), rest);
      Processor.PossibleTurn(u, i);
      Turn(i);
      assert State() == Processor.TickStep(Programs(), u, Processor.Turn(i));
    }

    /** The bus iteration, as a step of the whole simulator. */
    method TakeClock(ghost rest: seq<Processor.Tick>, ghost goal: Processor.State)
      requires Valid() && Processor.PossibleTicks(Programs(), State(), [Processor.Bus] + rest)
      requires Processor.Final(Programs(), State(), [Processor.Bus] + rest) == goal
      modifies bus, bus.Tsrams(), bus.Dsrams(), bus.memory, bus.memory.data, bus.queue, bus.queue.repr, bus.states
      ensures Valid() && bus.queue.repr == old(bus.queue.repr)
      ensures Processor.PossibleTicks(Programs(), State(), rest) && Processor.Final(Programs(), State(), rest) == goal
    {
      hide BusDriver.Bus.Shaped, BusFifo.Fifo.Valid, BusDriver.Bus.State, Processor.Possible, BusModel.BusIter;
      hide Values, CoreOf, Cores, Registers, Stages, Programs, Separate;
      ghost var u := State();
      Processor.FirstTick(Programs(), u, Processor.Bus, rest);
      Processor.PossibleBus(u);
      Clock();
      assert State() == Processor.TickStep(Programs(), u, Processor.Bus);
    }

    /** The inner loop of main. */
    method TakeTurns(ghost goal: Processor.State)
      requires Valid() && Processor.PossibleTicks(Programs(), State(), Processor.Iteration()[1..])
      requires Processor.Final(Programs(), State(), Processor.Iteration()[1..]) == goal
      modifies Cores(), Registers(), Stages(), bus.queue, bus.queue.repr, bus.states, bus.Tsrams(), bus.Dsrams()
      ensures Valid() && fresh(bus.queue.repr - old(bus.queue.repr)) && State() == goal
    {
      hide BusDriver.Bus.Valid, State, Valid, Processor.PossibleTicks, Cores, Registers, Stages, Programs, Separate;
      ghost var ticks := Processor.Iteration();
      for core := 0 to NUMBER_OF_CORES
        invariant Valid() && fresh(bus.queue.repr - old(bus.queue.repr))
        invariant Processor.PossibleTicks(Programs(), State(), ticks[core + 1..])
        invariant Processor.Final(Programs(), State(), ticks[core + 1..]) == goal
      {
        ghost var before := bus.queue.repr;
        assert ticks[core + 1..] == [Processor.Turn(core)] + ticks[core + 2..];
        label turn:
        TakeTurn(core, ticks[core + 2..], goal);
        forall q | q in bus.queue.repr && q !in old(bus.queue.repr) ensures fresh(q) {
          assert q !in before ==> fresh@turn(q);
        }
      }
    }

    /** One iteration of the loop in main: the bus, then every core in order. */
    method Iterate()
      requires Valid() && Processor.PossibleTicks(Programs(), State(), Processor.Iteration())
      modifies Cores(), Registers(), Stages()
      modifies bus, bus.Tsrams(), bus.Dsrams(), bus.memory, bus.memory.data, bus.queue, bus.queue.repr, bus.states
      ensures Valid() && fresh(bus.queue.repr - old(bus.queue.repr))
      ensures State() == Processor.Final(Programs(), old(State()), Processor.Iteration())
    {
      hide BusDriver.Bus.Valid, State, Valid, Processor.PossibleTicks, Cores, Registers, Stages, Programs;
      hide Processor.Final;
      ghost var ticks := Processor.Iteration();
      ghost var goal, nodes := Processor.Final(Programs(), State(), ticks), bus.queue.repr;
      assert ticks == [Processor.Bus] + ticks[1..];
      TakeClock(ticks[1..], goal);
      label turns:
      TakeTurns(goal);
      forall q | q in bus.queue.repr && q !in nodes ensures fresh(q) { assert fresh@turns(q); }
    }
  }
}
