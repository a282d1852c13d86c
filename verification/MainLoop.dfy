/**
  The main loop: the order it imposes on the calls of the cores, and what follows for the bus queue. The calls of any
  number of iterations are a run of the caches, the bus and memory, so all that is proved of such runs applies.
 */
module MainLoop {
  import opened Types
  import opened CacheModel
  import opened BusModel
  import opened SharedMemory
  import opened Processor
  import Gate
  import Order
  import Reachable
  import Timing
  import PipelineModel

  /** `n` iterations of the main loop. */
  function Loop(n: nat): seq<Tick> { if n == 0 then [] else Iteration() + Loop(n - 1) }

  // ----- every core once, in order ---------------------------------------------------------------------------------

  /** An iteration is one step of the bus and then one turn of every core, a core of lower id before one of higher id. */
  lemma EveryCoreOnce()
    ensures Iteration()[0] == Bus && multiset(Iteration())[Bus] == 1 && |Iteration()| == NUMBER_OF_CORES + 1
    ensures forall c: CoreId :: multiset(Iteration())[Turn(c)] == 1
    ensures forall j, k ::
              0 <= j < |Iteration()| && 0 <= k < |Iteration()| && Iteration()[j].Turn? && Iteration()[k].Turn? ==>
              (Iteration()[j].core < Iteration()[k].core <==> j < k)
  {
    assert Iteration()[1..] == [Turn(0), Turn(1), Turn(2), Turn(3)];
  }

  /** What a step of the main loop does to the caches, the bus and memory. */
  function ActionsOf(s: State, t: Tick): seq<Action> {
    match t
    case Bus => [Clock]
    case Turn(id) => var call := Call(s.cores[id], id); if call.Some? then [call.value] else []
  }

  ghost function Actions(programs: Programs, s: State, ticks: seq<Tick>): seq<Action>
    requires PossibleTicks(programs, s, ticks)
    decreases |ticks|
  {
    if ticks == [] then [] else ActionsOf(s, ticks[0]) + Actions(programs, TickStep(programs, s, ticks[0]), ticks[1..])
  }

  /** One step of the main loop as a run of one action or of none. */
  lemma TickIsRun(programs: Programs, s: State, t: Tick)
    requires Processor.Possible(s, t)
    ensures var run := ActionsOf(s, t);
            && Order.Possible(s.bus, run) && Order.End(s.bus, run) == TickStep(programs, s, t).bus
            && Reachable.Record(s.bus, run) == TickAccess(s, t)
  {
    hide PipelineModel.CoreIter, Call, AnswerInTurn, BusIter, Completed;
    var run := ActionsOf(s, t);
    if run != [] {
      Reachable.RunOfOne(s.bus, 0, run[0]);
      CallStepIsStep(s, t);
      ClockCompletesNothing(s.bus);
    }
  }

  lemma CallStepIsStep(s: State, t: Tick)
    requires s.bus.Wf() && ActionsOf(s, t) != []
    ensures t.Turn? ==> !ActionsOf(s, t)[0].Clock? && CallStep(s.bus, ActionsOf(s, t)[0]) == Step(s.bus, ActionsOf(s, t)[0])
  {
    if t.Turn? { CallNamesCore(s.cores[t.core], t.core); }
  }

  /** The caches, the bus and memory of the simulator run through the actions of its steps, and complete its history. */
  lemma {:induction false} BusFollowsActions(programs: Programs, s: State, ticks: seq<Tick>)
    requires PossibleTicks(programs, s, ticks)
    ensures var run := Actions(programs, s, ticks);
            && Order.Possible(s.bus, run) && Order.End(s.bus, run) == Final(programs, s, ticks).bus
            && Reachable.Record(s.bus, run) == History(programs, s, ticks)
    decreases |ticks|
  {
    hide Processor.Possible, TickStep, ActionsOf, TickAccess;
    if ticks != [] {
      var u := TickStep(programs, s, ticks[0]);
      TickIsRun(programs, s, ticks[0]);
      BusFollowsActions(programs, u, ticks[1..]);
      Reachable.RunAppend(s.bus, ActionsOf(s, ticks[0]), 0, Actions(programs, u, ticks[1..]));
    }
  }

  // ----- the order of the calls ------------------------------------------------------------------------------------

  /** The turns of cores `k` to 3. */
  function TurnsFrom(k: nat): seq<Tick>
    requires k <= NUMBER_OF_CORES
    decreases NUMBER_OF_CORES - k
  {
    if k == NUMBER_OF_CORES then [] else [Turn(k)] + TurnsFrom(k + 1)
  }

  lemma IterationInTurns()
    ensures Iteration() == [Bus] + TurnsFrom(0)
  {
    assert TurnsFrom(3) == [Turn(3)];
    assert TurnsFrom(2) == [Turn(2), Turn(3)];
    assert TurnsFrom(1) == [Turn(1), Turn(2), Turn(3)];
  }

  lemma InOrderEarlier(run: seq<Action>, j: nat, k: nat)
    requires j <= k && Reachable.InOrder(run, k)
    ensures Reachable.InOrder(run, j)
  {
  }

  lemma ActionsFirst(programs: Programs, s: State, t: Tick, rest: seq<Tick>)
    requires PossibleTicks(programs, s, [t] + rest)
    ensures Processor.Possible(s, t) && PossibleTicks(programs, TickStep(programs, s, t), rest)
    ensures Actions(programs, s, [t] + rest) == ActionsOf(s, t) + Actions(programs, TickStep(programs, s, t), rest)
  {
    hide Processor.Possible, TickStep, ActionsOf;
    assert ([t] + rest)[0] == t && ([t] + rest)[1..] == rest;
  }

  lemma NextTicks(k: nat, n: nat)
    requires k <= NUMBER_OF_CORES
    ensures k < NUMBER_OF_CORES ==> TurnsFrom(k) + Loop(n) == [Turn(k)] + (TurnsFrom(k + 1) + Loop(n))
    ensures k == NUMBER_OF_CORES && n > 0 ==> TurnsFrom(k) + Loop(n) == [Bus] + (TurnsFrom(0) + Loop(n - 1))
    ensures k == NUMBER_OF_CORES && n == 0 ==> TurnsFrom(k) + Loop(n) == []
  {
    if k == NUMBER_OF_CORES && n > 0 {
      IterationInTurns();
      hide Iteration;
      assert TurnsFrom(k) + Loop(n) == [Bus] + TurnsFrom(0) + Loop(n - 1);
    }
  }

  /** The rest of an iteration and `n` more: what follows keeps the order. */
  lemma {:induction false} RestInOrder(programs: Programs, s: State, k: nat, n: nat)
    requires k <= NUMBER_OF_CORES && PossibleTicks(programs, s, TurnsFrom(k) + Loop(n))
    ensures Reachable.InOrder(Actions(programs, s, TurnsFrom(k) + Loop(n)), k)
    decreases n, NUMBER_OF_CORES - k
  {
    hide Processor.Possible, TickStep, Call, Loop, TurnsFrom, PossibleTicks, ActionsOf;
    NextTicks(k, n);
    if k < NUMBER_OF_CORES {
      var rest := TurnsFrom(k + 1) + Loop(n);
      ActionsFirst(programs, s, Turn(k), rest);
      var run := Actions(programs, TickStep(programs, s, Turn(k)), rest);
      RestInOrder(programs, TickStep(programs, s, Turn(k)), k + 1, n);
      InOrderEarlier(run, k, k + 1);
      FirstCall(s, k, run);
    } else if n > 0 {
      var rest := TurnsFrom(0) + Loop(n - 1);
      ActionsFirst(programs, s, Bus, rest);
      RestInOrder(programs, TickStep(programs, s, Bus), 0, n - 1);
      FirstClock(s, Actions(programs, TickStep(programs, s, Bus), rest), k);
    }
  }

  lemma FirstCall(s: State, k: CoreId, rest: seq<Action>)
    requires Reachable.InOrder(rest, k) && Reachable.InOrder(rest, k + 1)
    ensures Reachable.InOrder(ActionsOf(s, Turn(k)) + rest, k)
  {
    hide Call;
    var run := ActionsOf(s, Turn(k));
    if run == [] {
      assert run + rest == rest;
    } else {
      CallNamesCore(s.cores[k], k);
      assert (run + rest)[0] == run[0] && (run + rest)[1..] == rest;
    }
  }

  lemma FirstClock(s: State, rest: seq<Action>, k: nat)
    requires Reachable.InOrder(rest, 0)
    ensures Reachable.InOrder(ActionsOf(s, Bus) + rest, k)
  {
    assert ([Clock] + rest)[0] == Clock && ([Clock] + rest)[1..] == rest;
  }

  /** The calls of any number of iterations come in the order in which the counterexamples make theirs. */
  lemma LoopInOrder(programs: Programs, s: State, n: nat)
    requires PossibleTicks(programs, s, Loop(n))
    ensures Reachable.InOrder(Actions(programs, s, Loop(n)), NUMBER_OF_CORES)
  {
    assert TurnsFrom(NUMBER_OF_CORES) + Loop(n) == Loop(n);
    RestInOrder(programs, s, NUMBER_OF_CORES, n);
  }

  // ----- the order of the queue ------------------------------------------------------------------------------------

  /** In its turn in state `b` of the bus, core `c` would be idle and miss. */
  ghost predicate WouldMiss(b: System, core: PipelineModel.CoreState, c: CoreId) {
    Call(core, c).Some? && !b.CoreBusy(c) && Completed(b, Call(core, c).value) == []
  }

  /** Every packet of core `c` stands before every packet of core `d`. */
  ghost predicate Before(q: seq<Packet>, c: CoreId, d: CoreId) {
    forall i, j :: 0 <= i < |q| && 0 <= j < |q| && q[i].origid == c && q[j].origid == d ==> i < j
  }

  /** Where core `c` is with its request before the turn of core `k`. */
  ghost predicate Requested(s: State, k: nat, c: CoreId) {
    if k <= c then !Gate.Owed(s.bus.queue, c) && WouldMiss(s.bus, s.cores[c], c) else Gate.Owed(s.bus.queue, c)
  }

  lemma OwedAppended(q: seq<Packet>, g: seq<Packet>, c: CoreId)
    ensures Gate.Owed(q + g, c) <==> Gate.Owed(q, c) || Gate.Owed(g, c)
  {
    if Gate.Owed(q, c) { var i :| 0 <= i < |q| && q[i].origid == c; assert (q + g)[i].origid == c; }
    if Gate.Owed(g, c) { var i :| 0 <= i < |g| && g[i].origid == c; assert (q + g)[|q| + i].origid == c; }
    if Gate.Owed(q + g, c) {
      var i :| 0 <= i < |q + g| && (q + g)[i].origid == c;
      assert if i < |q| then q[i].origid == c else g[i - |q|].origid == c;
    }
  }

  /** What core `k`'s turn puts at the end of the queue names nobody but core `k`. */
  lemma TurnAppends(programs: Programs, s: State, k: CoreId) returns (g: seq<Packet>)
    requires Processor.Possible(s, Turn(k))
    ensures TickStep(programs, s, Turn(k)).bus.queue == s.bus.queue + g
    ensures forall c: CoreId :: c != k ==> !Gate.Owed(g, c)
    ensures WouldMiss(s.bus, s.cores[k], k) ==> Gate.Owed(g, k)
  {
    hide PipelineModel.CoreIter, Call, AnswerInTurn;
    g := [];
    if ActionsOf(s, Turn(k)) != [] {
      var call := Call(s.cores[k], k).value;
      CallNamesCore(s.cores[k], k);
      CallStepIsStep(s, Turn(k));
      g := Timing.CallAppends(s.bus, call);
      if WouldMiss(s.bus, s.cores[k], k) { MissAppends(s.bus, call, g); }
    } else {
      assert s.bus.queue + g == s.bus.queue;
    }
  }

  lemma MissAppends(b: System, call: Action, g: seq<Packet>)
    requires b.Wf() && !call.Clock? && !b.CoreBusy(call.core) && Completed(b, call) == []
    requires Step(b, call).queue == b.queue + g
    ensures Gate.Owed(g, call.core)
  {
    var q := Step(b, call).queue;
    match call
    case Read(c, a) =>
      Gate.MissUnfolded(b, c, a, BusRd);
      var h := Gate.MissPackets(b, c, a, BusRd);
      assert q[|b.queue|..] == g == h && h[|h| - 1].origid == c;
    case Write(c, a, w) =>
      Gate.MissUnfolded(b, c, a, BusRdX);
      Gate.UpgradeUnfolded(b, c, a);
      var h := if ReadHits(b, c, a) then [BusModel.Request(c, BusRdX, a), INVALID_PACKET] else Gate.MissPackets(b, c, a, BusRdX);
      assert q[|b.queue|..] == g == h && (if ReadHits(b, c, a) then h[0] else h[|h| - 1]).origid == c;
  }

  /** Another core's turn leaves it to core `c` to miss. */
  lemma OtherTurnKeepsMiss(programs: Programs, s: State, k: CoreId, c: CoreId)
    requires Processor.Possible(s, Turn(k)) && k != c && WouldMiss(s.bus, s.cores[c], c)
    ensures var t := TickStep(programs, s, Turn(k)); WouldMiss(t.bus, t.cores[c], c)
  {
    hide PipelineModel.CoreIter, Call, AnswerInTurn;
    if ActionsOf(s, Turn(k)) != [] {
      CallNamesCore(s.cores[k], k);
      CallNamesCore(s.cores[c], c);
      OtherCallKeepsMiss(s.bus, Call(s.cores[k], k).value, Call(s.cores[c], c).value);
    }
  }

  lemma OtherCallKeepsMiss(b: System, other: Action, call: Action)
    requires !other.Clock? && !call.Clock? && other.core != call.core
    requires !b.CoreBusy(call.core) && Completed(b, call) == []
    ensures !CallStep(b, other).CoreBusy(call.core) && Completed(CallStep(b, other), call) == []
  {
    hide Addressing.TagOf, Addressing.IndexOf, StoreWord, Miss, AddTransaction;
    match other
    case Read(c, x) => Gate.MissUnfolded(b, c, x, BusRd);
    case Write(c, x, w) =>
      Gate.MissUnfolded(b, c, x, BusRdX);
      Gate.UpgradeUnfolded(b, c, x);
  }

  lemma BeforeAppended(q: seq<Packet>, g: seq<Packet>, c: CoreId, d: CoreId)
    requires Before(q, c, d) && (!Gate.Owed(q, d) || !Gate.Owed(g, c)) && (!Gate.Owed(g, c) || !Gate.Owed(g, d))
    ensures Before(q + g, c, d)
  {
    hide Gate.Owed;
    var f := q + g;
    forall i, j | 0 <= i < |f| && 0 <= j < |f| && f[i].origid == c && f[j].origid == d ensures i < j {
      if i >= |q| {
        OwedAt(g, i - |q|, c);
        if j < |q| { OwedAt(q, j, d); } else { OwedAt(g, j - |q|, d); }
      }
    }
  }

  lemma OwedAt(q: seq<Packet>, k: nat, c: CoreId)
    requires k < |q| && q[k].origid == c
    ensures Gate.Owed(q, c)
  {
  }

  /** The turns of cores `k` to 3. */
  lemma {:induction false} TurnsQueueInOrder(programs: Programs, s: State, k: nat, c: CoreId, d: CoreId)
    requires k <= NUMBER_OF_CORES && c < d && PossibleTicks(programs, s, TurnsFrom(k))
    requires Requested(s, k, c) && Requested(s, k, d) && Before(s.bus.queue, c, d)
    ensures var q := Final(programs, s, TurnsFrom(k)).bus.queue; Gate.Owed(q, c) && Gate.Owed(q, d) && Before(q, c, d)
    decreases NUMBER_OF_CORES - k
  {
    hide Processor.Possible, TickStep, Call, WouldMiss, Gate.Owed, Before;
    if k < NUMBER_OF_CORES {
      assert TurnsFrom(k)[0] == Turn(k) && TurnsFrom(k)[1..] == TurnsFrom(k + 1);
      var u := TickStep(programs, s, Turn(k));
      var g := TurnAppends(programs, s, k);
      BeforeAppended(s.bus.queue, g, c, d);
      TurnRequests(programs, s, k, c, g);
      TurnRequests(programs, s, k, d, g);
      TurnsQueueInOrder(programs, u, k + 1, c, d);
    }
  }

  lemma TurnRequests(programs: Programs, s: State, k: CoreId, c: CoreId, g: seq<Packet>)
    requires Processor.Possible(s, Turn(k)) && Requested(s, k, c)
    requires TickStep(programs, s, Turn(k)).bus.queue == s.bus.queue + g
    requires (k != c ==> !Gate.Owed(g, c)) && (k == c ==> Gate.Owed(g, c))
    ensures Requested(TickStep(programs, s, Turn(k)), k + 1, c)
  {
    hide Processor.Possible, TickStep, Call, WouldMiss, Gate.Owed;
    OwedAppended(s.bus.queue, g, c);
    if k < c { OtherTurnKeepsMiss(programs, s, k, c); }
  }

  /** An idle core has nothing in the queue. */
  lemma IdleOwesNothing(b: System, c: CoreId)
    requires Gate.Gated(b) && !b.CoreBusy(c)
    ensures !Gate.Owed(b.queue, c)
  {
    assert Gate.StateAgrees(b, c);
    OwedAppended(if b.inProgress then [b.current] else [], b.queue, c);
  }

  /** Of two cores that miss in one iteration of the main loop, the one with the lower id is ahead in the queue. */
  lemma MissesQueueInOrder(programs: Programs, s: State, c: CoreId, d: CoreId)
    requires Order.Ordered(s.bus) && PossibleTicks(programs, s, Iteration()) && c < d
    requires var b := BusIter(s.bus); WouldMiss(b, s.cores[c], c) && WouldMiss(b, s.cores[d], d)
    ensures var q := Final(programs, s, Iteration()).bus.queue;
            && Gate.Owed(q, c) && Gate.Owed(q, d)
            && forall i, j :: 0 <= i < |q| && 0 <= j < |q| && q[i].origid == c && q[j].origid == d ==> i < j
  {
    hide TickStep, Call, Gate.Gated, WouldMiss, Iteration;
    IterationInTurns();
    assert Iteration()[0] == Bus;
    Order.StepKeepsOrder(s.bus, Clock);
    FirstTick(programs, s, Bus, TurnsFrom(0));
    AfterBus(programs, s);
    var u := TickStep(programs, s, Bus);
    IdleWouldMiss(u, c);
    IdleWouldMiss(u, d);
    IdleOwesNothing(u.bus, c);
    IdleOwesNothing(u.bus, d);
    TurnsQueueInOrder(programs, u, 0, c, d);
  }

  lemma AfterBus(programs: Programs, s: State)
    requires Processor.Possible(s, Bus)
    ensures TickStep(programs, s, Bus) == s.(bus := BusIter(s.bus)) && BusIter(s.bus) == Step(s.bus, Clock)
  {
  }

  lemma IdleWouldMiss(u: State, c: CoreId)
    requires WouldMiss(u.bus, u.cores[c], c)
    ensures !u.bus.CoreBusy(c)
  {
  }
}
