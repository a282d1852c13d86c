# Verified model of the four-core MESI simulator

The simulator has four cores with a five-stage pipeline each, a direct-mapped write-back cache per core kept
coherent by a MESI protocol, one bus with a FIFO of requests, and a main memory with a latency of sixteen bus
iterations. This project models the caches, the bus and the memory as one state machine and each pipeline as
another, proves what they do over runs of any length, and joins them: the whole simulator runs each program as if
its instructions were executed one at a time against one shared memory. The repository's counter test is proved to
give its expected outputs under every schedule that meets the four guards below.

`dafny verify dfyconfig.toml` checks everything.

## How the model is built

Each part exists twice. The *values* (`CacheModel`, `BusModel`, `PipelineModel`) are datatypes and functions with
the branches and constants of the C code; all laws are proved about them. The *objects* (`BusSystem`, `BusDriver`,
`PipelineDriver`, `SimulatorDriver`, with the linked queue of `BusFifo`) have the arrays, fields and loops of the
C code, and every method is proved to take its object to the state that the functions give.

| file | content |
|---|---|
| Types, CacheModel, BusModel | words and addresses; one cache; caches, bus and memory as one state |
| TransferEffect | a step of a running transaction without the order of the four snoops |
| Requests | a miss from the call to the end of its transaction |
| Gate, Order, Timing | the request gate, lock step, words in order, the length of a transaction, bounded service; no guards |
| Exclusion, Coherence, SharedMemory | single writer; the flat memory; runs |
| Transactions, Exactness | the closed form of a transaction left to itself; when it keeps the flat memory |
| LiveTransactions, Outcomes | the same closed form while the cores go on calling; what a transaction leaves |
| Reachable, Counterexamples | runs from the start, in the main loop's order, that break the unguarded statements |
| FinalFlush | writing all caches back |
| Isa, Interpreter, PipelineModel | instructions; the sequential machine; one core's pipeline |
| Simulation, SimulationCycle, SimulationProof, PipelineRuns | the pipeline against the sequential machine |
| PipelineProgress, PipelineGuard | hazards, draining, counting; G4 |
| Processor, MainLoop | the cores and the protocol together; the order of the main loop |
| Counter | the repository's counter test on the whole simulator |
| BusFifo, BusSystem, BusDriver, PipelineDriver, SimulatorDriver | the objects |

## The four guards

The code does not meet the plain statements of coherence and of sequential execution. Four guards on single steps
make them true. Each is shown to be needed by a run from the initial state, of the caches, the bus and memory for
G1 to G3 and of one pipeline for G4, and the exact condition for one transaction, or one miss, is proved in both
directions.

- **G1, fresh flush** (`Exclusion.Fresh`). A granted Flush still finds its block valid in its sender. Otherwise
  another core has taken the block while the Flush was queued, the snoop skips the sender, the word queued with the
  Flush is written, and the line is revived.
- **G2, quiet owner** (`Coherence.QuietOwner`). No core writes a word of the block under transfer that has already
  been transferred.
- **G3, snoop order** (`Coherence.OwnerSupplies`). In a fill, the Modified owner's word stays on the bus. It is
  replaced if the requester is snooped after the owner and already matches the block, which the early write of the
  tag makes it do from the second word on unless its frame is Invalid.
- **G4, lasting hazard** (`Simulation.HazardLasts`). When a miss begins, a hazard of the decoded instruction is not
  against WRITE_BACK alone. Otherwise the hazard is gone in the next cycle, and the instruction moves on without
  having been decoded.

The request gate, the lock step of bus and memory, the lengths 9, 24 and 25, the bound of 200 and the absence of
read-after-write violations hold without any guard.

## Where the code and its documentation differ

The model follows the code.

- The documentation describes round-robin arbitration; the bus serves a FIFO (Bus.c:234-277).
- Branch targets are documented as ten bits; the code masks nine (Opcodes.c:93).
- The immediate is documented as sign-extended; the code zero-extends twelve bits (Helpers.h:16, Pipeline.c:198).
- R0 is documented as constant zero; write-back writes it (Pipeline.c:184-188).
- A BusRdX served by a Modified owner ends Shared, because the shared line is sampled before the snoop (Bus.c:160-166).
- The modified line ignores the tag (Cache.c:239); this affects latency only.
- The comment of `Cache_FlushToMemory` (Cache.c:174-181) calls it the last step before the memory is written out; its
  call is commented out (Core.c:79), and docs/Project_Documentation.md:570 says that dirty lines are not written back.
  What it would do is modelled in `FinalFlush`.

## Model

| member | source | states |
|---|---|---|
| `Processor.SequentiallyConsistent` | src/MulticoreProccessor/MulticoreProcessor.c:25-30 | Under G1 to G4, in every run of bus iterations and core turns, the accesses of all four cores form one history that a flat memory accepts, every load returning the last word stored at its location; each core's part of it, in order, is what the sequential machine makes of its program, and the core is in step with that machine |
| `Processor.FinishedProgram` | src/MulticoreProccessor/MulticoreProcessor.c:25-37 | Once a core's pipe is empty its sequential machine stands at HALT with the same R2 to R15, and the printed count is its instructions plus HALT; the main memory that is dumped has the word that the history produces exactly at the locations of which no cache has a dirty word, and writing all caches back in any order would give it everywhere |
| `Counter.CounterTest` | tests/counter/counter3.asm:1-17 | The repository's counter test, for every schedule under G1 to G4: when the pipes of its four programs are empty, word 0 of main memory is 512 with no cache flushed, and core i has R2 = 509 + i, R3 = 0, R4 = R10 = i, as tests/counter/memout.txt and regout0.txt to regout3.txt have it |
| `Processor.UpgradeCommits` | src/MulticoreProccessor/MulticoreProcessor.c:25-30 | When an upgrade has ended with its line Exclusive and its core still wants to store, the next iteration of the main loop puts that store into the history, and its bus iteration runs no transaction and leaves every cache alone |
| `SharedMemory.RunRefinesFlatMemory` | src/MulticoreProccessor/Core/src/Cache.c:66-157 | Under G1 to G3 every run of any length keeps the system coherent, and the hits it completes, in order, are a run of one flat memory: clock steps and misses leave it alone, a write hit updates one word, a read hit returns the word |
| `SharedMemory.SingleWriterAlways` | src/MulticoreProccessor/Core/src/Cache.c:251-386 | Under G1, in every state of every run, also in the middle of a transaction with core writes interleaved, a block held Exclusive or Modified by one cache is held by no other, the frame under a running fill excepted |
| `PipelineRuns.PipelineRefinesInterpreter` | src/MulticoreProccessor/Core/src/Pipeline.c:48-221 | Under G4, for any supported program and any finite memory delays, a run of the pipeline makes the accesses of the one-instruction-at-a-time machine with one delay slot, in its order, and has its registers up to the instruction in WRITE_BACK |
| `Order.OrderAlways` | src/MulticoreProccessor/Interface/src/Bus.c:93-178 | With no guard at all, every run is defined in every step and keeps the request gate and the lock step of bus and memory |
| `Timing.TransactionLength` | src/MulticoreProccessor/Interface/src/Bus.c:136-177 | Whatever the cores do meanwhile, a granted transaction takes exactly 9 bus iterations if at its grant the frame of its block's index is Modified in some other cache, even with another tag; otherwise 25 if a later iteration finds such a frame, and 24 if none does; no guard needed |
| `Timing.ServedWithin200` | src/MulticoreProccessor/Interface/src/Bus.c:93-178 | No request stays pending for more than 200 bus iterations, whatever is enqueued after it; no guard needed |
| `Timing.AtMostEightPackets` | src/MulticoreProccessor/Interface/src/Bus.c:93-150 | The running packet and the queue together never hold more than eight packets |
| `Order.WordsInOrder` | src/MulticoreProccessor/Interface/src/MainMemory.c:90-111 | Whatever word a request names and whatever the cores do meanwhile, a transaction hands out the eight words of its aligned block once each, in ascending order |
| `Requests.ReadMissKeepsCopies` | src/MulticoreProccessor/Core/src/Cache.c:88-98 | A read miss, from the call to the end of its transaction, with no guard and whatever the cores do: the packet granted is its BusRd, and every other cache that held the block at the grant still holds it at the end |
| `Requests.WriteMissTakesBlock` | src/MulticoreProccessor/Core/src/Cache.c:146-156 | A write miss, from the call to the end of its transaction, under G1 and whatever the cores do: the packet granted is its BusRdX, and at the end its core holds the block and no other cache does |
| `Requests.SharedWriteUpgrades` | src/MulticoreProccessor/Core/src/Cache.c:120-135 | A write to a Shared copy, from the call to its store, under G1: the BusRdX granted has the invalid packet behind it, and if the copy is still there at the grant the store hits in the iteration after the end, whatever the cores call |
| `Requests.VictimIsSaved` | src/MulticoreProccessor/Core/src/Cache.c:206-222 | A miss in a dirty frame, from the call on, under G1: the write-back is granted before the fill and leaves in memory the eight words that the victim had at the call |
| `Requests.RetryHits` | src/MulticoreProccessor/Interface/src/Bus.c:127-129 | With no guard: a core whose fill has ended hits in the iteration that releases it, unless that iteration grants a BusRdX of the same block |
| `SimulatorDriver.Simulator.Iterate` | src/MulticoreProccessor/MulticoreProcessor.c:25-30 | One iteration of the main loop on the objects takes the whole state to the state that the steps of `Processor.Iteration` give on values; `MainLoop` says which steps those are and in which order |
| `MainLoop.EveryCoreOnce` | src/MulticoreProccessor/MulticoreProcessor.c:25-30 | An iteration is one step of the bus and then exactly one turn of every core, lower ids first |
| `MainLoop.LoopInOrder` | src/MulticoreProccessor/MulticoreProcessor.c:25-30 | The cache calls of any number of iterations come in the order in which the counterexamples make theirs: a bus step first, then each core at most once, by id |
| `MainLoop.BusFollowsActions` | src/MulticoreProccessor/MulticoreProcessor.c:25-30 | Caches, bus and memory of the simulator run through exactly those bus steps and calls and complete exactly its history, so all that is proved of such runs holds in it |
| `MainLoop.MissesQueueInOrder` | src/MulticoreProccessor/MulticoreProcessor.c:27-29 | Of two cores that miss in the same iteration, every packet of the one with the lower id stands before every packet of the other in the queue afterwards; no guard needed |
| `Exactness.TransactionCriterion` | src/MulticoreProccessor/Interface/src/Bus.c:152-177 | A transaction left to itself keeps the flat memory and coherence if and only if every word it delivers is the flat memory's, and it does not revive a line that another cache holds exclusively |
| `Exactness.WriteBackExact` | src/MulticoreProccessor/Core/src/Cache.c:206-222 | G1, both directions: a Flush keeps the flat memory iff its sender still has the block, or the block is held exclusively by nobody and every word of it in memory already equals the queued word |
| `Exactness.SingleWriterExact` | src/MulticoreProccessor/Core/src/Cache.c:258-298 | G1, both directions: single writer holds at the end of a transaction iff a Flush still finds its block, or nobody else holds that block exclusively |
| `Exactness.OwnedFillExact` | src/MulticoreProccessor/Core/src/Cache.c:251-304 | G3, both directions: a fill taken over by a Modified owner keeps the flat memory iff the requester has the lower id, or its frame is Invalid, or its old words 1 to 7 happen to equal the owner's |
| `Exactness.UnownedFillKeeps` | src/MulticoreProccessor/Core/src/Cache.c:251-304 | A fill that no Modified owner takes over always keeps the flat memory |
| `Outcomes.OwnerWriteExact` | src/MulticoreProccessor/Core/src/Cache.c:113-144 | G2, both directions, for every run up to the end of the fill in which the owner does not write that word again: the written word is in the flat memory at the end iff it did not change a word already transferred and, for a word still to come, the requester does not put another word of its own on the bus |
| `PipelineGuard.MissExact` | src/MulticoreProccessor/Core/src/Pipeline.c:48-52 | G4, both directions, for the relation `Simulation.Agrees` between the stages and the sequential machine: after a miss begins the relation holds in the next cycle iff the decoded instruction has no hazard against WRITE_BACK alone, or it has nothing left to do in decode and its successor is HALT or is where it branches |
| `PipelineGuard.SuccessorTwice` | src/MulticoreProccessor/Core/src/Pipeline.c:91-113 | What is seen of a slip: once the miss is answered, the next cycle without a stall leaves the successor of the slipped instruction, unless it is HALT, in EXECUTE and in DECODE at once |
| `Reachable.WholeRunRefused` | src/MulticoreProccessor/MulticoreProcessor.c:25-30 | Calls that a flat memory refuses after a reached state make the whole run from the start one whose accesses no flat memory accepts from its image; so do the continuations given by the counterexamples below |
| `Counterexamples.StaleFlushLosesData` | src/MulticoreProccessor/Core/src/Cache.c:206-222 | A run from the start, with calls in the main loop's order, in which a stale write-back puts the word queued with it into all eight words of a block of which the flat memory has it in one and zeros in seven, and goes on to a load of a 7 that the flat memory does not accept: G1 is needed for the data |
| `Counterexamples.StaleFlushBreaksSingleWriter` | src/MulticoreProccessor/Core/src/Cache.c:258-298 | A run from the start, with calls in the main loop's order, in which a stale write-back revives a Shared line beside another core's Exclusive one: G1 is needed for the single writer |
| `Counterexamples.LateWriteIsLost` | src/MulticoreProccessor/Core/src/Cache.c:113-144 | A run from the start, with calls in the main loop's order, in which the owner writes an already transferred word and the flat memory has the old word when the transfer ends; the requester then loads it, which the flat memory with the write done does not accept: G2 is needed |
| `Counterexamples.SnoopOrderLosesData` | src/MulticoreProccessor/Core/src/Cache.c:251-264 | A run from the start, with calls in the main loop's order, in which a requester with a higher id than the owner puts its own old words on the bus: the flat memory's 7 becomes 0, and the requester then loads a word that the flat memory does not accept: G3 is needed |
| `PipelineGuard.ExampleSlips` | src/MulticoreProccessor/Core/src/Pipeline.c:48-52 | A program of six instructions whose first miss makes the pipeline perform a store twice: its four accesses end in two equal stores, and the sequential machine never makes more than three, whatever is loaded; the relation to it is broken whatever the cache answers: G4 is needed |
| `PipelineGuard.SlippedCycle` | src/MulticoreProccessor/Core/src/Pipeline.c:211-221 | What a broken G4 does in general: the decoded instruction moves on without its decode, and its successor is fetched twice |
| `Gate.StatesMean` | src/MulticoreProccessor/Interface/src/Bus.c:93-150 | In every state of the gate an idle core owns no queued or running packet, and at most one core is in operation or finally |
| `Gate.ShapeMeans` | src/MulticoreProccessor/Core/src/Cache.c:91-154 | A core's packets are contiguous: a BusRd, a BusRdX, a BusRdX with an invalid packet behind it, or a Flush directly followed by the fill of the same frame, the first possibly consumed already |
| `Order.StepKeepsOrder` | src/MulticoreProccessor/Interface/src/Bus.c:123-178 | No clock step and no call of a core breaks the gate or the lock step |
| `Order.FillFrameIsClean` | src/MulticoreProccessor/Core/src/Cache.c:91-96 | Whenever a BusRd or BusRdX is running, the requester's frame is not Modified: a fill never overwrites dirty data |
| `Order.FlagsDropTogether` | src/MulticoreProccessor/Interface/src/MainMemory.c:99-106 | In a step that is not a bubble, the bus ends its transaction exactly when memory ends its own |
| `Order.LineAddress` | src/MulticoreProccessor/Interface/src/Bus.c:155-157 | The address on the lines is the requested block's, at the bus's word offset |
| `Gate.WordStepKeepsLockStep` | src/MulticoreProccessor/Interface/src/MainMemory.c:94-110 | Bus and memory advance together, and the transaction completes exactly at memory count 23 |
| `Gate.TransferEvolves` | src/MulticoreProccessor/Interface/src/Bus.c:166-177 | Even with two owners of a block, a step that is not a bubble advances bus and memory as prescribed, makes no frame Modified, and gives a new tag to the requester's frame alone |
| `Gate.GrantKeepsGate` | src/MulticoreProccessor/Interface/src/Bus.c:136-150 | Granting the oldest packet keeps the gate |
| `Gate.DropKeepsGate` | src/MulticoreProccessor/Interface/src/Bus.c:140-141 | Dropping an invalid packet keeps the gate |
| `Gate.MissKeepsGate` | src/MulticoreProccessor/Core/src/Cache.c:146-156 | A miss of an idle core, with or without a dirty victim, keeps the gate |
| `Requests.ReadMissQueues` | src/MulticoreProccessor/Core/src/Cache.c:88-98 | What a read miss adds to the queue, packet by packet: the Flush of a Modified victim and of no other, then a BusRd of the address |
| `Requests.WriteMissQueues` | src/MulticoreProccessor/Core/src/Cache.c:146-156 | What a write miss adds: the Flush of a Modified victim and of no other, then a BusRdX of the address |
| `Requests.SharedWriteQueues` | src/MulticoreProccessor/Core/src/Cache.c:120-133 | What a write to a Shared copy adds: a BusRdX of the address, then a packet of the invalid originator |
| `TransferEffect.TransferIsWordStep` | src/MulticoreProccessor/Interface/src/Bus.c:166-177 | With a single owner, the snoop of four caches in id order, memory's step and the answer to the requester amount to an order-free step: who supplies the word, who loses which state, what memory and the requester get |
| `TransferEffect.WordOnBus` | src/MulticoreProccessor/Core/src/Cache.c:251-272 | The word on the bus after the snoop and memory is the named supplier's, and memory takes it in a write-back or when an owner took the fill over |
| `TransferEffect.FillWithOwner` | src/MulticoreProccessor/Core/src/Cache.c:356-375 | An owner turns the request into a Flush with its word; a requester snooped later that matches the block replaces it with its own |
| `TransferEffect.BystanderAfterSnoop` | src/MulticoreProccessor/Core/src/Cache.c:313-347 | A bystander's clean copy reacts at once, a Modified owner only with the last word |
| `Exclusion.StepKeepsControl` | src/MulticoreProccessor/Core/src/Cache.c:113-157 | Under G1 every action keeps gate, lock step and single writer |
| `Exclusion.WordStepExcludes` | src/MulticoreProccessor/Core/src/Cache.c:266-300 | A word step keeps two caches from holding a block of which one is exclusive |
| `Coherence.ClockKeepsCoherence` | src/MulticoreProccessor/Interface/src/Bus.c:123-178 | Under G1 and G3 a bus iteration keeps the system coherent and every word of the flat memory as it is |
| `Coherence.WriteHitShown` | src/MulticoreProccessor/Core/src/Cache.c:140-143 | A write hit changes one word of the flat memory and no other |
| `Coherence.WriteHitKeepsCoherence` | src/MulticoreProccessor/Core/src/Cache.c:113-144 | Under G2 a write hit keeps the system coherent |
| `Coherence.ReadHitReturnsShown` | src/MulticoreProccessor/Core/src/Cache.c:76-86 | A read hit returns the flat memory's word at its address |
| `SharedMemory.StepRefines` | src/MulticoreProccessor/Core/src/Cache.c:66-157 | One action under its guards performs on the flat memory exactly the access it completes |
| `SharedMemory.InitialCoherent` | src/MulticoreProccessor/Interface/src/MainMemory.c:30-41 | The initial state is coherent, and its flat memory is the memory image |
| `Exactness.GrantStarts` | src/MulticoreProccessor/Interface/src/Bus.c:136-150 | Granting the oldest packet of a coherent system starts a transaction with the flat memory unchanged |
| `Transactions.FinishIsClosedForm` | src/MulticoreProccessor/Interface/src/Bus.c:152-177 | The closed form of a whole transaction with the cores quiet: every word of every cache, every memory word and every frame at its end |
| `LiveTransactions.LiveMemory` | src/MulticoreProccessor/Interface/src/Bus.c:152-177 | The closed form of memory at the end of a transaction, for every run of clock steps and cores' calls up to that end in which the owner does not write the word: no bystander may hold the block Exclusive when the run begins |
| `LiveTransactions.LiveData` | src/MulticoreProccessor/Interface/src/Bus.c:152-177 | The same for the words of the requester, and for every cached word that its own core does not write |
| `LiveTransactions.LiveFrame` | src/MulticoreProccessor/Core/src/Cache.c:266-300 | The same for the tag and state of the requester's frame and of every copy of the block, whatever the cores call |
| `LiveTransactions.LiveBystander` | src/MulticoreProccessor/Core/src/Cache.c:266-300 | Tag and state of a frame outside the block, or with another tag, change during a transaction only by its own core's write |
| `LiveTransactions.LiveControl` | src/MulticoreProccessor/Interface/src/Bus.c:123-178 | With no guard: whatever the cores call, a transaction ends with its own packet the last one run, its core in Finally, and the queue only longer at its end |
| `Outcomes.FillStates` | src/MulticoreProccessor/Core/src/Cache.c:297-300 | For every run up to the end of a fill, whatever the cores call: after a BusRd the requester is the only holder and Exclusive, or all holders are Shared; after a BusRdX it is the only holder, Exclusive, or Shared exactly when a Modified owner supplied the block; the owner is the one at the start if no bystander held the block Exclusive then |
| `Outcomes.LastStepStates` | src/MulticoreProccessor/Core/src/Cache.c:266-300 | The same of the last clock step alone, in every state of a run under G1 |
| `Outcomes.SnoopedAlways` | src/MulticoreProccessor/Core/src/Cache.c:325-347 | In every state of every run under G1, once memory is engaged in a fill, every other holder of its block is its Modified owner, or Shared under a BusRd |
| `Outcomes.LastStepData` | src/MulticoreProccessor/Core/src/Cache.c:292-303 | Under the guards, in every run, a fill ends with its block equal in memory, the requester and every other holder, and it is the flat memory's block |
| `Outcomes.OwnerTransfer` | src/MulticoreProccessor/Core/src/Cache.c:356-375 | For every run up to the end of a fill served by a Modified owner: a word that the owner does not write again ends equal in memory, requester and former owner, in the states given; every other memory word is as before, and every other cached word and frame unless its own core writes it |
| `Outcomes.WriteBack` | src/MulticoreProccessor/Core/src/Cache.c:261-303 | For every run up to the end of a fresh Flush, whatever the cores call: memory's eight words equal the block its sender had at the grant, the sender keeps them in a clean line, although the queued packet carries one word of the wrong offset, and the rest is as before but for the cores' own writes |
| `Outcomes.AtomicUpgrade` | src/MulticoreProccessor/Interface/src/Bus.c:127-141 | An upgrade that still holds its block at the grant ends Exclusive in every run, whatever the cores call from the grant to the end and from there to the next bus iteration; that iteration grants and snoops nothing, so the store hits; no guard is used |
| `Outcomes.UpgradeEnds` | src/MulticoreProccessor/Interface/src/Bus.c:123-178 | At the end of every such run no other cache holds the block, single writer holds, the upgrade's packet is still the current one and its invalid packet is at the head |
| `Outcomes.SharedUpgradeUnowned` | src/MulticoreProccessor/Core/src/Cache.c:120-133 | A requester that still holds the block when its request is granted leaves no room for a Modified owner |
| `Timing.ClockLowersRank` | src/MulticoreProccessor/Interface/src/Bus.c:123-178 | Every clock step brings a pending request strictly nearer its end |
| `Timing.CallKeepsRank` | src/MulticoreProccessor/Interface/src/Bus.c:93-100 | A later call of any core does not delay a pending request |
| `Counter.StaysOnPath` | tests/counter/counter3.asm:5-17 | The sequential machine of each counter program: its place, its registers, and that it stores only the count it has just read plus one, when that count is its own id modulo 4, 128 times |
| `Counter.CountIsShared` | tests/counter/counter3.asm:5-17 | In every part of every accepted history of four such cores, the count in memory is the number of stores made, core c has made one for each count below it that is c modulo 4, and only the core whose turn it is holds the count |
| `Counter.OwnershipAtEnd` | tests/counter/counter3.asm:14-16 | At the end only the core that has stored to word 0 last can own its block, and not if it has read word 512 since |
| `FinalFlush.FlushMakesFlatMemory` | src/MulticoreProccessor/Core/src/Cache.c:182-197 | Flushing the caches, in any order and however often, turns main memory into the flat memory |
| `FinalFlush.DumpedWord` | src/MulticoreProccessor/Interface/src/MainMemory.c:46-50 | Without a flush, main memory has the flat memory's word exactly where no cache owns the block with another word |
| `FinalFlush.FlushAddresses` | src/MulticoreProccessor/Core/src/Cache.c:186-193 | The address rebuilt from tag, frame and offset names that word and is within memory |
| `Addressing.LocationInjective` | src/MulticoreProccessor/Core/src/Cache.c:187-187 | The location built from tag, index and offset is injective over the 21 bits: no two words of memory share one |
| `Addressing.LocationOnto` | src/MulticoreProccessor/Interface/src/MainMemory.c:71-71 | Every memory location is the location of its own fields |
| `Addressing.LowBits` | src/MulticoreProccessor/Core/src/Cache.c:6-14 | The three bit fields make up the low 21 bits of an address |
| `Addressing.FieldsAdvance` | src/MulticoreProccessor/Core/src/Cache.c:6-14 | Eight words on is the next of 64 frames, 512 words on the next block of the same frame, and the first eight words are block 0 |
| `Reachable.UncontendedFill` | src/MulticoreProccessor/Core/src/Cache.c:66-99 | From a quiet system a miss on a block that nobody holds runs to its end as a real run in the main loop's order, and leaves the requester alone and Exclusive with memory's words |
| `BusFifo.Fifo.Enqueue` | src/MulticoreProccessor/Interface/src/Bus.c:234-252 | Enqueueing appends to the sequence that the chain represents, and keeps parent and next mutually inverse |
| `BusFifo.Fifo.Dequeue` | src/MulticoreProccessor/Interface/src/Bus.c:260-277 | Dequeueing takes the oldest item, or reports an empty queue and changes nothing |
| `BusFifo.Fifo.IsEmpty` | src/MulticoreProccessor/Interface/src/Bus.c:224-226 | The head is null exactly when the sequence is empty |
| `BusDriver.Bus.Iter` | src/MulticoreProccessor/Interface/src/Bus.c:123-178 | Bus_Iter on the objects takes the state to the one the bus iteration on values gives |
| `BusDriver.Bus.Arbitrate` | src/MulticoreProccessor/Interface/src/Bus.c:127-150 | The release of a finished core and the grant of the oldest packet |
| `BusDriver.Bus.GrantOldest` | src/MulticoreProccessor/Interface/src/Bus.c:136-150 | The oldest packet becomes the current one, and runs if it names a core |
| `BusDriver.Bus.Transfer` | src/MulticoreProccessor/Interface/src/Bus.c:152-177 | Shared line, bubble, snoop and memory step |
| `BusDriver.Bus.CheckSharedLine` | src/MulticoreProccessor/Interface/src/Bus.c:187-194 | On the arrays: the shared line is up iff some other cache has the block's tag in a valid frame, the modified line iff some other cache's frame is Modified, whatever its tag |
| `BusDriver.Bus.CheckCacheSnooping` | src/MulticoreProccessor/Interface/src/Bus.c:202-208 | The four caches snoop one packet in id order, each as its predecessors left it |
| `BusDriver.Bus.Deliver` | src/MulticoreProccessor/Interface/src/Bus.c:173-176 | The requester takes the word; the last one ends the transaction |
| `BusDriver.Bus.AddTransaction` | src/MulticoreProccessor/Interface/src/Bus.c:93-100 | The packet goes to the end of the queue and its core waits |
| `BusDriver.Bus.ReadData` | src/MulticoreProccessor/Core/src/Cache.c:66-99 | Cache_ReadData: it hits iff the core is idle and its array has the tag in a valid frame, and returns the array's word; otherwise an idle core's last packet is a BusRd of the address; the state is the one given on values |
| `BusDriver.Bus.WriteData` | src/MulticoreProccessor/Core/src/Cache.c:110-157 | Cache_WriteData: it hits iff the core is idle and its array has the tag Exclusive or Modified, and stores the word and Modified; a Shared copy puts a BusRdX and an invalid packet last, a miss a BusRdX; the state is the one given on values |
| `BusDriver.Bus.EvictDirty` | src/MulticoreProccessor/Core/src/Cache.c:206-222 | dirty_block_handling: the write-back of a dirty victim, with its word read at the missing address's offset |
| `BusSystem.CacheUnit.SharedSignal` | src/MulticoreProccessor/Core/src/Cache.c:233-241 | On the array: what shared_signal_handle answers and what it adds to the modified flag, for its own packets and for others |
| `BusSystem.CacheUnit.Snoop` | src/MulticoreProccessor/Core/src/Cache.c:251-272 | cache_snooping_handle: the packet and the cache after it |
| `BusSystem.CacheUnit.Respond` | src/MulticoreProccessor/Core/src/Cache.c:282-304 | cache_response_handle: one word, and with the last one the state |
| `BusSystem.CacheUnit.FlushToMemory` | src/MulticoreProccessor/Core/src/Cache.c:182-197 | Cache_FlushToMemory in place: every location of a dirty block gets the cache's word, every other keeps its own |
| `BusSystem.CacheUnit.constructor` | src/MulticoreProccessor/Core/src/Cache.c:42-48 | All frames Invalid and all words zero |
| `BusSystem.MainMemory.constructor` | src/MulticoreProccessor/Interface/src/MainMemory.c:30-41 | The image, then zeros; no transaction active |
| `BusSystem.MainMemory.Transaction` | src/MulticoreProccessor/Interface/src/MainMemory.c:90-111 | bus_transaction_handler: the counter, the latency and the answer |
| `BusSystem.MainMemory.ProcessWord` | src/MulticoreProccessor/Interface/src/MainMemory.c:70-80 | process_memory_word: a fill is answered from memory, a Flush is written to it |
| `BusSystem.MainMemory.DirectWrite` | src/MulticoreProccessor/Interface/src/MainMemory.c:58-62 | An address past the end is ignored |
| `SimulationProof.CycleAgrees` | src/MulticoreProccessor/Core/src/Pipeline.c:48-113 | Under G4 a cycle keeps the relation between the stages and the sequential machine, which executes the instruction that leaves MEM, if one does |
| `SimulationCycle.HazardIsDependence` | src/MulticoreProccessor/Core/src/Pipeline.c:231-283 | Hazard detection fires exactly if an ALU or LW instruction in EXECUTE, MEM or WRITE_BACK is to write a register in R2 to R15 that the decoded one reads |
| `SimulationCycle.FrontEndDecodes` | src/MulticoreProccessor/Core/src/Pipeline.c:137-150 | Decode gives a branch its target operand and the program counter that the sequential machine has after the delay slot, which `Interpreter.BranchMeans` states for each comparison |
| `SimulationCycle.ExecuteComputes` | src/MulticoreProccessor/Core/src/Pipeline.c:152-158 | Execute computes the sequential machine's result, of which `Interpreter.AluMeans` and the laws of `Isa` say what it is, and leaves the program counter alone |
| `SimulationCycle.RequestAgrees` | src/MulticoreProccessor/Core/src/Pipeline.c:165-177 | The memory stage asks for the address, and stores the word, of the sequential machine |
| `SimulationCycle.RegistersWritten` | src/MulticoreProccessor/Core/src/Pipeline.c:184-188 | After write-back R2 to R15 are the sequential machine's, and R0 is zero until HALT is written back |
| `SimulationCycle.CycleWorks` | src/MulticoreProccessor/Core/src/Pipeline.c:211-221 | All that the stages of a cycle leave behind before they move |
| `PipelineRuns.RegistersAfterWriteBack` | src/MulticoreProccessor/Core/src/Pipeline.c:184-188 | After each write-back R2 to R15 are those of the sequential machine after that instruction |
| `PipelineRuns.FlushedAtHalt` | src/MulticoreProccessor/Core/src/Core.c:54-71 | An empty pipe means that the machine is at HALT with the same registers, and the printed count is its instructions plus one |
| `PipelineRuns.IterInStep` | src/MulticoreProccessor/Core/src/Core.c:54-71 | An iteration of the core under G4 keeps it in step, count included |
| `PipelineRuns.IterAccesses` | src/MulticoreProccessor/Core/src/Pipeline.c:165-177 | The access an iteration completes is the access of the instruction the machine executes |
| `PipelineProgress.NeverReadsAfterWrite` | src/MulticoreProccessor/Core/src/Pipeline.c:91-113 | In every cycle of every run of any program, memory stalls and broken G4 included, no instruction in EXECUTE or MEM reads a register that an older ALU or LW instruction in flight will write |
| `PipelineProgress.InitiallyIndependent` | src/MulticoreProccessor/Core/src/Pipeline.c:25-41 | The initial pipeline has no instruction in flight, so the runs above include every run from the start |
| `PipelineProgress.AtMostThreeHazardStalls` | src/MulticoreProccessor/Core/src/Pipeline.c:280-283 | Of consecutive hazard stalls at most three do not end in a memory stall |
| `PipelineProgress.EmptyAfterHalt` | src/MulticoreProccessor/Core/src/Pipeline.c:60-69 | After HALT's decode the pipe is empty after at most three cycles that do not end in a memory stall, and exactly when as many have passed as the oldest instruction needs |
| `PipelineProgress.MovingIsDepth` | src/MulticoreProccessor/Core/src/Pipeline.c:91-113 | While nothing leaves DECODE, the cycles that move and the depth still to drain add up to the depth at the start |
| `PipelineProgress.PrintedCount` | src/MulticoreProccessor/Core/src/Core.c:143-168 | The count printed at the end is the number of entries into DECODE, HALT's included |
| `PipelineProgress.EntryIntoDecode` | src/MulticoreProccessor/Core/src/Pipeline.c:91-113 | Exactly the cycles that end with no stall and not halted move a fetched instruction into DECODE |
| `Isa.BitwiseOperations` | src/MulticoreProccessor/Core/src/Opcodes.c:28-48 | AND, OR and XOR, bit by bit |
| `Isa.AdditionCounts` | src/MulticoreProccessor/Core/src/Opcodes.c:10-12 | Addition is counting on from zero, with 0 after 0xFFFFFFFF |
| `Isa.MultiplicationAdds` | src/MulticoreProccessor/Core/src/Opcodes.c:55-57 | Multiplication is repeated addition, modulo 2^32 |
| `Isa.LeftShiftDoubles` | src/MulticoreProccessor/Core/src/Opcodes.c:64-66 | A left shift by one more place, up to 31, is one more doubling |
| `Isa.LogicalShiftBits` | src/MulticoreProccessor/Core/src/Opcodes.c:82-84 | Bit by bit: the logical right shift moves every bit down and brings in zeros |
| `Isa.ArithmeticShiftBits` | src/MulticoreProccessor/Core/src/Opcodes.c:73-75 | Bit by bit: the arithmetic right shift moves every bit down and brings in copies of the sign bit |
| `Isa.BranchesMean` | src/MulticoreProccessor/Core/src/Opcodes.c:91-150 | BEQ is a difference of 0 and BNE a bit that differs; BLT holds iff counting on by at least one from rs reaches rt, BLE iff counting on does, BGT and BGE the other way round |
| `Isa.TargetIsLowNineBits` | src/MulticoreProccessor/Core/src/Opcodes.c:91-95 | A branch target has the nine low bits of the register and no other |
| `Interpreter.AluMeans` | src/MulticoreProccessor/Core/src/Opcodes.c:10-84 | One arithmetic instruction of the sequential machine sets its target register to the ALU's result and nothing else |
| `Interpreter.MemoryMeans` | src/MulticoreProccessor/Core/src/Pipeline.c:165-177 | One load or store of the sequential machine accesses the address that ADD computes from rs and rt; a load sets rd, a store writes rd's value |
| `Interpreter.BranchMeans` | src/MulticoreProccessor/Core/src/Opcodes.c:91-150 | One branch of the sequential machine: each of the six unsigned comparisons of rs with rt, and the target modulo 512 after the delay slot |
| `Isa.RightShiftsDivide` | src/MulticoreProccessor/Core/src/Opcodes.c:73-84 | The right shifts divide by a power of two rounding down, the arithmetic one the signed number |
| `Isa.AluOfZeros` | src/MulticoreProccessor/Core/src/Opcodes.c:10-84 | Every arithmetic operation on zeros gives zero, so the all-zero command leaves R0 alone |
| `PipelineDriver.Core.Iter` | src/MulticoreProccessor/Core/src/Core.c:54-71 | Core_Iter on the object, with the cache call it makes, takes core and bus to the states given on values |
| `PipelineDriver.Core.RunPipeline` | src/MulticoreProccessor/Core/src/Pipeline.c:48-52 | Pipeline_Execute: the hazard of this cycle, then the stages |
| `PipelineDriver.Core.ExecuteStages` | src/MulticoreProccessor/Core/src/Pipeline.c:211-221 | execute_stages: the loop over the stages is fetch, decode, execute, mem and write-back as the stalls allow |
| `PipelineDriver.Core.BubbleCommands` | src/MulticoreProccessor/Core/src/Pipeline.c:91-113 | Pipeline_BubbleCommands: the loop moves each stage to the next, or stops at the stall |
| `PipelineDriver.Core.PipeFlushed` | src/MulticoreProccessor/Core/src/Pipeline.c:60-69 | True iff halted and all five stages hold bubbles |
| `PipelineDriver.Core.NeedsHazardStall` | src/MulticoreProccessor/Core/src/Pipeline.c:280-283 | The stall is raised iff EXECUTE, WRITE_BACK or MEM holds an instruction that writes a register which the one in DECODE compares |
| `PipelineDriver.Core.Fetch` | src/MulticoreProccessor/Core/src/Pipeline.c:120-130 | fetch: nothing in a memory stall, and no increment in a hazard stall |
| `PipelineDriver.Core.Decode` | src/MulticoreProccessor/Core/src/Pipeline.c:137-150 | decode: HALT halts, a branch runs |
| `PipelineDriver.Core.Execute` | src/MulticoreProccessor/Core/src/Pipeline.c:152-158 | execute: an arithmetic instruction runs the operation its stage carries; branches, loads, stores and HALT pass through |
| `PipelineDriver.Core.Mem` | src/MulticoreProccessor/Core/src/Pipeline.c:165-177 | mem: the cache call and its answer, on core and bus |
| `PipelineDriver.Core.WriteBack` | src/MulticoreProccessor/Core/src/Pipeline.c:184-188 | The result goes to the target register, R15 for JAL, and nothing else changes |
| `PipelineDriver.Core.Prepare` | src/MulticoreProccessor/Core/src/Pipeline.c:196-204 | The immediate goes to R1 first; then the target register's value becomes the result and the operands are read |
| `PipelineDriver.Core.constructor` | src/MulticoreProccessor/Core/src/Core.c:21-47 | Core_Init: the lines of the image with zeros behind them, bubbles everywhere but in FETCH, and a core without any line stopped from the start |
| `SimulatorDriver.Simulator.Turn` | src/MulticoreProccessor/MulticoreProcessor.c:27-29 | A core's turn changes that core and the bus, and no other core |
| `SimulatorDriver.Simulator.Halted` | src/MulticoreProccessor/MulticoreProcessor.c:47-54 | ProcessorHalted: true iff every core has stopped |
| `Isa.FieldsMakeCommand` | src/MulticoreProccessor/Interface/include/Helpers.h:14-24 | The five bit fields make up the command |
| `Isa.SubtractionUndoesAddition` | src/MulticoreProccessor/Core/src/Opcodes.c:10-21 | Addition and subtraction wrap at 32 bits and undo each other |
| `Isa.BranchesAreComplementary` | src/MulticoreProccessor/Core/src/Opcodes.c:91-150 | The six branch conditions are three and their negations, over unsigned words |

## Left out

- Reading and writing files, traces and the command line (`Files.c`, `fscanf`, `fprintf`, the trimming of the memory dump). The memory image and the programs are parameters.
- The `while` loop of `main`: one iteration of it is modelled, and runs are sequences of steps of any length. That a given program ends is not claimed; two cores that write-miss the same block can keep stealing it from each other.
- Statistics of the caches (hits and misses) and the stall counters. The `miss_occurred` flags are statics shared by all four caches.
- `Processor.SequentiallyConsistent`: holds for runs in which G1 to G4 hold. The counterexamples to G1, G2 and G3 are histories of cache calls in the main loop's order that no flat memory accepts, and the one to G4 is the accesses of one pipeline; no programs for all four cores are given whose pipelines make those very calls.
- `Exactness.TransactionCriterion`: and the iff results derived from it are about a transaction left to itself; what a transaction leaves while the cores go on calling is stated in `LiveTransactions` and `Outcomes`.
- `PipelineGuard.MissExact`: is about the relation to the sequential machine, not about accesses, registers or the count. What a broken relation shows is stated by `PipelineGuard.SuccessorTwice` and, for one program, `PipelineGuard.ExampleSlips`.
- `Counter.CounterTest`: is about runs in which G1 to G4 hold and all four pipes are empty at the end; that the test ends, and the counts of cycles and of hits and misses in its stats files, are not claimed.
- `Isa.RightShiftsDivide`: is for amounts below 32, like the other laws of the shifts. A shift by 32 or more is undefined in C; the model uses the low five bits of the amount.
- JAL and the opcodes 18, 19 and above 20 in programs: `Isa.Instruction.Supported` excludes them. The pipeline model itself has JAL, which overwrites its own target before it jumps; an empty entry of the operation table leaves the stage alone in the model. The C code calls it, a null pointer: for such an opcode, and when G4 fails and an ALU instruction slips into EXECUTE with the operation it never got in DECODE (Pipeline.c:104, :156).
- Fetches past address 1023: `PipelineRuns.InRange` is a precondition of every cycle.
- R0 and R1 as outputs: write-back really writes R0, so programs may name it as a target only where the result is zero, and HALT may name R0 or R1; R1 is scratch.
- `malloc` failure, and caches that are never registered because a core has no program: four registered caches are assumed.
- The layout of C bit fields, which is up to the compiler: addresses and commands are split arithmetically, lowest field first.
- The 32-bit counters of cycles, bus iterations and instructions, which are unbounded here.
- The assembler, whose text handling is another program.
- Aliasing between the objects: the constructors of `BusDriver.Bus` and `SimulatorDriver.Simulator` ask for caches and cores whose arrays are distinct, as the static arrays of the C code are.
