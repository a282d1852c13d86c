/** The bus, the main memory and the four caches as one state machine on values (Bus.c, MainMemory.c, Cache.c). */
module BusModel {
  import opened Types
  import opened Addressing
  import opened CacheModel

  type Memory = m: seq<Word> | |m| == MAIN_MEMORY_SIZE witness seq(MAIN_MEMORY_SIZE, _ => 0)
  type Caches = s: seq<Cache> | |s| == NUMBER_OF_CORES
    witness [CacheData(seq(FRAME_SIZE, _ => Frame(0, Invalid)), seq(CACHE_SIZE, _ => 0)),
             CacheData(seq(FRAME_SIZE, _ => Frame(0, Invalid)), seq(CACHE_SIZE, _ => 0)),
             CacheData(seq(FRAME_SIZE, _ => Frame(0, Invalid)), seq(CACHE_SIZE, _ => 0)),
             CacheData(seq(FRAME_SIZE, _ => Frame(0, Invalid)), seq(CACHE_SIZE, _ => 0))]
  type TransactionStates = s: seq<TransactionState> | |s| == NUMBER_OF_CORES
    witness [Idle, Idle, Idle, Idle]

  datatype System = System(
    caches: Caches,
    memory: Memory,
    queue: seq<Packet>,            // oldest first
    current: Packet,               // gCurrentPacket
    inProgress: bool,              // gBusInProgress
    offset: Offset,                // gAddressOffset
    states: TransactionStates,     // gBusTransactionState
    firstShared: bool,             // is_first_shared
    counter: nat,                  // memory: counter
    memoryActive: bool             // memory: gMemoryTransaction
  ) {
    /** Packets name a core or the invalid originator, and a running packet names its core. */
    predicate Wf() {
      && (forall k :: 0 <= k < |queue| ==> WfPacket(queue[k]))
      && (inProgress ==> current.origid < NUMBER_OF_CORES && current.sender == current.origid && current.cmd != NoCommand)
    }

    predicate CoreBusy(c: CoreId) { states[c] != Idle }
  }

  predicate WfPacket(p: Packet) {
    if p.origid < NUMBER_OF_CORES then p.cmd != NoCommand else p.origid == BUS_INVALID_ORIGINATOR && p.cmd == NoCommand
  }

  // ----- the two lines and the snoop, over caches 0 .. n-1 ----------------------------

  predicate SharedLine(caches: Caches, p: Packet) {
    exists c: CoreId :: RaisesShared(caches[c], c, p)
  }

  predicate ModifiedLine(caches: Caches, p: Packet) {
    exists c: CoreId :: RaisesModified(caches[c], c, p)
  }

  /** The packet after caches 0 .. n-1 have snooped it, in id order. */
  function PacketAfter(caches: Caches, p: Packet, n: nat): Packet
    requires n <= NUMBER_OF_CORES
  {
    if n == 0 then p else SnoopPacket(caches[n - 1], n - 1, PacketAfter(caches, p, n - 1))
  }

  /** The caches after each has snooped the packet as its predecessors left it. */
  function CachesAfter(caches: Caches, p: Packet, offset: Offset): (r: Caches)
    ensures forall c: CoreId :: r[c] == SnoopCache(caches[c], c, PacketAfter(caches, p, c), offset)
  {
    [SnoopCache(caches[0], 0, PacketAfter(caches, p, 0), offset),
     SnoopCache(caches[1], 1, PacketAfter(caches, p, 1), offset),
     SnoopCache(caches[2], 2, PacketAfter(caches, p, 2), offset),
     SnoopCache(caches[3], 3, PacketAfter(caches, p, 3), offset)]
  }

  // ----- bus_transaction_handler -------------------------------------------------------

  const DIRECT_COUNT := 16
  const LAST_COUNT := 23

  /** The counter value the memory works with in this step. */
  function MemoryCount(counter: nat, active: bool, direct: bool): nat {
    if active then counter else if direct then DIRECT_COUNT else 0
  }

  /** process_memory_word: what is on the bus afterwards. */
  function MemoryPacket(memory: Memory, p: Packet): Packet {
    if p.cmd.IsFill() then p.(origid := BUS_MAIN_MEMORY, cmd := Flush, data := memory[MemoryAddress(p.addr)]) else p
  }

  /** process_memory_word: what is in memory afterwards. */
  function MemoryAfter(memory: Memory, p: Packet): Memory {
    if p.cmd.Flush? then memory[MemoryAddress(p.addr) := p.data] else memory
  }

  // ----- Bus_Iter ----------------------------------------------------------------------

  /** A core whose transaction ended in the previous step becomes idle. */
  function Release(s: System): System {
    if s.current.origid < NUMBER_OF_CORES && s.states[s.current.origid] == Finally
    then s.(states := s.states[s.current.origid := Idle])
    else s
  }

  /** The oldest packet leaves the queue; an invalid one uses up the step. */
  function Grant(s: System): System
    requires s.queue != [] && WfPacket(s.queue[0])
  {
    var p := s.queue[0];
    var t := s.(queue := s.queue[1..], current := p, firstShared := true);
    if p.origid == BUS_INVALID_ORIGINATOR then t
    else t.(current := p.(sender := p.origid), inProgress := true,
            states := s.states[p.origid := Operation], offset := 0)
  }

  /** The packet put on the lines in this step: the running one, moved to the current word. */
  function LinePacket(s: System): Packet {
    s.current.(addr := WithOffset(s.current.addr, s.offset), shared := SharedLine(s.caches, s.current))
  }

  /** The first step that sees the modified line is spent. */
  predicate Bubble(s: System) { ModifiedLine(s.caches, s.current) && s.firstShared }

  /** The part of the step after arbitration. */
  function Transfer(s: System): System
    requires s.Wf() && s.inProgress
  {
    if Bubble(s) then s.(firstShared := false)
    else
      Serve(s.(caches := CachesAfter(s.caches, LinePacket(s), s.offset)),
            PacketAfter(s.caches, LinePacket(s), NUMBER_OF_CORES), ModifiedLine(s.caches, s.current))
  }

  /** The memory's step: it counts, and from DIRECT_COUNT on it answers with a word. */
  function Serve(s: System, p: Packet, direct: bool): System
    requires s.current.origid < NUMBER_OF_CORES
  {
    var count := MemoryCount(s.counter, s.memoryActive, direct);
    var ticked := s.(counter := count + 1, memoryActive := true);
    if p.cmd == NoCommand then s
    else if count < DIRECT_COUNT then ticked
    else
      Respond(ticked.(memory := MemoryAfter(s.memory, p), memoryActive := count != LAST_COUNT),
              MemoryPacket(s.memory, p))
  }

  /** The word on the bus is handed to the requester; the last one ends the transaction. */
  function Respond(s: System, p: Packet): System
    requires s.current.origid < NUMBER_OF_CORES
  {
    var r := s.current.origid;
    if !Accepts(r, p) then s
    else
      var t := s.(caches := s.caches[r := Receive(s.caches[r], p, s.offset)]);
      if s.offset == BLOCK_SIZE - 1
      then t.(states := s.states[r := Finally], inProgress := false)
      else t.(offset := s.offset + 1)
  }

  /** The state once this step has released and arbitrated. */
  function Arbitrated(s: System): System
    requires s.Wf()
  {
    var t := Release(s);
    if t.inProgress then t
    else if t.queue == [] then t.(current := t.current.(origid := BUS_INVALID_ORIGINATOR))
    else Grant(t)
  }

  function BusIter(s: System): System
    requires s.Wf()
  {
    var t := Arbitrated(s);
    if t.inProgress then Transfer(t) else t
  }

  // ----- Cache_ReadData, Cache_WriteData -------------------------------------------------

  /** Bus_AddTransaction: enqueue, and mark the originator as waiting. */
  function AddTransaction(s: System, p: Packet): System {
    var t := s.(queue := s.queue + [p]);
    if p.origid < NUMBER_OF_CORES then t.(states := s.states[p.origid := Wait]) else t
  }

  function Request(c: CoreId, cmd: Command, a: Address): Packet { Packet(0, c, cmd, a, 0, false) }

  const INVALID_PACKET := Packet(0, BUS_INVALID_ORIGINATOR, NoCommand, 0, 0, false)

  /** The write-back request for a dirty victim; its data word is read at the offset of the missing address. */
  function VictimPacket(cache: Cache, c: CoreId, a: Address): Packet {
    var i := IndexOf(a);
    Packet(0, c, Flush, Location(cache.tsram[i].tag, i, 0), DataAt(cache, i, OffsetOf(a)), false)
  }

  /** dirty_block_handling. */
  function EvictDirty(s: System, c: CoreId, a: Address): System {
    if s.caches[c].tsram[IndexOf(a)].mesi == Modified
    then AddTransaction(s, VictimPacket(s.caches[c], c, a))
    else s
  }

  function Miss(s: System, c: CoreId, a: Address, cmd: Command): System {
    AddTransaction(EvictDirty(s, c, a), Request(c, cmd, a))
  }

  /** A write to a Shared copy: the request for exclusive access, and an invalid packet behind it. */
  function Upgrade(s: System, c: CoreId, a: Address): System {
    AddTransaction(AddTransaction(s, Request(c, BusRdX, a)), INVALID_PACKET)
  }

  predicate ReadHits(s: System, c: CoreId, a: Address) { !s.CoreBusy(c) && HoldsAddress(s.caches[c], a) }

  predicate WriteHits(s: System, c: CoreId, a: Address) {
    ReadHits(s, c, a) && s.caches[c].tsram[IndexOf(a)].mesi != Shared
  }

  /** The word a successful read returns. */
  function ReadValue(s: System, c: CoreId, a: Address): Word { DataAt(s.caches[c], IndexOf(a), OffsetOf(a)) }

  function ReadData(s: System, c: CoreId, a: Address): System {
    if s.CoreBusy(c) || ReadHits(s, c, a) then s else Miss(s, c, a, BusRd)
  }

  function StoreWord(cache: Cache, a: Address, w: Word): Cache {
    var i := IndexOf(a);
    StoreAt(WithFrame(cache, i, cache.tsram[i].(mesi := Modified)), i, OffsetOf(a), w)
  }

  function WriteData(s: System, c: CoreId, a: Address, w: Word): System {
    if s.CoreBusy(c) then s
    else if WriteHits(s, c, a) then s.(caches := s.caches[c := StoreWord(s.caches[c], a, w)])
    else if ReadHits(s, c, a) then Upgrade(s, c, a)
    else Miss(s, c, a, BusRdX)
  }

  // ----- runs ------------------------------------------------------------------------------

  datatype Action =
    | Clock                                     // Bus_Iter
    | Read(core: CoreId, addr: Address)         // a core calls Cache_ReadData
    | Write(core: CoreId, addr: Address, data: Word)

  function Step(s: System, a: Action): System
    requires s.Wf()
  {
    match a
    case Clock => BusIter(s)
    case Read(c, addr) => ReadData(s, c, addr)
    case Write(c, addr, w) => WriteData(s, c, addr, w)
  }
}
