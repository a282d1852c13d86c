/**
  What one clock step of a running transaction does, stated without the order in which the four
  caches are asked: who supplies the word, who loses which state, what memory and requester get.
 */
module TransferEffect {
  import opened Types
  import opened Addressing
  import opened CacheModel
  import opened BusModel

  // ----- who supplies the word ---------------------------------------------------------

  /** The first Modified owner of block (t, i) other than core `r`. */
  function OwnerBut(caches: Caches, r: nat, t: Tag, i: Index): (o: Option<CoreId>)
    ensures o.Some? ==> o.value != r && Owns(caches[o.value], t, i)
    ensures o.None? ==> forall c: CoreId :: c != r ==> !Owns(caches[c], t, i)
  {
    if r != 0 && Owns(caches[0], t, i) then Some(0)
    else if r != 1 && Owns(caches[1], t, i) then Some(1)
    else if r != 2 && Owns(caches[2], t, i) then Some(2)
    else if r != 3 && Owns(caches[3], t, i) then Some(3)
    else None
  }

  function BlockTag(s: System): Tag { TagOf(s.current.addr) }

  function BlockIndex(s: System): Index { IndexOf(s.current.addr) }

  /** The Modified owner of the block under transfer, other than the requester. */
  function CurrentOwner(s: System): Option<CoreId> {
    OwnerBut(s.caches, s.current.sender, BlockTag(s), BlockIndex(s))
  }

  /** The cache whose word is on the bus when the snoop is over, if any. */
  function Supplier(s: System): Option<CoreId>
    requires s.current.sender < NUMBER_OF_CORES
  {
    var r := s.current.sender;
    var own := Holds(s.caches[r], BlockTag(s), BlockIndex(s));
    match CurrentOwner(s)
    case Some(j) => if own && (s.current.cmd.Flush? || j < r) then Some(r) else Some(j)
    case None => if own && s.current.cmd.Flush? then Some(r) else None
  }

  /** The word the requester is handed when the bus is at word `s.offset`. */
  function SuppliedWord(s: System): Word
    requires s.current.sender < NUMBER_OF_CORES
  {
    match Supplier(s)
    case Some(u) => DataAt(s.caches[u], BlockIndex(s), s.offset)
    case None =>
      if s.current.cmd.Flush? then s.current.data else s.memory[Location(BlockTag(s), BlockIndex(s), s.offset)]
  }

  /** The word also goes to memory: a write-back, or a fill taken over by an owner. */
  predicate UpdatesMemory(s: System) { s.current.cmd.Flush? || CurrentOwner(s).Some? }

  /** The memory is past its latency in this step. */
  predicate Responds(s: System) {
    MemoryCount(s.counter, s.memoryActive, ModifiedLine(s.caches, s.current)) >= DIRECT_COUNT
  }

  /** Nobody but the requester of a fill shares a block with its Modified owner. */
  predicate SingleOwner(s: System)
    requires s.current.sender < NUMBER_OF_CORES
  {
    var r := s.current.sender;
    var t, i := BlockTag(s), BlockIndex(s);
    && (s.current.cmd.IsFill() ==> s.caches[r].tsram[i].mesi != Modified)
    && (s.current.cmd.Flush? && Holds(s.caches[r], t, i) ==> CurrentOwner(s).None?)
    && (forall j: CoreId, c: CoreId ::
          j != r && c != r && j != c && Owns(s.caches[j], t, i) ==> !Holds(s.caches[c], t, i))
  }

  // ----- the snoop, in id order ----------------------------------------------------------

  lemma {:induction false} PacketFrame(caches: Caches, p: Packet, n: nat)
    requires n <= NUMBER_OF_CORES
    ensures var q := PacketAfter(caches, p, n);
            q.addr == p.addr && q.sender == p.sender && q.shared == p.shared
    ensures p.cmd.Flush? ==> PacketAfter(caches, p, n).cmd.Flush?
    ensures p.cmd.IsFill() ==> PacketAfter(caches, p, n).cmd == p.cmd || PacketAfter(caches, p, n).cmd.Flush?
  {
    if n > 0 { PacketFrame(caches, p, n - 1); }
  }

  /** Without an owner a fill request passes all caches unchanged. */
  lemma {:induction false} FillWithoutOwner(caches: Caches, p: Packet, n: nat)
    requires n <= NUMBER_OF_CORES && p.cmd.IsFill()
    requires forall c: CoreId :: c != p.sender ==> !Owns(caches[c], TagOf(p.addr), IndexOf(p.addr))
    ensures PacketAfter(caches, p, n) == p
  {
    if n > 0 { FillWithoutOwner(caches, p, n - 1); }
  }

  /** An owner turns the request into a Flush; a requester snooped later still puts its own word on. */
  lemma {:induction false} FillWithOwner(caches: Caches, p: Packet, j: CoreId, n: nat)
    requires n <= NUMBER_OF_CORES && p.cmd.IsFill() && p.sender < NUMBER_OF_CORES && j != p.sender
    requires Owns(caches[j], TagOf(p.addr), IndexOf(p.addr))
    requires caches[p.sender].tsram[IndexOf(p.addr)].mesi != Modified
    requires forall c: CoreId :: c != j && c != p.sender ==> !Holds(caches[c], TagOf(p.addr), IndexOf(p.addr))
    ensures n <= j ==> PacketAfter(caches, p, n) == p
    ensures n > j ==> PacketAfter(caches, p, n).cmd == Flush
    ensures n > j ==>
              var u := if j < p.sender < n && HoldsAddress(caches[p.sender], p.addr) then p.sender else j;
              PacketAfter(caches, p, n).data == DataAt(caches[u], IndexOf(p.addr), OffsetOf(p.addr))
  {
    PacketFrame(caches, p, n);
    if n > 0 {
      PacketFrame(caches, p, n - 1);
      FillWithOwner(caches, p, j, n - 1);
    }
  }

  /** A Flush carries the word of the one cache that is its valid sender or a Modified owner. */
  lemma {:induction false} FlushWithSupplier(caches: Caches, p: Packet, u: CoreId, n: nat)
    requires n <= NUMBER_OF_CORES && p.cmd == Flush
    requires Holds(caches[u], TagOf(p.addr), IndexOf(p.addr))
    requires u == p.sender || Owns(caches[u], TagOf(p.addr), IndexOf(p.addr))
    requires forall c: CoreId :: c != u ==> !Owns(caches[c], TagOf(p.addr), IndexOf(p.addr))
    requires u != p.sender < NUMBER_OF_CORES ==> !HoldsAddress(caches[p.sender], p.addr)
    ensures PacketAfter(caches, p, n).data ==
              if n > u then DataAt(caches[u], IndexOf(p.addr), OffsetOf(p.addr)) else p.data
  {
    if n > 0 {
      PacketFrame(caches, p, n - 1);
      FlushWithSupplier(caches, p, u, n - 1);
    }
  }

  /** A Flush that neither its sender nor an owner answers keeps the word it was queued with. */
  lemma {:induction false} FlushWithoutSupplier(caches: Caches, p: Packet, n: nat)
    requires n <= NUMBER_OF_CORES && p.cmd == Flush
    requires forall c: CoreId :: !Owns(caches[c], TagOf(p.addr), IndexOf(p.addr))
    requires p.sender < NUMBER_OF_CORES ==> !HoldsAddress(caches[p.sender], p.addr)
    ensures PacketAfter(caches, p, n).data == p.data
  {
    if n > 0 {
      PacketFrame(caches, p, n - 1);
      FlushWithoutSupplier(caches, p, n - 1);
    }
  }

  /** The supplier named above is the one the ordered snoop ends with, and memory adds its word if there is none. */
  lemma WordOnBus(s: System)
    requires s.Wf() && s.inProgress && SingleOwner(s)
    ensures var p := PacketAfter(s.caches, LinePacket(s), NUMBER_OF_CORES);
            && MemoryPacket(s.memory, p).cmd == Flush
            && MemoryPacket(s.memory, p).data == SuppliedWord(s)
            && MemoryPacket(s.memory, p).addr == LinePacket(s).addr
            && MemoryPacket(s.memory, p).sender == s.current.sender
            && MemoryPacket(s.memory, p).shared == LinePacket(s).shared
            && p.cmd != NoCommand
            && MemoryAfter(s.memory, p) ==
                 if UpdatesMemory(s) then s.memory[Location(BlockTag(s), BlockIndex(s), s.offset) := SuppliedWord(s)]
                 else s.memory
  {
    var p := LinePacket(s);
    PacketFrame(s.caches, p, NUMBER_OF_CORES);
    assert MemoryAddress(p.addr) == Location(BlockTag(s), BlockIndex(s), s.offset);
    match Supplier(s) {
      case Some(u) =>
        if p.cmd.Flush? {
          FlushWithSupplier(s.caches, p, u, NUMBER_OF_CORES);
        } else {
          FillWithOwner(s.caches, p, CurrentOwner(s).value, NUMBER_OF_CORES);
        }
      case None =>
        if p.cmd.Flush? {
          FlushWithoutSupplier(s.caches, p, NUMBER_OF_CORES);
        } else {
          FillWithoutOwner(s.caches, p, NUMBER_OF_CORES);
        }
    }
  }

  // ----- the states the snoop leaves -----------------------------------------------------

  /** A bystander's frame after the snoop: clean copies react at once, an owner only with the last word. */
  function SnoopedFrame(f: Frame, t: Tag, cmd: Command, offset: Offset): Frame {
    if cmd.IsFill() && f.tag == t && f.mesi != Invalid && (f.mesi != Modified || offset == BLOCK_SIZE - 1)
    then Frame(t, if cmd.BusRd? then Shared else Invalid)
    else f
  }

  /** A cache that snoops the request itself, and not a Flush made of it, goes to the state given above. */
  lemma SnoopOfRequest(cache: Cache, c: CoreId, p: Packet, offset: Offset)
    requires c != p.sender && p.cmd != NoCommand
    ensures SnoopCache(cache, c, p, offset) ==
              var i := IndexOf(p.addr);
              WithFrame(cache, i, SnoopedFrame(cache.tsram[i], TagOf(p.addr), p.cmd, offset))
  {
    var i := IndexOf(p.addr);
    assert cache == WithFrame(cache, i, cache.tsram[i]);
  }

  /** A Flush changes no state, and a cache without the block changes none. */
  lemma SnoopWithoutEffect(cache: Cache, c: CoreId, p: Packet, offset: Offset)
    requires p.cmd.Flush? || !HoldsAddress(cache, p.addr)
    ensures SnoopCache(cache, c, p, offset) == cache
  {
    var i := IndexOf(p.addr);
    assert cache == WithFrame(cache, i, cache.tsram[i]);
  }

  lemma BystanderAfterSnoop(s: System, c: CoreId)
    requires s.Wf() && s.inProgress && SingleOwner(s) && c != s.current.sender
    ensures CachesAfter(s.caches, LinePacket(s), s.offset)[c] ==
              var i := BlockIndex(s);
              WithFrame(s.caches[c], i, SnoopedFrame(s.caches[c].tsram[i], BlockTag(s), s.current.cmd, s.offset))
  {
    var p := LinePacket(s);
    var q := PacketAfter(s.caches, p, c);
    var owner := CurrentOwner(s);
    SnoopOfRequest(s.caches[c], c, p, s.offset);
    if p.cmd.IsFill() && owner.None? {
      FillWithoutOwner(s.caches, p, c);
    } else {
      PacketFrame(s.caches, p, c);
      if p.cmd.IsFill() && c <= owner.value {
        FillWithOwner(s.caches, p, owner.value, c);
      } else {
        SnoopWithoutEffect(s.caches[c], c, p, s.offset);
        SnoopWithoutEffect(s.caches[c], c, q, s.offset);
      }
    }
  }

  /** The requester's own frame is not changed by the snoop. */
  lemma RequesterAfterSnoop(s: System)
    requires s.Wf() && s.inProgress && SingleOwner(s)
    ensures CachesAfter(s.caches, LinePacket(s), s.offset)[s.current.sender] == s.caches[s.current.sender]
  {
    var p, r := LinePacket(s), s.current.sender;
    PacketFrame(s.caches, p, r);
    var f := s.caches[r].tsram[BlockIndex(s)];
    assert s.caches[r] == WithFrame(s.caches[r], BlockIndex(s), f.(mesi := f.mesi));
  }

  // ----- the whole step --------------------------------------------------------------------

  /** The requester's state when it has the last word. */
  function FinalMesi(s: System): Mesi { if SharedLine(s.caches, s.current) then Shared else Exclusive }

  /** Cache `c` after the step. */
  function CacheAfterStep(s: System, c: CoreId): Cache
    requires s.Wf() && s.inProgress
  {
    var i, t := BlockIndex(s), BlockTag(s);
    var cache := s.caches[c];
    if c != s.current.sender then WithFrame(cache, i, SnoopedFrame(cache.tsram[i], t, s.current.cmd, s.offset))
    else if !Responds(s) then cache
    else StoreAt(WithFrame(cache, i, Frame(t, if s.offset == BLOCK_SIZE - 1 then FinalMesi(s) else cache.tsram[i].mesi)),
                 i, s.offset, SuppliedWord(s))
  }

  function MemoryAfterStep(s: System): Memory
    requires s.Wf() && s.inProgress
  {
    if Responds(s) && UpdatesMemory(s)
    then s.memory[Location(BlockTag(s), BlockIndex(s), s.offset) := SuppliedWord(s)]
    else s.memory
  }

  predicate Completes(s: System) { Responds(s) && s.offset == BLOCK_SIZE - 1 }

  /** Memory and the four caches after a step that is not a bubble. */
  ghost predicate IsDataStep(s: System, s': System)
    requires s.Wf() && s.inProgress
  {
    && s'.memory == MemoryAfterStep(s)
    && (forall c: CoreId :: s'.caches[c] == CacheAfterStep(s, c))
  }

  /** The registers of bus and memory after a step that is not a bubble. */
  ghost predicate IsControlStep(s: System, s': System) {
    var count := MemoryCount(s.counter, s.memoryActive, ModifiedLine(s.caches, s.current));
    && s'.queue == s.queue && s'.current == s.current && s'.firstShared == s.firstShared
    && s'.counter == count + 1 && s'.memoryActive == (count != LAST_COUNT)
    && s'.offset == (if Responds(s) && !Completes(s) then s.offset + 1 else s.offset)
    && Finishes(s, s', Completes(s))
  }

  /** The transaction ends in this step, or goes on. */
  ghost predicate Finishes(s: System, s': System, ends: bool) {
    && s'.queue == s.queue && s'.current == s.current
    && s'.inProgress == !ends
    && s'.states == (if ends && s.current.sender < NUMBER_OF_CORES then s.states[s.current.sender := Finally] else s.states)
  }

  /** The order-free description of a step that is not a bubble. */
  ghost predicate IsWordStep(s: System, s': System)
    requires s.Wf() && s.inProgress
  {
    IsDataStep(s, s') && IsControlStep(s, s')
  }

  /** What the requester makes of the packet that memory leaves on the bus. */
  lemma RequesterReceives(s: System, q: Packet)
    requires s.Wf() && s.inProgress && Responds(s)
    requires q.addr == LinePacket(s).addr && q.data == SuppliedWord(s)
    requires q.shared == SharedLine(s.caches, s.current)
    ensures Receive(s.caches[s.current.sender], q, s.offset) == CacheAfterStep(s, s.current.sender)
  {
  }

  /** The state after the step, once snoop and memory are known. */
  lemma TransferUnfolded(s: System, caches: Caches, p: Packet, q: Packet)
    requires s.Wf() && s.inProgress && !Bubble(s)
    requires p == PacketAfter(s.caches, LinePacket(s), NUMBER_OF_CORES) && p.cmd != NoCommand
    requires caches == CachesAfter(s.caches, LinePacket(s), s.offset)
    requires q == MemoryPacket(s.memory, p) && q.cmd == Flush && q.sender == s.current.sender
    ensures var count := MemoryCount(s.counter, s.memoryActive, ModifiedLine(s.caches, s.current));
            var ticked := s.(caches := caches, counter := count + 1, memoryActive := count != LAST_COUNT);
            Transfer(s) ==
              if !Responds(s) then ticked
              else
                var r := s.current.sender;
                var answered := ticked.(memory := MemoryAfter(s.memory, p), caches := caches[r := Receive(caches[r], q, s.offset)]);
                if s.offset == BLOCK_SIZE - 1
                then answered.(states := s.states[r := Finally], inProgress := false)
                else answered.(offset := s.offset + 1)
  {
  }

  /** Every step of a running transaction that is not a bubble is a word step. */
  lemma TransferIsWordStep(s: System)
    requires s.Wf() && s.inProgress && SingleOwner(s) && !Bubble(s)
    ensures IsWordStep(s, Transfer(s))
  {
    var p := PacketAfter(s.caches, LinePacket(s), NUMBER_OF_CORES);
    var caches := CachesAfter(s.caches, LinePacket(s), s.offset);
    var q := MemoryPacket(s.memory, p);
    WordOnBus(s);
    RequesterAfterSnoop(s);
    TransferUnfolded(s, caches, p, q);
    if Responds(s) { RequesterReceives(s, q); }
    var s' := Transfer(s);
    forall c: CoreId ensures s'.caches[c] == CacheAfterStep(s, c) {
      if c != s.current.sender { BystanderAfterSnoop(s, c); }
    }
  }
}
