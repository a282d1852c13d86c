/** The bus as an object: Bus_Iter and the two cache entry points, updating caches, memory and queue in place. */
module BusDriver {
  import opened Types
  import opened Addressing
  import opened CacheModel
  import opened BusModel
  import opened BusFifo
  import opened BusSystem
  import opened SharedMemory

  /** Arbitration touches neither caches nor memory. */
  lemma ArbitrationFrame(s: System)
    requires s.Wf()
    ensures var t := Arbitrated(s);
            t.Wf() && t.caches == s.caches && t.memory == s.memory && t.counter == s.counter && t.memoryActive == s.memoryActive
  {
  }

  /** A transfer touches neither the queue nor the running packet. */
  lemma TransferFrame(s: System)
    requires s.Wf() && s.inProgress
    ensures BusModel.Transfer(s).queue == s.queue && BusModel.Transfer(s).current == s.current
  {
    hide PacketAfter, CachesAfter, ModifiedLine, SharedLine, Receive, MemoryPacket, MemoryAfter, MemoryCount;
  }

  /** A miss changes the queue and the transaction states alone. */
  lemma MissFrame(s: System, c: CoreId, a: Address, cmd: Command)
    ensures var t := BusModel.Miss(s, c, a, cmd);
            t == s.(queue := t.queue, states := t.states)
  {
  }

  /** The packets queued last. */
  predicate EndsWith(q: seq<Packet>, g: seq<Packet>) { |g| <= |q| && q[|q| - |g|..] == g }

  class Bus {
    const cache0: CacheUnit                        // gCacheInterface
    const cache1: CacheUnit
    const cache2: CacheUnit
    const cache3: CacheUnit
    const memory: MainMemory
    const queue: Fifo<Packet>
    const states: array<TransactionState>          // gBusTransactionState
    var current: Packet                            // gCurrentPacket
    var inProgress: bool
    var offset: Offset
    var firstShared: bool

    function CacheOf(c: CoreId): CacheUnit {
      if c == 0 then cache0 else if c == 1 then cache1 else if c == 2 then cache2 else cache3
    }

    /** Four caches in id order, none sharing an array with another or with memory. */
    ghost predicate Shaped() {
      && memory.Valid() && memory.data !in Dsrams()
      && (forall c: CoreId :: CacheOf(c).Valid() && CacheOf(c).id == c)
      && (forall c: CoreId :: CacheOf(c).tsram in Tsrams() && CacheOf(c).dsram in Dsrams())
      && (forall c: CoreId, d: CoreId :: c != d ==> CacheOf(c).tsram != CacheOf(d).tsram && CacheOf(c).dsram != CacheOf(d).dsram)
    }

    ghost predicate Valid()
      reads queue, queue.repr
    {
      Shaped() && states.Length == NUMBER_OF_CORES && queue.Valid()
    }

    ghost function Tsrams(): set<array<Frame>> { {cache0.tsram, cache1.tsram, cache2.tsram, cache3.tsram} }

    ghost function Dsrams(): set<array<Word>> { {cache0.dsram, cache1.dsram, cache2.dsram, cache3.dsram} }

    ghost function Values(): (v: Caches)
      requires Shaped()
      reads Tsrams(), Dsrams()
      ensures forall c: CoreId :: v[c] == CacheOf(c).Value()
    {
      [CacheOf(0).Value(), CacheOf(1).Value(), CacheOf(2).Value(), CacheOf(3).Value()]
    }

    ghost function State(): System
      requires Shaped() && states.Length == NUMBER_OF_CORES
      reads this, Tsrams(), Dsrams(), memory, memory.data, queue, states
    {
      System(Values(), memory.Contents(), queue.contents, current, inProgress, offset, states[..], firstShared,
             memory.counter, memory.active)
    }

    /** The state depends on the objects of the bus alone. */
    twostate lemma Untouched()
      requires old(Valid()) && unchanged(this) && unchanged(memory) && unchanged(memory.data) && unchanged(queue)
      requires unchanged(old(queue.repr)) && unchanged(states) && unchanged(Tsrams()) && unchanged(Dsrams())
      ensures Valid() && State() == old(State())
    {
      hide Fifo.Valid, Values, CacheOf, Tsrams, Dsrams, CacheUnit.Value;
      forall c: CoreId ensures Values()[c] == old(Values()[c]) {
        assert CacheOf(c).tsram in Tsrams() && CacheOf(c).dsram in Dsrams();
        assert CacheOf(c).Value() == old(CacheOf(c).Value());
      }
    }

    /** Bus_RegisterCache for four caches with arrays of their own, Bus_RegisterMemoryCallback, and the zeroed statics. */
    constructor (cache0: CacheUnit, cache1: CacheUnit, cache2: CacheUnit, cache3: CacheUnit, memory: MainMemory)
      requires cache0.Valid() && cache1.Valid() && cache2.Valid() && cache3.Valid() && memory.Valid()
      requires cache0.id == 0 && cache1.id == 1 && cache2.id == 2 && cache3.id == 3
      requires cache0.tsram !in {cache1.tsram, cache2.tsram, cache3.tsram}
      requires cache1.tsram !in {cache2.tsram, cache3.tsram}
      requires cache0.dsram !in {cache1.dsram, cache2.dsram, cache3.dsram}
      requires cache1.dsram !in {cache2.dsram, cache3.dsram}
      requires cache2.tsram != cache3.tsram && cache2.dsram != cache3.dsram
      requires memory.data !in {cache0.dsram, cache1.dsram, cache2.dsram, cache3.dsram}
      ensures Valid() && fresh(queue) && fresh(states) && queue.repr == {} && this.memory == memory
      ensures this.cache0 == cache0 && this.cache1 == cache1 && this.cache2 == cache2 && this.cache3 == cache3
      ensures State() == old(Start([cache0.Value(), cache1.Value(), cache2.Value(), cache3.Value()], memory.Contents(),
                                   memory.counter, memory.active))
    {
      hide Fifo.Valid, CacheUnit.Value, MainMemory.Contents;
      this.cache0, this.cache1, this.cache2, this.cache3, this.memory := cache0, cache1, cache2, cache3, memory;
      queue := new Fifo<Packet>();
      states := new TransactionState[NUMBER_OF_CORES](_ => Idle);
      current := Packet(0, 0, NoCommand, 0, 0, false);
      inProgress, offset, firstShared := false, 0, true;
    }

    /** Bus_AddTransaction. */
    method AddTransaction(p: Packet)
      requires Valid()
      modifies queue, queue.repr, states
      ensures Valid() && fresh(queue.repr - old(queue.repr))
      ensures queue.contents == old(queue.contents) + [p]
      ensures states[..] == if p.origid < NUMBER_OF_CORES then old(states[..])[p.origid := Wait] else old(states[..])
    {
      hide Fifo.Valid, Shaped;
      queue.Enqueue(p);
      if p.origid < NUMBER_OF_CORES { states[p.origid] := Wait; }
    }

    /** The frame in which cache `c` would hold the block of the current packet. */
    ghost function FrameFor(c: CoreId): Frame
      requires Shaped()
      reads this, Tsrams()
    {
      CacheOf(c).tsram[IndexOf(current.addr)]
    }

    /** The two lines, as the frames of the caches raise them. */
    lemma LinesOnFrames()
      requires Shaped()
      ensures SharedLine(Values(), current) <==> exists c: CoreId ::
                c != current.origid && FrameFor(c).tag == TagOf(current.addr) && FrameFor(c).mesi != Invalid
      ensures ModifiedLine(Values(), current) <==> exists c: CoreId :: c != current.origid && FrameFor(c).mesi == Modified
    {
      hide IndexOf, TagOf, Tsrams, Dsrams, CacheOf, Values;
      forall c: CoreId ensures Values()[c].tsram[IndexOf(current.addr)] == FrameFor(c) {
        assert Values()[c] == CacheOf(c).Value();
      }
      assert forall c: CoreId :: RaisesModified(Values()[c], c, current) <==> c != current.origid && FrameFor(c).mesi == Modified;
      assert forall c: CoreId :: RaisesShared(Values()[c], c, current) <==>
               c != current.origid && FrameFor(c).tag == TagOf(current.addr) && FrameFor(c).mesi != Invalid;
    }

    /** check_shared_line. */
    method CheckSharedLine() returns (shared: bool, modified: bool)
      requires Valid()
      ensures Values() == old(Values())
      ensures shared == SharedLine(Values(), current) && modified == ModifiedLine(Values(), current)
      ensures shared <==> exists c: CoreId ::
                c != current.origid && FrameFor(c).tag == TagOf(current.addr) && FrameFor(c).mesi != Invalid
      ensures modified <==> exists c: CoreId :: c != current.origid && FrameFor(c).mesi == Modified
    {
      ghost var v := Values();
      shared, modified := false, false;
      for i := 0 to NUMBER_OF_CORES
        invariant forall c: CoreId :: CacheOf(c).Value() == v[c]
        invariant shared <==> exists c: CoreId :: c < i && RaisesShared(v[c], c, current)
        invariant modified <==> exists c: CoreId :: c < i && RaisesModified(v[c], c, current)
      {
        var raised;
        raised, modified := CacheOf(i).SharedSignal(current, modified);
        shared := shared || raised;
      }
      LinesOnFrames();
    }

    /** check_cache_snooping. */
    method CheckCacheSnooping(p: Packet) returns (q: Packet)
      requires Valid()
      modifies Tsrams()
      ensures Values() == CachesAfter(old(Values()), p, offset)
      ensures q == PacketAfter(old(Values()), p, NUMBER_OF_CORES)
    {
      ghost var before := Values();
      q := p;
      for i := 0 to NUMBER_OF_CORES
        invariant q == PacketAfter(before, p, i)
        invariant forall c: CoreId :: CacheOf(c).Value() ==
                    if c < i then SnoopCache(before[c], c, PacketAfter(before, p, c), offset) else before[c]
      {
        q := CacheOf(i).Snoop(q, offset);
      }
    }

    /** Lines 127-129 of Bus_Iter: a finished core becomes idle. */
    method ReleaseFinished()
      requires Shaped() && states.Length == NUMBER_OF_CORES
      modifies states
      ensures states[..] == old(Release(State())).states
    {
      if current.origid < NUMBER_OF_CORES && states[current.origid] == Finally {
        states[current.origid] := Idle;
      }
    }

    /** Lines 136-150 of Bus_Iter: the oldest packet is taken, and run if it names a core. */
    method GrantOldest() returns (granted: bool)
      requires Valid() && queue.contents != [] && WfPacket(queue.contents[0])
      modifies this, queue, queue.repr, states
      ensures Valid() && queue.repr == old(queue.repr) && queue.contents == old(queue.contents)[1..]
      ensures granted == (old(queue.contents)[0].origid < NUMBER_OF_CORES) && firstShared
      ensures var p := old(queue.contents)[0];
              && current == (if granted then p.(sender := p.origid) else p)
              && states[..] == (if granted then old(states[..])[p.origid := Operation] else old(states[..]))
      ensures inProgress == (granted || old(inProgress)) && offset == if granted then 0 else old(offset)
    {
      hide Fifo.Valid, Shaped, Values;
      firstShared := true;
      var found, p := queue.Dequeue(current);
      current := p;
      if current.origid == BUS_INVALID_ORIGINATOR { return false; }
      current := current.(sender := current.origid);
      inProgress := true;
      states[current.origid] := Operation;
      offset := 0;
      return true;
    }

    /** Bus_Iter up to line 150: release, then the running transaction or the oldest packet. */
    method Arbitrate() returns (running: bool)
      requires Valid() && State().Wf()
      modifies this, queue, queue.repr, states
      ensures Valid() && queue.repr == old(queue.repr)
      ensures running == inProgress
      ensures var t := Arbitrated(old(State()));
              && queue.contents == t.queue && current == t.current && inProgress == t.inProgress
              && offset == t.offset && states[..] == t.states && firstShared == t.firstShared
    {
      hide Fifo.Valid, Shaped, Values;
      ReleaseFinished();
      if inProgress { return true; }
      if queue.IsEmpty() {
        current := current.(origid := BUS_INVALID_ORIGINATOR);
        return false;
      }
      running := GrantOldest();
    }

    /** Lines 173-176 of Bus_Iter: the requester takes the word. */
    method Deliver(p: Packet)
      requires Shaped() && states.Length == NUMBER_OF_CORES && current.origid < NUMBER_OF_CORES
      modifies `offset, `inProgress, Tsrams(), Dsrams(), states
      ensures var r := current.origid;
              var accepted := Accepts(r, p);
              var last := accepted && old(offset) == BLOCK_SIZE - 1;
              && Values() == (if accepted then old(Values())[r := Receive(old(Values())[r], p, old(offset))] else old(Values()))
              && states[..] == (if last then old(states[..])[r := Finally] else old(states[..]))
              && inProgress == (old(inProgress) && !last)
              && offset == (if accepted && !last then old(offset) + 1 else old(offset))
    {
      hide CacheOf, Tsrams, Dsrams, Values, CacheUnit.Value;
      ghost var v := Values();
      ghost var r := current.origid;
      var complete, o := CacheOf(current.origid).Respond(p, offset);
      forall c: CoreId ensures Values()[c] == if c == r && Accepts(r, p) then Receive(v[c], p, offset) else v[c] {
        if c != r {
          assert CacheOf(c).tsram != CacheOf(r).tsram && CacheOf(c).dsram != CacheOf(r).dsram;
          assert CacheOf(c).Value() == old(CacheOf(c).Value());
        }
      }
      offset := o;
      if complete {
        states[current.origid] := Finally;
        inProgress := false;
      }
    }

    /** Lines 167-177 of Bus_Iter: memory takes its step, and the requester the word it answers with. */
    method Serve(p: Packet, modified: bool)
      requires Shaped() && states.Length == NUMBER_OF_CORES && current.origid < NUMBER_OF_CORES
      modifies `offset, `inProgress, Tsrams(), Dsrams(), memory, memory.data, states
      ensures var t := BusModel.Serve(old(State()), p, modified);
              && Values() == t.caches && memory.Contents() == t.memory
              && memory.counter == t.counter && memory.active == t.memoryActive
              && states[..] == t.states && inProgress == t.inProgress && offset == t.offset
              && firstShared == t.firstShared
    {
      hide CacheOf, Tsrams, Dsrams, Values, CacheUnit.Value, Receive, MemoryPacket, MemoryAfter;
      ghost var v := Values();
      var responded, q := memory.Transaction(p, modified);
      forall c: CoreId ensures Values()[c] == v[c] {
        assert CacheOf(c).dsram in Dsrams();
        assert CacheOf(c).Value() == old(CacheOf(c).Value());
      }
      if responded { Deliver(q); }
    }

    /** Bus_Iter from line 152. */
    method Transfer()
      requires Valid() && State().Wf() && inProgress
      modifies `offset, `inProgress, `firstShared, Tsrams(), Dsrams(), memory, memory.data, states
      ensures var t := BusModel.Transfer(old(State()));
              && Values() == t.caches && memory.Contents() == t.memory
              && memory.counter == t.counter && memory.active == t.memoryActive
              && states[..] == t.states && inProgress == t.inProgress && offset == t.offset
              && firstShared == t.firstShared
    {
      hide Fifo.Valid, Values, CacheOf, Tsrams, Dsrams, CacheUnit.Value, BusModel.Serve, MainMemory.Contents,
        SharedLine, ModifiedLine, PacketAfter, CachesAfter;
      ghost var s := State();
      assert s.current.origid < NUMBER_OF_CORES;
      var packet := current.(addr := WithOffset(current.addr, offset));
      var shared, modified := CheckSharedLine();
      packet := packet.(shared := shared);
      if modified && firstShared {
        firstShared := false;
        return;
      }
      assert packet == LinePacket(s);
      packet := CheckCacheSnooping(packet);
      assert State() == s.(caches := CachesAfter(s.caches, LinePacket(s), s.offset));
      Serve(packet, modified);
    }

    /** Bus_Iter. */
    method Iter()
      requires Valid() && State().Wf()
      modifies this, Tsrams(), Dsrams(), memory, memory.data, queue, queue.repr, states
      ensures Valid() && queue.repr == old(queue.repr)
      ensures State() == BusIter(old(State()))
    {
      hide Fifo.Valid, Values, CacheOf, Tsrams, Dsrams, CacheUnit.Value, MainMemory.Contents,
        Arbitrated, BusModel.Transfer;
      ghost var s := State();
      var running := Arbitrate();
      forall c: CoreId ensures Values()[c] == s.caches[c] {
        assert CacheOf(c).Value() == old(CacheOf(c).Value());
      }
      ArbitrationFrame(s);
      assert State() == Arbitrated(s);
      if running {
        TransferFrame(Arbitrated(s));
        Transfer();
      }
    }

    // ----- Cache_ReadData, Cache_WriteData -----------------------------------------------------------------

    /** dirty_block_handling. */
    method EvictDirty(c: CoreId, a: Address)
      requires Valid()
      modifies queue, queue.repr, states
      ensures Valid() && fresh(queue.repr - old(queue.repr))
      ensures var t := BusModel.EvictDirty(old(State()), c, a);
              queue.contents == t.queue && states[..] == t.states
    {
      hide Fifo.Valid, Tsrams, Dsrams, Values, CacheOf;
      var cache := CacheOf(c);
      var i := IndexOf(a);
      if cache.tsram[i].mesi == Modified {
        var packet := Packet(0, c, Flush, Location(cache.tsram[i].tag, i, 0), cache.dsram[i * BLOCK_SIZE + OffsetOf(a)], false);
        AddTransaction(packet);
      }
    }

    /** The end of a read or write miss: the dirty victim's write-back, then the request. */
    method Miss(c: CoreId, a: Address, cmd: Command)
      requires Valid()
      modifies queue, queue.repr, states
      ensures Valid() && fresh(queue.repr - old(queue.repr))
      ensures var t := BusModel.Miss(old(State()), c, a, cmd);
              queue.contents == t.queue && states[..] == t.states
      ensures EndsWith(queue.contents, [Packet(0, c, cmd, a, 0, false)])
    {
      hide Fifo.Valid, Shaped, Values, BusModel.EvictDirty;
      EvictDirty(c, a);
      AddTransaction(Request(c, cmd, a));
    }

    /** Cache_ReadData. */
    method ReadData(c: CoreId, a: Address) returns (hit: bool, data: Word)
      requires Valid()
      modifies queue, queue.repr, states
      ensures Valid() && fresh(queue.repr - old(queue.repr))
      ensures State() == BusModel.ReadData(old(State()), c, a)
      ensures var f := CacheOf(c).tsram[IndexOf(a)];
              hit <==> old(states[c]) == Idle && f.tag == TagOf(a) && f.mesi != Invalid
      ensures hit ==> data == CacheOf(c).dsram[IndexOf(a) * BLOCK_SIZE + OffsetOf(a)]
      ensures !hit && old(states[c]) == Idle ==>
                EndsWith(queue.contents, [Packet(0, c, BusRd, a, 0, false)])
      ensures hit == old(ReadHits(State(), c, a)) && (hit ==> data == old(ReadValue(State(), c, a)))
    {
      hide Fifo.Valid, Tsrams, Dsrams, Values, CacheOf, MainMemory.Contents, BusModel.Miss;
      data := 0;
      if states[c] != Idle { return false, data; }
      var cache := CacheOf(c);
      var i := IndexOf(a);
      if cache.tsram[i].tag == TagOf(a) && cache.tsram[i].mesi != Invalid {
        return true, cache.dsram[i * BLOCK_SIZE + OffsetOf(a)];
      }
      ghost var s := State();
      Miss(c, a, BusRd);
      MissFrame(s, c, a, BusRd);
      forall d: CoreId ensures Values()[d] == s.caches[d] {
        assert CacheOf(d).Value() == old(CacheOf(d).Value());
      }
      return false, data;
    }
    /** The Shared branch of Cache_WriteData: an upgrade and an invalid packet behind it. */
    method Upgrade(c: CoreId, a: Address)
      requires Valid()
      modifies queue, queue.repr, states
      ensures Valid() && fresh(queue.repr - old(queue.repr))
      ensures queue.contents == old(queue.contents) + [Request(c, BusRdX, a)] + [INVALID_PACKET]
      ensures EndsWith(queue.contents, [Packet(0, c, BusRdX, a, 0, false), Packet(0, 0xFFFF, NoCommand, 0, 0, false)])
      ensures states[..] == old(states[..])[c := Wait]
    {
      hide Fifo.Valid, Shaped;
      AddTransaction(Request(c, BusRdX, a));
      AddTransaction(INVALID_PACKET);
    }

    /** Lines 140-143 of Cache_WriteData: the word is stored and the frame becomes Modified. */
    method StoreHit(c: CoreId, a: Address, w: Word)
      requires Shaped()
      modifies Tsrams(), Dsrams()
      ensures Values() == old(Values())[c := StoreWord(old(Values())[c], a, w)]
      ensures CacheOf(c).dsram[IndexOf(a) * BLOCK_SIZE + OffsetOf(a)] == w
      ensures CacheOf(c).tsram[IndexOf(a)] == old(CacheOf(c).tsram[IndexOf(a)]).(mesi := Modified)
    {
      hide Tsrams, Dsrams, Values, CacheOf, CacheUnit.Value, StoreWord;
      ghost var v := Values();
      CacheOf(c).Store(a, w);
      forall d: CoreId ensures Values()[d] == if d == c then StoreWord(v[c], a, w) else v[d] {
        if d != c {
          assert CacheOf(d).tsram != CacheOf(c).tsram && CacheOf(d).dsram != CacheOf(c).dsram;
          assert CacheOf(d).Value() == old(CacheOf(d).Value());
        }
      }
    }

    /** The two kinds of write miss in Cache_WriteData: an upgrade, or a miss. */
    method WriteMiss(c: CoreId, a: Address, shared: bool)
      requires Valid()
      modifies queue, queue.repr, states
      ensures Valid() && fresh(queue.repr - old(queue.repr))
      ensures var s := old(State());
              var t := if shared then BusModel.Upgrade(s, c, a) else BusModel.Miss(s, c, a, BusRdX);
              State() == t
      ensures EndsWith(queue.contents, if shared then [Packet(0, c, BusRdX, a, 0, false), Packet(0, 0xFFFF, NoCommand, 0, 0, false)]
                                       else [Packet(0, c, BusRdX, a, 0, false)])
    {
      hide Fifo.Valid, Values, CacheOf, Tsrams, Dsrams, CacheUnit.Value, MainMemory.Contents, BusModel.Miss;
      ghost var s := State();
      if shared {
        Upgrade(c, a);
      } else {
        MissFrame(s, c, a, BusRdX);
        Miss(c, a, BusRdX);
      }
      forall d: CoreId ensures Values()[d] == s.caches[d] {
        assert CacheOf(d).Value() == old(CacheOf(d).Value());
      }
    }

    /** Cache_WriteData. */
    method WriteData(c: CoreId, a: Address, w: Word) returns (hit: bool)
      requires Valid()
      modifies queue, queue.repr, states, Tsrams(), Dsrams()
      ensures Valid() && fresh(queue.repr - old(queue.repr))
      ensures State() == BusModel.WriteData(old(State()), c, a, w)
      ensures var f := old(CacheOf(c).tsram[IndexOf(a)]);
              && (hit <==> old(states[c]) == Idle && f.tag == TagOf(a) && f.mesi in {Exclusive, Modified})
              && (old(states[c]) == Idle && !(f.tag == TagOf(a) && f.mesi != Invalid) ==>
                    EndsWith(queue.contents, [Packet(0, c, BusRdX, a, 0, false)]))
              && (old(states[c]) == Idle && f == Frame(TagOf(a), Shared) ==>
                    EndsWith(queue.contents, [Packet(0, c, BusRdX, a, 0, false), Packet(0, 0xFFFF, NoCommand, 0, 0, false)]))
      ensures hit ==> CacheOf(c).dsram[IndexOf(a) * BLOCK_SIZE + OffsetOf(a)] == w
      ensures hit ==> CacheOf(c).tsram[IndexOf(a)] == Frame(TagOf(a), Modified)
      ensures hit == old(WriteHits(State(), c, a))
    {
      hide Fifo.Valid, Tsrams, Dsrams, Values, CacheOf, MainMemory.Contents, BusModel.Miss, BusModel.Upgrade, StoreWord;
      if states[c] != Idle { return false; }
      var cache := CacheOf(c);
      var i := IndexOf(a);
      assert cache.Value() == State().caches[c];
      if cache.tsram[i].tag == TagOf(a) && cache.tsram[i].mesi != Invalid {
        if cache.tsram[i].mesi != Shared {
          StoreHit(c, a, w);
          return true;
        }
        WriteMiss(c, a, true);
      } else {
        WriteMiss(c, a, false);
      }
      return false;
    }
  }
}
