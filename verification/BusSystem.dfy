/**
  The caches, the main memory and the bus as objects updated in place. Every method is proved to
  take the state to the one that the functions of BusModel and CacheModel give.
 */
module BusSystem {
  import opened Types
  import opened Addressing
  import opened CacheModel
  import opened BusModel
  import opened BusFifo
  import opened FinalFlush
  import opened SharedMemory

  // ----- MainMemory.c ----------------------------------------------------------------------------------

  class MainMemory {
    const data: array<Word>     // gMemory
    var counter: nat
    var active: bool            // gMemoryTransaction

    ghost predicate Valid() { data.Length == MAIN_MEMORY_SIZE }

    ghost function Contents(): Memory
      requires Valid()
      reads data
    {
      data[..]
    }

    /** MainMemory_Init, with the words that the input file supplies. */
    constructor (image: seq<Word>)
      requires |image| <= MAIN_MEMORY_SIZE
      ensures Valid() && fresh(data) && counter == 0 && !active
      ensures forall m :: 0 <= m < MAIN_MEMORY_SIZE ==> data[m] == if m < |image| then image[m] else 0
    {
      data := new Word[MAIN_MEMORY_SIZE](m requires 0 <= m => if m < |image| then image[m] else 0);
      counter, active := 0, false;
    }

    /** MainMemory_DirectWrite. */
    method DirectWrite(address: Address, w: Word)
      requires Valid()
      modifies data
      ensures Contents() == if address < MAIN_MEMORY_SIZE then old(Contents())[address := w] else old(Contents())
    {
      if address < MAIN_MEMORY_SIZE { data[address] := w; }
    }

    /** process_memory_word. */
    method ProcessWord(p: Packet) returns (q: Packet)
      requires Valid()
      modifies data
      ensures q == MemoryPacket(old(Contents()), p) && Contents() == MemoryAfter(old(Contents()), p)
    {
      var a := MemoryAddress(p.addr);
      q := p;
      if p.cmd == BusRd || p.cmd == BusRdX {
        q := p.(origid := BUS_MAIN_MEMORY, cmd := Flush, data := data[a]);
      } else if p.cmd == Flush {
        data[a] := p.data;
      }
    }

    /** bus_transaction_handler. */
    method Transaction(p: Packet, direct: bool) returns (responded: bool, q: Packet)
      requires Valid()
      modifies this, data
      ensures p.cmd == NoCommand ==>
                !responded && q == p && counter == old(counter) && active == old(active) && Contents() == old(Contents())
      ensures p.cmd != NoCommand ==>
                var count := MemoryCount(old(counter), old(active), direct);
                && counter == count + 1 && active == (count != LAST_COUNT) && responded == (count >= DIRECT_COUNT)
                && q == (if responded then MemoryPacket(old(Contents()), p) else p)
                && Contents() == if responded then MemoryAfter(old(Contents()), p) else old(Contents())
    {
      q := p;
      if p.cmd == NoCommand { return false, q; }
      if !active {
        active := true;
        counter := if !direct then 0 else DIRECT_COUNT;
      }
      if counter >= DIRECT_COUNT {
        q := ProcessWord(p);
        active := counter != LAST_COUNT;
        counter := counter + 1;
        return true, q;
      }
      counter := counter + 1;
      return false, q;
    }
  }

  // ----- Cache.c ---------------------------------------------------------------------------------------

  class CacheUnit {
    const id: CoreId
    const tsram: array<Frame>
    const dsram: array<Word>

    ghost predicate Valid() { tsram.Length == FRAME_SIZE && dsram.Length == CACHE_SIZE }

    ghost function Value(): Cache
      requires Valid()
      reads tsram, dsram
    {
      CacheData(tsram[..], dsram[..])
    }

    /** Cache_Init. */
    constructor (id: CoreId)
      ensures Valid() && fresh(tsram) && fresh(dsram) && this.id == id
      ensures Value() == EmptyCache()
    {
      this.id := id;
      tsram := new Frame[FRAME_SIZE](_ => Frame(0, Invalid));
      dsram := new Word[CACHE_SIZE](_ => 0);
    }

    /** shared_signal_handle. */
    method SharedSignal(p: Packet, modified: bool) returns (shared: bool, modifiedLine: bool)
      requires Valid()
      ensures shared == RaisesShared(Value(), id, p)
      ensures modifiedLine == (modified || RaisesModified(Value(), id, p))
      ensures id == p.origid ==> !shared && modifiedLine == modified
      ensures var f := tsram[IndexOf(p.addr)];
              id != p.origid ==>
                && (shared <==> f.tag == TagOf(p.addr) && f.mesi != Invalid)
                && (modifiedLine <==> modified || f.mesi == Modified)
    {
      if id == p.origid { return false, modified; }
      var f := tsram[IndexOf(p.addr)];
      return f.tag == TagOf(p.addr) && f.mesi != Invalid, modified || f.mesi == Modified;
    }

    /** mesi_snooping_modified_state, as far as the packet is concerned. */
    method FlushWord(p: Packet) returns (q: Packet)
      requires Valid()
      ensures q == if p.cmd == NoCommand then p
                   else p.(cmd := Flush, data := DataAt(Value(), IndexOf(p.addr), OffsetOf(p.addr)), origid := id)
    {
      q := p;
      if p.cmd != NoCommand {
        q := p.(cmd := Flush, data := dsram[IndexOf(p.addr) * BLOCK_SIZE + OffsetOf(p.addr)], origid := id);
      }
    }

    /** cache_snooping_handle. */
    method Snoop(p: Packet, offset: Offset) returns (q: Packet)
      requires Valid()
      modifies tsram
      ensures q == SnoopPacket(old(Value()), id, p)
      ensures Value() == SnoopCache(old(Value()), id, p, offset)
    {
      q := p;
      if id == p.sender && p.cmd != Flush { return; }
      var i := IndexOf(p.addr);
      var f := tsram[i];
      if f.tag != TagOf(p.addr) || f.mesi == Invalid { return; }
      if id == p.sender && p.cmd == Flush {
        q := q.(data := dsram[i * BLOCK_SIZE + OffsetOf(p.addr)]);
      }
      if f.mesi == Modified { q := FlushWord(q); }
      if offset == BLOCK_SIZE - 1 || f.mesi != Modified {
        tsram[i] := f.(mesi := SnoopedMesi(f.mesi, p.cmd));
      }
    }

    /** cache_response_handle. */
    method Respond(p: Packet, offset: Offset) returns (complete: bool, nextOffset: Offset)
      requires Valid()
      modifies tsram, dsram
      ensures Value() == if Accepts(id, p) then Receive(old(Value()), p, offset) else old(Value())
      ensures complete == (Accepts(id, p) && offset == BLOCK_SIZE - 1)
      ensures nextOffset == if Accepts(id, p) && !complete then offset + 1 else offset
    {
      if id != p.sender || p.cmd != Flush { return false, offset; }
      var i := IndexOf(p.addr);
      tsram[i] := tsram[i].(tag := TagOf(p.addr));
      dsram[i * BLOCK_SIZE + OffsetOf(p.addr)] := p.data;
      if offset == BLOCK_SIZE - 1 {
        tsram[i] := tsram[i].(mesi := if p.shared then Shared else Exclusive);
        return true, offset;
      }
      return false, offset + 1;
    }

    /** The write hit of Cache_WriteData. */
    method Store(a: Address, w: Word)
      requires Valid()
      modifies tsram, dsram
      ensures Value() == StoreWord(old(Value()), a, w)
      ensures dsram[IndexOf(a) * BLOCK_SIZE + OffsetOf(a)] == w
      ensures tsram[IndexOf(a)] == old(tsram[IndexOf(a)]).(mesi := Modified)
    {
      var i := IndexOf(a);
      dsram[i * BLOCK_SIZE + OffsetOf(a)] := w;
      tsram[i] := tsram[i].(mesi := Modified);
    }

    /** Cache_FlushToMemory. */
    method FlushToMemory(memory: MainMemory)
      requires Valid() && memory.Valid() && dsram != memory.data
      modifies memory.data
      ensures memory.Contents() == FlushCache(old(memory.Contents()), Value())
    {
      ghost var before := memory.Contents();
      for frame := 0 to FRAME_SIZE
        invariant forall m :: 0 <= m < MAIN_MEMORY_SIZE ==>
                    memory.data[m] == if IndexOf(m) < frame then FlushedWord(before, Value(), m) else before[m]
      {
        if tsram[frame].mesi == Modified {
          FlushFrame(memory, frame, before);
        }
      }
    }

    /** The eight words of one dirty frame. */
    method FlushFrame(memory: MainMemory, frame: Index, ghost before: Memory)
      requires Valid() && memory.Valid() && dsram != memory.data && tsram[frame].mesi == Modified
      requires forall m :: 0 <= m < MAIN_MEMORY_SIZE ==>
                 memory.data[m] == if IndexOf(m) < frame then FlushedWord(before, Value(), m) else before[m]
      modifies memory.data
      ensures forall m :: 0 <= m < MAIN_MEMORY_SIZE ==>
                memory.data[m] == if IndexOf(m) < frame + 1 then FlushedWord(before, Value(), m) else before[m]
    {
      var tag := tsram[frame].tag;
      var baseAddress := Location(tag, frame, 0);
      for offset := 0 to BLOCK_SIZE
        invariant forall m :: 0 <= m < MAIN_MEMORY_SIZE ==>
                    memory.data[m] ==
                      if IndexOf(m) < frame || (IndexOf(m) == frame && TagOf(m) == tag && OffsetOf(m) < offset)
                      then FlushedWord(before, Value(), m) else before[m]
      {
        FlushAddresses(tag, frame, offset);
        label write:
        memory.DirectWrite(baseAddress + offset, dsram[frame * BLOCK_SIZE + offset]);
        forall m | 0 <= m < MAIN_MEMORY_SIZE && IndexOf(m) == frame && TagOf(m) == tag && OffsetOf(m) == offset
          ensures m == baseAddress + offset
        {
          LocationOnto(m);
        }
      }
    }
  }
}
