/** Constants, words, and the values that cross the bus (Bus.h, Cache.h, Helpers.h). */
module Types {
  const NUMBER_OF_CORES := 4
  const BUS_MAIN_MEMORY := 4
  const BUS_INVALID_ORIGINATOR := 0xFFFF

  /** A 32-bit unsigned word. */
  type Word = w: nat | w < 0x1_0000_0000
  type CoreId = c: nat | c < NUMBER_OF_CORES

  datatype Option<+T> = None | Some(value: T)

  datatype Mesi = Invalid | Shared | Exclusive | Modified

  datatype Command = NoCommand | BusRd | BusRdX | Flush {
    /** A request that fills a frame of its sender. */
    predicate IsFill() { BusRd? || BusRdX? }
  }

  datatype TransactionState = Idle | Wait | Operation | Finally
}

/**
  A data address is a 32-bit word. The cache reads it as offset:3, index:6, tag:12 (low bits
  first) and ignores the bits above; memory masks it to 21 bits.
 */
module Addressing {
  const BLOCK_SIZE := 8
  const FRAME_SIZE := 64
  const CACHE_SIZE := 512
  const MAIN_MEMORY_SIZE := 0x20_0000

  type Address = a: nat | a < 0x1_0000_0000
  type Tag = t: nat | t < 4096
  type Index = i: nat | i < FRAME_SIZE
  type Offset = o: nat | o < BLOCK_SIZE

  function TagOf(a: Address): Tag { a / 8 / 64 % 4096 }

  function IndexOf(a: Address): Index { a / 8 % 64 }

  function OffsetOf(a: Address): Offset { a % 8 }

  /** The memory location `tag << 9 | index << 3 | offset`. */
  function Location(t: Tag, i: Index, o: Offset): (m: nat)
    ensures m < MAIN_MEMORY_SIZE
  {
    t * 512 + i * 8 + o
  }

  /** The three fields make up the low 21 bits of an address. */
  lemma LowBits(a: Address)
    ensures a % MAIN_MEMORY_SIZE == Location(TagOf(a), IndexOf(a), OffsetOf(a))
  {
    var block := a / 8;
    var high := block / 64;
    var h := high / 4096;
    assert high == 4096 * h + TagOf(a);
    assert block == 64 * high + IndexOf(a);
    assert a == MAIN_MEMORY_SIZE * h + Location(TagOf(a), IndexOf(a), OffsetOf(a));
    Remainder(a, h, Location(TagOf(a), IndexOf(a), OffsetOf(a)));
  }

  lemma Remainder(a: nat, h: nat, m: nat)
    requires a == MAIN_MEMORY_SIZE * h + m && m < MAIN_MEMORY_SIZE
    ensures a % MAIN_MEMORY_SIZE == m
  {
  }

  /** The address masked to the 21 bits of main memory. */
  function MemoryAddress(a: Address): (m: nat)
    ensures m < MAIN_MEMORY_SIZE
    ensures m == Location(TagOf(a), IndexOf(a), OffsetOf(a))
  {
    LowBits(a);
    a % MAIN_MEMORY_SIZE
  }

  /** Replacing the low three bits keeps the block and selects one of its words. */
  function WithOffset(a: Address, o: Offset): (r: Address)
    ensures TagOf(r) == TagOf(a) && IndexOf(r) == IndexOf(a) && OffsetOf(r) == o
  {
    a - a % 8 + o
  }

  /** The three fields are recovered from a location: no two words of memory share one. */
  lemma LocationInjective(t: Tag, i: Index, o: Offset, t': Tag, i': Index, o': Offset)
    requires Location(t, i, o) == Location(t', i', o')
    ensures t == t' && i == i' && o == o'
  {
  }

  /** Eight words on is the next frame, 512 words on the next block of the same frame; block 0 is the first. */
  lemma FieldsAdvance(a: Address)
    ensures a < 8 ==> TagOf(a) == 0 && IndexOf(a) == 0 && OffsetOf(a) == a
    ensures a + 8 < 0x1_0000_0000 ==> OffsetOf(a + 8) == OffsetOf(a) && IndexOf(a + 8) == (IndexOf(a) + 1) % FRAME_SIZE
    ensures a + 512 < 0x1_0000_0000 ==>
              OffsetOf(a + 512) == OffsetOf(a) && IndexOf(a + 512) == IndexOf(a) && TagOf(a + 512) == (TagOf(a) + 1) % 4096
  {
    assert (a + 8) / 8 == a / 8 + 1 && (a + 512) / 8 == a / 8 + 64;
    assert (a / 8 + 64) / 64 == a / 8 / 64 + 1;
  }

  /** Every location is the location of its own fields. */
  lemma LocationOnto(m: nat)
    requires m < MAIN_MEMORY_SIZE
    ensures m == Location(TagOf(m), IndexOf(m), OffsetOf(m))
  {
    assert m == MemoryAddress(m);
  }
}
