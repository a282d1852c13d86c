/** Writing all dirty lines back at the end (Cache_FlushToMemory): in any order it makes memory the flat memory. */
module FinalFlush {
  import opened Types
  import opened Addressing
  import opened CacheModel
  import opened BusModel
  import opened TransferEffect
  import opened Exclusion
  import opened Coherence

  /** Memory location `m` after `cache` has been flushed. */
  function FlushedWord(memory: Memory, cache: Cache, m: nat): Word
    requires m < MAIN_MEMORY_SIZE
  {
    if Owns(cache, TagOf(m), IndexOf(m)) then DataAt(cache, IndexOf(m), OffsetOf(m)) else memory[m]
  }

  function FlushCache(memory: Memory, cache: Cache): Memory {
    seq(MAIN_MEMORY_SIZE, m requires 0 <= m < MAIN_MEMORY_SIZE => FlushedWord(memory, cache, m))
  }

  /** The caches are flushed one after the other. */
  function FlushInOrder(memory: Memory, caches: Caches, order: seq<CoreId>): Memory
    decreases |order|
  {
    if order == [] then memory else FlushInOrder(FlushCache(memory, caches[order[0]]), caches, order[1..])
  }

  lemma {:induction false} FlushedAt(memory: Memory, s: System, order: seq<CoreId>, m: nat)
    requires Controlled(s) && m < MAIN_MEMORY_SIZE
    ensures var o := OwnerBut(s.caches, NUMBER_OF_CORES, TagOf(m), IndexOf(m));
            FlushInOrder(memory, s.caches, order)[m] ==
              if o.Some? && o.value in order then DataAt(s.caches[o.value], IndexOf(m), OffsetOf(m)) else memory[m]
    decreases |order|
  {
    if order != [] {
      var c := order[0];
      var next := FlushCache(memory, s.caches[c]);
      assert next[m] == FlushedWord(memory, s.caches[c], m);
      if Owns(s.caches[c], TagOf(m), IndexOf(m)) { OwnerIsShown(s, c, TagOf(m), IndexOf(m)); }
      FlushedAt(next, s, order[1..], m);
      assert order == [c] + order[1..];
    }
  }

  /** Flushing every cache, in whatever order and however often, turns main memory into the flat memory. */
  lemma FlushMakesFlatMemory(s: System, order: seq<CoreId>)
    requires Controlled(s) && forall c: CoreId :: c in order
    ensures FlushInOrder(s.memory, s.caches, order) == FlatMemory(s)
  {
    forall m | 0 <= m < MAIN_MEMORY_SIZE ensures FlushInOrder(s.memory, s.caches, order)[m] == FlatMemory(s)[m] {
      FlushedAt(s.memory, s, order, m);
      LocationOnto(m);
    }
  }

  /** Some cache owns location `m` with another word than main memory's. */
  predicate Dirty(s: System, m: nat)
    requires m < MAIN_MEMORY_SIZE
  {
    exists c: CoreId ::
      Owns(s.caches[c], TagOf(m), IndexOf(m)) && DataAt(s.caches[c], IndexOf(m), OffsetOf(m)) != s.memory[m]
  }

  /** Main memory as it is, with nothing flushed, has the flat memory's word exactly where no cache has a dirty one. */
  lemma DumpedWord(s: System, m: nat)
    requires Controlled(s) && m < MAIN_MEMORY_SIZE
    ensures s.memory[m] == FlatMemory(s)[m] <==> !Dirty(s, m)
  {
    hide Controlled, DataAt, TagOf, IndexOf, OffsetOf, Location;
    LocationOnto(m);
    var o := OwnerBut(s.caches, NUMBER_OF_CORES, TagOf(m), IndexOf(m));
    forall c: CoreId | Owns(s.caches[c], TagOf(m), IndexOf(m)) ensures o == Some(c) {
      OwnerIsShown(s, c, TagOf(m), IndexOf(m));
    }
  }

  /** The base address the code builds for a frame names the frame's own block, word by word. */
  lemma FlushAddresses(tag: Tag, frame: Index, offset: Offset)
    ensures var m := Location(tag, frame, 0) + offset;
            && m < MAIN_MEMORY_SIZE
            && m == Location(tag, frame, offset)
            && TagOf(m) == tag && IndexOf(m) == frame && OffsetOf(m) == offset
  {
    var m := Location(tag, frame, offset);
    LocationOnto(m);
    LocationInjective(tag, frame, offset, TagOf(m), IndexOf(m), OffsetOf(m));
  }
}
