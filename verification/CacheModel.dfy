/** One direct-mapped cache and its bus callbacks, as functions on values (Cache.c). */
module CacheModel {
  import opened Types
  import opened Addressing

  /** One line of TSRAM. */
  datatype Frame = Frame(tag: Tag, mesi: Mesi)

  datatype CacheData = CacheData(tsram: seq<Frame>, dsram: seq<Word>)

  type Cache = c: CacheData | |c.tsram| == FRAME_SIZE && |c.dsram| == CACHE_SIZE
    witness CacheData(seq(FRAME_SIZE, _ => Frame(0, Invalid)), seq(CACHE_SIZE, _ => 0))

  /** What the bus carries in one clock step (Bus.h). */
  datatype Packet = Packet(sender: nat, origid: nat, cmd: Command, addr: Address, data: Word, shared: bool)

  /** The word of frame `i` at offset `o`. */
  function DataAt(c: Cache, i: Index, o: Offset): Word { c.dsram[i * BLOCK_SIZE + o] }

  function StoreAt(c: Cache, i: Index, o: Offset, w: Word): (r: Cache)
    ensures r.tsram == c.tsram
    ensures forall i': Index, o': Offset :: DataAt(r, i', o') == if i' == i && o' == o then w else DataAt(c, i', o')
  {
    c.(dsram := c.dsram[i * BLOCK_SIZE + o := w])
  }

  function WithFrame(c: Cache, i: Index, f: Frame): (r: Cache)
    ensures r.dsram == c.dsram
    ensures forall i': Index :: r.tsram[i'] == if i' == i then f else c.tsram[i']
  {
    c.(tsram := c.tsram[i := f])
  }

  /** The cache holds a valid copy of block (t, i). */
  predicate Holds(c: Cache, t: Tag, i: Index) {
    c.tsram[i].tag == t && c.tsram[i].mesi != Invalid
  }

  predicate HoldsAddress(c: Cache, a: Address) { Holds(c, TagOf(a), IndexOf(a)) }

  /** The cache is the Modified owner of block (t, i). */
  predicate Owns(c: Cache, t: Tag, i: Index) { c.tsram[i] == Frame(t, Modified) }

  // ----- shared_signal_handle --------------------------------------------------------

  /** Whether cache `id` raises the shared line for packet `p`. */
  predicate RaisesShared(c: Cache, id: CoreId, p: Packet) {
    id != p.origid && HoldsAddress(c, p.addr)
  }

  /** Whether cache `id` raises the modified line: its tag is not looked at. */
  predicate RaisesModified(c: Cache, id: CoreId, p: Packet) {
    id != p.origid && c.tsram[IndexOf(p.addr)].mesi == Modified
  }

  // ----- cache_snooping_handle -------------------------------------------------------

  /** The four snooping state handlers: the next state of a matching frame. */
  function SnoopedMesi(m: Mesi, cmd: Command): Mesi {
    match m
    case Invalid => Invalid
    case Shared => if cmd.BusRdX? then Invalid else Shared
    case Exclusive => if cmd.BusRd? then Shared else if cmd.BusRdX? then Invalid else Exclusive
    case Modified => if cmd.BusRd? then Shared else if cmd.BusRdX? then Invalid else Modified
  }

  /** A requester does not snoop its own packet, unless an owner has turned it into a Flush. */
  predicate Snoops(c: Cache, id: CoreId, p: Packet) {
    !(id == p.sender && p.cmd != Flush) && HoldsAddress(c, p.addr)
  }

  /** The packet after cache `id` has snooped it. */
  function SnoopPacket(c: Cache, id: CoreId, p: Packet): Packet {
    if !Snoops(c, id, p) then p
    else
      var w := DataAt(c, IndexOf(p.addr), OffsetOf(p.addr));
      var sent := if id == p.sender && p.cmd == Flush then p.(data := w) else p;
      if c.tsram[IndexOf(p.addr)].mesi == Modified && sent.cmd != NoCommand
      then sent.(cmd := Flush, data := w, origid := id)
      else sent
  }

  /** The cache after it has snooped `p`; a Modified frame keeps its state up to the last word. */
  function SnoopCache(c: Cache, id: CoreId, p: Packet, offset: Offset): Cache {
    var i := IndexOf(p.addr);
    var f := c.tsram[i];
    if Snoops(c, id, p) && (offset == BLOCK_SIZE - 1 || f.mesi != Modified)
    then WithFrame(c, i, f.(mesi := SnoopedMesi(f.mesi, p.cmd)))
    else c
  }

  // ----- cache_response_handle -------------------------------------------------------

  predicate Accepts(id: CoreId, p: Packet) { id == p.sender && p.cmd == Flush }

  /** The requester takes one word; the last word also sets its state from the shared line. */
  function Receive(c: Cache, p: Packet, offset: Offset): Cache {
    var i := IndexOf(p.addr);
    var mesi := if offset == BLOCK_SIZE - 1 then (if p.shared then Shared else Exclusive) else c.tsram[i].mesi;
    StoreAt(WithFrame(c, i, Frame(TagOf(p.addr), mesi)), i, OffsetOf(p.addr), p.data)
  }
}
