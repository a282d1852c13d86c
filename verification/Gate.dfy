/**
  The request gate: which packets a core may own, in what shape, and in which transaction state.
  All of it is said of one list, the running packet followed by the queue.
 */
module Gate {
  import opened Types
  import opened Addressing
  import opened CacheModel
  import opened BusModel
  import opened TransferEffect

  /** The running packet, if any, followed by the waiting ones. */
  function Line(s: System): seq<Packet> { (if s.inProgress then [s.current] else []) + s.queue }

  /** Core `c` owns a packet of the list. */
  ghost predicate Owed(e: seq<Packet>, c: CoreId) { exists k :: 0 <= k < |e| && e[k].origid == c }

  /** A write-back is directly followed by the fill of the same frame by the same core. */
  predicate FlushFollowed(e: seq<Packet>, k: nat)
    requires k < |e|
  {
    e[k].cmd.Flush? ==>
      && k + 1 < |e| && e[k + 1].origid == e[k].origid && e[k + 1].cmd.IsFill()
      && IndexOf(e[k + 1].addr) == IndexOf(e[k].addr)
  }

  /** Two packets of one core are neighbours, a write-back and its fill. */
  predicate Neighbours(e: seq<Packet>, j: nat, k: nat)
    requires j < k < |e|
  {
    e[j].origid == e[k].origid && e[k].origid < NUMBER_OF_CORES ==> k == j + 1 && e[j].cmd.Flush?
  }

  /** The packet that names nobody follows a BusRdX, one that needed no write-back. */
  predicate InvalidAfterRdX(e: seq<Packet>, k: nat)
    requires k < |e|
  {
    k > 0 && e[k].origid >= NUMBER_OF_CORES ==> e[k - 1].cmd.BusRdX? && (k > 1 ==> !e[k - 2].cmd.Flush?)
  }

  ghost predicate Shape(e: seq<Packet>) {
    && (forall k :: 0 <= k < |e| ==> FlushFollowed(e, k))
    && (forall j, k :: 0 <= j < k < |e| ==> Neighbours(e, j, k))
    && (forall k :: 0 <= k < |e| ==> InvalidAfterRdX(e, k))
  }

  /** What the transaction state of a core says about its packets. */
  ghost predicate StateAgrees(s: System, c: CoreId) {
    match s.states[c]
    case Idle => !Owed(Line(s), c)
    case Wait => Owed(Line(s), c) && !(s.inProgress && s.current.origid == c)
    case Operation => s.inProgress && s.current.origid == c
    case Finally =>
      && !s.inProgress && s.current.origid == c
      && if s.current.cmd.Flush? then s.queue != [] && s.queue[0].origid == c && s.queue[0].cmd.IsFill()
         else !Owed(s.queue, c)
  }

  /**
    A fill of a dirty frame has the write-back of that frame directly ahead, and a write-back
    names the block that its frame still carries.
   */
  predicate PacketAgrees(caches: Caches, ahead: Option<Packet>, p: Packet) {
    p.origid < NUMBER_OF_CORES ==>
      var f := caches[p.origid].tsram[IndexOf(p.addr)];
      && (p.cmd.IsFill() && f.mesi == Modified ==> ahead.Some? && ahead.value.origid == p.origid && ahead.value.cmd.Flush?)
      && (p.cmd.Flush? ==> f.tag == TagOf(p.addr))
  }

  predicate FrameAgrees(s: System, e: seq<Packet>, k: nat)
    requires k < |e|
  {
    PacketAgrees(s.caches, if k > 0 then Some(e[k - 1]) else None, e[k])
  }

  /** An invalid packet at the head belongs to an upgrade that has just ended. */
  predicate HeadAgrees(s: System) {
    !s.inProgress && s.queue != [] && s.queue[0].origid >= NUMBER_OF_CORES ==>
      s.current.origid < NUMBER_OF_CORES && s.states[s.current.origid] == Finally && s.current.cmd.BusRdX?
  }

  ghost predicate Gated(s: System) {
    var e := Line(s);
    && s.Wf()
    && Shape(e)
    && (forall c: CoreId :: StateAgrees(s, c))
    && (forall k :: 0 <= k < |e| ==> FrameAgrees(s, e, k))
    && HeadAgrees(s)
  }

  /** Bus and memory advance together: the word offset is the counter less the latency. */
  predicate LockStep(s: System) {
    if !s.inProgress then !s.memoryActive
    else if s.memoryActive then
      s.counter <= LAST_COUNT && s.offset == if s.counter >= DIRECT_COUNT then s.counter - DIRECT_COUNT else 0
    else s.offset == 0
  }

  /** The gate in plain words: what the transaction states say. */
  lemma StatesMean(s: System)
    requires Gated(s)
    ensures forall c: CoreId :: s.states[c] == Idle ==> !Owed(Line(s), c)
    ensures forall c: CoreId, d: CoreId ::
              s.states[c] in {Operation, Finally} && s.states[d] in {Operation, Finally} ==> c == d
  {
    hide Shape, FrameAgrees, HeadAgrees;
    forall c: CoreId
      ensures s.states[c] == Idle ==> !Owed(Line(s), c)
      ensures s.states[c] in {Operation, Finally} ==> s.current.origid == c
    {
      assert StateAgrees(s, c);
    }
  }

  /** The gate in plain words: the shapes in which packets are queued. */
  lemma ShapeMeans(s: System)
    requires Gated(s)
    ensures var e := Line(s);
            && (forall j, k :: 0 <= j < k < |e| && e[j].origid == e[k].origid && e[k].origid < NUMBER_OF_CORES ==>
                  k == j + 1 && e[j].cmd.Flush? && e[k].cmd.IsFill())
            && (forall k :: 0 <= k < |e| && e[k].cmd.Flush? ==>
                  k + 1 < |e| && e[k + 1].cmd.IsFill() && e[k + 1].origid == e[k].origid
                  && IndexOf(e[k + 1].addr) == IndexOf(e[k].addr))
            && (forall k :: 0 < k < |e| && e[k].origid >= NUMBER_OF_CORES ==>
                  e[k].cmd.NoCommand? && e[k - 1].cmd.BusRdX? && e[k - 1].origid < NUMBER_OF_CORES)
  {
    hide StateAgrees, FrameAgrees, HeadAgrees, IndexOf, Line;
    var e := Line(s);
    forall j, k | 0 <= j < k < |e| && e[j].origid == e[k].origid && e[k].origid < NUMBER_OF_CORES
      ensures k == j + 1 && e[j].cmd.Flush? && e[k].cmd.IsFill()
    {
      assert Neighbours(e, j, k) && FlushFollowed(e, j);
    }
    forall k | 0 <= k < |e| && e[k].cmd.Flush?
      ensures k + 1 < |e| && e[k + 1].cmd.IsFill() && e[k + 1].origid == e[k].origid
      ensures IndexOf(e[k + 1].addr) == IndexOf(e[k].addr)
    {
      assert FlushFollowed(e, k);
    }
    forall k | 0 < k < |e| && e[k].origid >= NUMBER_OF_CORES
      ensures e[k].cmd.NoCommand? && e[k - 1].cmd.BusRdX? && e[k - 1].origid < NUMBER_OF_CORES
    {
      assert InvalidAfterRdX(e, k);
      LinePacketWf(s, k);
      LinePacketWf(s, k - 1);
    }
  }

  lemma LinePacketWf(s: System, k: nat)
    requires s.Wf() && k < |Line(s)|
    ensures var p := Line(s)[k];
            if p.origid < NUMBER_OF_CORES then p.cmd != NoCommand else p.cmd == NoCommand
  {
    assert Line(s)[k] == s.current || Line(s)[k] in s.queue;
  }

  // ----- the list operations -----------------------------------------------------------------

  lemma ShapeTail(e: seq<Packet>)
    requires e != [] && Shape(e)
    ensures Shape(e[1..])
  {
    var f := e[1..];
    forall k | 0 <= k < |f| ensures FlushFollowed(f, k) && InvalidAfterRdX(f, k) {
      assert FlushFollowed(e, k + 1) && InvalidAfterRdX(e, k + 1);
    }
    forall j, k | 0 <= j < k < |f| ensures Neighbours(f, j, k) {
      assert Neighbours(e, j + 1, k + 1);
    }
  }

  /** A core without packets may append a fill, or a write-back and its fill, or an upgrade and an invalid packet. */
  predicate MayAppend(g: seq<Packet>, c: CoreId) {
    || (|g| == 1 && g[0].origid == c && g[0].cmd.IsFill())
    || (|g| == 2 && g[0].origid == c && g[0].cmd.Flush? && g[1].origid == c && g[1].cmd.IsFill()
        && IndexOf(g[0].addr) == IndexOf(g[1].addr))
    || (|g| == 2 && g[0].origid == c && g[0].cmd.BusRdX? && g[1] == INVALID_PACKET)
  }

  lemma ShapeAppend(e: seq<Packet>, g: seq<Packet>, c: CoreId)
    requires Shape(e) && MayAppend(g, c) && !Owed(e, c)
    ensures Shape(e + g)
  {
    var f := e + g;
    forall k | 0 <= k < |f| ensures FlushFollowed(f, k) && InvalidAfterRdX(f, k) {
      if k < |e| { assert FlushFollowed(e, k) && InvalidAfterRdX(e, k); }
      if e != [] { assert FlushFollowed(e, |e| - 1); }
    }
    forall j, k | 0 <= j < k < |f| ensures Neighbours(f, j, k) {
      if k < |e| { assert Neighbours(e, j, k); }
    }
  }

  // ----- clock steps -----------------------------------------------------------------------------

  lemma WordStepKeepsLockStep(s: System, s': System)
    requires s.Wf() && s.inProgress && LockStep(s) && IsControlStep(s, s')
    ensures LockStep(s')
    ensures Completes(s) <==> MemoryCount(s.counter, s.memoryActive, ModifiedLine(s.caches, s.current)) == LAST_COUNT
  {
  }

  /** No step makes a frame Modified, and only the requester's frame can get a new tag. */
  predicate FrameEvolves(s: System, s': System, ends: bool, c: CoreId, i: Index) {
    var f, f' := s.caches[c].tsram[i], s'.caches[c].tsram[i];
    var target := c == s.current.origid && i == BlockIndex(s);
    && (f'.mesi == Modified ==> f.mesi == Modified && !(ends && target))
    && (f'.tag == f.tag || (target && f'.tag == BlockTag(s)))
  }

  /** What a step that is not a bubble does to the registers and the frames, whoever owns the block. */
  ghost predicate Evolves(s: System, s': System) {
    IsControlStep(s, s') && forall c: CoreId, i: Index :: FrameEvolves(s, s', Completes(s), c, i)
  }

  lemma WordStepEvolves(s: System, s': System)
    requires s.Wf() && s.inProgress && IsWordStep(s, s')
    ensures Evolves(s, s')
  {
    forall c: CoreId, i: Index ensures FrameEvolves(s, s', Completes(s), c, i) {
      assert s'.caches[c] == CacheAfterStep(s, c);
    }
  }

  /** Every step of a running transaction that is not a bubble evolves the system, even if two caches own the block. */
  lemma TransferEvolves(s: System)
    requires s.Wf() && s.inProgress && !Bubble(s)
    ensures Evolves(s, Transfer(s))
  {
    hide PacketAfter, SharedLine, ModifiedLine, MemoryAfter, MemoryCount, SnoopCache, Receive;
    var p := PacketAfter(s.caches, LinePacket(s), NUMBER_OF_CORES);
    PacketFrame(s.caches, LinePacket(s), NUMBER_OF_CORES);
    TransferUnfolded(s, CachesAfter(s.caches, LinePacket(s), s.offset), p, MemoryPacket(s.memory, p));
    forall c: CoreId, i: Index ensures FrameEvolves(s, Transfer(s), Completes(s), c, i) {
      PacketFrame(s.caches, LinePacket(s), c);
      TransferFrame(s, MemoryPacket(s.memory, p), PacketAfter(s.caches, LinePacket(s), c), c, i);
    }
  }

  /** A frame after the snoop, and after the answer if the cache is the requester's. */
  lemma TransferFrame(s: System, q: Packet, p: Packet, c: CoreId, i: Index)
    requires s.Wf() && s.inProgress
    requires p.addr == LinePacket(s).addr && q.addr == LinePacket(s).addr && p.sender == s.current.sender
    requires p.cmd == s.current.cmd || p.cmd.Flush?
    ensures var f := s.caches[c].tsram[i];
            var snooped := SnoopCache(s.caches[c], c, p, s.offset);
            && (snooped.tsram[i].mesi == Modified ==> f.mesi == Modified) && snooped.tsram[i].tag == f.tag
            && var g := Receive(snooped, q, s.offset).tsram[i];
               && (g.mesi == Modified ==> f.mesi == Modified && !(s.offset == BLOCK_SIZE - 1 && i == BlockIndex(s)))
               && (g.tag == f.tag || (i == BlockIndex(s) && g.tag == BlockTag(s)))
  {
  }

  /** The list after a step: a completed transaction leaves it. */
  lemma FinishedLine(s: System, s': System, ends: bool)
    requires s.Wf() && s.inProgress && Finishes(s, s', ends)
    ensures Line(s') == if ends then Line(s)[1..] else Line(s)
    ensures Line(s)[0] == s.current
  {
  }

  lemma FinishKeepsState(s: System, s': System, ends: bool, c: CoreId)
    requires s.Wf() && Shape(Line(s)) && StateAgrees(s, c) && s.inProgress && Finishes(s, s', ends)
    ensures StateAgrees(s', c)
  {
    var e := Line(s);
    FinishedLine(s, s', ends);
    if ends {
      assert FlushFollowed(e, 0);
      if c != s.current.origid { OwedTail(e, c); } else { OnlyHead(e, c); }
    }
  }

  /** One packet behind, or at, the head of the list. */
  lemma FinishKeepsPacket(s: System, s': System, ends: bool, ahead: Option<Packet>, p: Packet)
    requires PacketAgrees(s.caches, ahead, p)
    requires p.origid < NUMBER_OF_CORES ==> FrameEvolves(s, s', ends, p.origid, IndexOf(p.addr))
    requires p.origid == s.current.origid ==>
               || (!ends && p == s.current)
               || (p.cmd.IsFill() && IndexOf(p.addr) == BlockIndex(s))
    ensures PacketAgrees(s'.caches, ahead, p)
    ensures ends && ahead == Some(s.current) ==> PacketAgrees(s'.caches, None, p)
  {
  }

  /** The only other packet of the head's core is the fill behind its write-back. */
  lemma PacketsOfHead(e: seq<Packet>, k: nat)
    requires Shape(e) && 0 < k < |e| && e[k].origid == e[0].origid && e[0].origid < NUMBER_OF_CORES
    ensures k == 1 && e[k].cmd.IsFill() && IndexOf(e[k].addr) == IndexOf(e[0].addr)
  {
    assert Neighbours(e, 0, k) && FlushFollowed(e, 0);
  }

  lemma FinishKeepsFrames(s: System, s': System, ends: bool, e: seq<Packet>, k: nat)
    requires s.inProgress && Shape(e) && k < |e| && e[0] == s.current && s.current.origid < NUMBER_OF_CORES
    requires e[k].origid < NUMBER_OF_CORES ==> FrameEvolves(s, s', ends, e[k].origid, IndexOf(e[k].addr))
    requires FrameAgrees(s, e, k)
    ensures !ends ==> FrameAgrees(s', e, k)
    ensures ends && k > 0 ==> FrameAgrees(s', e[1..], k - 1)
  {
    if k > 0 {
      if e[k].origid == s.current.origid { PacketsOfHead(e, k); }
      FinishKeepsPacket(s, s', ends, Some(e[k - 1]), e[k]);
      assert e[1..][k - 1] == e[k];
      if k > 1 { assert e[1..][k - 2] == e[k - 1]; }
    } else if !ends {
      FinishKeepsPacket(s, s', ends, None, e[k]);
    }
  }

  lemma FinishKeepsLine(s: System, s': System, ends: bool)
    requires Gated(s) && s.inProgress && Finishes(s, s', ends)
    ensures s'.Wf() && Shape(Line(s')) && HeadAgrees(s')
    ensures forall c: CoreId :: StateAgrees(s', c)
  {
    var e := Line(s);
    FinishedLine(s, s', ends);
    if ends {
      ShapeTail(e);
      if |e| > 1 { assert InvalidAfterRdX(e, 1); }
    }
    forall c: CoreId ensures StateAgrees(s', c) {
      assert StateAgrees(s, c);
      FinishKeepsState(s, s', ends, c);
    }
  }

  lemma WordStepKeepsGate(s: System, s': System)
    requires Gated(s) && s.inProgress && Evolves(s, s')
    ensures Gated(s')
  {
    hide MemoryCount, Responds, ModifiedLine, FrameAgrees, Shape, HeadAgrees, StateAgrees, FrameEvolves, IndexOf, TagOf;
    var e, ends := Line(s), Completes(s);
    FinishKeepsLine(s, s', ends);
    FinishedLine(s, s', ends);
    forall k | 0 <= k < |Line(s')| ensures FrameAgrees(s', Line(s'), k) {
      var k0 := if ends then k + 1 else k;
      assert FrameAgrees(s, e, k0);
      if e[k0].origid < NUMBER_OF_CORES { assert FrameEvolves(s, s', ends, e[k0].origid, IndexOf(e[k0].addr)); }
      FinishKeepsFrames(s, s', ends, e, k0);
    }
  }

  /** Dropping the head leaves the packets of every other core. */
  lemma OwedTail(e: seq<Packet>, c: CoreId)
    requires e != [] && e[0].origid != c
    ensures Owed(e[1..], c) <==> Owed(e, c)
  {
    if Owed(e, c) {
      var k :| 0 <= k < |e| && e[k].origid == c;
      assert e[1..][k - 1].origid == c;
    }
  }

  /** If the head is not a write-back, its core owns nothing else. */
  lemma OnlyHead(e: seq<Packet>, c: CoreId)
    requires e != [] && Shape(e) && e[0].origid == c
    ensures Owed(e[1..], c) ==> e[0].cmd.Flush?
  {
    if Owed(e[1..], c) {
      var k :| 0 <= k < |e[1..]| && e[1..][k].origid == c;
      assert Neighbours(e, 0, k + 1);
    }
  }

  /** Naming the sender of the head changes nothing that the gate looks at. */
  lemma RenamedHead(e: seq<Packet>, p: Packet)
    requires e != [] && p.origid == e[0].origid && p.cmd == e[0].cmd && p.addr == e[0].addr
    ensures Shape(e) ==> Shape([p] + e[1..])
    ensures forall c: CoreId :: Owed([p] + e[1..], c) <==> Owed(e, c)
  {
    var f := [p] + e[1..];
    assert forall k :: 0 <= k < |e| ==> f[k].origid == e[k].origid && f[k].cmd == e[k].cmd && f[k].addr == e[k].addr;
    if Shape(e) {
      assert forall k :: 0 <= k < |e| ==> FlushFollowed(e, k) ==> FlushFollowed(f, k);
      assert forall j, k :: 0 <= j < k < |e| ==> Neighbours(e, j, k) ==> Neighbours(f, j, k);
      assert forall k :: 0 <= k < |e| ==> InvalidAfterRdX(e, k) ==> InvalidAfterRdX(f, k);
    }
    forall c: CoreId ensures Owed(f, c) <==> Owed(e, c) {
      if Owed(e, c) {
        var k :| 0 <= k < |e| && e[k].origid == c;
        assert f[k].origid == c;
      }
      if Owed(f, c) {
        var k :| 0 <= k < |f| && f[k].origid == c;
        assert e[k].origid == c;
      }
    }
  }

  /** A core that has just been released has nothing in the queue but, after a write-back, its head. */
  lemma ReleasedState(s: System, c: CoreId)
    requires Gated(s) && !s.inProgress
    ensures Release(s).states[c] == if s.states[c] == Finally then Idle else s.states[c]
    ensures Release(s) == s.(states := Release(s).states)
    ensures s.states[c] != Operation
    ensures s.states[c] == Wait <==> Owed(s.queue, c) && s.states[c] != Finally
    ensures s.states[c] == Finally && Owed(s.queue, c) ==> s.queue != [] && s.queue[0].origid == c
  {
    assert Line(s) == s.queue;
    assert StateAgrees(s, c);
  }

  /** `t` is `s` with its oldest packet granted. */
  ghost predicate Granted(s: System, t: System) {
    && s.queue != [] && s.queue[0].origid < NUMBER_OF_CORES
    && t.inProgress && t.queue == s.queue[1..] && t.caches == s.caches
    && t.current == s.queue[0].(sender := s.queue[0].origid)
    && t.states == Release(s).states[s.queue[0].origid := Operation]
  }

  lemma GrantKeepsGate(s: System)
    requires Gated(s) && !s.inProgress && s.queue != [] && s.queue[0].origid < NUMBER_OF_CORES
    ensures Gated(Arbitrated(s))
  {
    hide MemoryAfter, IndexOf, TagOf, StateAgrees, PacketAgrees;
    var e, t := s.queue, Arbitrated(s);
    assert Line(s) == e;
    ReleasedState(s, e[0].origid);
    assert Granted(s, t);
    RenamedHead(e, t.current);
    var e' := Line(t);
    assert e' == [t.current] + e[1..];
    forall c: CoreId ensures StateAgrees(t, c) {
      GrantedState(s, t, c);
    }
    forall k | 0 <= k < |e'| ensures FrameAgrees(t, e', k) {
      GrantedFrame(s, t, k);
    }
  }

  lemma GrantedState(s: System, t: System, c: CoreId)
    requires Gated(s) && !s.inProgress && Granted(s, t)
    ensures StateAgrees(t, c)
  {
    hide MemoryAfter, IndexOf, TagOf, FrameAgrees, Shape, HeadAgrees;
    assert Line(s) == s.queue && Line(t) == [t.current] + s.queue[1..];
    ReleasedState(s, s.queue[0].origid);
    ReleasedState(s, c);
    RenamedHead(s.queue, t.current);
  }

  lemma GrantedFrame(s: System, t: System, k: nat)
    requires Gated(s) && !s.inProgress && Granted(s, t) && k < |Line(t)|
    ensures FrameAgrees(t, Line(t), k)
  {
    hide MemoryAfter, IndexOf, TagOf, StateAgrees, Shape, HeadAgrees;
    assert Line(s) == s.queue && Line(t) == [t.current] + s.queue[1..];
    assert FrameAgrees(s, Line(s), k);
  }

  lemma DropKeepsGate(s: System)
    requires Gated(s) && !s.inProgress && s.queue != [] && s.queue[0].origid >= NUMBER_OF_CORES
    ensures Gated(Arbitrated(s))
  {
    var e, t := s.queue, Arbitrated(s);
    assert Line(s) == e && s.Wf() && WfPacket(e[0]);
    ReleasedState(s, 0);
    assert t == Release(s).(queue := e[1..], current := e[0], firstShared := true);
    var e' := Line(t);
    assert e' == e[1..];
    ShapeTail(e);
    if |e| > 1 { assert InvalidAfterRdX(e, 1); }
    forall c: CoreId ensures StateAgrees(t, c) {
      ReleasedState(s, c);
      OwedTail(e, c);
    }
    forall k | 0 <= k < |e'| ensures FrameAgrees(t, e', k) {
      assert FrameAgrees(s, e, k + 1);
    }
  }

  lemma ArbitrationKeepsGate(s: System)
    requires Gated(s)
    ensures Gated(Arbitrated(s))
    ensures s.inProgress ==> Arbitrated(s) == s
  {
    if s.inProgress {
      assert StateAgrees(s, s.current.origid);
    } else if s.queue == [] {
      var t := Arbitrated(s);
      assert Line(t) == Line(s) == [];
      forall c: CoreId ensures StateAgrees(t, c) {
        ReleasedState(s, c);
      }
    } else if s.queue[0].origid < NUMBER_OF_CORES {
      GrantKeepsGate(s);
    } else {
      DropKeepsGate(s);
    }
  }

  lemma BubbleKeepsGate(s: System)
    requires Gated(s) && s.inProgress && Bubble(s)
    ensures Gated(Transfer(s))
  {
    var t := Transfer(s);
    assert Line(t) == Line(s);
    assert forall c: CoreId :: StateAgrees(s, c) ==> StateAgrees(t, c);
    assert forall k :: 0 <= k < |Line(s)| ==> FrameAgrees(s, Line(s), k) ==> FrameAgrees(t, Line(s), k);
  }

  // ----- requests and hits ---------------------------------------------------------------------------

  /** Appending packets of core `c` gives packets to nobody else. */
  lemma OwedAppend(e: seq<Packet>, g: seq<Packet>, c: CoreId, d: CoreId)
    requires MayAppend(g, c)
    ensures Owed(e + g, d) <==> Owed(e, d) || d == c
  {
    var f := e + g;
    assert f[|e|].origid == c;
    if Owed(e, d) {
      var k :| 0 <= k < |e| && e[k].origid == d;
      assert f[k].origid == d;
    }
  }

  /** An idle core appends packets and waits. */
  ghost predicate Appends(s: System, c: CoreId, g: seq<Packet>, t: System) {
    && s.states[c] == Idle && MayAppend(g, c) && WfPacket(g[0])
    && t == s.(queue := s.queue + g, states := s.states[c := Wait])
  }

  /** The first packet of the group fits the frame of its core: a clean frame to fill, or the block to write back. */
  predicate GroupAgrees(s: System, c: CoreId, p: Packet) {
    var f := s.caches[c].tsram[IndexOf(p.addr)];
    (p.cmd.IsFill() ==> f.mesi != Modified) && (p.cmd.Flush? ==> f.tag == TagOf(p.addr))
  }

  lemma AppendKeepsState(s: System, c: CoreId, g: seq<Packet>, t: System, d: CoreId)
    requires StateAgrees(s, c) && StateAgrees(s, d) && Appends(s, c, g, t)
    requires s.inProgress ==> s.states[c] != Idle || s.current.origid != c
    ensures StateAgrees(t, d)
  {
    OwedAppend(Line(s), g, c, d);
    OwedAppend(s.queue, g, c, d);
    assert Line(t) == Line(s) + g;
    assert t.states[d] == if d == c then Wait else s.states[d];
    assert s.queue != [] ==> t.queue[0] == s.queue[0];
  }

  lemma AppendKeepsFrames(s: System, c: CoreId, g: seq<Packet>, t: System, k: nat)
    requires Appends(s, c, g, t) && k < |Line(t)|
    requires forall j :: 0 <= j < |Line(s)| ==> FrameAgrees(s, Line(s), j)
    requires GroupAgrees(s, c, g[0])
    ensures FrameAgrees(t, Line(t), k)
  {
    var e, f := Line(s), Line(t);
    assert f == e + g;
    if k < |e| { assert FrameAgrees(s, e, k); }
  }

  lemma AppendKeepsFrame(s: System, c: CoreId, g: seq<Packet>, t: System)
    requires s.Wf() && HeadAgrees(s) && Appends(s, c, g, t)
    ensures t.Wf() && HeadAgrees(t) && Line(t) == Line(s) + g
  {
    forall k | 0 <= k < |t.queue| ensures WfPacket(t.queue[k]) {
      if k < |s.queue| { assert WfPacket(s.queue[k]); }
    }
  }

  lemma AppendKeepsGate(s: System, c: CoreId, g: seq<Packet>, t: System)
    requires Gated(s) && Appends(s, c, g, t)
    requires GroupAgrees(s, c, g[0])
    ensures Gated(t)
  {
    assert StateAgrees(s, c);
    assert s.inProgress ==> Line(s)[0].origid == s.current.origid;
    AppendKeepsFrame(s, c, g, t);
    ShapeAppend(Line(s), g, c);
    forall d: CoreId ensures StateAgrees(t, d) {
      assert StateAgrees(s, d);
      AppendKeepsState(s, c, g, t, d);
    }
    forall k | 0 <= k < |Line(t)| ensures FrameAgrees(t, Line(t), k) {
      AppendKeepsFrames(s, c, g, t, k);
    }
  }

  /** The packets a miss enqueues. */
  function MissPackets(s: System, c: CoreId, a: Address, cmd: Command): seq<Packet> {
    (if s.caches[c].tsram[IndexOf(a)].mesi == Modified then [VictimPacket(s.caches[c], c, a)] else []) + [Request(c, cmd, a)]
  }

  lemma MissUnfolded(s: System, c: CoreId, a: Address, cmd: Command)
    ensures Miss(s, c, a, cmd) == s.(queue := s.queue + MissPackets(s, c, a, cmd), states := s.states[c := Wait])
  {
    hide IndexOf, OffsetOf, Location, DataAt;
    if s.caches[c].tsram[IndexOf(a)].mesi == Modified {
      var v, f := VictimPacket(s.caches[c], c, a), Request(c, cmd, a);
      var t := AddTransaction(s, v);
      assert EvictDirty(s, c, a) == t && t == s.(queue := s.queue + [v], states := s.states[c := Wait]);
      assert Miss(s, c, a, cmd) == AddTransaction(t, f);
      assert s.queue + [v] + [f] == s.queue + [v, f];
      assert s.states[c := Wait][c := Wait] == s.states[c := Wait];
    }
  }

  lemma MissAllowed(s: System, c: CoreId, a: Address, cmd: Command)
    requires cmd.IsFill()
    ensures var g := MissPackets(s, c, a, cmd);
            && MayAppend(g, c) && WfPacket(g[0])
            && GroupAgrees(s, c, g[0])
  {
    var v := VictimPacket(s.caches[c], c, a);
    assert IndexOf(v.addr) == IndexOf(a) && TagOf(v.addr) == s.caches[c].tsram[IndexOf(a)].tag by {
      LocationOnto(v.addr);
      LocationInjective(s.caches[c].tsram[IndexOf(a)].tag, IndexOf(a), 0, TagOf(v.addr), IndexOf(v.addr), OffsetOf(v.addr));
    }
  }

  lemma MissKeepsGate(s: System, c: CoreId, a: Address, cmd: Command)
    requires Gated(s) && !s.CoreBusy(c) && cmd.IsFill()
    ensures Gated(Miss(s, c, a, cmd))
  {
    MissUnfolded(s, c, a, cmd);
    MissAllowed(s, c, a, cmd);
    AppendKeepsGate(s, c, MissPackets(s, c, a, cmd), Miss(s, c, a, cmd));
  }

  lemma ReadKeepsGate(s: System, c: CoreId, a: Address)
    requires Gated(s)
    ensures Gated(ReadData(s, c, a))
  {
    if !s.CoreBusy(c) && !ReadHits(s, c, a) { MissKeepsGate(s, c, a, BusRd); }
  }

  lemma UpgradeUnfolded(s: System, c: CoreId, a: Address)
    ensures AddTransaction(AddTransaction(s, Request(c, BusRdX, a)), INVALID_PACKET) ==
              s.(queue := s.queue + [Request(c, BusRdX, a), INVALID_PACKET], states := s.states[c := Wait])
  {
    var f := Request(c, BusRdX, a);
    assert s.queue + [f] + [INVALID_PACKET] == s.queue + [f, INVALID_PACKET];
  }

  lemma WriteHitKeepsGate(s: System, c: CoreId, a: Address, w: Word)
    requires Gated(s) && WriteHits(s, c, a)
    ensures Gated(WriteData(s, c, a, w))
  {
    var t := WriteData(s, c, a, w);
    var e := Line(s);
    assert Line(t) == e;
    assert StateAgrees(s, c);
    forall d: CoreId ensures StateAgrees(t, d) {
      assert StateAgrees(s, d);
    }
    forall k | 0 <= k < |e| ensures FrameAgrees(t, e, k) {
      assert FrameAgrees(s, e, k);
      assert e[k].origid != c;
    }
  }

  lemma WriteKeepsGate(s: System, c: CoreId, a: Address, w: Word)
    requires Gated(s)
    ensures Gated(WriteData(s, c, a, w))
  {
    if s.CoreBusy(c) {
    } else if WriteHits(s, c, a) {
      WriteHitKeepsGate(s, c, a, w);
    } else if ReadHits(s, c, a) {
      UpgradeUnfolded(s, c, a);
      AppendKeepsGate(s, c, [Request(c, BusRdX, a), INVALID_PACKET], WriteData(s, c, a, w));
    } else {
      MissKeepsGate(s, c, a, BusRdX);
    }
  }
}
