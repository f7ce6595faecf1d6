/** The queue that carries packets from the command threads to the refresh thread. */
module DdlQueue {
  import opened Ring
  import opened Signal

  const QSIZE: nat := 2000

  datatype PacketType = QEMPTY | QNOVALIDPKT | Kind(code: nat)

  datatype Entry = Entry(packetType: PacketType, size: nat, packet: seq<bv8>, addr: int)

  /** A packet as it lies in its slot: padded with zeros. */
  function Slot(addr: int, packet: seq<bv8>, kind: PacketType, size: nat): Entry
    requires size <= PKTSIZE && size <= |packet|
  {
    Entry(kind, size, packet[..size] + seq(PKTSIZE - size, _ => 0), addr)
  }

  /** The entry holds the packet: its bytes and then zeros, and what is known about it. */
  predicate HoldsPacket(e: Entry, addr: int, packet: seq<bv8>, kind: PacketType, size: nat) {
    && |e.packet| == PKTSIZE && size <= PKTSIZE && size <= |packet|
    && (forall i :: 0 <= i < size ==> e.packet[i] == packet[i]) && (forall i :: size <= i < PKTSIZE ==> e.packet[i] == 0)
    && e.packetType == kind && e.size == size && e.addr == addr
  }

  lemma SlotHolds(addr: int, packet: seq<bv8>, kind: PacketType, size: nat)
    requires size <= PKTSIZE && size <= |packet|
    ensures HoldsPacket(Slot(addr, packet, kind, size), addr, packet, kind, size)
  {
  }

  class PacketQueue {
    const qData: array<Entry>
    var queueIn: nat
    var queueOut: nat
    var initialized: bool

    ghost predicate Valid()
      reads this
    {
      qData.Length == QSIZE && queueIn < QSIZE && queueOut < QSIZE
    }

    ghost function Abstract(): (r: Ring<Entry>)
      requires Valid()
      reads this, qData
      ensures r.Valid() && |r.slots| == QSIZE
    {
      Ring(qData[..], queueIn, queueOut)
    }

    constructor ()
      ensures Valid() && fresh(qData) && initialized && Abstract().Contents() == []
    {
      qData := new Entry[QSIZE](_ => Entry(QNOVALIDPKT, 0, seq(PKTSIZE, _ => 0), 0));
      queueIn, queueOut, initialized := 0, 0, true;
    }

    predicate Empty()
      reads this
    {
      queueIn == queueOut
    }

    /** Never refuses: with one free slot left the packet makes the whole queue look empty. */
    method Add(addr: int, packet: seq<bv8>, kind: PacketType, size: nat)
      requires Valid() && size <= PKTSIZE && size <= |packet|
      modifies this`queueIn, qData
      ensures Valid() && Abstract() == old(Abstract()).Put(Slot(addr, packet, kind, size))
      ensures Abstract().Contents()
           == if |old(Abstract().Contents())| < QSIZE - 1 then old(Abstract().Contents()) + [Slot(addr, packet, kind, size)]
              else []
      ensures |old(Abstract().Contents())| < QSIZE - 1 ==>
                HoldsPacket(Abstract().Contents()[|old(Abstract().Contents())|], addr, packet, kind, size)
    {
      SlotHolds(addr, packet, kind, size);
      PutContents(Abstract(), Slot(addr, packet, kind, size));
      qData[queueIn] := Slot(addr, packet, kind, size);
      queueIn := queueIn + 1;
      if queueIn == QSIZE {
        queueIn := 0;
      }
      assert qData[..] == old(qData[..])[old(queueIn) := Slot(addr, packet, kind, size)];
    }

    /** The oldest packet with its type, size and address, or QEMPTY. */
    method Get() returns (rtc: PacketType, addr: int, packet: seq<bv8>, size: nat)
      requires Valid()
      modifies this`queueOut, qData
      ensures Valid()
      ensures !initialized || old(Abstract().Contents()) == [] ==>
                rtc == QEMPTY && Abstract() == old(Abstract())
      ensures initialized && old(Abstract().Contents()) != [] ==>
                old(Abstract().Contents()) == [Entry(rtc, size, packet, addr)] + Abstract().Contents()
    {
      if !initialized || Empty() {
        return QEMPTY, 0, [], 0;
      }
      ghost var before := Abstract();
      DropContents(before);
      var e := qData[queueOut];
      rtc, addr, packet, size := e.packetType, e.addr, e.packet, e.size;
      qData[queueOut] := e.(packetType := QNOVALIDPKT);
      queueOut := queueOut + 1;
      if queueOut == QSIZE {
        queueOut := 0;
      }
      FreeSlot(before.Drop(), before.head, e.(packetType := QNOVALIDPKT));
      assert qData[..] == before.slots[before.head := e.(packetType := QNOVALIDPKT)];
      assert Abstract() == before.Drop().(slots := before.slots[before.head := e.(packetType := QNOVALIDPKT)]);
    }
  }

  // ----- Command threads and the refresh thread interleaved -----

  /** Adding is one step under the mutex; getting is a test of emptiness without the mutex and,
      later, taking the packet under it. There is one refresh thread. */
  datatype Action = Add(e: Entry) | Test | Take

  /** `sent` and `got` are histories; `found` says that the refresh thread has passed its test. */
  datatype System = System(ring: Ring<Entry>, found: bool, sent: seq<Entry>, got: seq<Entry>)

  ghost predicate Start(s: System) {
    s.ring.Valid() && |s.ring.slots| == QSIZE && s.ring.tail == s.ring.head && !s.found && s.sent == [] && s.got == []
  }

  predicate Full(s: System)
    requires s.ring.Valid()
  {
    s.ring.Count() == QSIZE - 1
  }

  function Step(s: System, a: Action): System
    requires s.ring.Valid()
  {
    match a
    case Add(e) => s.(ring := s.ring.Put(e), sent := s.sent + [e])
    case Test => if s.found then s else s.(found := s.ring.tail != s.ring.head)
    case Take =>
      if !s.found then s
      else
        var r := s.ring;
        var e := r.slots[r.head];
        System(r.(slots := r.slots[r.head := e.(packetType := QNOVALIDPKT)], head := r.Next(r.head)),
               false, s.sent, s.got + [e])
  }

  lemma StepValid(s: System, a: Action)
    requires s.ring.Valid()
    ensures Step(s, a).ring.Valid() && |Step(s, a).ring.slots| == |s.ring.slots|
  {
  }

  ghost function Run(s: System, actions: seq<Action>): System
    requires s.ring.Valid()
    decreases |actions|
  {
    if actions == [] then s else StepValid(s, actions[0]); Run(Step(s, actions[0]), actions[1..])
  }

  /** How often a packet is added to a full queue. */
  ghost function Overflows(s: System, actions: seq<Action>): nat
    requires s.ring.Valid()
    decreases |actions|
  {
    if actions == [] then 0
    else
      StepValid(s, actions[0]);
      (if actions[0].Add? && Full(s) then 1 else 0) + Overflows(Step(s, actions[0]), actions[1..])
  }

  /** Without an overflow so far: nothing is lost, doubled or out of order, and a passed test is
      still good when the packet is taken. */
  ghost predicate Fifo(s: System) {
    && s.ring.Valid() && |s.ring.slots| == QSIZE
    && s.got + s.ring.Contents() == s.sent
    && (s.found ==> s.ring.Count() > 0)
  }

  lemma StepFifo(s: System, a: Action)
    requires Fifo(s) && !(a.Add? && Full(s))
    ensures Fifo(Step(s, a))
  {
    match a
    case Add(e) => AddFifo(s, e);
    case Test =>
    case Take => TakeFifo(s);
  }

  lemma AddFifo(s: System, e: Entry)
    requires Fifo(s) && !Full(s)
    ensures Fifo(Step(s, Add(e)))
  {
    PutContents(s.ring, e);
    assert s.got + (s.ring.Contents() + [e]) == s.got + s.ring.Contents() + [e];
  }

  lemma TakeFifo(s: System)
    requires Fifo(s)
    ensures Fifo(Step(s, Take))
  {
    if s.found {
      DropContents(s.ring);
      var r := s.ring;
      var e := r.slots[r.head];
      FreeSlot(r.Drop(), r.head, e.(packetType := QNOVALIDPKT));
      assert s.got + r.Contents() == s.got + [e] + r.Contents()[1..];
    }
  }

  lemma {:induction false} RunFifo(s: System, actions: seq<Action>)
    requires Fifo(s) && Overflows(s, actions) == 0
    ensures Fifo(Run(s, actions))
    decreases |actions|
  {
    if actions != [] {
      StepFifo(s, actions[0]);
      RunFifo(Step(s, actions[0]), actions[1..]);
    }
  }

  /** Over every interleaving that never adds to a full queue, the packets got are the packets
      sent, in order and with type, size and address, but for those still queued. */
  lemma GotIsPrefixOfSent(s: System, actions: seq<Action>)
    requires Start(s) && Overflows(s, actions) == 0
    ensures var t := Run(s, actions);
            t.got <= t.sent && t.ring.Valid() && t.ring.Contents() == t.sent[|t.got|..]
  {
    RunFifo(s, actions);
    var t := Run(s, actions);
    assert t.sent == t.got + t.ring.Contents();
  }

  /** Adding to a full queue loses sight of all of its packets. */
  lemma OverflowEmptiesQueue(s: System, e: Entry)
    requires Fifo(s) && Full(s)
    ensures var t := Step(s, Add(e));
            t.ring.Valid() && t.ring.Contents() == [] && |t.sent| - |t.got| == QSIZE && !Fifo(t)
  {
    PutContents(s.ring, e);
    assert |s.sent| == |s.got| + |s.ring.Contents()|;
  }

  /** Exactly the runs that never add to a full queue behave as a FIFO all the way. */
  lemma {:induction false} FifoIffNoOverflow(s: System, actions: seq<Action>)
    requires Fifo(s)
    ensures (forall n :: 0 <= n <= |actions| ==> Fifo(Run(s, actions[..n]))) <==> Overflows(s, actions) == 0
    decreases |actions|
  {
    if actions == [] {
      assert Run(s, actions[..0]) == s;
    } else {
      var a, rest := actions[0], actions[1..];
      var next := Step(s, a);
      StepValid(s, a);
      hide Fifo, Step;
      forall n | 1 <= n <= |actions| ensures Run(s, actions[..n]) == Run(next, rest[..n - 1]) {
        assert actions[..n][0] == a && actions[..n][1..] == rest[..n - 1];
      }
      if a.Add? && Full(s) {
        OverflowEmptiesQueue(s, a.e);
        assert rest[..0] == [];
        assert !Fifo(Run(s, actions[..1]));
      } else {
        StepFifo(s, a);
        FifoIffNoOverflow(next, rest);
        assert Run(s, actions[..0]) == s;
        forall n | 0 <= n <= |rest| ensures Run(next, rest[..n]) == Run(s, actions[..n + 1]) {
        }
      }
    }
  }
}
