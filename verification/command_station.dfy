/** What a locomotive command leaves behind: packets in the pool for the refresh, and packets in
    the queue for sending at once. */
module CommandStation {
  import opened Signal
  import opened Builders
  import opened Decoder
  import opened LocoCommand
  import opened PacketPool
  import DdlQueue
  import opened Track
  import Cache = LocoCache
  import opened Srcp
  import opened Speed

  const ADDR14BIT_OFFSET: bv32 := 128
  const QNBLOCOPKT: DdlQueue.PacketType := DdlQueue.Kind(6)

  /** The arguments of a locomotive command. */
  datatype Order = Order(address: bv32, direction: bv32, speed: bv32, func: bv32, nspeed: int, nfuncs: nat, mode: nat)

  predicate Allowed(o: Order) {
    (o.mode == 1 || o.mode == 2) && Accepted(o.address, o.direction, o.speed, o.nspeed, o.mode)
  }

  /** The address in the pool; long addresses come after the short ones. */
  function Key(address: bv32, mode: nat): bv32 {
    if mode == 2 then address + ADDR14BIT_OFFSET else address
  }

  function KeyOf(o: Order): int {
    Key(o.address, o.mode) as int
  }

  /** Every command that is allowed has a place in the pool, and no two decoders share one. */
  lemma KeysFit(o: Order, p: Order)
    requires Allowed(o) && Allowed(p)
    ensures LocoAddress(KeyOf(o))
    ensures KeyOf(o) == KeyOf(p) <==> Own(o.address, o.mode) == Own(p.address, p.mode)
  {
    AddressBounds(o);
    AddressBounds(p);
    hide Key, Own, Accepted;
    KeyBounds(o.address, o.mode);
    SameKey(o.address, o.mode, p.address, p.mode);
    SameAddress(Key(o.address, o.mode), Key(p.address, p.mode));
  }

  predicate AddressFits(address: bv32, mode: nat) {
    1 <= address <= 10239 && (mode == 2 || (mode == 1 && address <= 127))
  }

  lemma AddressBounds(o: Order)
    requires Allowed(o)
    ensures AddressFits(o.address, o.mode)
  {
  }

  lemma KeyBounds(address: bv32, mode: nat)
    requires AddressFits(address, mode)
    ensures LocoAddress(Key(address, mode) as int)
  {
    var k := Key(address, mode);
    assert 1 <= k <= 10367 && k != 128;
    hide Key;
    InRange(k);
  }

  lemma InRange(k: bv32)
    requires 1 <= k <= 10367 && k != 128
    ensures LocoAddress(k as int)
  {
  }

  lemma SameKey(x: bv32, m: nat, y: bv32, n: nat)
    requires AddressFits(x, m) && AddressFits(y, n)
    ensures Key(x, m) == Key(y, n) <==> Own(x, m) == Own(y, n)
  {
    if m == n {
      SameOffset(x, y);
    } else if m == 1 {
      ShortIsNotLong(x, y);
    } else {
      ShortIsNotLong(y, x);
    }
  }

  lemma SameOffset(x: bv32, y: bv32)
    ensures x + ADDR14BIT_OFFSET == y + ADDR14BIT_OFFSET <==> x == y
  {
  }

  lemma ShortIsNotLong(x: bv32, y: bv32)
    requires x <= 127 && 1 <= y <= 10239
    ensures x != y + ADDR14BIT_OFFSET
  {
  }

  lemma SameAddress(x: bv32, y: bv32)
    ensures x as int == y as int <==> x == y
  {
    ThereAndBack(x);
    ThereAndBack(y);
    var i, j := x as int, y as int;
    assert i == j ==> i as bv32 == j as bv32;
  }

  lemma ThereAndBack(x: bv32)
    ensures (x as int) as bv32 == x
  {
  }

  /** A decoder that hears both packets does what the order says, whatever its state. */
  ghost predicate Answers(p: NmraPacket, o: Order) {
    forall d: Loco ::
      AfterHearing(Own(o.address, o.mode), ModeOf(o.nspeed), d, p.packet, p.fxPacket)
      == Commanded(d, o.direction, o.speed, o.func, o.nspeed, o.nfuncs)
  }

  function First(o: Order, d: Loco): Loco {
    FirstEffect(d, o.direction, o.speed, o.func, o.nspeed, o.nfuncs)
  }

  function Second(o: Order, d: Loco): Loco {
    SecondEffect(d, o.direction, o.speed, o.func, o.nspeed, o.nfuncs)
  }

  /** Either packet alone does its part. */
  ghost predicate PartsAnswer(p: NmraPacket, o: Order) {
    forall d: Loco ::
      && ExecuteParsed(Own(o.address, o.mode), ModeOf(o.nspeed), d, Received(p.packet)) == First(o, d)
      && ExecuteParsed(Own(o.address, o.mode), ModeOf(o.nspeed), d, Received(p.fxPacket)) == Second(o, d)
  }

  /** Any other decoder hears either packet without effect. */
  ghost predicate OthersIgnore(p: NmraPacket, o: Order) {
    forall own: Address, m: Mode, d: Loco :: own != Own(o.address, o.mode) ==>
      ExecuteParsed(own, m, d, Received(p.packet)) == d && ExecuteParsed(own, m, d, Received(p.fxPacket)) == d
  }

  /** Step 30 of 29 is the one order that is received as another one. */
  predicate Exact(o: Order) {
    !(o.nspeed == 29 && o.speed == 30)
  }

  /** What the packets of an order are good for. */
  ghost predicate Carry(p: NmraPacket, o: Order) {
    && 0 < |p.packet| < PKTSIZE && 0 < |p.fxPacket| < PKTSIZE
    && OthersIgnore(p, o) && (Exact(o) ==> Answers(p, o) && PartsAnswer(p, o))
  }

  /** The step from one pool to the next that an order makes. */
  ghost predicate Obeyed(before: Pool<NmraPacket>, o: Order, after: Pool<NmraPacket>) {
    if Allowed(o) then
      KeyOf(o) in after.store && after == Updated(before, NMRA_IDLE, KeyOf(o), after.store[KeyOf(o)])
      && Carry(after.store[KeyOf(o)], o)
    else after == before
  }

  function Joined(queued: seq<DdlQueue.Entry>, e: DdlQueue.Entry): seq<DdlQueue.Entry> {
    if |queued| < DdlQueue.QSIZE - 1 then queued + [e] else []
  }

  function Queued(queued: seq<DdlQueue.Entry>, o: Order, p: NmraPacket): seq<DdlQueue.Entry>
    requires |p.packet| <= PKTSIZE && |p.fxPacket| <= PKTSIZE
  {
    var first := Joined(queued, DdlQueue.Slot(KeyOf(o), p.packet, QNBLOCOPKT, |p.packet|));
    if o.nfuncs > 0 && o.nspeed > 14 then Joined(first, DdlQueue.Slot(KeyOf(o), p.fxPacket, QNBLOCOPKT, |p.fxPacket|)) else first
  }

  /** What the decoder does with the bytes that the refresh thread sends for an entry. */
  function EntryHeard(own: Address, m: Mode, d: Loco, e: DdlQueue.Entry): Loco {
    if e.size <= |e.packet| then ExecuteParsed(own, m, d, Received(e.packet[..e.size])) else d
  }

  /** The entry is a locomotive packet that does this part of the order, and nothing to other decoders. */
  ghost predicate Does(e: DdlQueue.Entry, o: Order, second: bool) {
    && e.packetType == QNBLOCOPKT && e.addr == KeyOf(o)
    && (forall own: Address, m: Mode, d: Loco :: own != Own(o.address, o.mode) ==> EntryHeard(own, m, d, e) == d)
    && (Exact(o) ==> forall d: Loco ::
          EntryHeard(Own(o.address, o.mode), ModeOf(o.nspeed), d, e) == if second then Second(o, d) else First(o, d))
  }

  /** As long as there is room an order queues one or two packets. */
  ghost predicate QueuedFor(before: seq<DdlQueue.Entry>, o: Order, after: seq<DdlQueue.Entry>) {
    var two := o.nfuncs > 0 && o.nspeed > 14;
    |before| + (if two then 2 else 1) < DdlQueue.QSIZE ==>
      && |after| == |before| + (if two then 2 else 1) && before <= after
      && Does(after[|before|], o, false) && (two ==> Does(after[|before| + 1], o, true))
  }

  lemma SlotDoes(p: NmraPacket, o: Order)
    requires Carry(p, o)
    ensures Does(DdlQueue.Slot(KeyOf(o), p.packet, QNBLOCOPKT, |p.packet|), o, false)
    ensures Does(DdlQueue.Slot(KeyOf(o), p.fxPacket, QNBLOCOPKT, |p.fxPacket|), o, true)
  {
    DdlQueue.SlotHolds(KeyOf(o), p.packet, QNBLOCOPKT, |p.packet|);
    DdlQueue.SlotHolds(KeyOf(o), p.fxPacket, QNBLOCOPKT, |p.fxPacket|);
    hide ExecuteParsed, Received, Own, KeyOf, First, Second, DdlQueue.Slot, Answers;
    var e, f := DdlQueue.Slot(KeyOf(o), p.packet, QNBLOCOPKT, |p.packet|), DdlQueue.Slot(KeyOf(o), p.fxPacket, QNBLOCOPKT, |p.fxPacket|);
    assert e.packet[..e.size] == p.packet && f.packet[..f.size] == p.fxPacket;
  }

  lemma QueuedIsFor(before: seq<DdlQueue.Entry>, o: Order, p: NmraPacket)
    requires Carry(p, o)
    ensures QueuedFor(before, o, Queued(before, o, p))
  {
    SlotDoes(p, o);
    hide Does, DdlQueue.Slot, OthersIgnore, Answers, PartsAnswer, KeyOf;
  }

  /** The whole command: its packets replace those of its address in the pool and go to the queue. */
  method Execute(pool: NmraPool, queue: DdlQueue.PacketQueue, o: Order) returns (status: int)
    requires pool.Valid() && queue.Valid() && (o.mode == 1 || o.mode == 2)
    modifies pool, pool.packets, pool.knownAddresses, queue`queueIn, queue.qData
    ensures pool.Valid() && queue.Valid()
    ensures status == 0 <==> Allowed(o)
    ensures Obeyed(old(pool.Abstract()), o, pool.Abstract())
    ensures status != 0 ==> queue.Abstract() == old(queue.Abstract())
    ensures status == 0 ==>
              queue.Abstract().Contents()
              == Queued(old(queue.Abstract().Contents()), o, pool.Abstract().store[KeyOf(o)])
    ensures status == 0 ==> QueuedFor(old(queue.Abstract().Contents()), o, queue.Abstract().Contents())
  {
    hide AfterHearing, ExecuteParsed, Received, Commanded, FirstEffect, SecondEffect, DdlQueue.Slot, Updated, Store, QueuedFor;
    var packetstream, packetstream2 := new bv8[PKTSIZE], new bv8[PKTSIZE];
    var j, jj;
    status, j, jj := CompNmraMultiFunc(o.address, o.direction, o.speed, o.func, o.nspeed, o.nfuncs, o.mode,
                                       packetstream, packetstream2);
    if status == 0 {
      KeysFit(o, o);
      var p := NmraPacket(packetstream[..j], packetstream2[..jj]);
      assert Carry(p, o);
      pool.Update(KeyOf(o), p);
      assert pool.Abstract().store[KeyOf(o)] == p by { UpdatedHas(old(pool.Abstract()), KeyOf(o), p); }
      queue.Add(KeyOf(o), p.packet, QNBLOCOPKT, j);
      if o.nfuncs > 0 && o.nspeed > 14 {
        queue.Add(KeyOf(o), p.fxPacket, QNBLOCOPKT, jj);
      }
      QueuedIsFor(old(queue.Abstract().Contents()), o, p);
    }
  }

  lemma UpdatedHas(pool: Pool<NmraPacket>, adr: int, p: NmraPacket)
    ensures var r := Updated(pool, NMRA_IDLE, adr, p); adr in r.store && r.store[adr] == p
  {
  }

  // ----- Orders of the server -----

  /** Addresses above 127 are long ones, whatever the version says. */
  function PassedMode(address: bv32, version: nat): nat {
    if !Negative(address) && address > 127 then 2 else version
  }

  /** How the thread of the bus passes on a locomotive's direction and speed step; direction 2 is
      the emergency stop. */
  function Passed(address: bv32, direction: bv32, step: bv32, func: bv32, nFs: int, nFunc: nat, version: nat): Order {
    var mode := PassedMode(address, version);
    if direction == 2 then Order(address, 0, 1, func, nFs, nFunc, mode)
    else Order(address, direction, if step != 0 then step + 1 else 0, func, nFs, nFunc, mode)
  }

  const MINUS_ONE: bv32 := 0xFFFF_FFFF

  function Signed(v: bv32): int {
    if Negative(v) then v as int - 0x1_0000_0000 else v as int
  }

  predicate StepFits(step: bv32, nFs: int) {
    step == MINUS_ONE || (nFs == 28 && step <= 28) || (nFs == 128 && step <= 128)
  }

  /** Versions 1 and 2, and for addresses above 127 any. */
  predicate AddressAdmitted(address: bv32, version: nat) {
    1 <= address <= 10239 && (address > 127 || version == 1 || version == 2)
  }

  predicate Admitted(address: bv32, direction: bv32, step: bv32, nFs: int, version: nat) {
    AddressAdmitted(address, version) && direction <= 2 && (direction == 2 || StepFits(step, nFs))
  }

  lemma SignedStep(step: bv32, nFs: int)
    requires nFs == 28 || nFs == 128
    ensures StepFits(step, nFs) <==> -1 <= Signed(step) <= nFs
  {
  }

  lemma SignedDirection(direction: bv32)
    ensures direction <= 2 <==> 0 <= Signed(direction) <= 2
    ensures direction == 2 <==> Signed(direction) == 2
  {
  }

  lemma AtMost29(speed: bv32)
    ensures speed as int <= 29 <==> speed <= 29
  {
  }

  lemma AtMost129(speed: bv32)
    ensures speed as int <= 129 <==> speed <= 129
  {
  }

  lemma SmallIsPositive(speed: bv32)
    ensures speed <= 29 ==> speed <= 129
    ensures speed <= 129 ==> !Negative(speed)
  {
  }

  predicate InSteps(speed: bv32, nFs: int) {
    if nFs == 28 then speed <= 29 else speed <= 129
  }

  lemma NextStep(step: bv32)
    requires step != 0
    ensures step + 1 <= 29 <==> step == MINUS_ONE || step <= 28
    ensures step + 1 <= 129 <==> step == MINUS_ONE || step <= 128
  {
  }

  lemma AcceptedIff(address: bv32, direction: bv32, speed: bv32, nFs: int, version: nat)
    requires (nFs == 28 || nFs == 128) && (version == 1 || version == 2)
    ensures Accepted(address, direction, speed, nFs, version)
            <==> AddressFits(address, version) && direction <= 1 && InSteps(speed, nFs)
  {
    AtMost29(speed);
    AtMost129(speed);
    SmallIsPositive(speed);
    hide Negative;
  }

  lemma NextInSteps(step: bv32, nFs: int)
    requires nFs == 28 || nFs == 128
    ensures InSteps(if step != 0 then step + 1 else 0, nFs) <==> StepFits(step, nFs)
    ensures InSteps(1, nFs)
  {
    if step != 0 {
      NextStep(step);
    }
  }

  lemma ZeroOrOne(direction: bv32)
    ensures direction <= 2 <==> direction == 2 || direction <= 1
  {
  }

  /** With the 28 or 128 steps that the driver settles on, a command is accepted if and only if the
      address, the direction and the step are in range; an emergency stop comes with any step. Step
      -1 is stop. No command accepted is the one that is received as another. */
  lemma AllowedIffAdmitted(address: bv32, direction: bv32, step: bv32, func: bv32, nFs: int, nFunc: nat, version: nat)
    requires nFs == 28 || nFs == 128
    ensures var o := Passed(address, direction, step, func, nFs, nFunc, version);
            (Allowed(o) <==> Admitted(address, direction, step, nFs, version)) && Exact(o)
  {
    hide Accepted, InSteps, StepFits, AddressFits, PassedMode;
    NextInSteps(step, nFs);
    ZeroOrOne(direction);
    var mode := PassedMode(address, version);
    ModeFits(address, version);
    var speed := if step != 0 then step + 1 else 0;
    if mode == 1 || mode == 2 {
      AcceptedIff(address, 0, 1, nFs, mode);
      AcceptedIff(address, direction, speed, nFs, mode);
    }
  }

  lemma ModeFits(address: bv32, version: nat)
    ensures var mode := PassedMode(address, version);
            && (AddressFits(address, mode) <==> AddressAdmitted(address, version))
            && (AddressFits(address, mode) ==> mode == 1 || mode == 2)
  {
  }

  /** The decoder of an address: a short one for version 1 and addresses up to 127, else a long one. */
  function DecoderOf(address: bv32, version: nat): Address {
    if version == 1 && address <= 127 then Short(address) else Long(address)
  }

  lemma OwnIsDecoder(address: bv32, version: nat)
    requires AddressAdmitted(address, version)
    ensures Own(address, PassedMode(address, version)) == DecoderOf(address, version)
  {
  }

  /** What a decoder with function bits `func` set and the rest left looks like. */
  ghost predicate FunctionsSet(before: seq<bool>, after: seq<bool>, func: bv32, n: nat) {
    |after| == |before| && n <= 32 && forall i :: 0 <= i < |after| ==> after[i] == if i < n then Function(func, i) else before[i]
  }

  /** The decoder runs in this direction at exactly this step, and its functions are those of the
      command; an emergency stop is sent as speed 1 backwards. */
  lemma AdmittedOrders(address: bv32, direction: bv32, step: bv32, func: bv32, nFs: int, nFunc: nat, version: nat,
                       p: NmraPacket, d: Loco)
    requires nFs == 28 || nFs == 128
    requires Admitted(address, direction, step, nFs, version)
    requires Carry(p, Passed(address, direction, step, func, nFs, nFunc, version))
    ensures var e := AfterHearing(DecoderOf(address, version), Steps28, d, p.packet, p.fxPacket);
            && e.forward == (direction == 1)
            && e.speed == (if direction == 2 then 1 else if step == 0 || step == MINUS_ONE then 0
                           else if step >= 126 then 127 else Low(step) + 1)
            && FunctionsSet(d.funcs, e.funcs, func, Covered(nFs, nFunc))
  {
    AllowedIffAdmitted(address, direction, step, func, nFs, nFunc, version);
    OwnIsDecoder(address, version);
    PassedSpeed(step);
    ModeIs28(nFs);
    hide AfterHearing, Own, Low, OthersIgnore, Limited, PassedMode, DecoderOf, PartsAnswer, Function, Covered, Admitted;
    var o := Passed(address, direction, step, func, nFs, nFunc, version);
    assert Answers(p, o);
    CommandedSets(d, o);
  }

  lemma ModeIs28(nFs: int)
    requires nFs == 28 || nFs == 128
    ensures ModeOf(nFs) == Steps28
  {
  }

  lemma CommandedSets(d: Loco, o: Order)
    ensures var e := Commanded(d, o.direction, o.speed, o.func, o.nspeed, o.nfuncs);
            && e.forward == (o.direction == 1) && e.speed == Low(Limited(o.speed))
            && FunctionsSet(d.funcs, e.funcs, o.func, Covered(o.nspeed, o.nfuncs))
  {
    hide Low, Limited, Function, Covered;
  }

  lemma PassedSpeed(step: bv32)
    ensures Low(Limited(1)) == 1 && Low(Limited(0)) == 0
    ensures step == MINUS_ONE ==> Low(Limited(step + 1)) == 0
    ensures 0 < step <= 128 ==> Low(Limited(step + 1)) == if step >= 126 then 127 else Low(step) + 1
  {
  }

  // ----- From the client to the decoder -----

  /** The words the driver finds in an entry of the command queue. */
  ghost predicate Words(e: Cache.Loco, address: bv32, direction: bv32, step: bv32, func: bv32) {
    Signed(address) == e.id && Signed(direction) == e.direction && Signed(step) == e.speed && Signed(func) == e.funcs
  }

  function Wrapped(i: int): int {
    if i >= 0x8000_0000 then i - 0x1_0000_0000 else i
  }

  lemma SignedIs(x: bv32)
    ensures Signed(x) == Wrapped(x as int)
  {
    hide Negative;
    InRangeOfWord(x);
    if Negative(x) {
      assert x as int >= 0x8000_0000;
    } else {
      assert x as int < 0x8000_0000;
    }
  }

  lemma InRangeOfWord(x: bv32)
    ensures Negative(x) <==> x as int >= 0x8000_0000
    ensures 0 <= x as int < 0x1_0000_0000
  {
  }

  lemma SameWrapped(i: int, j: int)
    requires 0 <= i < 0x1_0000_0000 && 0 <= j < 0x1_0000_0000 && Wrapped(i) == Wrapped(j)
    ensures i == j
  {
  }

  lemma SameWord(x: bv32, y: bv32)
    requires Signed(x) == Signed(y)
    ensures x == y
  {
    hide *;
    SignedIs(x);
    SignedIs(y);
    InRangeOfWord(x);
    InRangeOfWord(y);
    SameWrapped(x as int, y as int);
    SameAddress(x, y);
  }

  /** A client's SET for an initialised locomotive that is not turned down by the lock and finds room
      in the queue is answered with success. The driver takes the entry and carries it out if and only
      if the address and the direction are in range and, unless it is an emergency stop, the client
      gave a maximum or a speed that is a step already. */
  lemma SetIsCarriedOutIff(d: Cache.Driver, b: Cache.Bus, c: Cache.Command,
                           address: bv32, direction: bv32, step: bv32, func: bv32)
    requires c.SetGL? && Cache.Initialized(b, c.addr) && !Cache.Full(b)
    requires b.lockedBy == 0 || b.lockedBy == c.session || c.dir == 2
    requires var l := b.locos[c.addr]; (l.nFs == 28 || l.nFs == 128) && l.nFunc >= 0 && l.version >= 0
    requires Words(Last(Cache.Execute(d, b, c).0.queue), address, direction, step, func)
    ensures var (r, rc) := Cache.Execute(d, b, c);
            var l, e := b.locos[c.addr], Last(r.queue);
            && rc == SRCP_OK && r.queue[..|r.queue| - 1] == b.queue && e.nFunc >= 0 && e.version >= 0
            && (Allowed(Passed(address, direction, step, func, e.nFs, e.nFunc, e.version))
                <==> && AddressAdmitted(address, l.version) && 0 <= c.dir <= 2
                     && (c.dir == 2 || c.maxspeed != 0 || -1 <= c.speed <= l.nFs))
  {
    hide Scale, Allowed, AddressAdmitted, StepFits, Signed;
    var l := b.locos[c.addr];
    ScaleOrPass(c.speed, c.maxspeed, l.nFs);
    SignedStep(step, l.nFs);
    SignedDirection(direction);
    AllowedIffAdmitted(address, direction, step, func, l.nFs, l.nFunc, l.version);
  }

  function Last(queue: seq<Cache.Loco>): Cache.Loco {
    if queue == [] then Cache.CLEARED else queue[|queue| - 1]
  }

  /** The decoder then does what the client said: it runs in the client's direction at the client's
      speed, scaled to its steps, and has the client's functions. */
  lemma SetIsHeard(d: Cache.Driver, b: Cache.Bus, c: Cache.Command, addr: bv32, dir: bv32, f: bv32,
                   address: bv32, direction: bv32, step: bv32, func: bv32, p: NmraPacket, dec: Loco)
    requires c.SetGL? && Cache.Initialized(b, c.addr) && !Cache.Full(b)
    requires b.lockedBy == 0 || b.lockedBy == c.session || c.dir == 2
    requires var l := b.locos[c.addr]; (l.nFs == 28 || l.nFs == 128) && l.nFunc >= 0 && l.version >= 0
    requires Signed(addr) == c.addr && Signed(dir) == c.dir && Signed(f) == c.f
    requires var e := Last(Cache.Execute(d, b, c).0.queue);
             && Words(e, address, direction, step, func) && e.nFunc >= 0 && e.version >= 0
             && var o := Passed(address, direction, step, func, e.nFs, e.nFunc, e.version);
             Allowed(o) && Carry(p, o)
    ensures var l := b.locos[c.addr];
            var r := AfterHearing(DecoderOf(addr, l.version), Steps28, dec, p.packet, p.fxPacket);
            && r.forward == (c.dir == 1)
            && Signed(step) == Scale(c.speed, c.maxspeed, l.nFs)
            && r.speed == (if c.dir == 2 then 1 else if Signed(step) <= 0 then 0
                           else if Signed(step) >= 126 then 127 else Low(step) + 1)
            && FunctionsSet(dec.funcs, r.funcs, f, Covered(l.nFs, l.nFunc))
  {
    hide Scale, Allowed, Carry, AfterHearing, DecoderOf, Signed, Covered, Low, FunctionsSet, StepFits, AddressAdmitted;
    var l := b.locos[c.addr];
    SameWord(addr, address);
    SameWord(f, func);
    SameWord(dir, direction);
    SignedDirection(direction);
    SignedStep(step, l.nFs);
    SignedBounds(step);
    AllowedIffAdmitted(address, direction, step, func, l.nFs, l.nFunc, l.version);
    AdmittedOrders(address, direction, step, func, l.nFs, l.nFunc, l.version, p, dec);
    OneForward(direction);
  }

  lemma OneForward(direction: bv32)
    ensures direction == 1 <==> Signed(direction) == 1
  {
  }

  lemma SignedBounds(step: bv32)
    ensures StepFits(step, 28) || StepFits(step, 128) ==>
              (Signed(step) <= 0 <==> step == 0 || step == MINUS_ONE)
              && (step != MINUS_ONE ==> (Signed(step) >= 126 <==> step >= 126))
  {
  }

  // ----- All commands -----

  function LastOrder(orders: seq<Order>, own: Address): Option<Order>
    decreases |orders|
  {
    if orders == [] then None
    else
      var o := orders[|orders| - 1];
      if Allowed(o) && Own(o.address, o.mode) == own then Some(o) else LastOrder(orders[..|orders| - 1], own)
  }

  /** The pools from the start on, one more after each order, those turned down included. */
  ghost predicate Runs(idle: NmraPacket, pools: seq<Pool<NmraPacket>>, orders: seq<Order>) {
    && |pools| == |orders| + 1 && pools[0] == Initial(NMRA_IDLE, idle)
    && forall i :: 0 <= i < |orders| ==> Obeyed(pools[i], orders[i], pools[i + 1])
  }

  lemma UpdateKeepsOthers(before: Pool<NmraPacket>, key: int, other: int, p: NmraPacket)
    requires other != key && other != NMRA_IDLE
    ensures var after := Updated(before, NMRA_IDLE, key, p);
            && (other in after.known <==> other in before.known)
            && (other in before.store ==> other in after.store && after.store[other] == before.store[other])
  {
  }

  /** After any orders to any locomotives the refresh keeps calling a decoder with what the last
      order allowed for it said. */
  lemma {:induction false} RefreshRepeatsLastOrder(idle: NmraPacket, pools: seq<Pool<NmraPacket>>, orders: seq<Order>, o: Order)
    requires Runs(idle, pools, orders) && Allowed(o) && LastOrder(orders, Own(o.address, o.mode)) == Some(o)
    ensures var pool := pools[|orders|];
            KeyOf(o) in pool.known && KeyOf(o) in pool.store && Carry(pool.store[KeyOf(o)], o)
    decreases |orders|
  {
    hide Carry, Own, Updated, Allowed;
    var n := |orders| - 1;
    var last := orders[n];
    var before, after := pools[n], pools[n + 1];
    if Allowed(last) {
      KeysFit(o, last);
      if Own(last.address, last.mode) == Own(o.address, o.mode) {
        ObeyedIsKnown(before, last, after);
      } else {
        RefreshRepeatsLastOrder(idle, pools[..n + 1], orders[..n], o);
        UpdateKeepsOthers(before, KeyOf(last), KeyOf(o), after.store[KeyOf(last)]);
      }
    } else {
      RefreshRepeatsLastOrder(idle, pools[..n + 1], orders[..n], o);
    }
  }

  lemma ObeyedIsKnown(before: Pool<NmraPacket>, o: Order, after: Pool<NmraPacket>)
    requires Allowed(o) && Obeyed(before, o, after)
    ensures KeyOf(o) in after.known
  {
    hide Carry;
    KeysFit(o, o);
  }
}
