/** A decoder on the programming track, after NMRA S-9.2.3: reset packets open service mode, any other
    packet that is no instruction closes it, and an instruction is carried out when its packet comes
    a second time in a row. */
module ServiceDecoder {
  import opened Signal
  import opened Packets
  import opened Builders
  import opened LocoCommand
  import opened Programming

  type Bytes = seq<bv8>

  /** The page register and the variables, which are numbered from 0 here. */
  datatype Memory = Memory(page: bv8, cvs: map<bv32, bv8>)

  /** `acked` says that the decoder has acknowledged something. */
  datatype Service = Service(open: bool, last: Bytes, memory: Memory, acked: bool)

  /** Page 1 holds variables 1 to 4, and so on round to page 0 with 1021 to 1024. */
  function Paged(page: bv8, reg: bv8): bv32 {
    (((page - 1) as bv32) << 2) | reg as bv32
  }

  /** The variable behind a register other than the page register: four of the page, the
      configuration, and the version and the manufacturer. */
  function RegisterVariable(page: bv8, reg: bv8): bv32 {
    if reg <= 3 then Paged(page, reg) else if reg == 4 then 28 else reg as bv32
  }

  predicate Has(m: Memory, cv: bv32, value: bv8) {
    cv in m.cvs && m.cvs[cv] == value
  }

  /** Bits are numbered from the lowest on. */
  function OneBit(bit: bv8): bv8 {
    if bit == 0 then 0x01
    else if bit == 1 then 0x02
    else if bit == 2 then 0x04
    else if bit == 3 then 0x08
    else if bit == 4 then 0x10
    else if bit == 5 then 0x20
    else if bit == 6 then 0x40 else 0x80
  }

  function WithBit(v: bv8, bit: bv8, on: bool): bv8 {
    if on then v | OneBit(bit) else v & !OneBit(bit)
  }

  predicate BitOf(v: bv8, bit: bv8) {
    v & OneBit(bit) != 0
  }

  /** What an instruction does to the memory. */
  function Written(m: Memory, i: Programming): Memory {
    match i
    case Variable(cv, value, write) => if write then m.(cvs := m.cvs[cv := value]) else m
    case VariableBit(cv, bit, on, write) =>
      if write && cv in m.cvs then m.(cvs := m.cvs[cv := WithBit(m.cvs[cv], bit, on)]) else m
    case Register(reg, value, write) =>
      if !write then m
      else if reg == 5 then m.(page := value)
      else m.(cvs := m.cvs[RegisterVariable(m.page, reg) := value])
    case NoProgramming => m
  }

  /** Writing is acknowledged, verifying if the value is the one held. */
  predicate Acks(m: Memory, i: Programming) {
    match i
    case Variable(cv, value, write) => write || Has(m, cv, value)
    case VariableBit(cv, bit, on, write) => cv in m.cvs && (write || BitOf(m.cvs[cv], bit) == on)
    case Register(reg, value, write) => write || (if reg == 5 then m.page == value else Has(m, RegisterVariable(m.page, reg), value))
    case NoProgramming => false
  }

  function Perform(s: Service, i: Programming): Service {
    s.(memory := Written(s.memory, i), acked := s.acked || Acks(s.memory, i))
  }

  /** What a packet tells an open decoder to do. */
  function Instruction(p: Bytes): Programming {
    if |p| < 3 then NoProgramming else ReadService(p[..|p| - 1])
  }

  /** A packet with a wrong error detection byte is not heard at all. */
  function HearOne(s: Service, p: Bytes): Service {
    if |p| < 3 || XorAll(p) != 0 then s
    else if p == [0, 0, 0] then s.(open := true, last := [])
    else if !s.open || Instruction(p).NoProgramming? then s.(open := false, last := [])
    else if p == s.last then Perform(s, Instruction(p))
    else s.(last := p)
  }

  function HearPackets(s: Service, ps: seq<Bytes>): Service
    decreases |ps|
  {
    if ps == [] then s else HearPackets(HearOne(s, ps[0]), ps[1..])
  }

  lemma {:induction false} HearJoin(s: Service, ps: seq<Bytes>, qs: seq<Bytes>)
    ensures HearPackets(s, ps + qs) == HearPackets(HearPackets(s, ps), qs)
    decreases |ps|
  {
    hide HearOne;
    if ps == [] {
      assert ps + qs == qs;
    } else {
      assert (ps + qs)[1..] == ps[1..] + qs;
      HearJoin(HearOne(s, ps[0]), ps[1..], qs);
    }
  }

  function Times<T>(n: nat, x: T): seq<T> {
    seq(n, _ => x)
  }

  lemma OneMore(s: Service, n: nat, p: Bytes)
    ensures HearPackets(s, Times(n + 1, p)) == HearOne(HearPackets(s, Times(n, p)), p)
    ensures HearPackets(s, Times(0, p)) == s
  {
    hide HearOne;
    assert Times(n + 1, p) == Times(n, p) + [p];
    HearJoin(s, Times(n, p), [p]);
    assert [p][1..] == [];
  }

  // ----- Repeated packets -----

  const RESET: Bytes := [0x00, 0x00, 0x00]
  const IDLE: Bytes := [0xFF, 0x00, 0xFF]

  lemma FixedCheck()
    ensures XorAll(RESET) == 0 && XorAll(IDLE) == 0 && Instruction(IDLE) == NoProgramming
  {
    var d1: Bytes, d2: Bytes, e1: Bytes, e2: Bytes := [0x00], [0x00, 0x00], [0xFF], [0xFF, 0x00];
    assert RESET[..2] == d2 && d2[..1] == d1 && d1[..0] == [];
    assert IDLE[..2] == e2 && e2[..1] == e1 && e1[..0] == [];
    assert XorAll(d1) == 0 && XorAll(d2) == 0 && XorAll(e1) == 0xFF && XorAll(e2) == 0xFF;
  }

  lemma {:induction false} HearIdles(s: Service, n: nat)
    requires n > 0
    ensures HearPackets(s, Times(n, IDLE)) == s.(open := false, last := [])
    decreases n
  {
    FixedCheck();
    hide XorAll, Instruction, HearPackets;
    OneMore(s, n - 1, IDLE);
    if n > 1 {
      HearIdles(s, n - 1);
    }
  }

  lemma {:induction false} HearResets(s: Service, n: nat)
    requires n > 0
    ensures HearPackets(s, Times(n, RESET)) == s.(open := true, last := [])
    decreases n
  {
    FixedCheck();
    hide XorAll, Instruction, HearPackets;
    OneMore(s, n - 1, RESET);
    if n > 1 {
      HearResets(s, n - 1);
    }
  }

  /** A well-formed packet with an instruction. */
  predicate Instructs(p: Bytes, i: Programming) {
    |p| >= 3 && XorAll(p) == 0 && p != RESET && Instruction(p) == i && !i.NoProgramming?
  }

  lemma BitTwice(v: bv8, bit: bv8, on: bool)
    ensures WithBit(WithBit(v, bit, on), bit, on) == WithBit(v, bit, on)
  {
  }

  /** Doing the same twice is doing it once. */
  lemma PerformTwice(s: Service, i: Programming)
    ensures Perform(Perform(s, i), i) == Perform(s, i)
  {
    hide WithBit, BitOf, RegisterVariable;
    var m := s.memory;
    assert Written(Written(m, i), i) == Written(m, i) by {
      match i
      case Variable(cv, value, write) =>
      case VariableBit(cv, bit, on, write) => BitWrittenTwice(m, cv, bit, on, write);
      case Register(reg, value, write) =>
      case NoProgramming =>
    }
    NotWrittenUnlessAcked(m, i);
    hide Written, Acks;
  }

  lemma BitWrittenTwice(m: Memory, cv: bv32, bit: bv8, on: bool, write: bool)
    ensures var i := VariableBit(cv, bit, on, write); Written(Written(m, i), i) == Written(m, i)
  {
    hide WithBit;
    if cv in m.cvs {
      BitTwice(m.cvs[cv], bit, on);
    }
  }

  lemma NotWrittenUnlessAcked(m: Memory, i: Programming)
    ensures !Acks(m, i) ==> Written(m, i) == m
  {
    hide WithBit, BitOf, RegisterVariable;
  }

  lemma {:induction false} HearInstruction(s: Service, n: nat, p: Bytes, i: Programming)
    requires n > 0 && s.open && s.last == [] && Instructs(p, i)
    ensures HearPackets(s, Times(n, p)) == if n == 1 then s.(last := p) else Perform(s, i).(last := p)
    decreases n
  {
    hide XorAll, Instruction, HearPackets, Written, Acks;
    OneMore(s, n - 1, p);
    if n > 1 {
      HearInstruction(s, n - 1, p, i);
      PerformTwice(s, i);
    }
  }

  // ----- The packets of an access -----

  /** The packets of a write: power-on cycle, page register, resets, the data packet, resets. */
  function WriteSequence(page: Bytes, data: Bytes, n: nat, m: nat): seq<Bytes> {
    Times(50, IDLE) + Times(6, RESET) + Times(10, page) + Times(12, RESET) + Times(12, RESET)
    + Times(n, data) + Times(m, data) + Times(24, RESET)
  }

  /** The packets of a verify, and of every access in direct mode. */
  function ShortSequence(resets: nat, data: Bytes): seq<Bytes> {
    Times(30, IDLE) + Times(resets, RESET) + Times(20, data)
  }

  function Opened(s: Service): Service {
    s.(open := true, last := [])
  }

  lemma OpensAfterIdles(s: Service, n: nat, resets: nat)
    requires n > 0 && resets > 0
    ensures HearPackets(s, Times(n, IDLE) + Times(resets, RESET)) == Opened(s)
  {
    hide HearPackets, Times;
    HearJoin(s, Times(n, IDLE), Times(resets, RESET));
    HearIdles(s, n);
    HearResets(s.(open := false, last := []), resets);
  }

  lemma ShortIsPerformed(s: Service, resets: nat, data: Bytes, i: Programming)
    requires resets > 0 && Instructs(data, i)
    ensures HearPackets(s, ShortSequence(resets, data)) == Perform(Opened(s), i).(last := data)
  {
    hide HearPackets, Times, Perform, Instructs;
    OpensAfterIdles(s, 30, resets);
    HearJoin(s, Times(30, IDLE) + Times(resets, RESET), Times(20, data));
    HearInstruction(Opened(s), 20, data, i);
  }

  lemma InstructionThenResets(s: Service, n: nat, p: Bytes, i: Programming, resets: nat)
    requires n > 1 && resets > 0 && s.open && s.last == [] && Instructs(p, i)
    ensures HearPackets(s, Times(n, p) + Times(resets, RESET)) == Perform(s, i)
    ensures Perform(s, i).open && Perform(s, i).last == []
  {
    hide HearPackets, Times, Written, Acks, Instructs;
    HearJoin(s, Times(n, p), Times(resets, RESET));
    HearInstruction(s, n, p, i);
    HearResets(Perform(s, i).(last := p), resets);
  }

  lemma TimesAdd<T>(n: nat, m: nat, x: T)
    ensures Times(n, x) + Times(m, x) == Times(n + m, x)
  {
  }

  function PageSet(s: Service, v: bv8): Service {
    Opened(s).(memory := s.memory.(page := v), acked := true)
  }

  /** A write sets the page first and then does what the data packet says. */
  lemma WriteIsPerformed(s: Service, page: Bytes, data: Bytes, n: nat, m: nat, v: bv8, i: Programming)
    requires n + m > 1 && Instructs(page, Register(5, v, true)) && Instructs(data, i)
    ensures HearPackets(s, WriteSequence(page, data, n, m)) == Perform(PageSet(s, v), i)
  {
    TimesAdd(12, 12, RESET);
    TimesAdd(n, m, data);
    var paged := PageSet(s, v);
    assert Perform(Opened(s), Register(5, v, true)) == paged;
    hide HearPackets, Times, Perform, Instructs;
    var first := Times(50, IDLE) + Times(6, RESET);
    var second := Times(10, page) + Times(24, RESET);
    var third := Times(n + m, data) + Times(24, RESET);
    assert WriteSequence(page, data, n, m) == first + second + third;
    OpensAfterIdles(s, 50, 6);
    HearJoin(s, first, second);
    HearJoin(s, first + second, third);
    InstructionThenResets(Opened(s), 10, page, Register(5, v, true), 24);
    InstructionThenResets(paged, n + m, data, i, 24);
  }

  // ----- The packets of the program -----

  lemma SealedInstructs(data: Bytes, i: Programming)
    requires |data| == 2 || |data| == 3
    requires data[0] != 0 && ReadService(data) == i && !i.NoProgramming?
    ensures Instructs(Sealed(data), i)
  {
    SealedChecks(data);
    hide XorAll, ReadService;
    assert Sealed(data)[..|data|] == data;
  }

  lemma RegisterInstructs(reg: bv32, value: bv32, verify: bool)
    requires reg <= 7 && value <= 255
    ensures Instructs(Sealed(RegisterData(reg, value, verify)), Register(Low(reg), Low(value), !verify))
  {
    RegisterRead(reg, value, verify);
    assert RegisterData(reg, value, verify)[0] != 0;
    hide Instructs, Sealed, ReadService, Low;
    SealedInstructs(RegisterData(reg, value, verify), Register(Low(reg), Low(value), !verify));
  }

  /** Index 1024 is sent as index 0. */
  lemma ByteInstructs(cv: bv32, value: bv32, verify: bool)
    requires cv <= 1024 && value <= 255
    ensures Instructs(Sealed(CvByteData(false, cv, value, verify)), Variable(if cv == 1024 then 0 else cv, Low(value), !verify))
  {
    DirectByteReadIff(cv, value, verify);
    ByteStarts(cv, value, verify);
    hide Instructs, Sealed, ReadService, Low, InstructionByte;
    SealedInstructs(CvByteData(false, cv, value, verify), Variable(if cv == 1024 then 0 else cv, Low(value), !verify));
  }

  lemma ByteStarts(cv: bv32, value: bv32, verify: bool)
    requires cv <= 1024
    ensures CvByteData(false, cv, value, verify)[0] != 0
  {
  }

  lemma BitInstructs(cv: bv32, bit: bv32, value: bv32, verify: bool)
    requires cv <= 1023 && bit <= 7 && value <= 1
    ensures Instructs(Sealed(CvBitData(false, cv, bit, value, verify)), VariableBit(cv, Low(bit), value == 1, !verify))
  {
    BitRead(false, cv, bit, value, verify);
    assert CvBitData(false, cv, bit, value, verify)[0] != 0;
    hide Instructs, Sealed, ReadService, Low, CvBitData;
    SealedInstructs(CvBitData(false, cv, bit, value, verify), VariableBit(cv, Low(bit), value == 1, !verify));
  }

  lemma PagePresetInstructs()
    ensures Instructs([0x7D, 0x01, 0x7C], Register(5, 1, true))
  {
    assert RegisterData(5, 1, false) == [0x7D, 0x01];
    XorFirst(0x7D);
    XorNext([0x7D], 0x01);
    assert [0x7D as bv8] + [0x01] == [0x7D, 0x01];
    assert Sealed(RegisterData(5, 1, false)) == [0x7D, 0x01, 0x7C];
    RegisterInstructs(5, 1, false);
    assert Low(5) == 5 && Low(1) == 1;
  }
}
