/** Service mode: many copies of a few packets in one write to the serial line. */
module ServiceMode {
  import opened Signal
  import opened Packets
  import opened Builders
  import opened LocoCommand
  import opened Programming
  import opened ServiceDecoder
  import opened Track
  import V3 = TranslatorV3

  // ----- Streams one after the other -----

  function Bodies(ps: seq<Packet>): seq<Bytes> {
    seq(|ps|, i requires 0 <= i < |ps| => ps[i].bytes)
  }

  /** The bits hold packets with these bytes, and 1s between and around them. */
  ghost predicate Bears(bits: Bits, bodies: seq<Bytes>) {
    exists ps: seq<Packet>, k: nat :: bits == Stream(ps) + Ones(k) && Proper(ps) && Bodies(ps) == bodies
  }

  /** A packet stream that is heard as these packets and ends as it began, inside a '1'. */
  ghost predicate Delivers(out: Bytes, bodies: seq<Bytes>) {
    var r := Hear(true, V3.MID_ONE, out);
    r.ok && r.phase == First(1) && Bears(r.bits, bodies)
  }

  lemma BearsParses(bits: Bits, bodies: seq<Bytes>)
    requires Bears(bits, bodies)
    ensures Parse(bits).Packets? && Bodies(Parse(bits).packets) == bodies
  {
    hide Stream, Parse;
    var ps: seq<Packet>, k: nat :| bits == Stream(ps) + Ones(k) && Proper(ps) && Bodies(ps) == bodies;
    ParseStream(ps, k);
  }

  lemma {:induction false} StreamOfBoth(ps: seq<Packet>, qs: seq<Packet>)
    ensures Stream(ps + qs) == Stream(ps) + Stream(qs)
    decreases |ps|
  {
    hide Frame;
    if ps == [] {
      assert ps + qs == qs;
    } else {
      assert (ps + qs)[1..] == ps[1..] + qs;
      StreamOfBoth(ps[1..], qs);
    }
  }

  lemma BodiesJoin(ps: seq<Packet>, qs: seq<Packet>)
    ensures Bodies(ps + qs) == Bodies(ps) + Bodies(qs)
  {
  }

  lemma ProperJoin(ps: seq<Packet>, qs: seq<Packet>)
    requires Proper(ps) && Proper(qs)
    ensures Proper(ps + qs)
  {
  }

  lemma BearsJoin(a: Bits, xs: seq<Bytes>, b: Bits, ys: seq<Bytes>)
    requires Bears(a, xs) && Bears(b, ys)
    ensures Bears(a + b, xs + ys)
  {
    hide Stream, Proper, Bodies, Ones, Preceded;
    var ps: seq<Packet>, k: nat :| a == Stream(ps) + Ones(k) && Proper(ps) && Bodies(ps) == xs;
    var qs: seq<Packet>, l: nat :| b == Stream(qs) + Ones(l) && Proper(qs) && Bodies(qs) == ys;
    if qs == [] {
      EmptyJoins(k, l);
      assert a + b == Stream(ps) + Ones(k + l);
      assert xs + ys == xs by { EmptyJoins(0, 0); }
    } else {
      var rs := Preceded(k, qs);
      PrecededBodies(k, qs);
      StreamOfBoth(ps, rs);
      assert a + b == Stream(ps) + (Ones(k) + Stream(qs)) + Ones(l);
      assert a + b == Stream(ps + rs) + Ones(l);
      BodiesJoin(ps, rs);
      ProperJoin(ps, rs);
    }
  }

  lemma EmptyJoins(k: nat, l: nat)
    ensures Stream([]) == [] && Bodies([]) == [] && Ones(k) + Ones(l) == Ones(k + l)
  {
    StreamEmptyIff([]);
  }

  lemma PrecededBodies(k: nat, ps: seq<Packet>)
    requires ps != [] && Proper(ps)
    ensures var qs := Preceded(k, ps);
            Stream(qs) == Ones(k) + Stream(ps) && Proper(qs) && Bodies(qs) == Bodies(ps)
  {
    hide Stream;
    OnesBefore(k, ps);
  }

  lemma DeliversJoin(a: Bytes, xs: seq<Bytes>, b: Bytes, ys: seq<Bytes>)
    requires Delivers(a, xs) && Delivers(b, ys)
    ensures Delivers(a + b, xs + ys)
  {
    hide Bears, Hear;
    var r := Hear(true, V3.MID_ONE, a);
    HearAppend(true, V3.MID_ONE, a, b);
    assert r == After(r.bits, V3.MID_ONE) by { assert r.bits + [] == r.bits; }
    HearAfter(true, r.bits, V3.MID_ONE, b);
    BearsJoin(r.bits, xs, Hear(true, V3.MID_ONE, b).bits, ys);
  }

  lemma NothingDelivers()
    ensures Delivers([], [])
  {
    assert Stream([]) + Ones(0) == [];
    assert Bodies([]) == [];
  }

  /** The translation of one packet with a long preamble: correct and at most 21 bytes. */
  lemma OnePacketDelivers(bytes: Bytes)
    requires 1 <= |bytes| <= 4
    ensures var bits := Stream([Packet(LONG_PREAMBLE, bytes)]);
            !V3.Trapped(bits) && V3.SafeLead(V3.Buffer(bits))
            && |V3.Translation(bits)| <= MaxSize(bytes)
            && 0 !in V3.Translation(bits) && Delivers(V3.Translation(bits), [bytes])
  {
    var ps := [Packet(LONG_PREAMBLE, bytes)];
    hide Stream, Frame, LeadingOnes, Hear, V3.SafeLead, V3.Translation, V3.Trapped, V3.Misread;
    var bits := Stream(ps);
    assert [] + ps == ps;
    NoPackets();
    StreamLength([], ps[0]);
    PreambleIsSafe(ps);
    V3.TranslationSize(bits);
    V3.LeadSize(bits, 6);
    V3.TranslationMeaning(bits);
    var out := V3.Translation(bits);
    var k: nat :| k <= 4 && Hear(true, V3.MID_ONE, out) == Receiver([true, true] + bits + Ones(k), First(1), true);
    assert [true, true] == Ones(2);
    OnesBefore(2, ps);
    assert Bodies(Preceded(2, ps)) == [bytes];
    assert Bears([true, true] + bits + Ones(k), [bytes]);
  }

  /** What is delivered is received: the packets parse back to exactly these bytes. */
  lemma DeliveredIsReceived(out: Bytes, bodies: seq<Bytes>)
    requires Delivers(out, bodies)
    ensures Received(out).Packets? && Bodies(Received(out).packets) == bodies
  {
    hide Bears;
    BearsParses(Hear(true, V3.MID_ONE, out).bits, bodies);
  }

  // ----- What is sent to a decoder -----

  /** A decoder on the programming track after everything sent. */
  function AfterService(s: Service, sent: Bytes): Service {
    match Received(sent)
    case Packets(ps) => HearPackets(s, Bodies(ps))
    case Malformed => s
  }

  lemma DeliveredIsHeard(s: Service, sent: Bytes, bodies: seq<Bytes>)
    requires Delivers(sent, bodies)
    ensures AfterService(s, sent) == HearPackets(s, bodies)
  {
    hide Delivers, Received, HearPackets;
    DeliveredIsReceived(sent, bodies);
  }

  /** Whatever its memory and its page, a decoder has the value in this variable afterwards, and all
      others as before. */
  ghost predicate WritesVariable(sent: Bytes, cv: bv32, value: bv8) {
    forall s: Service :: AfterService(s, sent).memory.cvs == s.memory.cvs[cv := value]
  }

  /** A decoder acknowledges if and only if it has the value; its memory stays. */
  ghost predicate VerifiesVariable(sent: Bytes, cv: bv32, value: bv8) {
    forall s: Service :: var r := AfterService(s, sent);
      r.memory == s.memory && (r.acked <==> s.acked || Has(s.memory, cv, value))
  }

  ghost predicate WritesBit(sent: Bytes, cv: bv32, bit: bv8, on: bool) {
    forall s: Service :: cv in s.memory.cvs ==>
      AfterService(s, sent).memory == s.memory.(cvs := s.memory.cvs[cv := WithBit(s.memory.cvs[cv], bit, on)])
  }

  ghost predicate VerifiesBit(sent: Bytes, cv: bv32, bit: bv8, on: bool) {
    forall s: Service :: var r := AfterService(s, sent);
      r.memory == s.memory && (cv in s.memory.cvs ==> (r.acked <==> s.acked || BitOf(s.memory.cvs[cv], bit) == on))
  }

  /** Registers 1 to 4 are variables 1 to 4, register 5 is variable 29, 7 and 8 are variables 7 and 8;
      register 6 is the page register. */
  ghost predicate WritesRegister(sent: Bytes, reg: bv32, value: bv8) {
    if reg == 6 then forall s: Service :: AfterService(s, sent).memory == s.memory.(page := value)
    else WritesVariable(sent, if reg == 5 then 28 else reg - 1, value)
  }

  /** Registers 1 to 4 are verified on the page that is set. */
  predicate HasRegister(m: Memory, reg: bv32, value: bv8) {
    if reg == 6 then m.page == value
    else if reg <= 4 then Has(m, Paged(m.page, Low(reg - 1)), value)
    else Has(m, if reg == 5 then 28 else reg - 1, value)
  }

  ghost predicate VerifiesRegister(sent: Bytes, reg: bv32, value: bv8) {
    forall s: Service :: var r := AfterService(s, sent);
      r.memory == s.memory && (r.acked <==> s.acked || HasRegister(s.memory, reg, value))
  }

  lemma RegisterNumbers(reg: bv32, page: bv8)
    requires 1 <= reg <= 8
    ensures Low(reg - 1) == 5 <==> reg == 6
    ensures Low(reg - 1) <= 3 <==> reg <= 4
    ensures Low(reg - 1) == 4 <==> reg == 5
    ensures reg > 6 ==> Low(reg - 1) as bv32 == reg - 1
    ensures reg <= 4 ==> Paged(1, Low(reg - 1)) == reg - 1
  {
  }

  lemma Performed(s: Service, i: Programming)
    ensures Perform(Opened(s), i).memory == Written(s.memory, i) && Perform(Opened(s), i).acked == (s.acked || Acks(s.memory, i))
  {
  }

  /** What a short sequence has a decoder do. */
  ghost predicate Does(sent: Bytes, i: Programming) {
    forall s: Service :: AfterService(s, sent).memory == Written(s.memory, i)
                         && AfterService(s, sent).acked == (s.acked || Acks(s.memory, i))
  }

  /** What a write has a decoder do behind setting the page. */
  ghost predicate DoesPaged(sent: Bytes, page: bv8, i: Programming) {
    forall s: Service :: AfterService(s, sent).memory == Written(s.memory.(page := page), i)
  }

  lemma ShortDoes(sent: Bytes, resets: nat, data: Bytes, i: Programming)
    requires resets > 0 && Instructs(data, i) && Delivers(sent, ShortSequence(resets, data))
    ensures Does(sent, i)
  {
    hide AfterService, Delivers, ShortSequence, Instructs, Written, Acks, Perform, HearPackets;
    forall s: Service
      ensures AfterService(s, sent).memory == Written(s.memory, i) && AfterService(s, sent).acked == (s.acked || Acks(s.memory, i))
    {
      DeliveredIsHeard(s, sent, ShortSequence(resets, data));
      ShortIsPerformed(s, resets, data, i);
      Performed(s, i);
    }
  }

  lemma WriteDoes(sent: Bytes, first: Bytes, page: bv8, data: Bytes, n: nat, m: nat, i: Programming)
    requires n + m > 1 && Instructs(first, Register(5, page, true)) && Instructs(data, i)
    requires Delivers(sent, WriteSequence(first, data, n, m))
    ensures DoesPaged(sent, page, i)
  {
    hide AfterService, Delivers, WriteSequence, Instructs, Written, Acks, HearPackets;
    forall s: Service ensures AfterService(s, sent).memory == Written(s.memory.(page := page), i) {
      DeliveredIsHeard(s, sent, WriteSequence(first, data, n, m));
      WriteIsPerformed(s, first, data, n, m, page, i);
    }
  }

  lemma RegisterCv(reg: bv32, page: bv8)
    requires 1 <= reg <= 8 && reg != 6
    ensures RegisterVariable(page, Low(reg - 1))
            == if reg <= 4 then Paged(page, Low(reg - 1)) else if reg == 5 then 28 else reg - 1
  {
    RegisterNumbers(reg, page);
    hide Paged, Low;
  }

  lemma RegisterIsWritten(sent: Bytes, reg: bv32, value: bv8)
    requires 1 <= reg <= 8 && DoesPaged(sent, 1, Register(Low(reg - 1), value, true))
    ensures WritesRegister(sent, reg, value)
  {
    RegisterNumbers(reg, 1);
    hide AfterService, Low, Paged, RegisterVariable;
    var r := Low(reg - 1);
    if reg != 6 {
      RegisterCv(reg, 1);
      var cv := if reg == 5 then 28 else reg - 1;
      assert RegisterVariable(1, r) == cv;
      forall m: Memory ensures Written(m.(page := 1), Register(r, value, true)).cvs == m.cvs[cv := value] {
      }
    }
  }

  lemma RegisterIsVerified(sent: Bytes, reg: bv32, value: bv8)
    requires 1 <= reg <= 8 && Does(sent, Register(Low(reg - 1), value, false))
    ensures VerifiesRegister(sent, reg, value)
  {
    RegisterNumbers(reg, 1);
    hide AfterService, Low, Paged, RegisterVariable, Has;
    forall s: Service ensures Acks(s.memory, Register(Low(reg - 1), value, false)) == HasRegister(s.memory, reg, value) {
      if reg != 6 {
        RegisterCv(reg, s.memory.page);
      }
    }
  }

  lemma RegisterIsDone(reg: bv32, value: bv32, verify: bool, sent: Bytes)
    requires 1 <= reg <= 8 && value <= 255
    requires var data := Sealed(RegisterData(reg - 1, value, verify));
             Delivers(sent, if verify then ShortSequence(5, data) else WriteSequence(PAGE_PRESET, data, 20, 24))
    ensures if verify then VerifiesRegister(sent, reg, Low(value)) else WritesRegister(sent, reg, Low(value))
  {
    hide *;
    var data := Sealed(RegisterData(reg - 1, value, verify));
    var i := Register(Low(reg - 1), Low(value), !verify);
    RegisterInstructs(reg - 1, value, verify);
    if verify {
      ShortDoes(sent, 5, data, i);
      RegisterIsVerified(sent, reg, Low(value));
    } else {
      PresetIsPage1();
      WriteDoes(sent, PAGE_PRESET, 1, data, 20, 24, i);
      RegisterIsWritten(sent, reg, Low(value));
    }
  }

  lemma PresetIsPage1()
    ensures Instructs(PAGE_PRESET, Register(5, 1, true))
  {
    PagePresetInstructs();
    hide Instructs;
  }

  lemma PageFollows(sent: Bytes, page: bv8, reg: bv8, value: bv8, verify: bool)
    requires reg <= 3 && DoesPaged(sent, page, Register(reg, value, !verify))
    ensures forall s: Service :: AfterService(s, sent).memory.page == page
    ensures !verify ==> WritesVariable(sent, Paged(page, reg), value)
    ensures verify ==> forall s: Service :: AfterService(s, sent).memory.cvs == s.memory.cvs
  {
    hide AfterService, Paged;
  }

  lemma PageIsDone(page: bv32, reg: bv32, value: bv32, verify: bool, sent: Bytes)
    requires reg <= 3 && page <= 255 && value <= 255
    requires Delivers(sent, WriteSequence(Sealed(RegisterData(5, page, false)), Sealed(RegisterData(reg, value, verify)), 15, 15))
    ensures forall s: Service :: AfterService(s, sent).memory.page == Low(page)
    ensures !verify ==> WritesVariable(sent, Paged(Low(page), Low(reg)), Low(value))
    ensures verify ==> forall s: Service :: AfterService(s, sent).memory.cvs == s.memory.cvs
  {
    hide *;
    var i := Register(Low(reg), Low(value), !verify);
    RegisterInstructs(5, page, false);
    RegisterInstructs(reg, value, verify);
    SmallRegister(reg);
    WriteDoes(sent, Sealed(RegisterData(5, page, false)), Low(page), Sealed(RegisterData(reg, value, verify)), 15, 15, i);
    PageFollows(sent, Low(page), Low(reg), Low(value), verify);
  }

  lemma SmallRegister(reg: bv32)
    requires reg <= 3
    ensures Low(reg) <= 3 && Low(5) == 5
  {
  }

  lemma ByteFollows(sent: Bytes, cv: bv32, value: bv8, write: bool)
    requires Does(sent, Variable(cv, value, write))
    ensures if write then WritesVariable(sent, cv, value) else VerifiesVariable(sent, cv, value)
  {
    hide AfterService;
  }

  lemma ByteIsDone(cv: bv32, value: bv32, verify: bool, resets: nat, sent: Bytes)
    requires cv <= 1024 && value <= 255 && resets > 0
    requires Delivers(sent, ShortSequence(resets, Sealed(CvByteData(false, cv, value, verify))))
    ensures var to := if cv == 1024 then 0 else cv;
            if verify then VerifiesVariable(sent, to, Low(value)) else WritesVariable(sent, to, Low(value))
  {
    hide *;
    var to := if cv == 1024 then 0 else cv;
    ByteInstructs(cv, value, verify);
    ShortDoes(sent, resets, Sealed(CvByteData(false, cv, value, verify)), Variable(to, Low(value), !verify));
    ByteFollows(sent, to, Low(value), !verify);
  }

  lemma BitFollows(sent: Bytes, cv: bv32, bit: bv8, on: bool, write: bool)
    requires Does(sent, VariableBit(cv, bit, on, write))
    ensures if write then WritesBit(sent, cv, bit, on) else VerifiesBit(sent, cv, bit, on)
  {
    hide AfterService, WithBit, BitOf;
  }

  lemma BitIsDone(cv: bv32, bit: bv32, value: bv32, verify: bool, sent: Bytes)
    requires cv <= 1023 && bit <= 7 && value <= 1
    requires Delivers(sent, ShortSequence(15, Sealed(CvBitData(false, cv, bit, value, verify))))
    ensures if verify then VerifiesBit(sent, cv, Low(bit), value == 1) else WritesBit(sent, cv, Low(bit), value == 1)
  {
    hide *;
    BitInstructs(cv, bit, value, verify);
    ShortDoes(sent, 15, Sealed(CvBitData(false, cv, bit, value, verify)), VariableBit(cv, Low(bit), value == 1, !verify));
    BitFollows(sent, cv, Low(bit), value == 1, !verify);
  }

  // ----- C strings -----

  function CString(s: Bytes): (r: Bytes)
    ensures |r| <= |s|
  {
    if s == [] || s[0] == 0 then [] else [s[0]] + CString(s[1..])
  }

  lemma {:induction false} CStringOf(s: Bytes, n: nat)
    requires n < |s| && s[n] == 0 && forall i :: 0 <= i < n ==> s[i] != 0
    ensures CString(s) == s[..n]
    decreases n
  {
    if n > 0 {
      CStringOf(s[1..], n - 1);
      assert s[..n] == [s[0]] + s[1..][..n - 1];
    }
  }

  /** No packet of up to four bytes takes more bytes of packet stream. */
  function MaxSize(body: Bytes): (n: nat)
    ensures n <= 26 && (|body| <= 3 ==> n == 21)
  {
    if |body| <= 3 then 21 else 26
  }

  /** The buffer holds a packet stream of `size` bytes for one packet, as a C string. */
  ghost predicate Holds(stream: array<bv8>, size: nat, body: Bytes)
    reads stream
  {
    size <= MaxSize(body) && size < stream.Length && stream[size] == 0 && 0 !in stream[..size] && Delivers(stream[..size], [body])
  }

  /** strcat in a loop: every byte up to the first zero is copied. */
  method AppendTimes(sendStream: Bytes, stream: array<bv8>, times: nat,
                     ghost size: nat, ghost bodies: seq<Bytes>, ghost body: Bytes)
    returns (longer: Bytes)
    requires Holds(stream, size, body) && Delivers(sendStream, bodies)
    ensures |longer| == |sendStream| + times * size
    ensures Delivers(longer, bodies + Times(times, body))
  {
    hide Delivers;
    longer := sendStream;
    var text := CString(stream[..]);
    assert text == stream[..size] by {
      forall i | 0 <= i < size ensures stream[i] != 0 {
        assert stream[i] == stream[..size][i];
      }
      CStringOf(stream[..], size);
      assert stream[..][..size] == stream[..size];
    }
    assert bodies + Times(0, body) == bodies;
    for l := 0 to times
      invariant |longer| == |sendStream| + l * size
      invariant Delivers(longer, bodies + Times(l, body))
    {
      DeliversJoin(longer, bodies + Times(l, body), text, [body]);
      assert bodies + Times(l, body) + [body] == bodies + Times(l + 1, body);
      longer := longer + text;
    }
  }

  // ----- Writing and verifying a register -----

  const PAGE_PRESET: Bytes := [0x7D, 0x01, 0x7C]

  /** The literal bit strings of the fixed packets. */
  const RESET_PACKET: Bits :=
    Ones(LONG_PREAMBLE) + [false] + Text("00000000") + [false] + Text("00000000") + [false] + Text("00000000") + [true]
  const IDLE_PACKET: Bits :=
    Ones(LONG_PREAMBLE) + [false] + Text("11111111") + [false] + Text("00000000") + [false] + Text("11111111") + [true]
  const PAGE_PRESET_PACKET: Bits :=
    Ones(LONG_PREAMBLE) + [false] + Text("01111101") + [false] + Text("00000001") + [false] + Text("01111100") + [true]

  function Text(s: string): Bits {
    seq(|s|, i requires 0 <= i < |s| => s[i] == '1')
  }

  lemma FixedPackets()
    ensures RESET_PACKET == Stream([Packet(LONG_PREAMBLE, RESET)])
    ensures IDLE_PACKET == Stream([Packet(LONG_PREAMBLE, IDLE)])
    ensures PAGE_PRESET_PACKET == Stream([Packet(LONG_PREAMBLE, PAGE_PRESET)])
  {
    FixedBytes();
    hide ByteBits, Text;
    FrameOfThree(LONG_PREAMBLE, 0x00, 0x00, 0x00);
    FrameOfThree(LONG_PREAMBLE, 0xFF, 0x00, 0xFF);
    FrameOfThree(LONG_PREAMBLE, 0x7D, 0x01, 0x7C);
  }

  lemma FixedBytes()
    ensures Text("00000000") == ByteBits(0x00) && Text("11111111") == ByteBits(0xFF)
    ensures Text("01111101") == ByteBits(0x7D) && Text("00000001") == ByteBits(0x01) && Text("01111100") == ByteBits(0x7C)
  {
  }

  lemma FrameOfThree(w: nat, a: bv8, b: bv8, c: bv8)
    ensures Ones(w) + [false] + ByteBits(a) + [false] + ByteBits(b) + [false] + ByteBits(c) + [true]
            == Stream([Packet(w, [a, b, c])])
  {
    hide ByteBits, Partial, Frame;
    NextByte(w, [], a);
    assert [] + [a] == [a];
    NextByte(w, [a], b);
    assert [a] + [b] == [a, b];
    NextByte(w, [a, b], c);
    assert [a, b] + [c] == [a, b, c];
    SingleFrame(Packet(w, [a, b, c]));
  }

  const SEND_STREAM: nat := 4096

  method TranslatePacket(bitstream: Bits, stream: array<bv8>, ghost bytes: Bytes) returns (size: nat)
    requires stream.Length == PKTSIZE && 1 <= |bytes| <= 4 && bitstream == Stream([Packet(LONG_PREAMBLE, bytes)])
    modifies stream
    ensures size <= MaxSize(bytes) && Holds(stream, size, bytes)
  {
    OnePacketDelivers(bytes);
    hide Delivers, Stream, V3.SafeLead, V3.Translation, V3.Trapped;
    size := V3.Translate(bitstream, stream);
  }

  /** The SendStream of a write, assembled packet by packet. */
  method WriteStream(idlestream: array<bv8>, resetstream: array<bv8>, pagestream: array<bv8>, packetstream: array<bv8>,
                     n: nat, m: nat,
                     ghost is_size: nat, ghost rs_size: nat, ghost k: nat, ghost j: nat, ghost page: Bytes, ghost data: Bytes)
    returns (sent: Bytes)
    requires Holds(idlestream, is_size, IDLE) && Holds(resetstream, rs_size, RESET)
    requires Holds(pagestream, k, page) && Holds(packetstream, j, data)
    ensures |sent| == 50 * is_size + 54 * rs_size + (n + m) * j + 10 * k
    ensures Delivers(sent, WriteSequence(page, data, n, m))
  {
    hide Delivers, Holds, Times;
    NothingDelivers();
    sent := [];
    ghost var b: seq<Bytes> := [];
    sent := AppendTimes(sent, idlestream, 50, is_size, b, IDLE);
    b := b + Times(50, IDLE);
    assert b == Times(50, IDLE);
    sent := AppendTimes(sent, resetstream, 6, rs_size, b, RESET);
    b := b + Times(6, RESET);
    sent := AppendTimes(sent, pagestream, 10, k, b, page);
    b := b + Times(10, page);
    sent := AppendTimes(sent, resetstream, 12, rs_size, b, RESET);
    b := b + Times(12, RESET);
    sent := AppendTimes(sent, resetstream, 12, rs_size, b, RESET);
    b := b + Times(12, RESET);
    sent := AppendTimes(sent, packetstream, n, j, b, data);
    b := b + Times(n, data);
    sent := AppendTimes(sent, packetstream, m, j, b, data);
    b := b + Times(m, data);
    sent := AppendTimes(sent, resetstream, 24, rs_size, b, RESET);
  }

  method ShortStream(idlestream: array<bv8>, resetstream: array<bv8>, packetstream: array<bv8>, resets: nat,
                     ghost is_size: nat, ghost rs_size: nat, ghost j: nat, ghost data: Bytes)
    returns (sent: Bytes)
    requires Holds(idlestream, is_size, IDLE) && Holds(resetstream, rs_size, RESET) && Holds(packetstream, j, data)
    ensures |sent| == 30 * is_size + resets * rs_size + 20 * j
    ensures Delivers(sent, ShortSequence(resets, data))
  {
    hide Delivers, Holds, Times;
    NothingDelivers();
    sent := [];
    ghost var b: seq<Bytes> := [];
    sent := AppendTimes(sent, idlestream, 30, is_size, b, IDLE);
    b := b + Times(30, IDLE);
    assert b == Times(30, IDLE);
    sent := AppendTimes(sent, resetstream, resets, rs_size, b, RESET);
    b := b + Times(resets, RESET);
    sent := AppendTimes(sent, packetstream, 20, j, b, data);
  }

  /** The packet streams made once, when service mode is first used. */
  method SmInit(idlestream: array<bv8>, resetstream: array<bv8>, pagepresetstream: array<bv8>)
    returns (is_size: nat, rs_size: nat, ps_size: nat)
    requires idlestream.Length == resetstream.Length == pagepresetstream.Length == PKTSIZE
    requires idlestream != resetstream && idlestream != pagepresetstream && resetstream != pagepresetstream
    modifies idlestream, resetstream, pagepresetstream
    ensures Holds(idlestream, is_size, IDLE) && Holds(resetstream, rs_size, RESET)
    ensures Holds(pagepresetstream, ps_size, PAGE_PRESET)
    ensures is_size <= 21 && rs_size <= 21 && ps_size <= 21
  {
    hide Holds;
    FixedPackets();
    rs_size := TranslatePacket(RESET_PACKET, resetstream, RESET);
    is_size := TranslatePacket(IDLE_PACKET, idlestream, IDLE);
    ps_size := TranslatePacket(PAGE_PRESET_PACKET, pagepresetstream, PAGE_PRESET);
  }

  /** Writing or verifying a register. What goes to the line is the whole SendStream, `y` is the
      length the program computes for it, and it is heard as exactly the counted packets. */
  method Phregister(reg: bv32, value: bv32, verify: bool) returns (status: int, y: nat, sent: Bytes)
    ensures status == 0 <==> 1 <= reg <= 8 && value <= 255
    ensures status == 0 ==> y == |sent| < SEND_STREAM
    ensures status == 0 ==>
              var data := Sealed(RegisterData(reg - 1, value, verify));
              Delivers(sent, if verify then ShortSequence(5, data) else WriteSequence(PAGE_PRESET, data, 20, 24))
    ensures status == 0 ==> if verify then VerifiesRegister(sent, reg, Low(value)) else WritesRegister(sent, reg, Low(value))
  {
    hide Delivers, Stream, Sealed, RegisterData, WriteSequence, ShortSequence, Holds, VerifiesRegister, WritesRegister;
    y, sent := 0, [];
    if reg < 1 || reg > 8 || value > 255 {
      return -1, 0, [];
    }
    var idlestream, resetstream, pagepresetstream := new bv8[PKTSIZE], new bv8[PKTSIZE], new bv8[PKTSIZE];
    var is_size, rs_size, ps_size := SmInit(idlestream, resetstream, pagepresetstream);
    var packetstream := new bv8[PKTSIZE];
    var bitstream := RegisterBitstream(reg - 1, value, verify);
    ghost var data := Sealed(RegisterData(reg - 1, value, verify));
    RegisterSize(reg - 1, value, verify);
    var j := TranslatePacket(bitstream, packetstream, data);
    if !verify {
      sent := WriteStream(idlestream, resetstream, pagepresetstream, packetstream, 20, 24,
                          is_size, rs_size, ps_size, j, PAGE_PRESET, data);
      y := 50 * is_size + 54 * rs_size + 44 * j + 10 * ps_size;
    } else {
      sent := ShortStream(idlestream, resetstream, packetstream, 5, is_size, rs_size, j, data);
      y := 30 * is_size + 5 * rs_size + 20 * j;
    }
    RegisterIsDone(reg, value, verify, sent);
    return 0, y, sent;
  }

  /** Paged mode: the page goes to register 6, then the register of the page is written or verified. */
  method Page(page: bv32, reg: bv32, value: bv32, verify: bool) returns (status: int, y: nat, sent: Bytes)
    ensures status == 0 <==> reg <= 3 && page <= 255 && value <= 255
    ensures status == 0 ==> y == |sent| < SEND_STREAM
    ensures status == 0 ==>
              Delivers(sent, WriteSequence(Sealed(RegisterData(5, page, false)), Sealed(RegisterData(reg, value, verify)), 15, 15))
    ensures status == 0 ==> forall s: Service :: AfterService(s, sent).memory.page == Low(page)
    ensures status == 0 && !verify ==> WritesVariable(sent, Paged(Low(page), Low(reg)), Low(value))
    ensures status == 0 && verify ==> forall s: Service :: AfterService(s, sent).memory.cvs == s.memory.cvs
  {
    hide Delivers, Stream, Sealed, RegisterData, WriteSequence, ShortSequence, Holds, WritesVariable, AfterService;
    y, sent := 0, [];
    if reg > 3 || page > 255 || value > 255 {
      return -1, 0, [];
    }
    var idlestream, resetstream, pagepresetstream := new bv8[PKTSIZE], new bv8[PKTSIZE], new bv8[PKTSIZE];
    var is_size, rs_size, _ := SmInit(idlestream, resetstream, pagepresetstream);
    var packetstream, packetstreamPage := new bv8[PKTSIZE], new bv8[PKTSIZE];
    RegisterSize(reg, value, verify);
    RegisterSize(5, page, false);
    var bitstream := RegisterBitstream(reg, value, verify);
    var j := TranslatePacket(bitstream, packetstream, Sealed(RegisterData(reg, value, verify)));
    bitstream := RegisterBitstream(5, page, false);
    var k := TranslatePacket(bitstream, packetstreamPage, Sealed(RegisterData(5, page, false)));
    sent := WriteStream(idlestream, resetstream, packetstreamPage, packetstream, 15, 15, is_size, rs_size, k, j,
                        Sealed(RegisterData(5, page, false)), Sealed(RegisterData(reg, value, verify)));
    y := 50 * is_size + 54 * rs_size + 30 * j + 10 * k;
    PageIsDone(page, reg, value, verify, sent);
    return 0, y, sent;
  }

  const SHORT_SEND_STREAM: nat := 2048

  /** Direct mode, whole bytes. Variable 1 with an address below 128 goes to register 1 instead. */
  method DirectCvByte(cv: bv32, value: bv32, verify: bool) returns (status: int, y: nat, sent: Bytes)
    ensures status == 0 <==> 1 <= cv <= 1025 && value <= 255
    ensures status == 0 ==> y == |sent|
    ensures status == 0 && cv == 1 && value < 128 ==>
              var data := Sealed(RegisterData(0, value, verify));
              Delivers(sent, if verify then ShortSequence(5, data) else WriteSequence(PAGE_PRESET, data, 20, 24))
    ensures status == 0 && !(cv == 1 && value < 128) ==>
              |sent| < SHORT_SEND_STREAM
              && Delivers(sent, ShortSequence(if verify then 5 else 15, Sealed(CvByteData(false, cv - 1, value, verify))))
    ensures status == 0 && !verify ==> WritesVariable(sent, if cv == 1025 then 0 else cv - 1, Low(value))
    ensures status == 0 && verify ==>
              if cv == 1 && value < 128 then VerifiesRegister(sent, 1, Low(value))
              else VerifiesVariable(sent, if cv == 1025 then 0 else cv - 1, Low(value))
  {
    hide Delivers, Stream, Sealed, RegisterData, CvByteData, WriteSequence, ShortSequence, WritesVariable, VerifiesVariable,
         VerifiesRegister;
    y, sent := 0, [];
    var index := cv - 1;
    if index > 1024 || value > 255 {
      return -1, 0, [];
    }
    if index == 0 && value < 128 {
      status, y, sent := Phregister(1, value, verify);
      return status, y, sent;
    }
    DirectSize(index, 0, value, verify);
    var bitstream := DirectByteBitstream(index, value, verify);
    y, sent := SendDirect(bitstream, if verify then 5 else 15, Sealed(CvByteData(false, index, value, verify)));
    ByteIsDone(index, value, verify, if verify then 5 else 15, sent);
    return 0, y, sent;
  }

  /** Direct mode, single bits. */
  method DirectCvBit(cv: bv32, bit: bv32, value: bv32, verify: bool) returns (status: int, y: nat, sent: Bytes)
    ensures status == 0 <==> 1 <= cv <= 1024 && bit <= 7 && value <= 1
    ensures status == 0 ==> y == |sent| < SHORT_SEND_STREAM
    ensures status == 0 ==> Delivers(sent, ShortSequence(15, Sealed(CvBitData(false, cv - 1, bit, value, verify))))
    ensures status == 0 ==>
              if verify then VerifiesBit(sent, cv - 1, Low(bit), value == 1) else WritesBit(sent, cv - 1, Low(bit), value == 1)
  {
    hide Delivers, Stream, Sealed, CvBitData, ShortSequence, VerifiesBit, WritesBit;
    y, sent := 0, [];
    var index := cv - 1;
    if index > 1023 || bit > 7 || value > 1 {
      return -1, 0, [];
    }
    DirectSize(index, bit, value, verify);
    var bitstream := DirectBitBitstream(index, bit, value, verify);
    y, sent := SendDirect(bitstream, 15, Sealed(CvBitData(false, index, bit, value, verify)));
    BitIsDone(index, bit, value, verify, sent);
    return 0, y, sent;
  }

  method SendDirect(bitstream: Bits, resets: nat, ghost data: Bytes) returns (l: nat, sent: Bytes)
    requires |data| == 4 && resets <= 15 && bitstream == Stream([Packet(LONG_PREAMBLE, data)])
    ensures l == |sent| < SHORT_SEND_STREAM && Delivers(sent, ShortSequence(resets, data))
  {
    hide Delivers, Stream, Sealed, RegisterData, WriteSequence, ShortSequence, Holds;
    var idlestream, resetstream, pagepresetstream := new bv8[PKTSIZE], new bv8[PKTSIZE], new bv8[PKTSIZE];
    var is_size, rs_size, _ := SmInit(idlestream, resetstream, pagepresetstream);
    var packetstream := new bv8[PKTSIZE];
    var j := TranslatePacket(bitstream, packetstream, data);
    sent := ShortStream(idlestream, resetstream, packetstream, resets, is_size, rs_size, j, data);
    l := 30 * is_size + resets * rs_size + 20 * j;
    Product(resets, rs_size);
  }

  lemma Product(n: nat, m: nat)
    requires n <= 15 && m <= 21
    ensures n * m <= 315
  {
  }

  lemma DirectSize(cv: bv32, bit: bv32, value: bv32, verify: bool)
    ensures |Sealed(CvByteData(false, cv, value, verify))| == 4 && |Sealed(CvBitData(false, cv, bit, value, verify))| == 4
  {
  }

  lemma RegisterSize(reg: bv32, value: bv32, verify: bool)
    ensures |Sealed(RegisterData(reg, value, verify))| == 3
  {
  }

  // ----- Variables by page -----

  /** C's division of a signed word by four. */
  function Quarter(v: bv32): bv32 {
    if Negative(v) then 0 - ((0 - v) >> 2) else v >> 2
  }

  function CalcPage(cv: bv32): bv32 {
    Quarter(cv - 1) + 1
  }

  /** The variable that page and register of `cv` come to. */
  function PagedVariable(cv: bv32): bv32 {
    Paged(Low(CalcPage(cv)), Low((cv - 1) & 3))
  }

  /** What the range check lets through: up to variable 1020, and 0 down to -6. */
  predicate PageFits(cv: bv32) {
    cv <= 1020 || cv >= 0xFFFF_FFFA
  }

  lemma PageFitsIff(cv: bv32)
    ensures CalcPage(cv) <= 255 <==> PageFits(cv)
    ensures (cv - 1) & 3 <= 3
  {
  }

  /** The variable meant is reached if and only if it exists; 0 down to -6 are taken for others. */
  lemma PagedVariableIff(cv: bv32)
    requires PageFits(cv)
    ensures PagedVariable(cv) == cv - 1 <==> 1 <= cv <= 1020
    ensures PagedVariable(0) == 3 && PagedVariable(0xFFFF_FFFF) == 2 && PagedVariable(0xFFFF_FFFE) == 1
    ensures PagedVariable(0xFFFF_FFFD) == 1020 && PagedVariable(0xFFFF_FFFC) == 1023
    ensures PagedVariable(0xFFFF_FFFB) == 1022 && PagedVariable(0xFFFF_FFFA) == 1021
  {
  }

  /** Paged mode for a variable. */
  method PageCv(cv: bv32, value: bv32, verify: bool) returns (status: int, y: nat, sent: Bytes)
    ensures status == 0 <==> PageFits(cv) && value <= 255
    ensures status == 0 && !verify ==> WritesVariable(sent, PagedVariable(cv), Low(value))
    ensures status == 0 && !verify && 1 <= cv <= 1020 ==> WritesVariable(sent, cv - 1, Low(value))
    ensures status == 0 && verify ==> forall s: Service :: AfterService(s, sent).memory.cvs == s.memory.cvs
  {
    hide WritesVariable, AfterService, Delivers, WriteSequence, CalcPage, Paged, Low;
    PageFitsIff(cv);
    if PageFits(cv) {
      PagedVariableIff(cv);
    }
    status, y, sent := Page(CalcPage(cv), (cv - 1) & 3, value, verify);
  }

  // ----- Reading -----

  /** Whether a decoder acknowledges something of what is sent. */
  function Answer(s: Service, sent: Bytes): bool {
    AfterService(s.(acked := false), sent).acked
  }

  /** One more bit at the low end. */
  function Shifted(rc: bv32, ack: bool): bv32 {
    (rc << 1) + (if ack then 1 else 0)
  }

  predicate HasBit(v: bv8, bit: nat)
    requires bit < 8
  {
    v & Mask(7 - bit) != 0
  }

  /** The bits of a byte from `bit` on, as a number. */
  function Upper(v: bv8, bit: nat): bv32
    requires bit <= 8
    decreases 8 - bit
  {
    if bit == 8 then 0 else Shifted(Upper(v, bit + 1), HasBit(v, bit))
  }

  lemma UpperNext(v: bv8, bit: nat)
    requires bit <= 8
    ensures Upper(v, bit) == if bit == 8 then 0 else Shifted(Upper(v, bit + 1), HasBit(v, bit))
  {
    hide Shifted, HasBit;
  }

  lemma WholeByte(v: bv8)
    ensures Upper(v, 0) == v as bv32
  {
    hide *;
    UpperNext(v, 8);
    UpperNext(v, 7);
    UpperNext(v, 6);
    UpperNext(v, 5);
    UpperNext(v, 4);
    UpperNext(v, 3);
    UpperNext(v, 2);
    UpperNext(v, 1);
    UpperNext(v, 0);
    EightBits(v);
  }

  lemma BitsAre(v: bv8)
    ensures HasBit(v, 7) == (v & 0x80 != 0) && HasBit(v, 6) == (v & 0x40 != 0)
    ensures HasBit(v, 5) == (v & 0x20 != 0) && HasBit(v, 4) == (v & 0x10 != 0)
    ensures HasBit(v, 3) == (v & 0x08 != 0) && HasBit(v, 2) == (v & 0x04 != 0)
    ensures HasBit(v, 1) == (v & 0x02 != 0) && HasBit(v, 0) == (v & 0x01 != 0)
  {
  }

  lemma EightBits(v: bv8)
    ensures Shifted(Shifted(Shifted(Shifted(Shifted(Shifted(Shifted(Shifted(
              0, HasBit(v, 7)), HasBit(v, 6)), HasBit(v, 5)), HasBit(v, 4)), HasBit(v, 3)), HasBit(v, 2)), HasBit(v, 1)), HasBit(v, 0))
            == v as bv32
  {
    BitsAre(v);
    hide HasBit;
  }

  /** The number of a bit as the loop counts it. */
  function Word(bit: nat): bv32
    requires bit < 8
  {
    match bit
    case 0 => 0
    case 1 => 1
    case 2 => 2
    case 3 => 3
    case 4 => 4
    case 5 => 5
    case 6 => 6
    case 7 => 7
  }

  lemma WordOfBit(v: bv8, bit: nat)
    requires bit < 8
    ensures Word(bit) <= 7 && (BitOf(v, Low(Word(bit))) <==> HasBit(v, bit))
  {
  }

  lemma Answered(sent: Bytes, cv: bv32, bit: bv8, s: Service)
    requires VerifiesBit(sent, cv, bit, true) && cv in s.memory.cvs
    ensures Answer(s, sent) == BitOf(s.memory.cvs[cv], bit) && AfterService(s, sent).memory == s.memory
  {
    hide AfterService, BitOf;
  }

  /** Asking whether a bit is 1. */
  method AskBit(cv: bv32, bit: nat, s: Service) returns (ack: bool, after: Service)
    requires 1 <= cv <= 1024 && bit < 8 && cv - 1 in s.memory.cvs
    ensures after.memory == s.memory && ack == HasBit(s.memory.cvs[cv - 1], bit)
  {
    hide *;
    WordOfBit(s.memory.cvs[cv - 1], bit);
    var status, y, sent := DirectCvBit(cv, Word(bit), 1, true);
    Answered(sent, cv - 1, Low(Word(bit)), s);
    ack := Answer(s, sent);
    after := AfterService(s, sent);
  }

  /** A variable is read by asking for each of its bits; what comes back is its value. */
  method GetCvByte(cv: bv32, decoder: Service) returns (rc: bv32)
    requires 1 <= cv <= 1024 && cv - 1 in decoder.memory.cvs
    ensures rc == decoder.memory.cvs[cv - 1] as bv32
  {
    hide *;
    ghost var v := decoder.memory.cvs[cv - 1];
    WholeByte(v);
    UpperNext(v, 8);
    rc := 0;
    var s := decoder;
    for bit := 8 downto 0
      invariant s.memory == decoder.memory && rc == Upper(v, bit)
    {
      var ack;
      ack, s := AskBit(cv, bit, s);
      UpperNext(v, bit);
      rc := Shifted(rc, ack);
    }
  }

  lemma LowOf(v: bv8, i: bv32)
    ensures v as bv32 < 256 && Low(v as bv32) == v
    ensures i < 256 && Low(i) == v ==> i == v as bv32
  {
  }

  lemma RegisterAnswered(sent: Bytes, reg: bv32, value: bv8, s: Service)
    requires VerifiesRegister(sent, reg, value)
    ensures Answer(s, sent) == HasRegister(s.memory, reg, value) && AfterService(s, sent).memory == s.memory
  {
    hide AfterService, HasRegister;
  }

  method AskRegister(reg: bv32, value: bv32, s: Service) returns (ack: bool, after: Service)
    requires 1 <= reg <= 8 && value <= 255
    ensures after.memory == s.memory && ack == HasRegister(s.memory, reg, Low(value))
  {
    hide *;
    var status, y, sent := Phregister(reg, value, true);
    RegisterAnswered(sent, reg, Low(value), s);
    ack := Answer(s, sent);
    after := AfterService(s, sent);
  }

  /** A register is read by trying all values; 256 means that none was acknowledged. */
  method GetPhregister(reg: bv32, decoder: Service) returns (i: bv32)
    requires 1 <= reg <= 8
    ensures i <= 256 && forall v: bv8 :: HasRegister(decoder.memory, reg, v) <==> i == v as bv32
  {
    hide *;
    i := 0;
    var s := decoder;
    var found := false;
    while i < 256 && !found
      invariant i <= 256 && s.memory == decoder.memory
      invariant found ==> i < 256 && HasRegister(decoder.memory, reg, Low(i))
      invariant forall j: bv32 :: j < i ==> !HasRegister(decoder.memory, reg, Low(j))
      decreases 256 - i, !found
    {
      found, s := AskRegister(reg, i, s);
      if !found {
        i := i + 1;
      }
    }
    RegisterHasOne(decoder.memory, reg);
    forall v: bv8 ensures HasRegister(decoder.memory, reg, v) <==> i == v as bv32 {
      LowOf(v, i);
    }
  }

  lemma RegisterHasOne(m: Memory, reg: bv32)
    ensures forall v: bv8, w: bv8 :: HasRegister(m, reg, v) && HasRegister(m, reg, w) ==> v == w
  {
    hide Paged, Low;
  }

  // ----- The idle packet of the pool -----

  const POOL_IDLE_PACKET: Bits := Text("1111111111111110111111110000000000111111111")

  lemma PoolIdleText()
    ensures POOL_IDLE_PACKET
            == Text("111111111111111") + [false] + Text("11111111") + [false] + Text("00000000") + [false] + Text("11111111") + [true]
    ensures Text("111111111111111") == Ones(15)
  {
  }

  lemma PoolIdleStream()
    ensures POOL_IDLE_PACKET == Stream([Packet(PREAMBLE, IDLE)])
  {
    PoolIdleText();
    FixedBytes();
    hide ByteBits, Text, Stream;
    FrameOfThree(PREAMBLE, 0xFF, 0x00, 0xFF);
  }

  /** The literal the pool starts with is translated and received as FF 00 FF. */
  lemma PoolIdleIsReceived()
    ensures V3.SafeLead(V3.Buffer(POOL_IDLE_PACKET)) && 0 < |V3.Translation(POOL_IDLE_PACKET)| < PKTSIZE
    ensures Received(V3.Translation(POOL_IDLE_PACKET)) == Packets([Packet(PREAMBLE + 2, IDLE)])
  {
    var ps := [Packet(PREAMBLE, IDLE)];
    PoolIdleStream();
    hide Stream, V3.SafeLead, V3.Translation, V3.Trapped, V3.Misread, LeadingOnes, Received, Text;
    assert |POOL_IDLE_PACKET| == 43 by { PoolIdleLength(); }
    PreambleIsSafe(ps);
    V3.TranslationSize(POOL_IDLE_PACKET);
    Delivered(ps);
    NeverEmpty(POOL_IDLE_PACKET);
    assert Preceded(2, ps) == [Packet(PREAMBLE + 2, IDLE)];
  }

  lemma PoolIdleLength()
    ensures |POOL_IDLE_PACKET| == 43
  {
  }
}
