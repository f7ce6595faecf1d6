/** Accessory, programming-on-the-main and service mode packets. */
module Programming {
  import opened Signal
  import opened Packets
  import opened Builders
  import opened Decoder
  import opened LocoCommand

  const LONG_PREAMBLE: nat := 30

  // ----- Accessory decoders (S-9.2.1, section D): 10AAAAAA 1AAACDDO -----

  /** `address` and output `pair` of the decoder; bits 6 to 8 of the address are sent inverted. */
  function AccessoryData(address: bv32, pair: bv32, output: bv32, activate: bv32): (data: seq<bv8>)
    ensures |data| == 2
  {
    [Low(0x80 | (address & 0x3F)), Low(0x80 | ((!address & 0x1C0) >> 2) | (activate << 3) | (pair << 1) | output)]
  }

  function AccessoryBytes(nr: bv32, output: bv32, activate: bv32, offset: bv32): seq<bv8> {
    AccessoryData((nr + offset) / 4, (nr + offset) % 4, output, activate)
  }

  method AccessoryBitstream(nr: bv32, output: bv32, activate: bv32, offset: bv32) returns (status: int, bitstream: Bits)
    ensures status == 0 <==> 1 <= nr <= 2044 && output <= 1 && activate <= 1
    ensures status == 0 ==> bitstream == Stream([Packet(PREAMBLE, Sealed(AccessoryBytes(nr, output, activate, offset)))])
  {
    hide Stream, Sealed, AccessoryData;
    if nr < 1 || nr > 2044 || output > 1 || activate > 1 {
      return 1, [];
    }
    var address := (nr + offset) / 4;
    var pairnr := (nr + offset) % 4;
    bitstream := AccessoryFrame(address, pairnr, output, activate);
    return 0, bitstream;
  }

  method AccessoryFrame(address: bv32, pairnr: bv32, output: bv32, activate: bv32) returns (bitstream: Bits)
    ensures bitstream == Stream([Packet(PREAMBLE, Sealed(AccessoryData(address, pairnr, output, activate)))])
  {
    hide ByteBits, Low, Partial, Frame, XorBits;
    var byte1 := CalcSingleByte(0x80 | (address & 0x3F));
    var byte2 := CalcSingleByte(0x80 | ((!address & 0x1C0) >> 2) | (activate << 3) | (pairnr << 1) | output);
    var byte3 := XorTwoBytes(byte2, byte1);
    ghost var data := AccessoryData(address, pairnr, output, activate);
    SealedPair(data[0], data[1]);
    FrameOfTwo(PREAMBLE, data[0], data[1]);
    return Ones(PREAMBLE) + [false] + byte1 + [false] + byte2 + [false] + byte3 + [true];
  }

  lemma FrameOfTwo(w: nat, a: bv8, b: bv8)
    ensures Ones(w) + [false] + ByteBits(a) + [false] + ByteBits(b) + [false] + ByteBits(XorAll([a, b])) + [true]
            == Stream([Packet(w, Sealed([a, b]))])
  {
    hide ByteBits, Partial, Frame;
    NextByte(w, [], a);
    assert [] + [a] == [a];
    NextByte(w, [a], b);
    assert [a] + [b] == [a, b];
    NextByte(w, [a, b], XorAll([a, b]));
    SingleFrame(Packet(w, Sealed([a, b])));
  }

  lemma SealedPair(a: bv8, b: bv8)
    ensures XorBits(ByteBits(a), ByteBits(b)) == XorBits(ByteBits(b), ByteBits(a)) == ByteBits(XorAll([a, b]))
  {
    hide ByteBits, XorBits;
    XorBytes(a, b);
    XorBytes(b, a);
    XorFirst(a);
    XorNext([a], b);
    assert [a] + [b] == [a, b];
    assert a ^ b == b ^ a;
  }

  lemma SingleFrame(p: Packet)
    ensures Stream([p]) == Frame(p)
  {
    hide Frame;
    assert Stream([p]) == Frame(p) + Stream([]);
  }

  /** What an accessory decoder reads: the number of the output pair, on or off, and which output. */
  datatype Accessory = Accessory(number: bv32, on: bool, output: bool) | NotAccessory

  function ReadAccessory(data: seq<bv8>): Accessory {
    if |data| == 2 && data[0] & 0xC0 == 0x80 && data[1] & 0x80 == 0x80 then
      var address := ((data[0] & 0x3F) as bv32) | (((!data[1] & 0x70) as bv32) << 2);
      Accessory((address << 2) | (((data[1] & 0x06) >> 1) as bv32), data[1] & 0x08 != 0, data[1] & 0x01 != 0)
    else NotAccessory
  }

  lemma AccessoryRead(nr: bv32, output: bv32, activate: bv32, offset: bv32)
    requires 1 <= nr <= 2044 && output <= 1 && activate <= 1 && offset <= 1
    ensures ReadAccessory(AccessoryBytes(nr, output, activate, offset)) == Accessory(nr + offset, activate == 1, output == 1)
  {
  }

  // ----- Configuration variables -----

  function InstructionByte(code: bv32, cv: bv32, verify: bool): bv8 {
    var b := Low(code | (cv >> 8));
    if verify then b & !0x08 else b
  }

  /** Bytes to write or verify a whole variable. */
  function CvByteData(pom: bool, cv: bv32, value: bv32, verify: bool): seq<bv8> {
    [InstructionByte(if pom then 0xEC else 0x7C, cv, verify), Low(cv), Low(value)]
  }

  /** Bytes to write or verify one bit. */
  function CvBitData(pom: bool, cv: bv32, bit: bv32, value: bv32, verify: bool): seq<bv8> {
    var b := Low(0xF0 | (value << 3) | bit);
    [Low((if pom then 0xE8 else 0x78) | (cv >> 8)), Low(cv), if verify then b & !0x10 else b]
  }

  /** The three bytes, the error detection byte and the end bit behind `bytes`. */
  method ThreeBytes(byte2: Bits, byte3: Bits, byte4: Bits, addrerrbyte: Bits,
                    ghost w: nat, ghost a: seq<bv8>, ghost data: seq<bv8>)
    returns (progstream: Bits)
    requires |data| == 3 && addrerrbyte == ByteBits(XorAll(a))
    requires byte2 == ByteBits(data[0]) && byte3 == ByteBits(data[1]) && byte4 == ByteBits(data[2])
    ensures Partial(w, a) + progstream == Frame(Packet(w, Sealed(a + data)))
  {
    hide *;
    XorOfThree(a, data);
    var byte5 := XorTwoBytes(addrerrbyte, byte2);
    byte5 := XorTwoBytes(byte5, byte3);
    byte5 := XorTwoBytes(byte5, byte4);
    ThreeFramed(w, a, data);
    progstream := byte2 + [false] + byte3 + [false] + byte4 + [false] + byte5 + [true];
  }

  lemma XorOfThree(a: seq<bv8>, data: seq<bv8>)
    requires |data| == 3
    ensures XorBits(XorBits(XorBits(ByteBits(XorAll(a)), ByteBits(data[0])), ByteBits(data[1])), ByteBits(data[2]))
            == ByteBits(XorAll(a + data))
  {
    hide *;
    XorNext(a, data[0]);
    XorNext(a + [data[0]], data[1]);
    XorNext(a + [data[0]] + [data[1]], data[2]);
    assert a + [data[0]] + [data[1]] + [data[2]] == a + data;
  }

  lemma SealedIs(data: seq<bv8>)
    ensures Sealed(data) == data + [XorAll(data)]
  {
  }

  lemma ThreeFramed(w: nat, a: seq<bv8>, data: seq<bv8>)
    requires |data| == 3
    ensures Partial(w, a) + (ByteBits(data[0]) + [false] + ByteBits(data[1]) + [false] + ByteBits(data[2]) + [false]
                             + ByteBits(XorAll(a + data)) + [true])
            == Frame(Packet(w, Sealed(a + data)))
  {
    hide *;
    var a1 := a + [data[0]];
    var a2 := a1 + [data[1]];
    var x := XorAll(a + data);
    assert a2 + [data[2]] == a + data;
    SealedIs(a + data);
    NextByte(w, a, data[0]);
    NextByte(w, a1, data[1]);
    NextByte(w, a2, data[2]);
    NextByte(w, a + data, x);
    ByteByByte(Partial(w, a), ByteBits(data[0]), ByteBits(data[1]), ByteBits(data[2]), ByteBits(x));
  }

  lemma ByteByByte(x: Bits, b2: Bits, b3: Bits, b4: Bits, b5: Bits)
    ensures x + (b2 + [false] + b3 + [false] + b4 + [false] + b5 + [true])
            == x + b2 + [false] + b3 + [false] + b4 + [false] + b5 + [true]
  {
  }

  method CalcByteProgramStream(addrerrbyte: Bits, cv: bv32, value: bv32, verify: bool, pom: bool,
                               ghost w: nat, ghost a: seq<bv8>)
    returns (progstream: Bits)
    requires addrerrbyte == ByteBits(XorAll(a))
    ensures Partial(w, a) + progstream == Frame(Packet(w, Sealed(a + CvByteData(pom, cv, value, verify))))
  {
    hide ByteBits, Low, Partial, Frame, Sealed, InstructionByte, XorAll;
    var byte3 := CalcSingleByte(cv);
    var byte2;
    if pom {
      byte2 := InstructionBits(0xEC, cv, verify);
    } else {
      byte2 := InstructionBits(0x7C, cv, verify);
    }
    var byte4 := CalcSingleByte(value);
    progstream := ThreeBytes(byte2, byte3, byte4, addrerrbyte, w, a, CvByteData(pom, cv, value, verify));
  }

  method InstructionBits(code: bv32, cv: bv32, verify: bool) returns (byte2: Bits)
    ensures byte2 == ByteBits(InstructionByte(code, cv, verify))
  {
    hide ByteBits, Low;
    byte2 := CalcSingleByte(code | (cv >> 8));
    if verify {
      ClearCharacter(Low(code | (cv >> 8)), 4);
      byte2 := byte2[4 := false];
    }
  }

  method CalcBitProgramStream(addrerrbyte: Bits, cv: bv32, bit: bv32, value: bv32, verify: bool, pom: bool,
                              ghost w: nat, ghost a: seq<bv8>)
    returns (progstream: Bits)
    requires addrerrbyte == ByteBits(XorAll(a))
    ensures Partial(w, a) + progstream == Frame(Packet(w, Sealed(a + CvBitData(pom, cv, bit, value, verify))))
  {
    hide ByteBits, Low, Partial, Frame, Sealed;
    var byte3 := CalcSingleByte(cv);
    var byte2;
    if pom {
      byte2 := CalcSingleByte(0xE8 | (cv >> 8));
    } else {
      byte2 := CalcSingleByte(0x78 | (cv >> 8));
    }
    var byte4 := CalcSingleByte(0xF0 | (value << 3) | bit);
    if verify {
      ClearCharacter(Low(0xF0 | (value << 3) | bit), 3);
      byte4 := byte4[3 := false];
    }
    progstream := ThreeBytes(byte2, byte3, byte4, addrerrbyte, w, a, CvBitData(pom, cv, bit, value, verify));
  }

  /** Writing a variable of one locomotive on the main track. */
  method PomByteBitstream(address: bv32, cv: bv32, value: bv32, mode: nat) returns (status: int, bitstream: Bits)
    requires mode == 1 || mode == 2
    ensures status == 0 <==> 1 <= address <= 10239 && 1 <= cv <= 1024 && value <= 255 && (mode == 1 ==> address <= 127)
    ensures status == 0 ==>
              bitstream == Stream([Packet(PREAMBLE, Sealed(AddressBytes(address, mode) + CvByteData(true, cv - 1, value, false)))])
  {
    hide ByteBits, Low, Partial, Frame, Sealed;
    var index := cv - 1;
    if address < 1 || address > 10239 || index > 1023 || value > 255 || (address > 127 && mode == 1) {
      return 1, [];
    }
    var addrstream, addrerrbyte := CalcAddressStream(address, mode);
    var progstream := CalcByteProgramStream(addrerrbyte, index, value, false, true, PREAMBLE, AddressBytes(address, mode));
    SingleFrame(Packet(PREAMBLE, Sealed(AddressBytes(address, mode) + CvByteData(true, index, value, false))));
    return 0, addrstream + progstream;
  }

  /** Writing a bit on the main track; variable 1, the address, is not open to it. */
  method PomBitBitstream(address: bv32, cv: bv32, bit: bv32, value: bv32, mode: nat) returns (status: int, bitstream: Bits)
    requires mode == 1 || mode == 2
    ensures status == 0 <==> 1 <= address <= 10239 && 2 <= cv <= 1024 && bit <= 7 && value <= 1 && (mode == 1 ==> address <= 127)
    ensures status == 0 ==>
              bitstream == Stream([Packet(PREAMBLE, Sealed(AddressBytes(address, mode) + CvBitData(true, cv - 1, bit, value, false)))])
  {
    hide ByteBits, Low, Partial, Frame, Sealed;
    var index := cv - 1;
    if address < 1 || address > 10239 || index < 1 || index > 1023 || bit > 7 || value > 1 || (address > 127 && mode == 1) {
      return 1, [];
    }
    var addrstream, addrerrbyte := CalcAddressStream(address, mode);
    var progstream := CalcBitProgramStream(addrerrbyte, index, bit, value, false, true, PREAMBLE, AddressBytes(address, mode));
    SingleFrame(Packet(PREAMBLE, Sealed(AddressBytes(address, mode) + CvBitData(true, index, bit, value, false))));
    return 0, addrstream + progstream;
  }

  // ----- Service mode -----

  /** Register mode: 0111CRRR DDDDDDDD. */
  function RegisterData(reg: bv32, value: bv32, verify: bool): seq<bv8> {
    var b := Low(0x78 | reg);
    [if verify then b & !0x08 else b, Low(value)]
  }

  method RegisterBitstream(reg: bv32, value: bv32, verify: bool) returns (bitstream: Bits)
    ensures bitstream == Stream([Packet(LONG_PREAMBLE, Sealed(RegisterData(reg, value, verify)))])
  {
    hide ByteBits, Low, Partial, Frame, XorBits;
    var byte1 := CalcSingleByte(0x78 | reg);
    if verify {
      ClearCharacter(Low(0x78 | reg), 4);
      byte1 := byte1[4 := false];
    }
    var byte2 := CalcSingleByte(value);
    var byte3 := XorTwoBytes(byte1, byte2);
    ghost var data := RegisterData(reg, value, verify);
    SealedPair(data[0], data[1]);
    FrameOfTwo(LONG_PREAMBLE, data[0], data[1]);
    return Ones(LONG_PREAMBLE) + [false] + byte1 + [false] + byte2 + [false] + byte3 + [true];
  }

  /** Direct mode: the packet has no address byte. */
  method DirectByteBitstream(cv: bv32, value: bv32, verify: bool) returns (bitstream: Bits)
    ensures bitstream == Stream([Packet(LONG_PREAMBLE, Sealed(CvByteData(false, cv, value, verify)))])
  {
    hide ByteBits, Low, Partial, Frame, Sealed, CvByteData;
    var progerrbyte := NoAddress();
    var progstream := CalcByteProgramStream(progerrbyte, cv, value, verify, false, LONG_PREAMBLE, []);
    NextByte(LONG_PREAMBLE, [], 0);
    assert [] + CvByteData(false, cv, value, verify) == CvByteData(false, cv, value, verify);
    SingleFrame(Packet(LONG_PREAMBLE, Sealed(CvByteData(false, cv, value, verify))));
    return Ones(LONG_PREAMBLE) + [false] + progstream;
  }

  method DirectBitBitstream(cv: bv32, bit: bv32, value: bv32, verify: bool) returns (bitstream: Bits)
    ensures bitstream == Stream([Packet(LONG_PREAMBLE, Sealed(CvBitData(false, cv, bit, value, verify)))])
  {
    hide ByteBits, Low, Partial, Frame, Sealed, CvBitData;
    var progerrbyte := NoAddress();
    var progstream := CalcBitProgramStream(progerrbyte, cv, bit, value, verify, false, LONG_PREAMBLE, []);
    NextByte(LONG_PREAMBLE, [], 0);
    assert [] + CvBitData(false, cv, bit, value, verify) == CvBitData(false, cv, bit, value, verify);
    SingleFrame(Packet(LONG_PREAMBLE, Sealed(CvBitData(false, cv, bit, value, verify))));
    return Ones(LONG_PREAMBLE) + [false] + progstream;
  }

  method NoAddress() returns (zeros: Bits)
    ensures zeros == ByteBits(XorAll([]))
  {
    zeros := [false, false, false, false, false, false, false, false];
    assert zeros == ByteBits(0);
  }

  // ----- What a decoder reads from programming packets -----

  datatype Programming =
    | Variable(cv: bv32, value: bv8, write: bool)
    | VariableBit(cv: bv32, bit: bv8, on: bool, write: bool)
    | Register(reg: bv8, value: bv8, write: bool)
    | NoProgramming

  /** CCAA AAAAAAAA DDDDDDDD: CC is 11 to write a byte, 01 to verify it, 10 to handle a bit. */
  function ReadVariable(data: seq<bv8>): Programming
    requires |data| == 3
  {
    var cv := (((data[0] & 0x03) as bv32) << 8) | data[1] as bv32;
    if data[0] & 0x0C == 0x0C then Variable(cv, data[2], true)
    else if data[0] & 0x0C == 0x04 then Variable(cv, data[2], false)
    else if data[0] & 0x0C == 0x08 && data[2] & 0xE0 == 0xE0 then
      VariableBit(cv, data[2] & 0x07, data[2] & 0x08 != 0, data[2] & 0x10 != 0)
    else NoProgramming
  }

  /** A decoder on the programming track. */
  function ReadService(data: seq<bv8>): Programming {
    if |data| == 3 && data[0] & 0xF0 == 0x70 then ReadVariable(data)
    else if |data| == 2 && data[0] & 0xF0 == 0x70 then Register(data[0] & 0x07, data[1], data[0] & 0x08 != 0)
    else NoProgramming
  }

  /** A decoder on the main track: the bytes behind its address. */
  function ReadOnMain(data: seq<bv8>): Programming {
    if |data| == 3 && data[0] & 0xF0 == 0xE0 then ReadVariable(data) else NoProgramming
  }

  lemma ByteRead(pom: bool, cv: bv32, value: bv32, verify: bool)
    requires cv <= 1023 && value <= 255
    ensures (if pom then ReadOnMain else ReadService)(CvByteData(pom, cv, value, verify)) == Variable(cv, Low(value), !verify)
  {
  }

  lemma BitRead(pom: bool, cv: bv32, bit: bv32, value: bv32, verify: bool)
    requires cv <= 1023 && bit <= 7 && value <= 1
    ensures (if pom then ReadOnMain else ReadService)(CvBitData(pom, cv, bit, value, verify))
            == VariableBit(cv, Low(bit), value == 1, !verify)
  {
  }

  lemma RegisterRead(reg: bv32, value: bv32, verify: bool)
    requires reg <= 7 && value <= 255
    ensures ReadService(RegisterData(reg, value, verify)) == Register(Low(reg), Low(value), !verify)
  {
  }

  /** Direct mode lets variable 1025 (index 1024) through; it is sent as variable 1. */
  lemma DirectByteReadIff(cv: bv32, value: bv32, verify: bool)
    requires cv <= 1024 && value <= 255
    ensures ReadService(CvByteData(false, cv, value, verify)) == Variable(cv, Low(value), !verify) <==> cv <= 1023
    ensures cv == 1024 ==> ReadService(CvByteData(false, cv, value, verify)) == Variable(0, Low(value), !verify)
  {
    if cv <= 1023 {
      ByteRead(false, cv, value, verify);
    }
  }

  /** The packet is for this decoder, and behind the address it reads `data`. */
  predicate ReadsOnMain(p: seq<bv8>, own: Address, data: seq<bv8>) {
    |p| > 2 && XorAll(p) == 0 && AddressOf(p[..|p| - 1]) == (own, data)
  }

  lemma OnMain(address: bv32, mode: nat, data: seq<bv8>)
    requires (mode == 1 && 1 <= address <= 127) || (mode == 2 && 1 <= address <= 10239)
    requires data != []
    ensures ReadsOnMain(Sealed(AddressBytes(address, mode) + data), Own(address, mode), data)
  {
    SealedChecks(AddressBytes(address, mode) + data);
    AddressDecodes(address, mode, data);
    hide XorAll, AddressOf, AddressBytes, Own;
    var bytes := AddressBytes(address, mode) + data;
    assert Sealed(bytes)[..|bytes|] == bytes;
  }

  /** A write on the main track is read by its decoder as a write of this variable. */
  lemma PomByteIsRead(address: bv32, cv: bv32, value: bv32, mode: nat)
    requires (mode == 1 && 1 <= address <= 127) || (mode == 2 && 1 <= address <= 10239)
    requires 1 <= cv <= 1024 && value <= 255
    ensures var data := CvByteData(true, cv - 1, value, false);
            ReadsOnMain(Sealed(AddressBytes(address, mode) + data), Own(address, mode), data)
            && ReadOnMain(data) == Variable(cv - 1, Low(value), true)
  {
    hide AddressBytes, Own, ReadOnMain, InstructionByte, Low, ReadsOnMain;
    ByteRead(true, cv - 1, value, false);
    OnMain(address, mode, CvByteData(true, cv - 1, value, false));
  }

  lemma PomBitIsRead(address: bv32, cv: bv32, bit: bv32, value: bv32, mode: nat)
    requires (mode == 1 && 1 <= address <= 127) || (mode == 2 && 1 <= address <= 10239)
    requires 2 <= cv <= 1024 && bit <= 7 && value <= 1
    ensures var data := CvBitData(true, cv - 1, bit, value, false);
            ReadsOnMain(Sealed(AddressBytes(address, mode) + data), Own(address, mode), data)
            && ReadOnMain(data) == VariableBit(cv - 1, Low(bit), value == 1, true)
  {
    hide AddressBytes, Own, ReadOnMain, Low, ReadsOnMain;
    BitRead(true, cv - 1, bit, value, false);
    OnMain(address, mode, CvBitData(true, cv - 1, bit, value, false));
  }
}
