/** The two bit strings for a locomotive command, and what a decoder makes of them. */
module LocoCommand {
  import opened Signal
  import opened Packets
  import opened Builders
  import opened Decoder

  const PREAMBLE: nat := 15
  const WAIT: nat := 35

  /** A packet under construction: preamble, some bytes and the '0' before the next one. */
  function Partial(w: nat, bytes: seq<bv8>): Bits {
    Ones(w) + Framed(bytes) + [false]
  }

  lemma {:induction false} FramedSnoc(bytes: seq<bv8>, b: bv8)
    ensures Framed(bytes + [b]) == Framed(bytes) + [false] + ByteBits(b)
    decreases |bytes|
  {
    hide ByteBits;
    if bytes == [] {
      assert Framed([b]) == [false] + ByteBits(b) + Framed([]);
    } else {
      assert (bytes + [b])[1..] == bytes[1..] + [b];
      FramedSnoc(bytes[1..], b);
    }
  }

  lemma NextByte(w: nat, bytes: seq<bv8>, b: bv8)
    ensures Partial(w, []) == Ones(w) + [false]
    ensures Partial(w, bytes) + ByteBits(b) + [false] == Partial(w, bytes + [b])
    ensures Partial(w, bytes) + ByteBits(b) + [true] == Frame(Packet(w, bytes + [b]))
  {
    hide ByteBits, Ones;
    FramedSnoc(bytes, b);
  }

  lemma MoreOnes(n: nat, w: nat, bytes: seq<bv8>)
    ensures Ones(n) + Partial(w, bytes) == Partial(n + w, bytes)
  {
    assert Ones(n) + Ones(w) == Ones(n + w);
  }

  lemma {:induction false} StreamAppend(ps: seq<Packet>, p: Packet)
    ensures Stream(ps + [p]) == Stream(ps) + Frame(p)
    decreases |ps|
  {
    hide Frame;
    if ps == [] {
      assert Stream([p]) == Frame(p) + Stream([]);
    } else {
      assert (ps + [p])[1..] == ps[1..] + [p];
      StreamAppend(ps[1..], p);
    }
  }

  lemma XorNext(bytes: seq<bv8>, b: bv8)
    ensures XorAll(bytes + [b]) == XorAll(bytes) ^ b
    ensures XorBits(ByteBits(XorAll(bytes)), ByteBits(b)) == ByteBits(XorAll(bytes + [b]))
  {
    hide ByteBits, XorBits;
    assert (bytes + [b])[..|bytes|] == bytes;
    XorBytes(XorAll(bytes), b);
  }

  /** For modes other than 1 and 2 the second byte goes into the XOR, but not into the packet. */
  method CalcAddressStream(address: bv32, mode: nat) returns (addrstream: Bits, addrerrbyte: Bits)
    ensures addrstream == Partial(PREAMBLE, if mode == 1 || mode == 2 then AddressBytes(address, mode) else AddressBytes(address, mode)[..1])
    ensures addrerrbyte == ByteBits(XorAll(AddressBytes(address, mode)))
  {
    hide ByteBits, Low, Partial;
    var addrbyte, addrbyte2;
    ghost var a := AddressBytes(address, mode);
    if mode == 1 {
      addrbyte := CalcSingleByte(address & 0x7F);
      addrbyte2 := [];
      addrerrbyte := addrbyte;
    } else {
      addrbyte2 := CalcSingleByte(address);
      addrbyte := CalcSingleByte(0xC0 | (address >> 8));
      addrerrbyte := XorTwoBytes(addrbyte, addrbyte2);
      XorNext([a[0]], a[1]);
    }
    XorFirst(a[0]);
    NextByte(PREAMBLE, [], a[0]);
    addrstream := Ones(PREAMBLE) + [false] + addrbyte + [false];
    if mode == 2 {
      addrstream := addrstream + addrbyte2 + [false];
      NextByte(PREAMBLE, [a[0]], a[1]);
    }
    assert [] + [a[0]] == [a[0]] == a[..1];
    assert mode != 1 ==> [a[0]] + [a[1]] == a;
  }

  lemma XorFirst(b: bv8)
    ensures XorAll([b]) == b
  {
    assert [b][..0] == [];
  }

  /** Function groups in the first and in the second bit string. */
  function FunctionPackets1(a: seq<bv8>, func: bv32, nfuncs: nat): seq<Packet> {
    (if nfuncs > 5 then [Packet(WAIT + PREAMBLE, Sealed(a + [GroupTwoByte(func, true)]))] else [])
    + (if nfuncs > 12 then [Packet(WAIT + PREAMBLE, Sealed(a + [0xDE, Low(func >> 13)]))] else [])
  }

  function FunctionPackets2(a: seq<bv8>, func: bv32, nfuncs: nat): seq<Packet> {
    [Packet(PREAMBLE, Sealed(a + [GroupOneByte(func)]))]
    + (if nfuncs > 8 then [Packet(WAIT + PREAMBLE, Sealed(a + [GroupTwoByte(func, false)]))] else [])
    + (if nfuncs > 20 then [Packet(WAIT + PREAMBLE, Sealed(a + [0xDF, Low(func >> 21)]))] else [])
  }

  /** Appends the packet with one byte behind the address. */
  method AddOneByte(bitstream: Bits, w: nat, addrstream: Bits, addrerrbyte: Bits, byte: Bits,
                    ghost a: seq<bv8>, ghost b: bv8, ghost ps: seq<Packet>)
    returns (longer: Bits)
    requires bitstream == Stream(ps) && addrstream == Partial(PREAMBLE, a)
    requires addrerrbyte == ByteBits(XorAll(a)) && byte == ByteBits(b)
    ensures longer == Stream(ps + [Packet(w + PREAMBLE, Sealed(a + [b]))])
  {
    hide ByteBits, Partial, Frame, XorBits, Ones;
    var errdbyte := XorTwoBytes(addrerrbyte, byte);
    XorNext(a, b);
    MoreOnes(w, PREAMBLE, a);
    NextByte(w + PREAMBLE, a, b);
    NextByte(w + PREAMBLE, a + [b], XorAll(a + [b]));
    StreamAppend(ps, Packet(w + PREAMBLE, Sealed(a + [b])));
    longer := bitstream + (Ones(w) + addrstream + byte + [false] + errdbyte + [true]);
  }

  /** Appends the packet with two bytes behind the address. */
  method AddTwoBytes(bitstream: Bits, w: nat, addrstream: Bits, addrerrbyte: Bits, byte: Bits, byte2: Bits,
                     ghost a: seq<bv8>, ghost b: bv8, ghost c: bv8, ghost ps: seq<Packet>)
    returns (longer: Bits)
    requires bitstream == Stream(ps) && addrstream == Partial(PREAMBLE, a)
    requires addrerrbyte == ByteBits(XorAll(a)) && byte == ByteBits(b) && byte2 == ByteBits(c)
    ensures longer == Stream(ps + [Packet(w + PREAMBLE, Sealed(a + [b, c]))])
  {
    hide *;
    var errdbyte := XorTwoBytes(addrerrbyte, byte);
    errdbyte := XorTwoBytes(errdbyte, byte2);
    XorNext(a, b);
    XorNext(a + [b], c);
    assert a + [b] + [c] == a + [b, c];
    TwoBytesFramed(w, a, b, c);
    StreamAppend(ps, Packet(w + PREAMBLE, Sealed(a + [b, c])));
    longer := bitstream + (Ones(w) + addrstream + byte + [false] + byte2 + [false] + errdbyte + [true]);
  }

  lemma TwoBytesFramed(w: nat, a: seq<bv8>, b: bv8, c: bv8)
    ensures var x := XorAll(a + [b, c]);
            Ones(w) + Partial(PREAMBLE, a) + ByteBits(b) + [false] + ByteBits(c) + [false] + ByteBits(x) + [true]
            == Frame(Packet(w + PREAMBLE, Sealed(a + [b, c])))
  {
    hide ByteBits, Partial, Frame, Ones, XorAll;
    MoreOnes(w, PREAMBLE, a);
    NextByte(w + PREAMBLE, a, b);
    NextByte(w + PREAMBLE, a + [b], c);
    assert a + [b] + [c] == a + [b, c];
    NextByte(w + PREAMBLE, a + [b, c], XorAll(a + [b, c]));
  }

  method CalcFunctionStream(bitstream: Bits, addrstream: Bits, addrerrbyte: Bits, func: bv32, nfuncs: nat,
                            ghost a: seq<bv8>, ghost ps: seq<Packet>)
    returns (longer: Bits, bitstream2: Bits)
    requires bitstream == Stream(ps) && addrstream == Partial(PREAMBLE, a) && addrerrbyte == ByteBits(XorAll(a))
    ensures longer == Stream(ps + FunctionPackets1(a, func, nfuncs))
    ensures bitstream2 == Stream(FunctionPackets2(a, func, nfuncs))
  {
    hide ByteBits, Partial, Frame, Stream, GroupOneByte, GroupTwoByte, Low, Sealed;
    longer := bitstream;
    ghost var ps1, ps2 := ps, [];
    NoPackets();
    var funcbyte := CalcFunctionGroupOneByte(func);
    bitstream2 := AddOneByte([], 0, addrstream, addrerrbyte, funcbyte, a, GroupOneByte(func), ps2);
    ps2 := ps2 + [Packet(PREAMBLE, Sealed(a + [GroupOneByte(func)]))];
    if nfuncs > 5 {
      funcbyte := CalcFunctionGroupTwoByte(func, true);
      longer := AddOneByte(longer, WAIT, addrstream, addrerrbyte, funcbyte, a, GroupTwoByte(func, true), ps1);
      ps1 := ps1 + [Packet(WAIT + PREAMBLE, Sealed(a + [GroupTwoByte(func, true)]))];
      if nfuncs > 8 {
        funcbyte := CalcFunctionGroupTwoByte(func, false);
        bitstream2 := AddOneByte(bitstream2, WAIT, addrstream, addrerrbyte, funcbyte, a, GroupTwoByte(func, false), ps2);
        ps2 := ps2 + [Packet(WAIT + PREAMBLE, Sealed(a + [GroupTwoByte(func, false)]))];
        if nfuncs > 12 {
          var funcbyte2 := [true, true, false, true, true, true, true, false];
          FunctionCodes();
          funcbyte := CalcSingleByte(func >> 13);
          longer := AddTwoBytes(longer, WAIT, addrstream, addrerrbyte, funcbyte2, funcbyte, a, 0xDE, Low(func >> 13), ps1);
          ps1 := ps1 + [Packet(WAIT + PREAMBLE, Sealed(a + [0xDE, Low(func >> 13)]))];
          if nfuncs > 20 {
            funcbyte2 := funcbyte2[7 := true];
            funcbyte := CalcSingleByte(func >> 21);
            bitstream2 := AddTwoBytes(bitstream2, WAIT, addrstream, addrerrbyte, funcbyte2, funcbyte, a, 0xDF, Low(func >> 21), ps2);
            ps2 := ps2 + [Packet(WAIT + PREAMBLE, Sealed(a + [0xDF, Low(func >> 21)]))];
          }
        }
      }
    }
    assert ps1 == ps + FunctionPackets1(a, func, nfuncs);
    assert ps2 == FunctionPackets2(a, func, nfuncs);
  }

  lemma NoPackets()
    ensures Stream([]) == []
  {
  }

  lemma FunctionCodes()
    ensures [true, true, false, true, true, true, true, false] == ByteBits(0xDE)
    ensures [true, true, false, true, true, true, true, false][7 := true] == ByteBits(0xDF)
  {
  }

  // ----- The locomotive command -----

  /** The arguments the command turns down. */
  predicate Accepted(address: bv32, direction: bv32, speed: bv32, nspeed: int, mode: nat) {
    1 <= address <= 10239 && direction <= 1 && !Negative(speed) && speed as int <= nspeed + 1 && (mode == 1 ==> address <= 127)
  }

  function Limited(speed: bv32): bv32 {
    if speed > 127 then 127 else speed
  }

  function LocoPackets1(address: bv32, direction: bv32, speed: bv32, func: bv32, nspeed: int, nfuncs: nat, mode: nat)
    : seq<Packet>
  {
    var a := AddressBytes(address, mode);
    [Packet(PREAMBLE, Sealed(a + SpeedBytes(direction, Limited(speed), func, nspeed)))]
    + (if nfuncs > 0 && nspeed > 14 then FunctionPackets1(a, func, nfuncs) else [])
  }

  function LocoPackets2(address: bv32, func: bv32, nspeed: int, nfuncs: nat, mode: nat): seq<Packet> {
    if nfuncs > 0 && nspeed > 14 then FunctionPackets2(AddressBytes(address, mode), func, nfuncs) else []
  }

  /** The bit strings the command translates; the second is empty when there is only one. */
  method LocoBitstreams(address: bv32, direction: bv32, speed: bv32, func: bv32, nspeed: int, nfuncs: nat, mode: nat)
    returns (bitstream: Bits, bitstream2: Bits)
    requires (mode == 1 || mode == 2) && Accepted(address, direction, speed, nspeed, mode)
    ensures bitstream == Stream(LocoPackets1(address, direction, speed, func, nspeed, nfuncs, mode))
    ensures bitstream2 == Stream(LocoPackets2(address, func, nspeed, nfuncs, mode))
  {
    hide ByteBits, Partial, Frame, Stream, Low, Sealed, BaselineByte, Speed28Byte, AddressBytes;
    ghost var a := AddressBytes(address, mode);
    var s := speed;
    if s > 127 {
      s := 127;
    }
    var addrstream, addrerrbyte := CalcAddressStream(address, mode);
    NoPackets();
    var spdrbyte, spdrbyte2;
    ghost var ps: seq<Packet>;
    if s < 2 || nspeed < 15 {
      spdrbyte := CalcBaselineSpeedByte(direction, s, func);
      bitstream := AddOneByte([], 0, addrstream, addrerrbyte, spdrbyte, a, BaselineByte(direction, s, func), []);
    } else if nspeed > 29 {
      spdrbyte, spdrbyte2 := Calc128spstAdvOpBytes(direction, s);
      bitstream := AddTwoBytes([], 0, addrstream, addrerrbyte, spdrbyte, spdrbyte2, a,
                               0x3F, Low(s) | (if direction == 1 then 0x80 else 0), []);
    } else {
      spdrbyte := Calc28spstSpeedByte(direction, s);
      bitstream := AddOneByte([], 0, addrstream, addrerrbyte, spdrbyte, a, Speed28Byte(direction, s), []);
    }
    ps := [Packet(PREAMBLE, Sealed(a + SpeedBytes(direction, s, func, nspeed)))];
    assert [] + ps == ps;
    assert bitstream == Stream(ps);
    assert s == Limited(speed);
    bitstream2 := [];
    if nfuncs > 0 && nspeed > 14 {
      bitstream, bitstream2 := CalcFunctionStream(bitstream, addrstream, addrerrbyte, func, nfuncs, a, ps);
    } else {
      assert ps + [] == ps;
    }
  }

  // ----- What a decoder makes of the packets -----

  function Own(address: bv32, mode: nat): Address {
    if mode == 1 then Short(address) else Long(address)
  }

  function ModeOf(nspeed: int): Mode {
    if nspeed < 15 then Steps14 else Steps28
  }

  /** Fi in the function word. */
  predicate Function(func: bv32, i: nat)
    requires i < 32
  {
    (func >> i) & 1 != 0
  }

  function Functions(func: bv32, first: nat, n: nat): seq<bool>
    requires first + n <= 32
  {
    seq(n, i requires 0 <= i < n => Function(func, first + i))
  }

  /** How many functions, from F0 on, the command sets. */
  function Covered(nspeed: int, nfuncs: nat): (n: nat)
    ensures n <= 29
  {
    if nspeed < 15 then 1
    else if nfuncs == 0 then 0
    else if nfuncs <= 5 then 5
    else if nfuncs <= 8 then 9
    else if nfuncs <= 12 then 13
    else if nfuncs <= 20 then 21
    else 29
  }

  /** The command's direction, speed and functions; functions of groups not sent keep their state. */
  function Commanded(d: Loco, direction: bv32, speed: bv32, func: bv32, nspeed: int, nfuncs: nat): Loco {
    SetFunctions(Loco(direction == 1, Low(Limited(speed)), d.funcs), 0, Functions(func, 0, Covered(nspeed, nfuncs)))
  }

  lemma ShortAddress(address: bv32)
    requires 1 <= address <= 127
    ensures var b := Low(address & 0x7F); 1 <= b <= 127 && b as bv32 == address
  {
  }

  lemma LongAddress(address: bv32)
    requires 1 <= address <= 10239
    ensures var hi, lo := Low(0xC0 | (address >> 8)), Low(address);
            192 <= hi <= 231 && (((hi & 0x3F) as bv32) << 8) | lo as bv32 == address
  {
  }

  lemma AddressDecodes(address: bv32, mode: nat, code: seq<bv8>)
    requires (mode == 1 && 1 <= address <= 127) || (mode == 2 && 1 <= address <= 10239)
    requires code != []
    ensures AddressOf(AddressBytes(address, mode) + code) == (Own(address, mode), code)
  {
    hide Low;
    if mode == 1 {
      ShortAddress(address);
      assert ([Low(address & 0x7F)] + code)[1..] == code;
    } else {
      LongAddressDecodes(address, code);
    }
  }

  lemma LongAddressDecodes(address: bv32, code: seq<bv8>)
    requires 1 <= address <= 10239 && code != []
    ensures AddressOf([Low(0xC0 | (address >> 8)), Low(address)] + code) == (Long(address), code)
  {
    LongAddress(address);
    hide Low;
    var hi, lo := Low(0xC0 | (address >> 8)), Low(address);
    var bytes := [hi, lo] + code;
    assert bytes[0] == hi && bytes[1] == lo && bytes[2..] == code;
  }

  lemma PacketExecutes(address: bv32, mode: nat, m: Mode, d: Loco, code: seq<bv8>)
    requires (mode == 1 && 1 <= address <= 127) || (mode == 2 && 1 <= address <= 10239)
    requires code != []
    ensures Execute(Own(address, mode), m, d, Sealed(AddressBytes(address, mode) + code)) == Obey(m, d, code)
  {
    hide AddressBytes, Obey, AddressOf;
    var data := AddressBytes(address, mode) + code;
    SealedChecks(data);
    assert Sealed(data)[..|data|] == data;
    AddressDecodes(address, mode, code);
  }

  /** A packet for another decoder. */
  lemma PacketIgnored(address: bv32, mode: nat, own: Address, m: Mode, d: Loco, code: seq<bv8>)
    requires (mode == 1 && 1 <= address <= 127) || (mode == 2 && 1 <= address <= 10239)
    requires code != [] && own != Own(address, mode)
    ensures Execute(own, m, d, Sealed(AddressBytes(address, mode) + code)) == d
  {
    hide AddressBytes, Obey, AddressOf, Own;
    var data := AddressBytes(address, mode) + code;
    assert Sealed(data)[..|data|] == data;
    AddressDecodes(address, mode, code);
  }

  lemma BaselineObeyed(d: Loco, direction: bv32, speed: bv32, func: bv32, nspeed: int)
    requires direction <= 1 && speed <= 15 && (nspeed < 15 || speed < 2)
    ensures Obey(ModeOf(nspeed), d, [BaselineByte(direction, speed, func)])
            == SetFunctions(Loco(direction == 1, Low(speed), d.funcs), 0, Functions(func, 0, if nspeed < 15 then 1 else 0))
  {
    var b := BaselineByte(direction, speed, func);
    BaselineBits(direction, speed, func);
    if speed < 2 {
      StopBits(speed, (b & 0x10) >> 4);
    }
    hide BaselineByte, Low;
    assert Functions(func, 0, 1) == [Function(func, 0)];
  }

  lemma BaselineBits(direction: bv32, speed: bv32, func: bv32)
    requires direction <= 1 && speed <= 15
    ensures var b := BaselineByte(direction, speed, func);
            && b & 0xC0 == 0x40 && (b & 0x20 != 0) == (direction == 1)
            && b & 0x0F == Low(speed) && ((b & 0x10) >> 4 != 0) == Function(func, 0) && (b & 0x10) >> 4 <= 1
  {
  }

  lemma StopBits(speed: bv32, u: bv8)
    requires speed < 2 && u <= 1
    ensures Low(speed) == (if speed == 0 then 0 else 1)
    ensures (Low(speed) << 1) | u == if speed == 0 then u else 2 | u
  {
  }

  lemma Speed28Obeyed(d: Loco, direction: bv32, speed: bv32)
    requires direction <= 1 && 2 <= speed <= 29
    ensures Obey(Steps28, d, [Speed28Byte(direction, speed)]) == Loco(direction == 1, Low(speed), d.funcs)
  {
    var b := Speed28Byte(direction, speed);
    Speed28Bits(direction, speed);
    hide Speed28Byte, Low;
  }

  lemma Speed28Bits(direction: bv32, speed: bv32)
    requires direction <= 1 && 2 <= speed <= 29
    ensures var b := Speed28Byte(direction, speed);
            var step := ((b & 0x0F) << 1) | ((b & 0x10) >> 4);
            b & 0xC0 == 0x40 && (b & 0x20 != 0) == (direction == 1) && step >= 4 && step - 2 == Low(speed)
  {
  }

  lemma AdvancedObeyed(m: Mode, d: Loco, direction: bv32, speed: bv32)
    requires direction <= 1 && speed <= 127
    ensures Obey(m, d, [0x3F, Low(speed) | (if direction == 1 then 0x80 else 0)])
            == Loco(direction == 1, Low(speed), d.funcs)
  {
    var b := Low(speed) | (if direction == 1 then 0x80 else 0);
    assert (b & 0x80 != 0) == (direction == 1);
    assert b & 0x7F == Low(speed);
    hide Low;
  }

  lemma SpeedObeyed(d: Loco, direction: bv32, speed: bv32, func: bv32, nspeed: int)
    requires direction <= 1 && speed <= 127 && speed as int <= nspeed + 1 && !(nspeed == 29 && speed == 30)
    ensures Obey(ModeOf(nspeed), d, SpeedBytes(direction, speed, func, nspeed))
            == SetFunctions(Loco(direction == 1, Low(speed), d.funcs), 0, Functions(func, 0, if nspeed < 15 then 1 else 0))
  {
    hide Obey, BaselineByte, Low, Speed28Byte;
    if speed < 2 || nspeed < 15 {
      assert speed <= 15;
      BaselineObeyed(d, direction, speed, func, nspeed);
    } else if nspeed > 29 {
      AdvancedObeyed(Steps28, d, direction, speed);
    } else {
      assert speed <= 29;
      Speed28Obeyed(d, direction, speed);
    }
  }

  /** The one speed the 28-step byte has no room for: step 30 of 29 is received as stop. */
  lemma Step30Of29Stops(d: Loco, direction: bv32, func: bv32)
    requires direction <= 1
    ensures Obey(ModeOf(29), d, SpeedBytes(direction, 30, func, 29)).speed == 0
  {
    var b := Speed28Byte(direction, 30);
    assert b & 0xC0 == 0x40 && b & 0x0F == 0 && (b & 0x10) >> 4 == 1;
    hide Speed28Byte;
  }

  /** So the speed arrives exactly if it is not step 30 of 29. */
  lemma SpeedArrivesIff(d: Loco, direction: bv32, speed: bv32, func: bv32, nspeed: int)
    requires direction <= 1 && speed <= 127 && speed as int <= nspeed + 1
    ensures Obey(ModeOf(nspeed), d, SpeedBytes(direction, speed, func, nspeed)).speed == Low(speed)
            <==> !(nspeed == 29 && speed == 30)
  {
    hide Obey, SpeedBytes;
    if nspeed == 29 && speed == 30 {
      Step30Of29Stops(d, direction, func);
    } else {
      SpeedObeyed(d, direction, speed, func, nspeed);
    }
  }

  // ----- Function groups -----

  lemma GroupOneObeyed(m: Mode, d: Loco, func: bv32)
    ensures Obey(m, d, [GroupOneByte(func)]) == SetFunctions(d, 0, Functions(func, 0, 5))
  {
    var b := GroupOneByte(func);
    assert b & 0xC0 != 0x40 && b & 0xE0 == 0x80;
    assert (b & 0x10 != 0) == Function(func, 0) && (b & 0x01 != 0) == Function(func, 1)
           && (b & 0x02 != 0) == Function(func, 2) && (b & 0x04 != 0) == Function(func, 3)
           && (b & 0x08 != 0) == Function(func, 4);
    hide GroupOneByte, Function;
    assert [b & 0x10 != 0] + LowFour(b) == Functions(func, 0, 5);
  }

  lemma GroupTwoObeyed(m: Mode, d: Loco, func: bv32)
    ensures Obey(m, d, [GroupTwoByte(func, true)]) == SetFunctions(d, 5, Functions(func, 5, 4))
  {
    var b := GroupTwoByte(func, true);
    assert b & 0xC0 != 0x40 && b & 0xE0 != 0x80 && b & 0xF0 == 0xB0;
    assert (b & 0x01 != 0) == Function(func, 5) && (b & 0x02 != 0) == Function(func, 6)
           && (b & 0x04 != 0) == Function(func, 7) && (b & 0x08 != 0) == Function(func, 8);
    hide GroupTwoByte, Function;
    assert LowFour(b) == Functions(func, 5, 4);
  }

  lemma GroupThreeObeyed(m: Mode, d: Loco, func: bv32)
    ensures Obey(m, d, [GroupTwoByte(func, false)]) == SetFunctions(d, 9, Functions(func, 9, 4))
  {
    var b := GroupTwoByte(func, false);
    assert b & 0xC0 != 0x40 && b & 0xE0 != 0x80 && b & 0xF0 == 0xA0;
    assert (b & 0x01 != 0) == Function(func, 9) && (b & 0x02 != 0) == Function(func, 10)
           && (b & 0x04 != 0) == Function(func, 11) && (b & 0x08 != 0) == Function(func, 12);
    hide GroupTwoByte, Function;
    assert LowFour(b) == Functions(func, 9, 4);
  }

  lemma BitsFrom13(func: bv32)
    ensures (Low(func >> 13) & 0x01 != 0) == Function(func, 13)
    ensures (Low(func >> 13) & 0x02 != 0) == Function(func, 14)
    ensures (Low(func >> 13) & 0x04 != 0) == Function(func, 15)
    ensures (Low(func >> 13) & 0x08 != 0) == Function(func, 16)
    ensures (Low(func >> 13) & 0x10 != 0) == Function(func, 17)
    ensures (Low(func >> 13) & 0x20 != 0) == Function(func, 18)
    ensures (Low(func >> 13) & 0x40 != 0) == Function(func, 19)
    ensures (Low(func >> 13) & 0x80 != 0) == Function(func, 20)
  {
  }

  lemma BitsFrom21(func: bv32)
    ensures (Low(func >> 21) & 0x01 != 0) == Function(func, 21)
    ensures (Low(func >> 21) & 0x02 != 0) == Function(func, 22)
    ensures (Low(func >> 21) & 0x04 != 0) == Function(func, 23)
    ensures (Low(func >> 21) & 0x08 != 0) == Function(func, 24)
    ensures (Low(func >> 21) & 0x10 != 0) == Function(func, 25)
    ensures (Low(func >> 21) & 0x20 != 0) == Function(func, 26)
    ensures (Low(func >> 21) & 0x40 != 0) == Function(func, 27)
    ensures (Low(func >> 21) & 0x80 != 0) == Function(func, 28)
  {
  }

  lemma EightFrom13(func: bv32)
    ensures AllEight(Low(func >> 13)) == Functions(func, 13, 8)
  {
    BitsFrom13(func);
    hide Low, Function;
  }

  lemma EightFrom21(func: bv32)
    ensures AllEight(Low(func >> 21)) == Functions(func, 21, 8)
  {
    BitsFrom21(func);
    hide Low, Function;
  }

  lemma ExpansionObeyed(m: Mode, d: Loco, func: bv32)
    ensures Obey(m, d, [0xDE, Low(func >> 13)]) == SetFunctions(d, 13, Functions(func, 13, 8))
    ensures Obey(m, d, [0xDF, Low(func >> 21)]) == SetFunctions(d, 21, Functions(func, 21, 8))
  {
    EightFrom13(func);
    EightFrom21(func);
    hide Low, Functions;
  }

  // ----- All packets of a command -----

  lemma OneExecuted(own: Address, m: Mode, d: Loco, ps: seq<Packet>, p: Packet)
    ensures ExecuteAll(own, m, d, ps + [p]) == Execute(own, m, ExecuteAll(own, m, d, ps), p.bytes)
  {
    hide Execute;
    ExecuteAppend(own, m, d, ps, [p]);
    assert [p][1..] == [];
  }

  function Update(d: Loco, func: bv32, first: nat, n: nat): Loco
    requires first + n <= 32
  {
    SetFunctions(d, first, Functions(func, first, n))
  }

  /** The updates of the function packets, in the order they are sent. */
  function Updates1(d: Loco, func: bv32, nfuncs: nat): Loco {
    var d := if nfuncs > 5 then Update(d, func, 5, 4) else d;
    if nfuncs > 12 then Update(d, func, 13, 8) else d
  }

  function Updates2(d: Loco, func: bv32, nfuncs: nat): Loco {
    var d := Update(d, func, 0, 5);
    var d := if nfuncs > 8 then Update(d, func, 9, 4) else d;
    if nfuncs > 20 then Update(d, func, 21, 8) else d
  }

  /** One more function packet is one more update. */
  lemma FunctionPacketExecuted(address: bv32, mode: nat, m: Mode, d: Loco, ps: seq<Packet>,
                               lead: nat, code: seq<bv8>, func: bv32, first: nat, n: nat)
    requires (mode == 1 && 1 <= address <= 127) || (mode == 2 && 1 <= address <= 10239)
    requires code != [] && first + n <= 32
    requires forall e: Loco :: Obey(m, e, code) == Update(e, func, first, n)
    ensures var own := Own(address, mode);
            ExecuteAll(own, m, d, ps + [Packet(lead, Sealed(AddressBytes(address, mode) + code))])
            == Update(ExecuteAll(own, m, d, ps), func, first, n)
  {
    hide Execute, Obey, ExecuteAll, AddressBytes, Update, Own, Sealed;
    var own := Own(address, mode);
    var e := ExecuteAll(own, m, d, ps);
    OneExecuted(own, m, d, ps, Packet(lead, Sealed(AddressBytes(address, mode) + code)));
    PacketExecutes(address, mode, m, e, code);
  }

  lemma FunctionsExecuted1(address: bv32, mode: nat, m: Mode, d: Loco, ps: seq<Packet>, func: bv32, nfuncs: nat)
    requires (mode == 1 && 1 <= address <= 127) || (mode == 2 && 1 <= address <= 10239)
    ensures var own := Own(address, mode);
            ExecuteAll(own, m, d, ps + FunctionPackets1(AddressBytes(address, mode), func, nfuncs))
            == Updates1(ExecuteAll(own, m, d, ps), func, nfuncs)
  {
    hide Obey, ExecuteAll, AddressBytes, Low, GroupTwoByte, GroupOneByte, Update, Own, Sealed;
    GroupsUpdate(m, func);
    var a := AddressBytes(address, mode);
    var code5, code13 := [GroupTwoByte(func, true)], [0xDE, Low(func >> 13)];
    var qs := ps + if nfuncs > 5 then [Packet(WAIT + PREAMBLE, Sealed(a + code5))] else [];
    FunctionPacketExecuted(address, mode, m, d, ps, WAIT + PREAMBLE, code5, func, 5, 4);
    FunctionPacketExecuted(address, mode, m, d, qs, WAIT + PREAMBLE, code13, func, 13, 8);
    assert nfuncs <= 5 ==> qs == ps;
    assert ps + FunctionPackets1(a, func, nfuncs)
           == qs + if nfuncs > 12 then [Packet(WAIT + PREAMBLE, Sealed(a + code13))] else [];
    assert nfuncs <= 12 ==> ps + FunctionPackets1(a, func, nfuncs) == qs;
  }

  lemma FunctionsExecuted2(address: bv32, mode: nat, m: Mode, d: Loco, func: bv32, nfuncs: nat)
    requires (mode == 1 && 1 <= address <= 127) || (mode == 2 && 1 <= address <= 10239)
    ensures ExecuteAll(Own(address, mode), m, d, FunctionPackets2(AddressBytes(address, mode), func, nfuncs))
            == Updates2(d, func, nfuncs)
  {
    assert ExecuteAll(Own(address, mode), m, d, []) == d;
    hide Obey, ExecuteAll, AddressBytes, Low, GroupTwoByte, GroupOneByte, Update, Own, Sealed;
    GroupsUpdate(m, func);
    var a := AddressBytes(address, mode);
    var code0, code9, code21 := [GroupOneByte(func)], [GroupTwoByte(func, false)], [0xDF, Low(func >> 21)];
    var ps := [Packet(PREAMBLE, Sealed(a + code0))];
    var qs := if nfuncs > 8 then ps + [Packet(WAIT + PREAMBLE, Sealed(a + code9))] else ps;
    FunctionPacketExecuted(address, mode, m, d, [], PREAMBLE, code0, func, 0, 5);
    assert [] + ps == ps;
    FunctionPacketExecuted(address, mode, m, d, ps, WAIT + PREAMBLE, code9, func, 9, 4);
    FunctionPacketExecuted(address, mode, m, d, qs, WAIT + PREAMBLE, code21, func, 21, 8);
    Joined2(a, func, nfuncs);
  }

  /** The packets of the second stream one after the other. */
  lemma Joined2(a: seq<bv8>, func: bv32, nfuncs: nat)
    ensures var p0 := Packet(PREAMBLE, Sealed(a + [GroupOneByte(func)]));
            var p9 := Packet(WAIT + PREAMBLE, Sealed(a + [GroupTwoByte(func, false)]));
            var p21 := Packet(WAIT + PREAMBLE, Sealed(a + [0xDF, Low(func >> 21)]));
            var qs := if nfuncs > 8 then [p0] + [p9] else [p0];
            FunctionPackets2(a, func, nfuncs) == if nfuncs > 20 then qs + [p21] else qs
  {
    hide Low, GroupTwoByte, GroupOneByte, Sealed;
  }

  lemma GroupsUpdate(m: Mode, func: bv32)
    ensures forall d: Loco :: Obey(m, d, [GroupOneByte(func)]) == Update(d, func, 0, 5)
    ensures forall d: Loco :: Obey(m, d, [GroupTwoByte(func, true)]) == Update(d, func, 5, 4)
    ensures forall d: Loco :: Obey(m, d, [GroupTwoByte(func, false)]) == Update(d, func, 9, 4)
    ensures forall d: Loco :: Obey(m, d, [0xDE, Low(func >> 13)]) == Update(d, func, 13, 8)
    ensures forall d: Loco :: Obey(m, d, [0xDF, Low(func >> 21)]) == Update(d, func, 21, 8)
  {
    hide Obey, Low, GroupOneByte, GroupTwoByte, SetFunctions, Functions;
    forall d: Loco
      ensures Obey(m, d, [GroupOneByte(func)]) == Update(d, func, 0, 5)
      ensures Obey(m, d, [GroupTwoByte(func, true)]) == Update(d, func, 5, 4)
      ensures Obey(m, d, [GroupTwoByte(func, false)]) == Update(d, func, 9, 4)
      ensures Obey(m, d, [0xDE, Low(func >> 13)]) == Update(d, func, 13, 8)
      ensures Obey(m, d, [0xDF, Low(func >> 21)]) == Update(d, func, 21, 8)
    {
      GroupOneObeyed(m, d, func);
      GroupTwoObeyed(m, d, func);
      GroupThreeObeyed(m, d, func);
      ExpansionObeyed(m, d, func);
    }
  }

  lemma UpdateAt(d: Loco, func: bv32, first: nat, n: nat, i: nat)
    requires first + n <= 32 && i < |d.funcs|
    ensures var e := Update(d, func, first, n);
            |e.funcs| == |d.funcs| && (e.forward, e.speed) == (d.forward, d.speed)
            && e.funcs[i] == if first <= i < first + n then Function(func, i) else d.funcs[i]
  {
    hide Function;
  }

  predicate InFirst(nfuncs: nat, i: nat) {
    (nfuncs > 5 && 5 <= i < 9) || (nfuncs > 12 && 13 <= i < 21)
  }

  predicate InSecond(nfuncs: nat, i: nat) {
    i < 5 || (nfuncs > 8 && 9 <= i < 13) || (nfuncs > 20 && 21 <= i < 29)
  }

  lemma Updates1At(d: Loco, func: bv32, nfuncs: nat, i: nat)
    requires i < |d.funcs|
    ensures var e := Updates1(d, func, nfuncs);
            |e.funcs| == |d.funcs| && (e.forward, e.speed) == (d.forward, d.speed)
            && e.funcs[i] == if InFirst(nfuncs, i) then Function(func, i) else d.funcs[i]
  {
    hide Update, Function;
    UpdateAt(d, func, 5, 4, i);
    UpdateAt(if nfuncs > 5 then Update(d, func, 5, 4) else d, func, 13, 8, i);
  }

  lemma Updates2At(d: Loco, func: bv32, nfuncs: nat, i: nat)
    requires i < |d.funcs|
    ensures var e := Updates2(d, func, nfuncs);
            |e.funcs| == |d.funcs| && (e.forward, e.speed) == (d.forward, d.speed)
            && e.funcs[i] == if InSecond(nfuncs, i) then Function(func, i) else d.funcs[i]
  {
    hide Update, Function;
    var d1 := Update(d, func, 0, 5);
    UpdateAt(d, func, 0, 5, i);
    var d2 := if nfuncs > 8 then Update(d1, func, 9, 4) else d1;
    UpdateAt(d1, func, 9, 4, i);
    UpdateAt(d2, func, 21, 8, i);
  }

  lemma UpdatesKeep(d: Loco, func: bv32, nfuncs: nat)
    ensures var e := Updates1(d, func, nfuncs); |e.funcs| == |d.funcs| && (e.forward, e.speed) == (d.forward, d.speed)
    ensures var e := Updates2(d, func, nfuncs); |e.funcs| == |d.funcs| && (e.forward, e.speed) == (d.forward, d.speed)
  {
    hide Functions;
  }

  /** The two streams set different functions, so either may come first and any number of times. */
  lemma UpdatesCommute(d: Loco, func: bv32, nfuncs: nat)
    ensures Updates1(Updates2(d, func, nfuncs), func, nfuncs) == Updates2(Updates1(d, func, nfuncs), func, nfuncs)
    ensures Updates1(Updates1(d, func, nfuncs), func, nfuncs) == Updates1(d, func, nfuncs)
    ensures Updates2(Updates2(d, func, nfuncs), func, nfuncs) == Updates2(d, func, nfuncs)
  {
    hide Updates1, Updates2, Function;
    var d1, d2 := Updates1(d, func, nfuncs), Updates2(d, func, nfuncs);
    var d12, d21, d11, d22
      := Updates2(d1, func, nfuncs), Updates1(d2, func, nfuncs), Updates1(d1, func, nfuncs), Updates2(d2, func, nfuncs);
    UpdatesKeep(d, func, nfuncs);
    UpdatesKeep(d1, func, nfuncs);
    UpdatesKeep(d2, func, nfuncs);
    forall i | 0 <= i < |d.funcs|
      ensures d12.funcs[i] == d21.funcs[i] && d11.funcs[i] == d1.funcs[i] && d22.funcs[i] == d2.funcs[i]
    {
      Updates1At(d, func, nfuncs, i);
      Updates2At(d, func, nfuncs, i);
      Updates2At(d1, func, nfuncs, i);
      Updates1At(d2, func, nfuncs, i);
      Updates1At(d1, func, nfuncs, i);
      Updates2At(d2, func, nfuncs, i);
    }
    assert d12.funcs == d21.funcs && d11.funcs == d1.funcs && d22.funcs == d2.funcs;
  }

  /** The groups together set every function up to the last group sent. */
  lemma UpdatesTogether(d: Loco, func: bv32, nspeed: int, nfuncs: nat)
    requires nspeed > 14 && nfuncs > 0
    ensures Updates2(Updates1(d, func, nfuncs), func, nfuncs) == Update(d, func, 0, Covered(nspeed, nfuncs))
  {
    assert Covered(nspeed, nfuncs) == Covered(28, nfuncs);
    var e, f := Updates2(Updates1(d, func, nfuncs), func, nfuncs), Update(d, func, 0, Covered(nspeed, nfuncs));
    assert |e.funcs| == |f.funcs| == |d.funcs| && (e.forward, e.speed) == (f.forward, f.speed);
    hide Update, Updates1, Updates2, Function;
    assert nfuncs <= 5 ==> Covered(nspeed, nfuncs) == 5;
    forall i | 0 <= i < |d.funcs| ensures e.funcs[i] == f.funcs[i] {
      UpdatesKeep(d, func, nfuncs);
      Updates1At(d, func, nfuncs, i);
      Updates2At(Updates1(d, func, nfuncs), func, nfuncs, i);
      UpdateAt(d, func, 0, Covered(nspeed, nfuncs), i);
    }
    assert e.funcs == f.funcs;
  }

  /** Packets that change nothing one by one change nothing together. */
  lemma {:induction false} AllIgnored(own: Address, m: Mode, d: Loco, ps: seq<Packet>)
    requires forall i, e :: 0 <= i < |ps| ==> Execute(own, m, e, ps[i].bytes) == e
    ensures ExecuteAll(own, m, d, ps) == d
    decreases |ps|
  {
    hide Execute;
    if ps != [] {
      assert Execute(own, m, d, ps[0].bytes) == d;
      AllIgnored(own, m, d, ps[1..]);
    }
  }

  /** Any other decoder executes both streams of a command without effect. */
  lemma CommandIgnored(address: bv32, direction: bv32, speed: bv32, func: bv32, nspeed: int, nfuncs: nat, mode: nat,
                       own: Address, m: Mode, d: Loco)
    requires (mode == 1 && 1 <= address <= 127) || (mode == 2 && 1 <= address <= 10239)
    requires own != Own(address, mode)
    ensures ExecuteAll(own, m, d, LocoPackets1(address, direction, speed, func, nspeed, nfuncs, mode)) == d
    ensures ExecuteAll(own, m, d, LocoPackets2(address, func, nspeed, nfuncs, mode)) == d
  {
    hide Execute, ExecuteAll, AddressBytes, Low, GroupOneByte, GroupTwoByte, SpeedBytes, Own, Sealed;
    var a := AddressBytes(address, mode);
    forall code: seq<bv8>, e: Loco | code != [] ensures Execute(own, m, e, Sealed(a + code)) == e {
      PacketIgnored(address, mode, own, m, e, code);
    }
    AllIgnored(own, m, d, LocoPackets1(address, direction, speed, func, nspeed, nfuncs, mode));
    AllIgnored(own, m, d, LocoPackets2(address, func, nspeed, nfuncs, mode));
  }

  /** What the first stream of a command does: direction, speed, and its groups of functions. */
  function FirstEffect(d: Loco, direction: bv32, speed: bv32, func: bv32, nspeed: int, nfuncs: nat): Loco {
    var e := Loco(direction == 1, Low(Limited(speed)), d.funcs);
    if nspeed < 15 then SetFunctions(e, 0, Functions(func, 0, 1))
    else if nfuncs > 0 then Updates1(e, func, nfuncs) else e
  }

  /** What the second one does, which is the first one again for a command of one stream. */
  function SecondEffect(d: Loco, direction: bv32, speed: bv32, func: bv32, nspeed: int, nfuncs: nat): Loco {
    if nfuncs > 0 && nspeed > 14 then Updates2(d, func, nfuncs) else FirstEffect(d, direction, speed, func, nspeed, nfuncs)
  }

  lemma NoneExecuted(own: Address, m: Mode, d: Loco)
    ensures ExecuteAll(own, m, d, []) == d
  {
  }

  lemma LimitedSpeed(speed: bv32, nspeed: int)
    requires speed as int <= nspeed + 1
    ensures Limited(speed) <= 127 && Limited(speed) as int <= nspeed + 1 && (Limited(speed) == 30 ==> speed == 30)
  {
  }

  lemma SpeedPacketExecuted(address: bv32, direction: bv32, speed: bv32, func: bv32, nspeed: int, mode: nat, d: Loco)
    requires (mode == 1 || mode == 2) && Accepted(address, direction, speed, nspeed, mode)
    requires !(nspeed == 29 && speed == 30)
    ensures var first := Packet(PREAMBLE, Sealed(AddressBytes(address, mode) + SpeedBytes(direction, Limited(speed), func, nspeed)));
            ExecuteAll(Own(address, mode), ModeOf(nspeed), d, [first]) == FirstEffect(d, direction, speed, func, nspeed, 0)
  {
    NoneExecuted(Own(address, mode), ModeOf(nspeed), d);
    LimitedSpeed(speed, nspeed);
    hide Execute, Obey, AddressBytes, Low, SpeedBytes, Own, Sealed, Functions, ExecuteAll, SetFunctions, Limited, Negative;
    var own, m, s := Own(address, mode), ModeOf(nspeed), Limited(speed);
    var first := Packet(PREAMBLE, Sealed(AddressBytes(address, mode) + SpeedBytes(direction, s, func, nspeed)));
    assert [] + [first] == [first];
    OneExecuted(own, m, d, [], first);
    PacketExecutes(address, mode, m, d, SpeedBytes(direction, s, func, nspeed));
    SpeedObeyed(d, direction, s, func, nspeed);
  }

  /** Either stream alone does its part. */
  lemma StreamsExecuted(address: bv32, direction: bv32, speed: bv32, func: bv32, nspeed: int, nfuncs: nat, mode: nat, d: Loco)
    requires (mode == 1 || mode == 2) && Accepted(address, direction, speed, nspeed, mode)
    requires !(nspeed == 29 && speed == 30)
    ensures ExecuteAll(Own(address, mode), ModeOf(nspeed), d, LocoPackets1(address, direction, speed, func, nspeed, nfuncs, mode))
            == FirstEffect(d, direction, speed, func, nspeed, nfuncs)
    ensures var ps2 := LocoPackets2(address, func, nspeed, nfuncs, mode);
            ps2 != [] ==> ExecuteAll(Own(address, mode), ModeOf(nspeed), d, ps2)
                          == SecondEffect(d, direction, speed, func, nspeed, nfuncs)
  {
    hide AddressBytes, Low, SpeedBytes, Own, Sealed, Functions, ExecuteAll, Updates1, Updates2, Limited, Negative,
         SetFunctions, FunctionPackets1, FunctionPackets2;
    SpeedPacketExecuted(address, direction, speed, func, nspeed, mode, d);
    var m, a := ModeOf(nspeed), AddressBytes(address, mode);
    var first := Packet(PREAMBLE, Sealed(a + SpeedBytes(direction, Limited(speed), func, nspeed)));
    if nfuncs > 0 && nspeed > 14 {
      FunctionsExecuted1(address, mode, m, d, [first], func, nfuncs);
      FunctionsExecuted2(address, mode, m, d, func, nfuncs);
    } else {
      assert [first] + [] == [first];
    }
  }

  /** Heard in either order and any number of times, the streams come to the command. */
  lemma EffectsTogether(d: Loco, direction: bv32, speed: bv32, func: bv32, nspeed: int, nfuncs: nat)
    ensures var first := e => FirstEffect(e, direction, speed, func, nspeed, nfuncs);
            var second := e => SecondEffect(e, direction, speed, func, nspeed, nfuncs);
            && second(first(d)) == first(second(d)) == Commanded(d, direction, speed, func, nspeed, nfuncs)
            && first(first(d)) == first(d) && second(second(d)) == second(d)
  {
    var e := Loco(direction == 1, Low(Limited(speed)), d.funcs);
    if nspeed < 15 {
      FunctionTwice(e, func);
    } else if nfuncs == 0 {
      NoUpdate(e, func);
    } else {
      UpdatesTogether(e, func, nspeed, nfuncs);
      UpdatesCommute(d, func, nfuncs);
      UpdatesCommute(e, func, nfuncs);
      MoveThenUpdate(d, direction == 1, Low(Limited(speed)), func, nfuncs);
      hide Updates1, Updates2, Low, Functions;
    }
  }

  lemma FunctionTwice(d: Loco, func: bv32)
    ensures var e := SetFunctions(d, 0, Functions(func, 0, 1)); SetFunctions(e, 0, Functions(func, 0, 1)) == e
  {
    hide Function;
    var e := SetFunctions(d, 0, Functions(func, 0, 1));
    assert SetFunctions(e, 0, Functions(func, 0, 1)).funcs == e.funcs;
  }

  /** Direction and speed are set apart from the functions. */
  lemma MoveThenUpdate(d: Loco, forward: bool, speed: bv8, func: bv32, nfuncs: nat)
    ensures Updates2(Loco(forward, speed, d.funcs), func, nfuncs)
            == Loco(forward, speed, Updates2(d, func, nfuncs).funcs)
    ensures var e := Updates1(Loco(forward, speed, d.funcs), func, nfuncs);
            e == Loco(forward, speed, e.funcs)
  {
    hide Function;
  }

  /** Both streams of a command leave the decoder with the commanded direction, speed and functions. */
  lemma CommandExecuted(address: bv32, direction: bv32, speed: bv32, func: bv32, nspeed: int, nfuncs: nat, mode: nat, d: Loco)
    requires (mode == 1 || mode == 2) && Accepted(address, direction, speed, nspeed, mode)
    requires !(nspeed == 29 && speed == 30)
    ensures var own, m := Own(address, mode), ModeOf(nspeed);
            var d1 := ExecuteAll(own, m, d, LocoPackets1(address, direction, speed, func, nspeed, nfuncs, mode));
            ExecuteAll(own, m, d1, LocoPackets2(address, func, nspeed, nfuncs, mode))
            == Commanded(d, direction, speed, func, nspeed, nfuncs)
  {
    var own, m := Own(address, mode), ModeOf(nspeed);
    var d1 := FirstEffect(d, direction, speed, func, nspeed, nfuncs);
    assert ExecuteAll(own, m, d1, []) == d1;
    hide ExecuteAll, Own, LocoPackets1, FirstEffect, Commanded, FunctionPackets2, AddressBytes;
    StreamsExecuted(address, direction, speed, func, nspeed, nfuncs, mode, d);
    StreamsExecuted(address, direction, speed, func, nspeed, nfuncs, mode, d1);
    EffectsTogether(d, direction, speed, func, nspeed, nfuncs);
  }

  lemma NoUpdate(d: Loco, func: bv32)
    ensures SetFunctions(d, 0, Functions(func, 0, 0)) == d
  {
    var e := SetFunctions(d, 0, Functions(func, 0, 0));
    assert e.funcs == d.funcs;
  }
}
