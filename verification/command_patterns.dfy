/** Both bit strings of every locomotive command are made of the patterns of routines 1 and 2. */
module CommandPatterns {
  import opened Signal
  import opened Packets
  import opened Search
  import opened TranslatorV2
  import opened Builders
  import opened LocoCommand
  import opened ShortPackets

  /** With at least `f` 1s that can still be taken along, the rest can be covered. */
  ghost predicate From(f: nat, rest: Bits) {
    forall g: nat :: f <= g <= 3 ==> Flexible(g, rest)
  }

  // ----- Runs and blocks -----

  lemma RunFrom(f: nat, m: nat, g: nat, rest: Bits)
    requires Best(f, m) >= g && From(g, rest)
    ensures From(f, Ones(m) + [false] + rest)
  {
    hide Flexible;
    forall h: nat | f <= h <= 3 ensures Flexible(h, Ones(m) + [false] + rest) {
      FlexibleRun(h, m, rest);
    }
  }

  lemma BlockFrom(f: nat, t: Bits, k: nat, rest: Bits)
    requires (|t| + 1) / 5 <= f <= 3 && From(f - (|t| + 1) / 5, rest)
    ensures From(f, t + Ones(5 * k) + [false] + rest)
  {
    hide Flexible;
    forall h: nat | f <= h <= 3 ensures Flexible(h, t + Ones(5 * k) + [false] + rest) {
      BlockIsFlexible(h, t, k, rest);
    }
  }

  lemma PlainBlockFrom(f: nat, t: Bits, rest: Bits)
    requires (|t| + 1) / 5 <= f <= 3 && From(f - (|t| + 1) / 5, rest)
    ensures From(f, t + [false] + rest)
  {
    hide Flexible;
    BlockFrom(f, t, 0, rest);
    assert t + Ones(0) == t;
  }

  /** A block that can be taken along as a whole restores all there is. */
  lemma {:induction false} ShortBlockFrom(f: nat, t: Bits, rest: Bits)
    requires |t| <= f <= 3 && From(3, rest)
    ensures From(f, t + [false] + rest)
    decreases |t|
  {
    hide From;
    var m, u := FirstRun(t);
    if m < |t| {
      assert t + [false] + rest == Ones(m) + [false] + (u + [false] + rest);
      ShortBlockFrom(3, u, rest);
      RunFrom(f, m, 3, u + [false] + rest);
    } else {
      RunFrom(f, m, 3, rest);
    }
  }

  lemma FiveBitsFrom(t: Bits, rest: Bits)
    requires |t| == 5 && From(2, rest)
    ensures From(1, t + [false] + rest)
  {
    assert From(3, rest);
    hide From;
    var m, u := FirstRun(t);
    if m >= 5 {
      RunFrom(1, m, 3, rest);
    } else {
      var behind := u + [false] + rest;
      assert t + [false] + rest == Ones(m) + [false] + behind;
      if m == 0 {
        PlainBlockFrom(3, u, rest);
      } else {
        ShortBlockFrom(Best(1, m), u, rest);
      }
      RunFrom(1, m, Best(1, m), behind);
    }
  }

  // ----- Bytes -----

  lemma AnyByteFrom(b: bv8, f: nat, rest: Bits)
    requires 1 <= f <= 3 && From(f - 1, rest)
    ensures From(f, ByteBits(b) + [false] + rest)
  {
    hide From;
    PlainBlockFrom(f, ByteBits(b), rest);
  }

  lemma ZeroByteFrom(b: bv8, rest: Bits)
    requires !Bit(b, 0) && From(2, rest)
    ensures From(0, ByteBits(b) + [false] + rest)
  {
    hide From, Bit;
    var u := ByteBits(b)[1..];
    assert ByteBits(b) + [false] + rest == Ones(0) + [false] + (u + [false] + rest);
    PlainBlockFrom(3, u, rest);
    RunFrom(0, 0, 3, u + [false] + rest);
  }

  /** 10xxxxxx, an instruction for functions. */
  lemma GroupByteFrom(b: bv8, rest: Bits)
    requires Bit(b, 0) && !Bit(b, 1) && From(2, rest)
    ensures From(1, ByteBits(b) + [false] + rest)
  {
    hide From, Bit;
    var u := ByteBits(b)[2..];
    assert ByteBits(b) + [false] + rest == Ones(1) + [false] + (u + [false] + rest);
    PlainBlockFrom(3, u, rest);
    RunFrom(1, 1, 3, u + [false] + rest);
  }

  /** 110xxxxx or 11100xxx, the first byte of a long address. */
  predicate LongStart(b: bv8) {
    Bit(b, 0) && Bit(b, 1) && (Bit(b, 2) ==> !Bit(b, 3) && !Bit(b, 4))
  }

  lemma LongByteFrom(b: bv8, rest: Bits)
    requires LongStart(b) && From(2, rest)
    ensures From(0, ByteBits(b) + [false] + rest)
  {
    assert From(3, rest);
    hide From, Bit;
    if Bit(b, 2) {
      var u := ByteBits(b)[5..];
      var behind := u + [false] + rest;
      assert ByteBits(b) + [false] + rest == Ones(3) + [false] + (Ones(0) + [false] + behind);
      ShortBlockFrom(3, u, rest);
      RunFrom(0, 0, 3, behind);
      RunFrom(0, 3, 0, Ones(0) + [false] + behind);
    } else {
      var u := ByteBits(b)[3..];
      assert ByteBits(b) + [false] + rest == Ones(2) + [false] + (u + [false] + rest);
      FiveBitsFrom(u, rest);
      RunFrom(0, 2, 1, u + [false] + rest);
    }
  }

  lemma CodeBits()
    ensures ByteBits(0xDE) == Ones(2) + [false] + Ones(4) + [false]
    ensures ByteBits(0xDF) == Ones(2) + [false] + Ones(5)
    ensures ByteBits(0x3F) == Ones(0) + [false] + Ones(0) + [false] + Ones(6)
  {
  }

  /** The codes of the instructions with two bytes. */
  lemma CodeByteFrom(b: bv8, rest: Bits)
    requires b == 0xDE || b == 0xDF || b == 0x3F
    requires From(3, rest)
    ensures From(0, ByteBits(b) + [false] + rest)
  {
    CodeBits();
    hide From, ByteBits, Ones, Best;
    BestOfCodes();
    if b == 0xDE {
      var last := Ones(0) + [false] + rest;
      assert Ones(0) == [] by { NoOnes(); }
      var behind := Ones(4) + [false] + last;
      assert ByteBits(b) + [false] + rest == Ones(2) + [false] + behind;
      RunFrom(0, 0, 3, rest);
      RunFrom(1, 4, 0, last);
      RunFrom(0, 2, 1, behind);
    } else if b == 0xDF {
      var behind := Ones(5) + [false] + rest;
      assert ByteBits(b) + [false] + rest == Ones(2) + [false] + behind;
      RunFrom(1, 5, 3, rest);
      RunFrom(0, 2, 1, behind);
    } else {
      var last := Ones(6) + [false] + rest;
      var behind := Ones(0) + [false] + last;
      assert ByteBits(b) + [false] + rest == Ones(0) + [false] + behind;
      RunFrom(3, 6, 3, rest);
      RunFrom(0, 0, 3, last);
      assert From(3, behind) by { FromMore(0, 3, behind); }
      RunFrom(0, 0, 3, behind);
    }
  }

  lemma NoOnes()
    ensures Ones(0) == []
  {
  }

  lemma BestOfCodes()
    ensures Best(0, 0) == 3 && Best(1, 4) == 0 && Best(0, 2) == 1 && Best(1, 5) == 3 && Best(3, 6) == 3
  {
  }

  lemma FromMore(f: nat, g: nat, rest: Bits)
    requires f <= g && From(f, rest)
    ensures From(g, rest)
  {
  }

  // ----- Packets -----

  /** Bytes, each with the '0' behind it. */
  function Spaced(bytes: seq<bv8>): Bits {
    if bytes == [] then [] else ByteBits(bytes[0]) + [false] + Spaced(bytes[1..])
  }

  predicate Addressed(a: seq<bv8>) {
    (|a| == 1 && !Bit(a[0], 0)) || (|a| == 2 && LongStart(a[0]))
  }

  predicate Instruction(code: seq<bv8>) {
    || (|code| == 1 && (!Bit(code[0], 0) || !Bit(code[0], 1)))
    || (|code| == 2 && (code[0] == 0xDE || code[0] == 0xDF || code[0] == 0x3F))
  }

  lemma SpacedFew(bytes: seq<bv8>)
    ensures |bytes| == 1 ==> Spaced(bytes) == ByteBits(bytes[0]) + [false]
    ensures |bytes| == 2 ==> Spaced(bytes) == ByteBits(bytes[0]) + [false] + (ByteBits(bytes[1]) + [false])
  {
    hide ByteBits;
    assert |bytes| == 2 ==> Spaced(bytes[1..]) == ByteBits(bytes[1]) + [false];
  }

  lemma AddressFrom(a: seq<bv8>, rest: Bits)
    requires Addressed(a) && From(1, rest)
    ensures From(0, Spaced(a) + rest)
  {
    FromMore(1, 2, rest);
    SpacedFew(a);
    hide From, Bit, ByteBits, LongStart, Spaced;
    if |a| == 1 {
      assert Spaced(a) + rest == ByteBits(a[0]) + [false] + rest;
      ZeroByteFrom(a[0], rest);
    } else {
      var behind := ByteBits(a[1]) + [false] + rest;
      assert Spaced(a) + rest == ByteBits(a[0]) + [false] + behind;
      AnyByteFrom(a[1], 2, rest);
      LongByteFrom(a[0], behind);
    }
  }

  lemma InstructionFrom(code: seq<bv8>, rest: Bits)
    requires Instruction(code) && From(2, rest)
    ensures From(1, Spaced(code) + rest)
  {
    SpacedFew(code);
    hide From, Bit, ByteBits, Spaced;
    if |code| == 1 {
      assert Spaced(code) + rest == ByteBits(code[0]) + [false] + rest;
      if Bit(code[0], 0) {
        GroupByteFrom(code[0], rest);
      } else {
        ZeroByteFrom(code[0], rest);
        FromMore(0, 1, Spaced(code) + rest);
      }
    } else {
      var behind := ByteBits(code[1]) + [false] + rest;
      assert Spaced(code) + rest == ByteBits(code[0]) + [false] + behind;
      AnyByteFrom(code[1], 3, rest);
      CodeByteFrom(code[0], behind);
      FromMore(0, 1, Spaced(code) + rest);
    }
  }

  /** A packet for the decoder at `a`. */
  predicate For(a: seq<bv8>, p: Packet) {
    && p.lead % 5 == 0 && |p.bytes| >= |a| + 1 && p.bytes[..|a|] == a
    && Instruction(p.bytes[|a|..|p.bytes| - 1])
  }

  /** The bits behind the '0' before the first byte. */
  function Behind(ps: seq<Packet>): Bits
    requires ps != [] && ps[0].bytes != []
  {
    var last := |ps[0].bytes| - 1;
    Spaced(ps[0].bytes[..last]) + ByteBits(ps[0].bytes[last]) + [true] + Stream(ps[1..])
  }

  lemma {:induction false} FramedIsSpaced(bytes: seq<bv8>)
    ensures Framed(bytes) + [false] == [false] + Spaced(bytes)
    decreases |bytes|
  {
    hide ByteBits;
    if bytes != [] {
      FramedIsSpaced(bytes[1..]);
      assert Framed(bytes) + [false] == [false] + ByteBits(bytes[0]) + (Framed(bytes[1..]) + [false]);
    }
  }

  lemma Splits(ps: seq<Packet>)
    requires ps != [] && ps[0].bytes != []
    ensures Stream(ps) == Ones(ps[0].lead) + [false] + Behind(ps)
  {
    hide ByteBits;
    var p := ps[0];
    var last := |p.bytes| - 1;
    assert p.bytes == p.bytes[..last] + [p.bytes[last]];
    hide Spaced, Framed;
    FramedSnoc(p.bytes[..last], p.bytes[last]);
    FramedIsSpaced(p.bytes[..last]);
  }

  lemma {:induction false} SpacedJoin(a: seq<bv8>, b: seq<bv8>)
    ensures Spaced(a + b) == Spaced(a) + Spaced(b)
    decreases |a|
  {
    hide ByteBits;
    if a == [] {
      assert a + b == b;
    } else {
      assert (a + b)[1..] == a[1..] + b;
      SpacedJoin(a[1..], b);
    }
  }

  /** The last byte of a packet, and what follows. */
  lemma LastByteFrom(x: bv8, rest: seq<Packet>)
    requires rest != [] ==> rest[0].lead % 5 == 0 && rest[0].bytes != [] && From(0, Behind(rest))
    ensures From(2, ByteBits(x) + [true] + Stream(rest))
  {
    hide From, ByteBits, Behind, Frame;
    var t := ByteBits(x) + [true];
    if rest == [] {
      assert t + Stream(rest) == t;
      EndFrom(t);
    } else {
      hide Stream;
      Splits(rest);
      var k := rest[0].lead / 5;
      assert t + Stream(rest) == t + Ones(5 * k) + [false] + Behind(rest);
      BlockFrom(2, t, k, Behind(rest));
    }
  }

  lemma EndFrom(t: Bits)
    requires |t| < 15
    ensures From(2, t)
  {
    hide Flexible;
    forall g: nat | 2 <= g <= 3 ensures Flexible(g, t) {
      EndIsFlexible(g, t);
    }
  }

  lemma {:induction false} PacketsFrom(a: seq<bv8>, ps: seq<Packet>)
    requires Addressed(a) && forall i :: 0 <= i < |ps| ==> For(a, ps[i])
    requires ps != [] && ps[0].bytes != []
    ensures From(0, Behind(ps))
    decreases |ps|
  {
    hide From, ByteBits, Instruction, Addressed, Stream, Spaced, Frame;
    var p, rest := ps[0], ps[1..];
    assert For(a, p);
    var last := |p.bytes| - 1;
    var code := p.bytes[|a|..last];
    if rest != [] {
      assert For(a, rest[0]);
      PacketsFrom(a, rest);
    }
    LastByteFrom(p.bytes[last], rest);
    var end := ByteBits(p.bytes[last]) + [true] + Stream(rest);
    assert p.bytes[..last] == a + code;
    SpacedJoin(a, code);
    assert Behind(ps) == Spaced(a) + (Spaced(code) + end);
    InstructionFrom(code, end);
    AddressFrom(a, Spaced(code) + end);
  }

  lemma PacketsTranslatable(a: seq<bv8>, ps: seq<Packet>)
    requires Addressed(a) && forall i :: 0 <= i < |ps| ==> For(a, ps[i])
    ensures Translatable(true, Stream(ps))
  {
    hide Translatable, Behind, Addressed, Frame;
    if ps != [] {
      assert For(a, ps[0]);
      PacketsFrom(a, ps);
      hide From, Stream, Flexible;
      Splits(ps);
      assert From(0, Behind(ps));
      RunFrom(0, ps[0].lead, 3, Behind(ps)) by { FromMore(0, 3, Behind(ps)); }
    }
    StartsTranslatable(Stream(ps));
  }

  lemma StartsTranslatable(s: Bits)
    requires s == [] || From(0, s)
    ensures Translatable(true, s)
  {
    TranslatableIffFlexible(s);
  }

  // ----- The commands -----

  lemma SpeedInstruction(direction: bv32, speed: bv32, func: bv32, nspeed: int)
    requires direction <= 1 && speed <= 127 && speed as int <= nspeed + 1
    ensures Instruction(SpeedBytes(direction, speed, func, nspeed))
  {
    hide Bit, BaselineByte, Speed28Byte;
    if speed < 2 || nspeed < 15 {
      assert speed <= 16;
      BaselineStarts(direction, speed, func);
    } else if nspeed <= 29 {
      assert speed <= 30;
      Speed28Starts(direction, speed);
    }
  }

  lemma BaselineStarts(direction: bv32, speed: bv32, func: bv32)
    requires direction <= 1 && speed <= 16
    ensures !Bit(BaselineByte(direction, speed, func), 0)
  {
  }

  lemma Speed28Starts(direction: bv32, speed: bv32)
    requires direction <= 1 && 2 <= speed <= 30
    ensures !Bit(Speed28Byte(direction, speed), 0)
  {
  }

  lemma GroupInstructions(func: bv32)
    ensures Instruction([GroupOneByte(func)])
    ensures Instruction([GroupTwoByte(func, true)]) && Instruction([GroupTwoByte(func, false)])
  {
    GroupOneStarts(func);
    GroupTwoStarts(func);
    hide Bit, GroupOneByte, GroupTwoByte;
  }

  lemma GroupOneStarts(func: bv32)
    ensures Bit(GroupOneByte(func), 0) && !Bit(GroupOneByte(func), 1)
  {
  }

  lemma GroupTwoStarts(func: bv32)
    ensures forall lower: bool :: Bit(GroupTwoByte(func, lower), 0) && !Bit(GroupTwoByte(func, lower), 1)
  {
  }

  lemma LocoAddressed(address: bv32, mode: nat)
    requires 1 <= address <= 10239 && (mode == 1 || mode == 2)
    ensures Addressed(AddressBytes(address, mode))
  {
    if mode == 1 {
      ShortStarts(address);
    } else {
      LongStarts(address);
    }
  }

  lemma ShortStarts(address: bv32)
    ensures !Bit(Low(address & 0x7F), 0)
  {
  }

  lemma LongStarts(address: bv32)
    requires address <= 10239
    ensures LongStart(Low(0xC0 | (address >> 8)))
  {
  }

  lemma SealedIsFor(a: seq<bv8>, code: seq<bv8>, w: nat)
    requires Instruction(code) && w % 5 == 0
    ensures For(a, Packet(w, Sealed(a + code)))
  {
    hide Instruction, XorAll;
    var bytes := Sealed(a + code);
    assert bytes[..|a|] == a && bytes[|a|..|bytes| - 1] == code;
  }

  /** Both bit strings of every command that is accepted have a translation: all speed packets and all
      groups of functions, whatever bytes come together and however the packets follow each other. */
  lemma CommandTranslatable(address: bv32, direction: bv32, speed: bv32, func: bv32, nspeed: int, nfuncs: nat, mode: nat)
    requires (mode == 1 || mode == 2) && Accepted(address, direction, speed, nspeed, mode)
    ensures Translatable(true, Stream(LocoPackets1(address, direction, speed, func, nspeed, nfuncs, mode)))
    ensures Translatable(true, Stream(LocoPackets2(address, func, nspeed, nfuncs, mode)))
  {
    LocoAddressed(address, mode);
    LimitedSpeed(speed, nspeed);
    SpeedInstruction(direction, Limited(speed), func, nspeed);
    GroupInstructions(func);
    hide AddressBytes, SpeedBytes, Limited, Translatable, Stream, For, Sealed, Addressed, GroupOneByte, GroupTwoByte, Low;
    var a := AddressBytes(address, mode);
    SealedIsFor(a, SpeedBytes(direction, Limited(speed), func, nspeed), PREAMBLE);
    FunctionPacketsFor(a, func, nfuncs);
    PacketsTranslatable(a, LocoPackets1(address, direction, speed, func, nspeed, nfuncs, mode));
    PacketsTranslatable(a, LocoPackets2(address, func, nspeed, nfuncs, mode));
  }

  lemma FunctionPacketsFor(a: seq<bv8>, func: bv32, nfuncs: nat)
    ensures forall i :: 0 <= i < |FunctionPackets1(a, func, nfuncs)| ==> For(a, FunctionPackets1(a, func, nfuncs)[i])
    ensures forall i :: 0 <= i < |FunctionPackets2(a, func, nfuncs)| ==> For(a, FunctionPackets2(a, func, nfuncs)[i])
  {
    GroupInstructions(func);
    ExpansionInstruction(func);
    hide For, Sealed, GroupOneByte, GroupTwoByte, Low, Instruction;
    SealedIsFor(a, [GroupOneByte(func)], PREAMBLE);
    SealedIsFor(a, [GroupTwoByte(func, true)], WAIT + PREAMBLE);
    SealedIsFor(a, [GroupTwoByte(func, false)], WAIT + PREAMBLE);
    SealedIsFor(a, [0xDE, Low(func >> 13)], WAIT + PREAMBLE);
    SealedIsFor(a, [0xDF, Low(func >> 21)], WAIT + PREAMBLE);
  }

  lemma ExpansionInstruction(func: bv32)
    ensures Instruction([0xDE, Low(func >> 13)]) && Instruction([0xDF, Low(func >> 21)])
  {
  }
}
