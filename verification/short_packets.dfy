/** Packets that routine 2 can always translate, those of up to three bytes among them, and packets that it cannot. */
module ShortPackets {
  import opened Signal
  import opened Packets
  import opened Search
  import opened TranslatorV2
  import opened Builders
  import opened LocoCommand
  import opened Programming

  /** A run of `m` 1s, its '0' and the rest. */
  lemma FlexibleRun(f: nat, m: nat, rest: Bits)
    ensures Flexible(f, Ones(m) + [false] + rest) <==> Best(f, m) >= 0 && Flexible(Best(f, m), rest)
  {
    var s := Ones(m) + [false] + rest;
    LeadIs(s, m);
    assert s[m + 1..] == rest;
  }

  /** Splitting a string at its first '0'. */
  lemma FirstRun(t: Bits) returns (m: nat, u: Bits)
    ensures m < |t| ==> t == Ones(m) + [false] + u
    ensures m >= |t| ==> t == Ones(m) && u == []
  {
    m := LeadingOnes(t);
    u := if m < |t| then t[m + 1..] else [];
  }

  /** Only a run of four 1s, modulo five, costs something, and it takes five bits with its '0'. */
  lemma {:induction false} BlockIsFlexible(f: nat, t: Bits, k: nat, rest: Bits)
    requires (|t| + 1) / 5 <= f <= 3
    requires forall g: nat :: f - (|t| + 1) / 5 <= g <= 3 ==> Flexible(g, rest)
    ensures Flexible(f, t + Ones(5 * k) + [false] + rest)
    decreases |t|
  {
    hide Flexible;
    var m, u := FirstRun(t);
    if m < |t| {
      assert t + Ones(5 * k) + [false] + rest == Ones(m) + [false] + (u + Ones(5 * k) + [false] + rest);
      FlexibleRun(f, m, u + Ones(5 * k) + [false] + rest);
      BlockIsFlexible(Best(f, m), u, k, rest);
    } else {
      OnesAdd(m, 5 * k);
      FlexibleRun(f, m + 5 * k, rest);
    }
  }

  lemma OnesAdd(m: nat, n: nat)
    ensures Ones(m) + Ones(n) == Ones(m + n)
  {
  }

  /** The end of a string is not followed by a '0' that would have to take 1s along. */
  lemma {:induction false} EndIsFlexible(f: nat, t: Bits)
    requires f <= 3 && |t| < 5 * (f + 1)
    ensures Flexible(f, t)
    decreases |t|
  {
    hide Flexible;
    var m, u := FirstRun(t);
    if m < |t| {
      FlexibleRun(f, m, u);
      EndIsFlexible(Best(f, m), u);
    } else {
      AllOnesFlexible(f, m);
    }
  }

  lemma AllOnesFlexible(f: nat, m: nat)
    ensures Flexible(f, Ones(m))
  {
    LeadOfOnes(m, []);
    assert Ones(m) + [] == Ones(m);
  }

  /** The bits of a packet behind the '0' before its first byte. */
  function Inside(bytes: seq<bv8>): Bits
    requires bytes != []
  {
    ByteBits(bytes[0]) + Framed(bytes[1..]) + [true]
  }

  /** How the slack for taking 1s along lasts over the bytes of a packet: a byte costs at most one
      of it, and a byte that starts with a '0' first restores it in full. */
  predicate Coverable(f: nat, bytes: seq<bv8>)
    decreases |bytes|
  {
    bytes == [] || (var g := if Bit(bytes[0], 0) then f else 3; 1 <= g && Coverable(g - 1, bytes[1..]))
  }

  lemma {:induction false} CoverableMore(f: nat, g: nat, bytes: seq<bv8>)
    requires f <= g && Coverable(f, bytes)
    ensures Coverable(g, bytes)
    decreases |bytes|
  {
    hide Bit;
    if bytes != [] && Bit(bytes[0], 0) {
      CoverableMore(f - 1, g - 1, bytes[1..]);
    }
  }

  lemma {:induction false} FewAreCoverable(f: nat, bytes: seq<bv8>)
    requires |bytes| <= f <= 3
    ensures Coverable(f, bytes)
    decreases |bytes|
  {
    hide Bit;
    if bytes != [] {
      FewAreCoverable(if Bit(bytes[0], 0) then f - 1 else 2, bytes[1..]);
    }
  }

  lemma {:induction false} InsideIsFlexible(bytes: seq<bv8>, f: nat)
    requires bytes != [] && f <= 3 && Coverable(f, bytes)
    ensures Flexible(f, Inside(bytes))
    decreases |bytes|
  {
    var rest := bytes[1..];
    var g := if Bit(bytes[0], 0) then f else 3;
    hide Flexible, Bit;
    if rest != [] {
      forall h: nat | g - 1 <= h <= 3 ensures Flexible(h, Inside(rest)) {
        CoverableMore(g - 1, h, rest);
        InsideIsFlexible(rest, h);
      }
    }
    if Bit(bytes[0], 0) {
      InsideFrom(f, ByteBits(bytes[0]), bytes);
    } else {
      var u := ByteBits(bytes[0])[1..];
      InsideFrom(3, u, bytes);
      ZeroStart(f, bytes);
    }
  }

  lemma ZeroStart(f: nat, bytes: seq<bv8>)
    requires bytes != [] && !Bit(bytes[0], 0)
    requires Flexible(3, ByteBits(bytes[0])[1..] + Framed(bytes[1..]) + [true])
    ensures Flexible(f, Inside(bytes))
  {
    hide Flexible, Bit, Framed;
    var u := ByteBits(bytes[0])[1..];
    var behind := u + Framed(bytes[1..]) + [true];
    FlexibleRun(f, 0, behind);
    assert ByteBits(bytes[0]) == [false] + u;
    assert Inside(bytes) == Ones(0) + [false] + behind;
  }

  /** The bits of the first byte or all but its first one, and the rest of the packet. */
  lemma InsideFrom(f: nat, t: Bits, bytes: seq<bv8>)
    requires bytes != [] && 1 <= f <= 3 && |t| <= 8
    requires bytes[1..] != [] ==> forall h: nat :: f - 1 <= h <= 3 ==> Flexible(h, Inside(bytes[1..]))
    ensures Flexible(f, t + Framed(bytes[1..]) + [true])
  {
    hide Flexible, ByteBits;
    var rest := bytes[1..];
    if rest == [] {
      EndIsFlexible(f, t + Framed(rest) + [true]);
    } else {
      assert t + Framed(rest) + [true] == t + [false] + Inside(rest);
      assert t + Ones(0) == t;
      BlockIsFlexible(f, t, 0, Inside(rest));
    }
  }

  lemma SinglePacket(p: Packet)
    requires p.bytes != []
    ensures Stream([p]) == Ones(p.lead) + [false] + Inside(p.bytes)
  {
    hide ByteBits;
    assert Stream([p]) == Frame(p) + Stream([]);
  }

  lemma CoverableTranslatable(p: Packet)
    requires p.lead % 5 == 0 && p.bytes != [] && Coverable(3, p.bytes)
    ensures Translatable(true, Stream([p]))
  {
    hide Flexible, Inside, Stream;
    SinglePacket(p);
    InsideIsFlexible(p.bytes, 3);
    FlexibleRun(0, p.lead, Inside(p.bytes));
    TranslatableIffFlexible(Stream([p]));
  }

  /** Every packet of up to three bytes has a translation, whatever its bytes are. */
  lemma ShortPacketTranslatable(p: Packet)
    requires p.lead % 5 == 0 && 1 <= |p.bytes| <= 3
    ensures Translatable(true, Stream([p]))
  {
    FewAreCoverable(3, p.bytes);
    CoverableTranslatable(p);
  }

  lemma TightByte()
    ensures ByteBits(0xF7) == Ones(4) + [false] + Ones(3)
  {
  }

  /** 1111 0 111 takes away one 1 of what is left to be taken along. */
  lemma TightBlock(f: nat, rest: Bits)
    requires f <= 3
    ensures Flexible(f, ByteBits(0xF7) + [false] + rest) ==> f >= 1 && Flexible(f - 1, rest)
  {
    TightByte();
    hide Flexible, ByteBits, Ones;
    var u := Ones(3) + [false] + rest;
    assert Ones(4) + [false] + Ones(3) + [false] + rest == Ones(4) + [false] + u;
    FlexibleRun(f, 4, u);
    if f >= 1 {
      FlexibleRun(f - 1, 3, rest);
    }
  }

  lemma TightEnd()
    ensures !Flexible(0, ByteBits(0xF7) + [true])
  {
    TightByte();
    hide Flexible, ByteBits, Ones;
    var u := Ones(3) + [true];
    assert Ones(4) + [false] + Ones(3) + [true] == Ones(4) + [false] + u;
    FlexibleRun(0, 4, u);
  }

  lemma TightSum(b: bv8)
    ensures XorAll([b, b, b, b]) == 0
  {
    hide XorAll;
    XorFirst(b);
    XorNext([b], b);
    XorNext([b] + [b], b);
    XorNext([b] + [b] + [b], b);
    assert [b] + [b] + [b] + [b] == [b, b, b, b];
    XorTwice(b);
  }

  lemma XorTwice(b: bv8)
    ensures b ^ b ^ b ^ b == 0
  {
  }

  lemma {:induction false} TightFails(bytes: seq<bv8>)
    requires 1 <= |bytes| <= 4 && forall k :: 0 <= k < |bytes| ==> bytes[k] == 0xF7
    ensures !Flexible(|bytes| - 1, Inside(bytes))
    decreases |bytes|
  {
    hide Flexible, ByteBits, Inside;
    var rest := bytes[1..];
    assert bytes == [0xF7] + rest;
    InsideNext(0xF7, rest);
    if rest == [] {
      TightEnd();
    } else {
      TightBlock(|bytes| - 1, Inside(rest));
      TightFails(rest);
    }
  }

  /** Three bytes are the limit: F7 F7 F7 F7, with a correct error detection byte, is a packet
      that no list of patterns sends. */
  lemma FourBytesCanFail(p: Packet)
    requires p.lead % 5 == 0 && |p.bytes| == 4 && forall k :: 0 <= k < 4 ==> p.bytes[k] == 0xF7
    ensures XorAll(p.bytes) == 0 && !Translatable(true, Stream([p]))
  {
    TightSum(0xF7);
    assert p.bytes == [0xF7, 0xF7, 0xF7, 0xF7];
    TightPacketFails(p);
  }

  lemma TightPacketFails(p: Packet)
    requires p.lead % 5 == 0 && |p.bytes| == 4 && forall k :: 0 <= k < 4 ==> p.bytes[k] == 0xF7
    ensures !Translatable(true, Stream([p]))
  {
    hide Flexible, Inside, Stream;
    SinglePacket(p);
    TightFails(p.bytes);
    FlexibleRun(0, p.lead, Inside(p.bytes));
    TranslatableIffFlexible(Stream([p]));
  }

  // ----- A packet of the program without a translation -----

  lemma PomBytes()
    ensures Sealed(AddressBytes(1, 1) + CvByteData(true, 1007, 247, false)) == [0x01, 0xEF, 0xEF, 0xF7, 0xF6]
  {
    assert AddressBytes(1, 1) == [0x01];
    assert CvByteData(true, 1007, 247, false) == [0xEF, 0xEF, 0xF7];
    var d0: seq<bv8>, d1: seq<bv8>, d2: seq<bv8>, d3: seq<bv8> := [0x01], [0x01, 0xEF], [0x01, 0xEF, 0xEF], [0x01, 0xEF, 0xEF, 0xF7];
    assert d0[..0] == [] && d1[..1] == d0 && d2[..2] == d1 && d3[..3] == d2;
    assert XorAll(d0) == 0x01;
    assert XorAll(d1) == 0xEE;
    assert XorAll(d2) == 0x01;
    assert XorAll(d3) == 0xF6;
    assert [0x01] + [0xEF, 0xEF, 0xF7] == d3;
  }

  lemma PomByteBits()
    ensures ByteBits(0x01) == [false, false, false, false, false, false, false, true]
    ensures ByteBits(0xEF) == Ones(3) + [false] + Ones(4)
    ensures ByteBits(0xF6) == Ones(4) + [false] + [true, true, false]
  {
  }

  lemma SevenZeros(rest: Bits)
    ensures Flexible(3, ByteBits(0x01) + [false] + rest) ==> Flexible(3, rest)
  {
    PomByteBits();
    hide Flexible, ByteBits;
    var u := Ones(1) + [false] + rest;
    var z: Bits := [false];
    assert ByteBits(0x01) + [false] + rest == z + (z + (z + (z + (z + (z + (z + u))))));
    OneZero(z + (z + (z + (z + (z + (z + u))))));
    OneZero(z + (z + (z + (z + (z + u)))));
    OneZero(z + (z + (z + (z + u))));
    OneZero(z + (z + (z + u)));
    OneZero(z + (z + u));
    OneZero(z + u);
    OneZero(u);
    FlexibleRun(3, 1, rest);
  }

  lemma OneZero(rest: Bits)
    ensures Flexible(3, [false] + rest) ==> Flexible(3, rest)
  {
    hide Flexible;
    assert [false] + rest == Ones(0) + [false] + rest;
    FlexibleRun(3, 0, rest);
  }

  lemma ThreeAndFour(f: nat, rest: Bits)
    requires f <= 3
    ensures Flexible(f, ByteBits(0xEF) + [false] + rest) ==> f >= 1 && Flexible(f - 1, rest)
  {
    PomByteBits();
    hide Flexible, ByteBits, Ones;
    var u := Ones(4) + [false] + rest;
    assert Ones(3) + [false] + Ones(4) + [false] + rest == Ones(3) + [false] + u;
    FlexibleRun(f, 3, u);
    FlexibleRun(f, 4, rest);
  }

  lemma LastByteFails()
    ensures !Flexible(0, ByteBits(0xF6) + [true])
  {
    PomByteBits();
    hide Flexible, ByteBits, Ones;
    var u: Bits := [true, true, false] + [true];
    assert Ones(4) + [false] + [true, true, false] + [true] == Ones(4) + [false] + u;
    FlexibleRun(0, 4, u);
  }

  lemma InsideNext(b: bv8, rest: seq<bv8>)
    ensures Inside([b] + rest) == if rest == [] then ByteBits(b) + [true] else ByteBits(b) + [false] + Inside(rest)
  {
    hide ByteBits;
    assert ([b] + rest)[1..] == rest;
  }

  /** Writing 247 to variable 1008 of locomotive 1 on the main track is accepted, but its packet
      has no translation: routine 2 turns it down. */
  lemma PomWriteCanFail()
    ensures !Translatable(true, Stream([Packet(PREAMBLE, Sealed(AddressBytes(1, 1) + CvByteData(true, 1007, 247, false)))]))
  {
    PomBytes();
    var b4: seq<bv8>, b3: seq<bv8>, b2: seq<bv8>, b1: seq<bv8>
      := [0xF6], [0xF7] + [0xF6], [0xEF] + [0xF7, 0xF6], [0xEF] + [0xEF, 0xF7, 0xF6];
    PomInside(b1, b2, b3, b4);
    PomFails(Packet(PREAMBLE, [0x01] + [0xEF, 0xEF, 0xF7, 0xF6]), b1);
  }

  lemma PomInside(b1: seq<bv8>, b2: seq<bv8>, b3: seq<bv8>, b4: seq<bv8>)
    requires b4 == [0xF6] && b3 == [0xF7] + b4 && b2 == [0xEF] + b3 && b1 == [0xEF] + b2
    ensures !Flexible(3, Inside(b1))
  {
    InsideNext(0xF6, []);
    InsideNext(0xF7, b4);
    InsideNext(0xEF, b3);
    InsideNext(0xEF, b2);
    assert [0xF6] + [] == b4;
    hide Flexible, Inside, ByteBits;
    LastByteFails();
    TightBlock(1, Inside(b4));
    ThreeAndFour(2, Inside(b3));
    ThreeAndFour(3, Inside(b2));
  }

  lemma PomFails(p: Packet, rest: seq<bv8>)
    requires p.lead == PREAMBLE && p.bytes == [0x01] + rest && rest != [] && !Flexible(3, Inside(rest))
    ensures !Translatable(true, Stream([p]))
  {
    hide Flexible, Inside, Stream, ByteBits, Ones, Translatable;
    SinglePacket(p);
    InsideNext(0x01, rest);
    SevenZeros(Inside(rest));
    FlexibleRun(0, PREAMBLE, Inside(p.bytes));
    TranslatableIffFlexible(Stream([p]));
  }
}
