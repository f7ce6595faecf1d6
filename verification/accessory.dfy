/** The choice of the translation routine, and accessory commands with any of the three. */
module AccessoryCommand {
  import opened Signal
  import opened Packets
  import opened LocoCommand
  import opened Programming
  import opened Track
  import opened ShortPackets
  import Search
  import Patterns
  import V1 = TranslatorV1
  import V2 = TranslatorV2
  import V3 = TranslatorV3

  /** What a receiver makes of the `n` bytes a routine counts: half waves low first and one byte
      too many with routines 1 and 2, high first with routine 3. */
  function Heard(version: int, packet: seq<bv8>, n: nat): Receiver
    requires 0 < n <= |packet| + 1 && (version == 3 ==> n <= |packet|)
  {
    if version == 3 then Hear(true, V3.MID_ONE, packet[..n]) else Settle(Hear(false, Patterns.IDLE, packet[..n - 1]))
  }

  /** The bits are heard without an error: between two 1s and up to four with routine 3, before up
      to four 1s with routine 2, before any number of 1s or before 00 with routine 1. */
  ghost predicate Understood(version: int, r: Receiver, bits: Bits) {
    r.ok && if version == 1 then r.bits == bits + [false, false] || exists k: nat :: r.bits == bits + Ones(k)
            else exists k: nat :: k <= 4 && r.bits == (if version == 3 then [true, true] else []) + bits + Ones(k)
  }

  lemma Understood1(packet: seq<bv8>, n: nat, bits: Bits)
    requires 0 < n <= |packet| + 1 && V1.Sent(packet[..n - 1], bits)
    ensures Understood(1, Heard(1, packet, n), bits)
  {
    hide Hear;
  }

  lemma Understood2(packet: seq<bv8>, n: nat, bits: Bits, k: nat)
    requires 0 < n <= |packet| + 1 && k <= 4 && Patterns.Carried(packet[..n - 1], bits + Ones(k))
    ensures Understood(2, Heard(2, packet, n), bits)
  {
    hide Hear, Ones;
    assert [] + bits + Ones(k) == bits + Ones(k);
  }

  lemma Understood3(packet: seq<bv8>, n: nat, bits: Bits)
    requires 0 < n <= |packet| && V3.Decodes(bits, packet[..n])
    ensures Understood(3, Heard(3, packet, n), bits)
  {
    hide Hear;
  }

  /** A packet stream that is not full is always understood. Short bit strings fail only with
      routines 1 and 2, and only if they have no translation. */
  method TranslateBitstream(version: int, bits: Bits, force: bool, packet: array<bv8>) returns (n: nat)
    requires packet.Length == PKTSIZE
    requires version == 1 ==> 5 <= |bits| < BUFFERSIZE - 1
    requires version == 3 ==> !V3.Trapped(bits)
    modifies packet
    ensures n != 0 ==> 1 <= version <= 3 && n <= PKTSIZE + 1 && (version == 3 ==> n <= PKTSIZE)
    ensures n != 0 && (version == 3 ==> n < PKTSIZE && !V3.Misread(bits)) ==>
              Understood(version, Heard(version, packet[..], n), if version == 3 then V3.Clip(bits) else bits)
    ensures version == 3 && |bits| <= 156 ==> n < PKTSIZE && (bits != [] ==> n > 0)
    ensures n == 0 && 1 <= version <= 2 && 6 <= |bits| <= PKTSIZE - 6 && (version == 1 ==> force && V1.Led(bits)) ==>
              !Search.Translatable(true, bits)
  {
    hide Understood, Heard, V1.Sent, V1.Led, Patterns.Carried, Search.Translatable;
    hide V3.Trapped, V3.Misread, V3.SafeLead, V3.Translation, V3.Decodes, V3.Clip, Ones;
    match version
    case 1 =>
      n := V1.Translate(bits, force, packet);
      if n != 0 {
        assert packet[..][..n - 1] == packet[..n - 1];
        Understood1(packet[..], n, bits);
      }
    case 2 =>
      n := V2.Translate(bits, packet);
      if n != 0 {
        assert packet[..][..n - 1] == packet[..n - 1];
        var k: nat :| k <= 4 && Patterns.Carried(packet[..n - 1], bits + Ones(k));
        Understood2(packet[..], n, bits, k);
      }
    case 3 =>
      n := V3.Translate(bits, packet);
      assert packet[..][..n] == packet[..n];
      V3.TranslationMeaning(bits);
      V3.TranslationSize(bits);
      NeverEmpty(bits);
      if 0 < n < PKTSIZE && !V3.Misread(bits) {
        Understood3(packet[..], n, V3.Clip(bits));
      }
    case _ =>
      n := 0;
  }

  /** The bytes of the first packet heard. */
  function FirstPacket(bits: Bits): seq<bv8> {
    var n := LeadingOnes(bits);
    if n < MIN_PREAMBLE then []
    else
      match ReadBody(bits[n..])
      case Body(bytes, _) => bytes
      case BrokenBody => []
  }

  lemma FirstOfFrame(p: Packet, rest: Bits)
    requires p.lead >= MIN_PREAMBLE && p.bytes != []
    ensures FirstPacket(Frame(p) + rest) == p.bytes
  {
    hide LeadingOnes;
    var body := Framed(p.bytes) + [true] + rest;
    var s := Frame(p) + rest;
    assert s == Ones(p.lead) + body;
    assert !body[0];
    LeadOfOnes(p.lead, body);
    assert LeadingOnes(s) == p.lead;
    assert s[p.lead..] == body;
    ReadFramed(p.bytes, rest);
  }

  /** Whichever way a packet is understood, it is the first one heard. */
  lemma FirstHeard(version: int, r: Receiver, p: Packet)
    requires Understood(version, r, Stream([p])) && p.lead >= MIN_PREAMBLE && p.bytes != []
    ensures r.ok && FirstPacket(r.bits) == p.bytes
  {
    hide Frame, FirstPacket, Stream;
    SingleFrame(p);
    if version == 1 {
      if r.bits == Stream([p]) + [false, false] {
        FirstOfFrame(p, [false, false]);
      } else {
        var k: nat :| r.bits == Stream([p]) + Ones(k);
        FirstOfFrame(p, Ones(k));
      }
    } else {
      var k: nat :| k <= 4 && r.bits == (if version == 3 then [true, true] else []) + Stream([p]) + Ones(k);
      var q := Packet(p.lead + 2, p.bytes);
      assert Ones(2) == [true, true];
      OnesBefore(2, [p]);
      SingleFrame(q);
      assert Preceded(2, [p]) == [q];
      assert [] + Frame(p) == Frame(p);
      FirstOfFrame(p, Ones(k));
      FirstOfFrame(q, Ones(k));
    }
  }

  /** What an accessory decoder does with the first packet. */
  function Switched(r: Receiver): Accessory {
    var bytes := FirstPacket(r.bits);
    if r.ok && |bytes| == 3 && XorAll(bytes) == 0 then ReadAccessory(bytes[..2]) else NotAccessory
  }

  lemma AccessorySwitched(r: Receiver, nr: bv32, output: bv32, activate: bv32, offset: bv32)
    requires 1 <= nr <= 2044 && output <= 1 && activate <= 1 && offset <= 1
    requires r.ok && FirstPacket(r.bits) == Sealed(AccessoryBytes(nr, output, activate, offset))
    ensures Switched(r) == Accessory(nr + offset, activate == 1, output == 1)
  {
    AccessoryRead(nr, output, activate, offset);
    hide ReadAccessory, AccessoryData, FirstPacket, XorAll;
    var data := AccessoryBytes(nr, output, activate, offset);
    SealedChecks(data);
    assert Sealed(data)[..2] == data;
  }

  lemma AccessoryStream(data: seq<bv8>)
    requires |data| == 2
    ensures var bits := Stream([Packet(PREAMBLE, Sealed(data))]);
            |bits| == 43 && V1.Led(bits) && !V3.Trapped(bits) && !V3.Misread(bits) && Search.Translatable(true, bits)
  {
    var p := Packet(PREAMBLE, Sealed(data));
    hide Frame, Search.Translatable, V3.Trapped, V3.Misread;
    NoPackets();
    StreamLength([], p);
    assert [] + [p] == [p];
    PreambleIsSafe([p]);
    LeadOfStream([p]);
    ShortPacketTranslatable(p);
  }

  /** With any of the three routines every valid accessory command is translated, and the decoder
      reads from the waveform which output of which number is to be switched on or off. */
  method CompNmraAccessory(version: int, nr: bv32, output: bv32, activate: bv32, offset: bv32, packetstream: array<bv8>)
    returns (status: int, j: nat)
    requires packetstream.Length == PKTSIZE
    modifies packetstream
    ensures status == 0 <==> 1 <= version <= 3 && 1 <= nr <= 2044 && output <= 1 && activate <= 1
    ensures status == 0 ==> 0 < j <= PKTSIZE + 1 && (version == 3 ==> j < PKTSIZE)
    ensures status == 0 && offset <= 1 ==>
              Switched(Heard(version, packetstream[..], j)) == Accessory(nr + offset, activate == 1, output == 1)
  {
    hide Stream, Sealed, AccessoryData, V1.Led, V3.Trapped, V3.Misread, Search.Translatable, Heard, Understood, Switched;
    j := 0;
    var rejected, bitstream := AccessoryBitstream(nr, output, activate, offset);
    if rejected != 0 {
      return 1, 0;
    }
    ghost var data := AccessoryBytes(nr, output, activate, offset);
    AccessoryStream(data);
    j := TranslateBitstream(version, bitstream, true, packetstream);
    if j > 0 {
      SealedNotEmpty(data);
      FirstHeard(version, Heard(version, packetstream[..], j), Packet(PREAMBLE, Sealed(data)));
      if offset <= 1 {
        AccessorySwitched(Heard(version, packetstream[..], j), nr, output, activate, offset);
      }
      return 0, j;
    }
    return 1, 0;
  }

  lemma SealedNotEmpty(data: seq<bv8>)
    ensures Sealed(data) != []
  {
  }
}
