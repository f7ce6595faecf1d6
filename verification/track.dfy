/** From commands to the track: what decoders hear when the packet streams of translation
    routine 3 are sent. */
module Track {
  import opened Signal
  import opened Packets
  import opened Builders
  import opened Decoder
  import opened LocoCommand
  import V3 = TranslatorV3
  import Fits = StreamFits

  /** What is heard after the first half wave of a '1', as a list of packets. */
  function Received(out: seq<bv8>): Parsed {
    var r := Hear(true, V3.MID_ONE, out);
    if r.ok then Parse(r.bits) else Malformed
  }

  /** The preambles used never lead into the routine's trap or its misreading. */
  lemma PreambleIsSafe(ps: seq<Packet>)
    requires Proper(ps) && ps != [] && |Stream(ps)| < BUFFERSIZE && (ps[0].lead + 2) % 5 != 0
    ensures V3.Clip(Stream(ps)) == Stream(ps) && LeadingOnes(Stream(ps)) == ps[0].lead
    ensures !V3.Trapped(Stream(ps)) && !V3.Misread(Stream(ps))
  {
    LeadOfStream(ps);
  }

  /** A packet stream that fits is received as the packets it was made for. */
  lemma Delivered(ps: seq<Packet>)
    requires Proper(ps) && ps != [] && |Stream(ps)| < BUFFERSIZE && (ps[0].lead + 2) % 5 != 0
    ensures V3.SafeLead(V3.Buffer(Stream(ps)))
    ensures |V3.Translation(Stream(ps))| < PKTSIZE ==>
              Received(V3.Translation(Stream(ps))) == Packets(Preceded(2, ps))
  {
    hide Stream, LeadingOnes, V3.SafeLead, V3.Translation, V3.Trapped, V3.Misread, Hear, Parse;
    PreambleIsSafe(ps);
    var bits := Stream(ps);
    V3.TranslationMeaning(bits);
    var out := V3.Translation(bits);
    if |out| < PKTSIZE {
      var k: nat :| k <= 4 && Hear(true, V3.MID_ONE, out) == Receiver([true, true] + bits + Ones(k), First(1), true);
      assert [true, true] == Ones(2);
      OnesBefore(2, ps);
      ParseStream(Preceded(2, ps), k);
    }
  }

  lemma {:induction false} LeadIgnored(own: Address, m: Mode, d: Loco, n: nat, ps: seq<Packet>)
    requires ps != []
    ensures ExecuteAll(own, m, d, Preceded(n, ps)) == ExecuteAll(own, m, d, ps)
  {
    hide Execute;
    assert Preceded(n, ps)[1..] == ps[1..];
  }

  /** The decoder after hearing two packet streams one after the other. */
  function AfterHearing(own: Address, m: Mode, d: Loco, out1: seq<bv8>, out2: seq<bv8>): Loco {
    ExecuteParsed(own, m, ExecuteParsed(own, m, d, Received(out1)), Received(out2))
  }

  lemma StreamLength(ps: seq<Packet>, p: Packet)
    ensures |Frame(p)| == p.lead + 9 * |p.bytes| + 1
    ensures |Stream(ps + [p])| == |Stream(ps)| + |Frame(p)|
  {
    StreamAppend(ps, p);
  }

  /** The bit strings of a command: packets with preambles a decoder accepts, and lengths. */
  lemma LocoStream1Proper(address: bv32, direction: bv32, speed: bv32, func: bv32, nspeed: int, nfuncs: nat, mode: nat)
    ensures var ps := LocoPackets1(address, direction, speed, func, nspeed, nfuncs, mode);
            Proper(ps) && ps != [] && ps[0].lead == PREAMBLE && |Stream(ps)| <= 244
            && (|Stream(ps)| <= 148 || (nfuncs > 12 && nspeed > 14))
  {
    hide Frame, Stream, AddressBytes, SpeedBytes, Low, GroupTwoByte;
    NoPackets();
    var a := AddressBytes(address, mode);
    var p0 := Packet(PREAMBLE, Sealed(a + SpeedBytes(direction, Limited(speed), func, nspeed)));
    var p5 := Packet(WAIT + PREAMBLE, Sealed(a + [GroupTwoByte(func, true)]));
    var p13 := Packet(WAIT + PREAMBLE, Sealed(a + [0xDE, Low(func >> 13)]));
    UpToThree(p0, p5, p13);
    var ps := LocoPackets1(address, direction, speed, func, nspeed, nfuncs, mode);
    assert ps == [p0] || ps == [p0, p5] || (nfuncs > 12 && nspeed > 14 && ps == [p0, p5, p13]);
  }

  lemma LocoStream2Proper(address: bv32, func: bv32, nspeed: int, nfuncs: nat, mode: nat)
    ensures var ps := LocoPackets2(address, func, nspeed, nfuncs, mode);
            Proper(ps) && (ps != [] ==> ps[0].lead == PREAMBLE) && |Stream(ps)| <= 235
            && (|Stream(ps)| <= 139 || (nfuncs > 20 && nspeed > 14))
  {
    hide Frame, Stream, AddressBytes, Low, GroupOneByte, GroupTwoByte;
    NoPackets();
    var a := AddressBytes(address, mode);
    var q1 := Packet(PREAMBLE, Sealed(a + [GroupOneByte(func)]));
    var q9 := Packet(WAIT + PREAMBLE, Sealed(a + [GroupTwoByte(func, false)]));
    var q21 := Packet(WAIT + PREAMBLE, Sealed(a + [0xDF, Low(func >> 21)]));
    UpToThree(q1, q9, q21);
    var ps := LocoPackets2(address, func, nspeed, nfuncs, mode);
    hide Sealed;
    assert ps == [] || ps == [q1] || ps == [q1, q9] || (nfuncs > 20 && nspeed > 14 && ps == [q1, q9, q21]);
  }

  lemma UpToThree(p: Packet, q: Packet, r: Packet)
    ensures |Stream([p])| == |Frame(p)| && |Stream([p, q])| == |Frame(p)| + |Frame(q)|
    ensures |Stream([p, q, r])| == |Frame(p)| + |Frame(q)| + |Frame(r)|
    ensures |Frame(p)| == p.lead + 9 * |p.bytes| + 1 && |Frame(q)| == q.lead + 9 * |q.bytes| + 1
    ensures |Frame(r)| == r.lead + 9 * |r.bytes| + 1
  {
    hide Stream;
    NoPackets();
    StreamLength([], p);
    StreamLength([p], q);
    StreamLength([p, q], r);
    assert [] + [p] == [p] && [p] + [q] == [p, q] && [p, q] + [r] == [p, q, r];
  }

  /** Every packet of a command carries a correct error detection byte, and every packet but the
      first of its stream follows after at least 50 1s. */
  lemma PacketsCheckAndWait(address: bv32, direction: bv32, speed: bv32, func: bv32, nspeed: int, nfuncs: nat, mode: nat)
    ensures ChecksAndWaits(LocoPackets1(address, direction, speed, func, nspeed, nfuncs, mode))
    ensures ChecksAndWaits(LocoPackets2(address, func, nspeed, nfuncs, mode))
  {
    hide AddressBytes, SpeedBytes, Low, GroupOneByte, GroupTwoByte, XorAll, Sealed;
    assert forall data: seq<bv8> :: XorAll(Sealed(data)) == 0 by {
      forall data: seq<bv8> ensures XorAll(Sealed(data)) == 0 {
        SealedChecks(data);
      }
    }
  }

  ghost predicate ChecksAndWaits(ps: seq<Packet>) {
    forall i :: 0 <= i < |ps| ==> XorAll(ps[i].bytes) == 0 && (i > 0 ==> ps[i].lead >= 50)
  }

  /** Hearing packets that fit is executing them. */
  lemma HeardIsExecuted(own: Address, m: Mode, d: Loco, ps: seq<Packet>)
    requires Proper(ps) && ps != [] && |Stream(ps)| < BUFFERSIZE && ps[0].lead == PREAMBLE
    ensures V3.SafeLead(V3.Buffer(Stream(ps)))
    ensures |V3.Translation(Stream(ps))| < PKTSIZE ==>
              ExecuteParsed(own, m, d, Received(V3.Translation(Stream(ps)))) == ExecuteAll(own, m, d, ps)
  {
    hide Stream, Received, V3.SafeLead, V3.Translation, ExecuteAll;
    Delivered(ps);
    LeadIgnored(own, m, d, 2, ps);
  }

  /** Either waveform alone does its part of the command. */
  lemma StreamsHeard(address: bv32, direction: bv32, speed: bv32, func: bv32, nspeed: int, nfuncs: nat, mode: nat, d: Loco)
    requires (mode == 1 || mode == 2) && Accepted(address, direction, speed, nspeed, mode)
    requires !(nspeed == 29 && speed == 30)
    ensures var bits1 := Stream(LocoPackets1(address, direction, speed, func, nspeed, nfuncs, mode));
            var bits2 := Stream(LocoPackets2(address, func, nspeed, nfuncs, mode));
            V3.SafeLead(V3.Buffer(bits1)) && V3.SafeLead(V3.Buffer(bits2))
            && var out1 := V3.Translation(bits1);
            var out2 := if bits2 == [] then out1 else V3.Translation(bits2);
            && ExecuteParsed(Own(address, mode), ModeOf(nspeed), d, Received(out1))
               == FirstEffect(d, direction, speed, func, nspeed, nfuncs)
            && ExecuteParsed(Own(address, mode), ModeOf(nspeed), d, Received(out2))
               == SecondEffect(d, direction, speed, func, nspeed, nfuncs)
  {
    StreamsExecuted(address, direction, speed, func, nspeed, nfuncs, mode, d);
    LocoStream1Proper(address, direction, speed, func, nspeed, nfuncs, mode);
    LocoStream2Proper(address, func, nspeed, nfuncs, mode);
    CommandFits(address, direction, speed, func, nspeed, nfuncs, mode);
    var own, m := Own(address, mode), ModeOf(nspeed);
    var ps1 := LocoPackets1(address, direction, speed, func, nspeed, nfuncs, mode);
    var ps2 := LocoPackets2(address, func, nspeed, nfuncs, mode);
    NoGroups(address, func, nspeed, nfuncs, mode);
    hide Stream, Received, V3.SafeLead, V3.Translation, ExecuteParsed, LocoPackets1, LocoPackets2, Own, FirstEffect, ExecuteAll, Accepted;
    HeardIsExecuted(own, m, d, ps1);
    StreamEmptyIff(ps2);
    if ps2 != [] {
      HeardIsExecuted(own, m, d, ps2);
    }
  }

  lemma NoGroups(address: bv32, func: bv32, nspeed: int, nfuncs: nat, mode: nat)
    ensures LocoPackets2(address, func, nspeed, nfuncs, mode) == [] <==> !(nfuncs > 0 && nspeed > 14)
  {
  }

  /** The waveforms of both packet streams leave the addressed decoder with exactly the commanded
      direction, speed and functions, whatever its state was. */
  lemma CommandHeard(address: bv32, direction: bv32, speed: bv32, func: bv32, nspeed: int, nfuncs: nat, mode: nat, d: Loco)
    requires (mode == 1 || mode == 2) && Accepted(address, direction, speed, nspeed, mode)
    requires !(nspeed == 29 && speed == 30)
    ensures var bits1 := Stream(LocoPackets1(address, direction, speed, func, nspeed, nfuncs, mode));
            var bits2 := Stream(LocoPackets2(address, func, nspeed, nfuncs, mode));
            V3.SafeLead(V3.Buffer(bits1)) && V3.SafeLead(V3.Buffer(bits2))
            && var out1 := V3.Translation(bits1);
            var out2 := if bits2 == [] then out1 else V3.Translation(bits2);
            AfterHearing(Own(address, mode), ModeOf(nspeed), d, out1, out2)
            == Commanded(d, direction, speed, func, nspeed, nfuncs)
  {
    EffectsTogether(d, direction, speed, func, nspeed, nfuncs);
    hide Stream, Received, V3.SafeLead, V3.Translation, ExecuteParsed, LocoPackets1, LocoPackets2, Commanded, Own,
         FirstEffect, SecondEffect, Accepted;
    StreamsHeard(address, direction, speed, func, nspeed, nfuncs, mode, d);
    StreamsHeard(address, direction, speed, func, nspeed, nfuncs, mode, FirstEffect(d, direction, speed, func, nspeed, nfuncs));
  }

  /** Any other decoder hears both streams without effect. */
  lemma CommandNotHeard(address: bv32, direction: bv32, speed: bv32, func: bv32, nspeed: int, nfuncs: nat, mode: nat,
                        own: Address, m: Mode, d: Loco)
    requires (mode == 1 || mode == 2) && Accepted(address, direction, speed, nspeed, mode) && own != Own(address, mode)
    ensures var bits1 := Stream(LocoPackets1(address, direction, speed, func, nspeed, nfuncs, mode));
            var bits2 := Stream(LocoPackets2(address, func, nspeed, nfuncs, mode));
            V3.SafeLead(V3.Buffer(bits1)) && V3.SafeLead(V3.Buffer(bits2))
            && ExecuteParsed(own, m, d, Received(V3.Translation(bits1))) == d
            && (bits2 != [] ==> ExecuteParsed(own, m, d, Received(V3.Translation(bits2))) == d)
  {
    CommandIgnored(address, direction, speed, func, nspeed, nfuncs, mode, own, m, d);
    hide Stream, Received, V3.SafeLead, V3.Translation, ExecuteParsed, LocoPackets1, LocoPackets2, Own;
    LocoStream1Proper(address, direction, speed, func, nspeed, nfuncs, mode);
    LocoStream2Proper(address, func, nspeed, nfuncs, mode);
    CommandFits(address, direction, speed, func, nspeed, nfuncs, mode);
    var ps1 := LocoPackets1(address, direction, speed, func, nspeed, nfuncs, mode);
    var ps2 := LocoPackets2(address, func, nspeed, nfuncs, mode);
    HeardIsExecuted(own, m, d, ps1);
    StreamEmptyIff(ps2);
    if ps2 != [] {
      HeardIsExecuted(own, m, d, ps2);
    }
  }

  lemma StreamEmptyIff(ps: seq<Packet>)
    ensures Stream(ps) == [] <==> ps == []
  {
  }

  /** The kinds of the three packets of either stream when all groups are sent. */
  lemma LongFirstAddress(address: bv32)
    requires 1 <= address <= 10239
    ensures var a := AddressBytes(address, 2); |a| == 2 && Fits.LongFirst(a[0])
  {
    LongAddress(address);
    hide Low;
  }

  lemma GroupTwoKinds(func: bv32)
    ensures Fits.GroupByte(GroupTwoByte(func, true)) && Fits.SecondGroupByte(GroupTwoByte(func, false))
  {
  }

  lemma Kinds1(address: bv32, direction: bv32, speed: bv32, func: bv32, nspeed: int, mode: nat)
    requires mode == 1 || (mode == 2 && 1 <= address <= 10239)
    ensures var a := AddressBytes(address, mode);
            Fits.Kinds(Sealed(a + SpeedBytes(direction, speed, func, nspeed)), Sealed(a + [GroupTwoByte(func, true)]),
                       Sealed(a + [0xDE, Low(func >> 13)]), 0)
  {
    GroupTwoKinds(func);
    if mode == 2 {
      LongFirstAddress(address);
    }
    hide Low, GroupTwoByte, BaselineByte, Speed28Byte, Fits.GroupByte, Fits.LongFirst, XorAll;
    var a := AddressBytes(address, mode);
    SealedChecks(a + SpeedBytes(direction, speed, func, nspeed));
    SealedChecks(a + [GroupTwoByte(func, true)]);
    SealedChecks(a + [0xDE, Low(func >> 13)]);
  }

  lemma Kinds2(address: bv32, func: bv32, mode: nat)
    requires mode == 1 || (mode == 2 && 1 <= address <= 10239)
    ensures var a := AddressBytes(address, mode);
            Fits.Kinds(Sealed(a + [GroupOneByte(func)]), Sealed(a + [GroupTwoByte(func, false)]),
                       Sealed(a + [0xDF, Low(func >> 21)]), if mode == 1 then 0 else 1)
  {
    GroupTwoKinds(func);
    if mode == 2 {
      LongFirstAddress(address);
    }
    hide Low, GroupOneByte, GroupTwoByte, Fits.SecondGroupByte, Fits.LongFirst, XorAll;
    SealedChecks(AddressBytes(address, mode) + [0xDF, Low(func >> 21)]);
  }

  /** A stream is short, or it is one of three packets of these kinds. */
  lemma KindFits(ps: seq<Packet>, slack: nat)
    requires Proper(ps) && ps != [] && |Stream(ps)| < BUFFERSIZE && ps[0].lead == PREAMBLE
    requires |Stream(ps)| <= 156 || (|ps| == 3 && ps[1].lead == ps[2].lead == 50
                                     && |ps[0].bytes| + |ps[1].bytes| + |ps[2].bytes| < 90
                                     && Fits.Kinds(ps[0].bytes, ps[1].bytes, ps[2].bytes, slack))
    ensures V3.SafeLead(V3.Buffer(Stream(ps))) && |V3.Translation(Stream(ps))| < PKTSIZE
  {
    hide Stream, V3.SafeLead, V3.Translation, V3.Trapped, V3.Misread, Fits.Kinds, LeadingOnes;
    PreambleIsSafe(ps);
    V3.TranslationSize(Stream(ps));
    if |Stream(ps)| > 156 {
      assert ps == [Packet(15, ps[0].bytes), Packet(50, ps[1].bytes), Packet(50, ps[2].bytes)];
      Fits.ThreePacketsFit(ps[0].bytes, ps[1].bytes, ps[2].bytes, slack);
    }
  }

  /** Both streams of every command fit, with any number of functions. */
  lemma CommandFits(address: bv32, direction: bv32, speed: bv32, func: bv32, nspeed: int, nfuncs: nat, mode: nat)
    requires (mode == 1 || mode == 2) && Accepted(address, direction, speed, nspeed, mode)
    ensures var bits1 := Stream(LocoPackets1(address, direction, speed, func, nspeed, nfuncs, mode));
            var bits2 := Stream(LocoPackets2(address, func, nspeed, nfuncs, mode));
            V3.SafeLead(V3.Buffer(bits1)) && V3.SafeLead(V3.Buffer(bits2))
            && |V3.Translation(bits1)| < PKTSIZE && |V3.Translation(bits2)| < PKTSIZE
  {
    FirstFits(address, direction, speed, func, nspeed, nfuncs, mode);
    SecondFits(address, func, nspeed, nfuncs, mode);
  }

  lemma FirstFits(address: bv32, direction: bv32, speed: bv32, func: bv32, nspeed: int, nfuncs: nat, mode: nat)
    requires (mode == 1 || mode == 2) && Accepted(address, direction, speed, nspeed, mode)
    ensures var bits1 := Stream(LocoPackets1(address, direction, speed, func, nspeed, nfuncs, mode));
            V3.SafeLead(V3.Buffer(bits1)) && |V3.Translation(bits1)| < PKTSIZE
  {
    LocoStream1Proper(address, direction, speed, func, nspeed, nfuncs, mode);
    Kinds1(address, direction, Limited(speed), func, nspeed, mode);
    hide Stream, V3.SafeLead, V3.Translation, Fits.Kinds, AddressBytes, SpeedBytes, GroupTwoByte, Low;
    var ps := LocoPackets1(address, direction, speed, func, nspeed, nfuncs, mode);
    KindFits(ps, 0);
  }

  lemma SecondFits(address: bv32, func: bv32, nspeed: int, nfuncs: nat, mode: nat)
    requires mode == 1 || (mode == 2 && 1 <= address <= 10239)
    ensures var bits2 := Stream(LocoPackets2(address, func, nspeed, nfuncs, mode));
            V3.SafeLead(V3.Buffer(bits2)) && |V3.Translation(bits2)| < PKTSIZE
  {
    LocoStream2Proper(address, func, nspeed, nfuncs, mode);
    Kinds2(address, func, mode);
    hide Stream, V3.SafeLead, V3.Translation, Fits.Kinds, AddressBytes, GroupOneByte, GroupTwoByte, Low;
    var ps := LocoPackets2(address, func, nspeed, nfuncs, mode);
    StreamEmptyIff(ps);
    if ps == [] {
      V3.TranslationSize([]);
    } else {
      KindFits(ps, if mode == 1 then 0 else 1);
    }
  }

  /** The command with translation routine 3: 0 and both packet streams, or 1 for arguments it
      turns down. `j` and `jj` are the lengths of the streams. */
  method CompNmraMultiFunc(address: bv32, direction: bv32, speed: bv32, func: bv32, nspeed: int, nfuncs: nat, mode: nat,
                           packetstream: array<bv8>, packetstream2: array<bv8>)
    returns (status: int, j: nat, jj: nat)
    requires packetstream.Length == packetstream2.Length == PKTSIZE && packetstream != packetstream2
    requires mode == 1 || mode == 2
    modifies packetstream, packetstream2
    ensures status == 0 <==> Accepted(address, direction, speed, nspeed, mode)
    ensures status == 0 ==> 0 < j < PKTSIZE && 0 < jj < PKTSIZE
    ensures status == 0 ==> forall own: Address, m: Mode, d: Loco :: own != Own(address, mode) ==>
              ExecuteParsed(own, m, d, Received(packetstream[..j])) == d
              && ExecuteParsed(own, m, d, Received(packetstream2[..jj])) == d
    ensures status == 0 && !(nspeed == 29 && speed == 30) ==> forall d: Loco ::
              AfterHearing(Own(address, mode), ModeOf(nspeed), d, packetstream[..j], packetstream2[..jj])
              == Commanded(d, direction, speed, func, nspeed, nfuncs)
    ensures status == 0 && !(nspeed == 29 && speed == 30) ==> forall d: Loco ::
              ExecuteParsed(Own(address, mode), ModeOf(nspeed), d, Received(packetstream[..j]))
              == FirstEffect(d, direction, speed, func, nspeed, nfuncs)
              && ExecuteParsed(Own(address, mode), ModeOf(nspeed), d, Received(packetstream2[..jj]))
                 == SecondEffect(d, direction, speed, func, nspeed, nfuncs)
  {
    hide Stream, V3.SafeLead, V3.Translation, V3.Trapped, LocoPackets1, LocoPackets2, Commanded, Own, AfterHearing, LeadingOnes,
         Received, ExecuteParsed, FirstEffect, SecondEffect;
    j, jj := 0, 0;
    if address < 1 || address > 10239 || direction > 1 || Negative(speed) || speed as int > nspeed + 1 || (address > 127 && mode == 1) {
      return 1, 0, 0;
    }
    var bitstream, bitstream2 := LocoBitstreams(address, direction, speed, func, nspeed, nfuncs, mode);
    ghost var ps1 := LocoPackets1(address, direction, speed, func, nspeed, nfuncs, mode);
    ghost var ps2 := LocoPackets2(address, func, nspeed, nfuncs, mode);
    LocoStream1Proper(address, direction, speed, func, nspeed, nfuncs, mode);
    LocoStream2Proper(address, func, nspeed, nfuncs, mode);
    StreamEmptyIff(ps2);
    PreambleIsSafe(ps1);
    NeverEmpty(bitstream);
    j := V3.Translate(bitstream, packetstream);
    ghost var out1 := packetstream[..j];
    if bitstream2 != [] {
      PreambleIsSafe(ps2);
      NeverEmpty(bitstream2);
      jj := V3.Translate(bitstream2, packetstream2);
    } else {
      jj := j;
      forall i | 0 <= i < PKTSIZE {
        packetstream2[i] := packetstream[i];
      }
      assert packetstream2[..jj] == packetstream[..j];
    }
    assert packetstream[..j] == out1 == V3.Translation(bitstream);
    assert packetstream2[..jj] == if bitstream2 == [] then out1 else V3.Translation(bitstream2);
    forall d: Loco
      ensures !(nspeed == 29 && speed == 30) ==>
                AfterHearing(Own(address, mode), ModeOf(nspeed), d, packetstream[..j], packetstream2[..jj])
                == Commanded(d, direction, speed, func, nspeed, nfuncs)
                && ExecuteParsed(Own(address, mode), ModeOf(nspeed), d, Received(packetstream[..j]))
                   == FirstEffect(d, direction, speed, func, nspeed, nfuncs)
                && ExecuteParsed(Own(address, mode), ModeOf(nspeed), d, Received(packetstream2[..jj]))
                   == SecondEffect(d, direction, speed, func, nspeed, nfuncs)
    {
      if !(nspeed == 29 && speed == 30) {
        StreamsHeard(address, direction, speed, func, nspeed, nfuncs, mode, d);
        CommandHeard(address, direction, speed, func, nspeed, nfuncs, mode, d);
      }
    }
    forall own: Address, m: Mode, d: Loco | own != Own(address, mode)
      ensures ExecuteParsed(own, m, d, Received(packetstream[..j])) == d
      ensures ExecuteParsed(own, m, d, Received(packetstream2[..jj])) == d
    {
      CommandNotHeard(address, direction, speed, func, nspeed, nfuncs, mode, own, m, d);
    }
    CommandFits(address, direction, speed, func, nspeed, nfuncs, mode);
    return 0, j, jj;
  }

  lemma NeverEmpty(bits: Bits)
    requires !V3.Trapped(bits)
    ensures V3.SafeLead(V3.Buffer(bits)) && (bits != [] ==> |V3.Translation(bits)| > 0)
  {
    V3.LeadOfBuffer(bits);
    V3.StartControl(bits);
    if bits != [] {
      V3.StepControl(V3.Buffer(bits), V3.START);
      assert |V3.Clip(bits)| > 0;
    }
  }
}
