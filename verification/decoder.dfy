/** A multi-function decoder in a locomotive, after section C of NMRA S-9.2.1: what it makes of
    the bytes of a packet. Written from the standard, independently of the builders. */
module Decoder {
  import opened Packets

  datatype Address = Short(n: bv32) | Long(n: bv32) | NoLoco

  /** The address a packet is meant for and the instruction and data bytes behind it. */
  function AddressOf(bytes: seq<bv8>): (Address, seq<bv8>)
    requires |bytes| >= 2
  {
    if 1 <= bytes[0] <= 127 then (Short(bytes[0] as bv32), bytes[1..])
    else if 192 <= bytes[0] <= 231 then
      (Long((((bytes[0] & 0x3F) as bv32) << 8) | bytes[1] as bv32), bytes[2..])
    else (NoLoco, [])
  }

  /** Speed 0 is stop, 1 is emergency stop, 2 and more are the speed steps. `funcs[i]` is Fi. */
  datatype Loco = Loco(forward: bool, speed: bv8, funcs: seq<bool>)

  /** How the decoder reads the baseline speed instruction: 14 steps and F0, or 28 steps. */
  datatype Mode = Steps14 | Steps28

  /** Sets the functions from `first` on, as far as the decoder has them. */
  function SetFunctions(d: Loco, first: nat, values: seq<bool>): Loco {
    d.(funcs := seq(|d.funcs|, i requires 0 <= i < |d.funcs| =>
                      if first <= i < first + |values| then values[i - first] else d.funcs[i]))
  }

  function LowFour(b: bv8): seq<bool> {
    [b & 0x01 != 0, b & 0x02 != 0, b & 0x04 != 0, b & 0x08 != 0]
  }

  function AllEight(b: bv8): seq<bool> {
    LowFour(b) + [b & 0x10 != 0, b & 0x20 != 0, b & 0x40 != 0, b & 0x80 != 0]
  }

  /** 01DUSSSS */
  function Baseline(mode: Mode, d: Loco, b: bv8): Loco {
    var d' := d.(forward := b & 0x20 != 0);
    var s, u := b & 0x0F, (b & 0x10) >> 4;
    if mode.Steps14? then SetFunctions(d'.(speed := s), 0, [u != 0])
    else
      var step := (s << 1) | u;
      d'.(speed := if step < 2 then 0 else if step < 4 then 1 else step - 2)
  }

  /** What an instruction with its data does to the decoder. */
  function Obey(mode: Mode, d: Loco, code: seq<bv8>): Loco {
    if |code| == 1 && code[0] & 0xC0 == 0x40 then
      Baseline(mode, d, code[0])
    else if |code| == 2 && code[0] == 0x3F then
      d.(forward := code[1] & 0x80 != 0, speed := code[1] & 0x7F)
    else if |code| == 1 && code[0] & 0xE0 == 0x80 then
      SetFunctions(d, 0, [code[0] & 0x10 != 0] + LowFour(code[0]))
    else if |code| == 1 && code[0] & 0xF0 == 0xB0 then
      SetFunctions(d, 5, LowFour(code[0]))
    else if |code| == 1 && code[0] & 0xF0 == 0xA0 then
      SetFunctions(d, 9, LowFour(code[0]))
    else if |code| == 2 && code[0] == 0xDE then
      SetFunctions(d, 13, AllEight(code[1]))
    else if |code| == 2 && code[0] == 0xDF then
      SetFunctions(d, 21, AllEight(code[1]))
    else d
  }

  /** A packet with a wrong error detection byte or for another address changes nothing. */
  function Execute(own: Address, mode: Mode, d: Loco, bytes: seq<bv8>): Loco {
    if |bytes| < 3 || XorAll(bytes) != 0 then d
    else
      var (address, code) := AddressOf(bytes[..|bytes| - 1]);
      if address == own && own != NoLoco then Obey(mode, d, code) else d
  }

  function ExecuteAll(own: Address, mode: Mode, d: Loco, packets: seq<Packet>): Loco
    decreases |packets|
  {
    if packets == [] then d
    else ExecuteAll(own, mode, Execute(own, mode, d, packets[0].bytes), packets[1..])
  }

  /** What a decoder does with everything it hears. Nothing is done on a malformed signal. */
  function ExecuteParsed(own: Address, mode: Mode, d: Loco, p: Parsed): Loco {
    match p
    case Packets(packets) => ExecuteAll(own, mode, d, packets)
    case Malformed => d
  }

  lemma {:induction false} ExecuteAppend(own: Address, mode: Mode, d: Loco, ps: seq<Packet>, qs: seq<Packet>)
    ensures ExecuteAll(own, mode, d, ps + qs) == ExecuteAll(own, mode, ExecuteAll(own, mode, d, ps), qs)
    decreases |ps|
  {
    hide Execute;
    if ps == [] {
      assert ps + qs == qs;
    } else {
      assert (ps + qs)[1..] == ps[1..] + qs;
      ExecuteAppend(own, mode, Execute(own, mode, d, ps[0].bytes), ps[1..], qs);
    }
  }
}
