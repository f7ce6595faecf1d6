/** Building the bit strings of DCC packets, character by character as the program does.
    C integers that are taken apart into bits are 32-bit words here; a negative one is its two's
    complement, which unsigned range checks turn down like signed ones. */
module Builders {
  import opened Signal
  import opened Packets

  predicate Negative(v: bv32) {
    v >= 0x8000_0000
  }

  function Low(v: bv32): bv8 {
    (v & 0xFF) as bv8
  }

  predicate BitSet(value: bv32, k: nat)
    requires k < 8
  {
    value & (Mask(7 - k) as bv32) != 0
  }

  lemma BitTest(value: bv32, bit: bv32, k: nat)
    requires k < 8 && bit == Mask(7 - k) as bv32
    ensures BitSet(value, k) == (value & bit != 0)
    ensures k < 7 ==> bit << 1 == Mask(6 - k) as bv32
  {
  }

  lemma LowBit(value: bv32, k: nat)
    requires k < 8
    ensures Bit(Low(value), k) == BitSet(value, 7 - k)
  {
  }

  lemma LowestMask()
    ensures Mask(7) as bv32 == 1
  {
  }

  /** The lower eight bits of `value`, most significant first. */
  method CalcSingleByte(value: bv32) returns (byte: Bits)
    ensures byte == ByteBits(Low(value))
  {
    hide BitSet, Low, Bit, Mask;
    byte := seq(8, _ => false);
    var bit: bv32 := 1;
    var i := 7;
    LowestMask();
    while i >= 0
      invariant -1 <= i <= 7 && |byte| == 8
      invariant i >= 0 ==> bit == Mask(i) as bv32
      invariant forall k :: 0 <= k <= i ==> !byte[k]
      invariant forall k :: i < k < 8 ==> byte[k] == Bit(Low(value), k)
    {
      BitTest(value, bit, 7 - i);
      LowBit(value, i);
      if value & bit != 0 {
        byte := byte[i := true];
      }
      bit := bit << 1;
      i := i - 1;
    }
  }

  function XorBits(a: Bits, b: Bits): (s: Bits)
    requires |a| == |b| == 8
    ensures |s| == 8
  {
    seq(8, i requires 0 <= i < 8 => a[i] != b[i])
  }

  method XorTwoBytes(byte1: Bits, byte2: Bits) returns (byte: Bits)
    requires |byte1| == |byte2| == 8
    ensures byte == XorBits(byte1, byte2)
  {
    byte := seq(8, _ => false);
    for i := 0 to 8
      invariant |byte| == 8 && forall k :: 0 <= k < i ==> byte[k] == (byte1[k] != byte2[k])
    {
      if byte1[i] == byte2[i] {
        byte := byte[i := false];
      } else {
        byte := byte[i := true];
      }
    }
  }

  lemma XorBytes(a: bv8, b: bv8)
    ensures XorBits(ByteBits(a), ByteBits(b)) == ByteBits(a ^ b)
  {
    hide Bit;
    forall k | 0 <= k < 8 ensures Bit(a ^ b, k) == (Bit(a, k) != Bit(b, k)) {
      XorBit(a, b, k);
    }
  }

  lemma XorBit(a: bv8, b: bv8, k: nat)
    requires k < 8
    ensures Bit(a ^ b, k) == (Bit(a, k) != Bit(b, k))
  {
    MaskValues(k);
    hide Mask;
    XorMask(a, b, Mask(k));
  }

  lemma MaskValues(k: nat)
    requires k < 8
    ensures var m := Mask(k);
            m == 0x80 || m == 0x40 || m == 0x20 || m == 0x10 || m == 0x08 || m == 0x04 || m == 0x02 || m == 0x01
  {
  }

  lemma XorMask(a: bv8, b: bv8, m: bv8)
    requires m == 0x80 || m == 0x40 || m == 0x20 || m == 0x10 || m == 0x08 || m == 0x04 || m == 0x02 || m == 0x01
    ensures ((a ^ b) & m != 0) == ((a & m != 0) != (b & m != 0))
  {
  }

  /** Setting or clearing one character of a byte. */
  lemma SetCharacter(v: bv8, i: nat)
    requires i < 8
    ensures ByteBits(v)[i := true] == ByteBits(v | Mask(i))
  {
    hide Bit, Mask;
    forall k | 0 <= k < 8 ensures Bit(v | Mask(i), k) == (k == i || Bit(v, k)) {
      SetBit(v, i, k);
    }
  }

  lemma SetBit(v: bv8, i: nat, k: nat)
    requires i < 8 && k < 8
    ensures Bit(v | Mask(i), k) == (k == i || Bit(v, k))
  {
  }

  lemma ClearCharacter(v: bv8, i: nat)
    requires i < 8
    ensures ByteBits(v)[i := false] == ByteBits(v & !Mask(i))
  {
    hide Bit, Mask;
    forall k | 0 <= k < 8 ensures Bit(v & !Mask(i), k) == (k != i && Bit(v, k)) {
      ClearBit(v, i, k);
    }
  }

  lemma ClearBit(v: bv8, i: nat, k: nat)
    requires i < 8 && k < 8
    ensures Bit(v & !Mask(i), k) == (k != i && Bit(v, k))
  {
  }

  // ----- The bytes of locomotive packets -----

  function AddressBytes(address: bv32, mode: nat): (a: seq<bv8>)
    ensures 1 <= |a| <= 2
  {
    if mode == 1 then [Low(address & 0x7F)] else [Low(0xC0 | (address >> 8)), Low(address)]
  }

  function Flag(func: bv32, mask: bv8): bv8 {
    if func & 1 != 0 then mask else 0
  }

  function BaselineByte(direction: bv32, speed: bv32, func: bv32): bv8 {
    Low(0x40 | (direction << 5) | speed) | Flag(func, 0x10)
  }

  function Speed28Byte(direction: bv32, speed: bv32): bv8 {
    if speed > 1 then Low(0x40 | (direction << 5) | ((speed + 2) >> 1)) | Flag(speed, 0x10)
    else Low(0x40 | (direction << 5) | speed)
  }

  function SpeedBytes(direction: bv32, speed: bv32, func: bv32, nspeed: int): (b: seq<bv8>)
    ensures 1 <= |b| <= 2
  {
    if speed < 2 || nspeed < 15 then [BaselineByte(direction, speed, func)]
    else if nspeed > 29 then [0x3F, Low(speed) | (if direction == 1 then 0x80 else 0)]
    else [Speed28Byte(direction, speed)]
  }

  function GroupOneByte(func: bv32): bv8 {
    Low(0x80 | ((func & 0x1F) >> 1)) | Flag(func, 0x10)
  }

  function GroupTwoByte(func: bv32, lower: bool): bv8 {
    if lower then Low(((func >> 5) & 0xF) | 0xB0) else Low(((func >> 9) & 0xF) | 0xA0)
  }

  method CalcBaselineSpeedByte(direction: bv32, speed: bv32, func: bv32) returns (byte: Bits)
    ensures byte == ByteBits(BaselineByte(direction, speed, func))
  {
    byte := CalcSingleByte(0x40 | (direction << 5) | speed);
    if func & 1 != 0 {
      SetCharacter(Low(0x40 | (direction << 5) | speed), 3);
      byte := byte[3 := true];
    }
  }

  method Calc28spstSpeedByte(direction: bv32, speed: bv32) returns (byte: Bits)
    ensures byte == ByteBits(Speed28Byte(direction, speed))
  {
    if speed > 1 {
      var s := speed + 2;
      byte := CalcSingleByte(0x40 | (direction << 5) | (s >> 1));
      assert s & 1 == speed & 1;
      if s & 1 != 0 {
        SetCharacter(Low(0x40 | (direction << 5) | (s >> 1)), 3);
        byte := byte[3 := true];
      }
    } else {
      byte := CalcSingleByte(0x40 | (direction << 5) | speed);
    }
  }

  method CalcFunctionGroupOneByte(func: bv32) returns (byte: Bits)
    ensures byte == ByteBits(GroupOneByte(func))
  {
    var f := func & 0x1F;
    byte := CalcSingleByte(0x80 | (f >> 1));
    assert f & 1 == func & 1;
    if f & 1 != 0 {
      SetCharacter(Low(0x80 | (f >> 1)), 3);
      byte := byte[3 := true];
    }
  }

  method CalcFunctionGroupTwoByte(func: bv32, lower: bool) returns (byte: Bits)
    ensures byte == ByteBits(GroupTwoByte(func, lower))
  {
    var f: bv32;
    if lower {
      f := (func >> 5) & 0xF;
      f := f | 0xB0;
    } else {
      f := (func >> 9) & 0xF;
      f := f | 0xA0;
    }
    byte := CalcSingleByte(f);
  }

  method Calc128spstAdvOpBytes(direction: bv32, speed: bv32) returns (byte1: Bits, byte2: Bits)
    ensures byte1 == ByteBits(0x3F)
    ensures byte2 == ByteBits(Low(speed) | (if direction == 1 then 0x80 else 0))
  {
    byte1 := [false, false, true, true, true, true, true, true];
    assert byte1 == ByteBits(0x3F);
    byte2 := CalcSingleByte(speed);
    if direction == 1 {
      SetCharacter(Low(speed), 0);
      byte2 := byte2[0 := true];
    }
  }
}
