/** The packet streams of a locomotive command with all its function packets fit the size of a
    packet stream. The worth of the bits is counted packet by packet. */
module StreamFits {
  import opened Signal
  import opened Packets
  import opened Builders
  import opened LocoCommand
  import opened TranslatorV3
  import opened Lookahead
  import opened StreamLength

  // ----- Bytes in a bit string -----

  ghost predicate ByteAt(b: Bits, i: nat, v: bv8) {
    i + 8 <= |b| && forall k :: 0 <= k < 8 ==> b[i + k] == Bit(v, k)
  }

  ghost predicate BlockAt(b: Bits, z: nat, v: bv8) {
    z < |b| && !b[z] && ByteAt(b, z + 1, v)
  }

  ghost predicate PacketAt(b: Bits, z: nat, bytes: seq<bv8>) {
    forall i :: 0 <= i < |bytes| ==> BlockAt(b, z + 9 * i, bytes[i])
  }

  function One(x: bool): nat {
    if x then 1 else 0
  }

  /** Number of 1s in a byte from its `k`th bit on. */
  function Pop(v: bv8, k: nat): nat
    requires k <= 8
    decreases 8 - k
  {
    if k == 8 then 0 else One(Bit(v, k)) + Pop(v, k + 1)
  }

  lemma {:induction false} CountByte(b: Bits, i: nat, v: bv8, k: nat)
    requires k <= 8 && ByteAt(b, i, v)
    ensures Count(b, i + k, i + 8) == Pop(v, k)
    decreases 8 - k
  {
    hide Bit;
    if k < 8 {
      CountByte(b, i, v, k + 1);
    }
  }

  /** The worth of the end of a byte. */
  lemma RestWorth(b: Bits, i: nat, v: bv8, k: nat)
    requires 0 < i && k <= 8 && ByteAt(b, i, v) && Closed(b, i + 8)
    ensures 3 * Total(b, i + k, i + 8) + 2 * Pop(v, k) <= 6 * (8 - k)
  {
    hide ByteAt, Closed, Total, Count, Pop;
    assert i + 8 <= |b| by { BytesEnd(b, i, v); }
    CountByte(b, i, v, k);
    SparseTotal(b, i + k, i + 8);
  }

  lemma BytesEnd(b: Bits, i: nat, v: bv8)
    requires ByteAt(b, i, v)
    ensures i + 8 <= |b|
  {
  }

  lemma BlockWorth(b: Bits, z: nat, v: bv8, p: nat)
    requires BlockAt(b, z, v) && z + 9 <= p <= |b|
    ensures Total(b, z, p) == 2 + Total(b, z + 1, z + 9) + Total(b, z + 9, p)
  {
    TotalSplit(b, z + 1, z + 9, p);
  }

  // ----- The first byte of a long address: 110xxxxx or 11100xxx -----

  predicate LongFirst(v: bv8) {
    192 <= v <= 231
  }

  lemma LongFirstBits(v: bv8)
    requires LongFirst(v)
    ensures Bit(v, 0) && Bit(v, 1) && !(Bit(v, 2) && Bit(v, 3))
  {
  }

  ghost predicate LongAt(b: Bits, z: nat) {
    0 < z && z + 9 < |b| && !b[z] && b[z + 1] && b[z + 2] && !(b[z + 3] && b[z + 4])
  }

  lemma LongFirstAt(b: Bits, z: nat, v: bv8)
    requires 0 < z && z + 9 < |b| && BlockAt(b, z, v) && LongFirst(v)
    ensures LongAt(b, z)
  {
    LongFirstBits(v);
    hide Bit;
    assert b[z + 1] == Bit(v, 0) && b[z + 2] == Bit(v, 1) && b[z + 3] == Bit(v, 2) && b[z + 4] == Bit(v, 3) by {
      var i := z + 1;
      assert b[i + 0] == Bit(v, 0) && b[i + 1] == Bit(v, 1) && b[i + 2] == Bit(v, 2) && b[i + 3] == Bit(v, 3);
    }
  }

  lemma LongFirstWorth(b: Bits, z: nat)
    requires LongAt(b, z)
    ensures Worth(b, z) == 2 && Worth(b, z + 2) == 1
    ensures Worth(b, z + 1) + Worth(b, z + 2) + Worth(b, z + 3) == 4
    ensures Worth(b, z + 3) == if b[z + 3] then 1 else 2
  {
    RunIs(b, z + 1, if b[z + 3] then 3 else 2);
  }

  /** The read pointer comes to the packet one to four bits before its first '0'. */
  ghost predicate Enters(b: Bits, z: nat, m: nat) {
    1 <= m <= 4 && m < z && z + 9 < |b| && OnesIn(b, z - m, z) && !b[z]
  }

  lemma EntersNotBad(b: Bits, z: nat, m: nat)
    requires Enters(b, z, m)
    ensures !Bad(b, z - m)
  {
    BadRun(b, z - m, m);
  }

  /** From two to four bits before, the first byte moves on by four. */
  lemma FirstCell(b: Bits, z: nat, m: nat)
    requires LongAt(b, z) && Enters(b, z, m) && m >= 2
    ensures Chosen(b, z - m).length == 4 && !Bad(b, z - m + 4)
  {
    var w := Six(b, z - m);
    assert forall k :: 0 <= k < 6 ==> w[k] == b[z - m + k];
    assert EntryFor(w, false).length == 4 by {
      FirstEntries(w, m);
    }
    hide EntryFor;
    assert !Bad(b, z - m + 4) by {
      if m < 4 {
        DebtNeedsFive(b, z - m + 4);
      }
    }
  }

  lemma FirstEntries(w: Bits, m: nat)
    requires |w| == 6 && 2 <= m <= 4
    requires (m == 2 ==> w[0] && w[1] && !w[2] && w[3] && w[4])
    requires (m == 3 ==> w[0] && w[1] && w[2] && !w[3] && w[4])
    requires (m == 4 ==> w[0] && w[1] && w[2] && w[3] && !w[4])
    ensures EntryFor(w, false).length == 4
  {
  }

  /** With a 0 twice behind the two 1s, the second byte moves on by three. */
  lemma SecondCell(b: Bits, z: nat)
    requires LongAt(b, z) && !b[z + 3] && !b[z + 4]
    ensures Chosen(b, z + 1).length == 3 && !Bad(b, z + 4)
  {
    var w := Six(b, z + 1);
    assert forall k :: 0 <= k < 6 ==> w[k] == b[z + 1 + k];
    assert EntryFor(w, false).length == 3;
    hide EntryFor;
    assert !Bad(b, z + 4);
  }

  lemma OneCell(b: Bits, r: nat, stop: nat)
    requires r < stop && stop + 6 <= |b|
    ensures Cells(b, r, stop) == 1 + Cells(b, r + Chosen(b, r).length, stop)
    ensures Land(b, r, stop) == Land(b, r + Chosen(b, r).length, stop)
  {
  }

  // ----- What the error detection byte makes sure of -----

  /** In every column of a packet the 1s are even in number. */
  lemma EvenColumn(bytes: seq<bv8>, k: nat)
    requires 4 <= |bytes| <= 5 && k < 8 && XorAll(bytes) == 0
    ensures |bytes| == 4 ==>
              (Bit(bytes[0], k) != Bit(bytes[1], k)) == (Bit(bytes[2], k) != Bit(bytes[3], k))
    ensures |bytes| == 5 ==>
              ((Bit(bytes[0], k) != Bit(bytes[1], k)) != Bit(bytes[2], k)) == (Bit(bytes[3], k) != Bit(bytes[4], k))
  {
    hide Bit, XorAll;
    XorOfFour(bytes[..4], k);
    if |bytes| == 4 {
      assert bytes[..4] == bytes;
    } else {
      assert bytes == bytes[..4] + [bytes[4]];
      XorColumn(bytes[..4], bytes[4], k);
    }
    NoBit(k);
  }

  lemma NoBit(k: nat)
    requires k < 8
    ensures !Bit(0, k)
  {
  }

  lemma XorColumn(bytes: seq<bv8>, v: bv8, k: nat)
    requires k < 8
    ensures Bit(XorAll(bytes + [v]), k) == (Bit(XorAll(bytes), k) != Bit(v, k))
  {
    hide Bit, XorAll;
    XorNext(bytes, v);
    XorBit(XorAll(bytes), v, k);
  }

  lemma XorOfFour(bytes: seq<bv8>, k: nat)
    requires |bytes| == 4 && k < 8
    ensures Bit(XorAll(bytes), k)
            == ((Bit(bytes[0], k) != Bit(bytes[1], k)) != (Bit(bytes[2], k) != Bit(bytes[3], k)))
  {
    hide Bit, XorAll;
    XorFirst(bytes[0]);
    XorColumn([bytes[0]], bytes[1], k);
    XorColumn([bytes[0]] + [bytes[1]], bytes[2], k);
    XorColumn([bytes[0]] + [bytes[1]] + [bytes[2]], bytes[3], k);
    assert bytes == [bytes[0]] + [bytes[1]] + [bytes[2]] + [bytes[3]];
  }

  lemma FixedBits()
    ensures forall k: nat :: k < 8 ==> Bit(0x3F, k) == (k >= 2)
    ensures forall k: nat :: k < 8 ==> Bit(0xDE, k) == (k != 2 && k != 7)
    ensures forall k: nat :: k < 8 ==> Bit(0xDF, k) == (k != 2)
  {
  }

  lemma PopNext(v: bv8, k: nat)
    requires k < 8
    ensures Pop(v, k) == One(Bit(v, k)) + Pop(v, k + 1)
  {
    hide Bit;
  }

  lemma PopNone(v: bv8)
    ensures Pop(v, 8) == 0
  {
  }

  /** A column of a speed packet has a 1 besides those of 3F and of the address mark. */
  lemma SpeedColumn(bytes: seq<bv8>, k: nat)
    requires |bytes| == 5 && LongFirst(bytes[0]) && bytes[2] == 0x3F && XorAll(bytes) == 0 && k < 8
    ensures (k >= 2 && Bit(bytes[0], k)) || Bit(bytes[1], k) || Bit(bytes[3], k) || Bit(bytes[4], k)
  {
    LongFirstBits(bytes[0]);
    FixedBits();
    hide Bit, XorAll, LongFirst;
    EvenColumn(bytes, k);
  }

  lemma {:induction false} SpeedOnesFrom(bytes: seq<bv8>, k: nat)
    requires |bytes| == 5 && LongFirst(bytes[0]) && bytes[2] == 0x3F && XorAll(bytes) == 0 && k <= 8
    ensures Pop(bytes[0], if k < 2 then 2 else k) + Pop(bytes[1], k) + Pop(bytes[3], k) + Pop(bytes[4], k) >= 8 - k
    decreases 8 - k
  {
    hide Bit, XorAll, LongFirst, Pop;
    if k < 8 {
      SpeedColumn(bytes, k);
      SpeedOnesFrom(bytes, k + 1);
      PopNext(bytes[0], k);
      PopNext(bytes[1], k);
      PopNext(bytes[3], k);
      PopNext(bytes[4], k);
    }
  }

  /** A speed packet of five bytes has eight 1s besides those of 3F and the two of the address mark. */
  lemma SpeedOnes(bytes: seq<bv8>)
    requires |bytes| == 5 && LongFirst(bytes[0]) && bytes[2] == 0x3F && XorAll(bytes) == 0
    ensures Pop(bytes[0], 2) + Pop(bytes[1], 0) + Pop(bytes[3], 0) + Pop(bytes[4], 0) >= 8
  {
    hide Pop, XorAll;
    SpeedOnesFrom(bytes, 0);
  }

  predicate GroupByte(v: bv8) {
    v & 0xF0 == 0xB0
  }

  lemma GroupBits(v: bv8)
    requires GroupByte(v)
    ensures Bit(v, 0) && !Bit(v, 1) && Bit(v, 2) && Bit(v, 3)
  {
  }

  /** A group packet has a 1 in the second, third and fourth column besides those of the fixed bits. */
  lemma GroupOnes(bytes: seq<bv8>)
    requires |bytes| == 4 && LongFirst(bytes[0]) && GroupByte(bytes[2]) && XorAll(bytes) == 0
    ensures Bit(bytes[1], 1) || Bit(bytes[3], 1)
    ensures Bit(bytes[0], 2) || Bit(bytes[1], 2) || Bit(bytes[3], 2)
    ensures Bit(bytes[0], 3) || Bit(bytes[1], 3) || Bit(bytes[3], 3)
  {
    LongFirstBits(bytes[0]);
    GroupBits(bytes[2]);
    hide Bit;
    EvenColumn(bytes, 1);
    EvenColumn(bytes, 2);
    EvenColumn(bytes, 3);
  }

  predicate ExpansionByte(v: bv8) {
    v == 0xDE || v == 0xDF
  }

  lemma ExpansionColumn(bytes: seq<bv8>, k: nat)
    requires |bytes| == 5 && ExpansionByte(bytes[2]) && LongFirst(bytes[0]) && XorAll(bytes) == 0 && 3 <= k < 7
    ensures Bit(bytes[0], k) || Bit(bytes[1], k) || Bit(bytes[3], k) || Bit(bytes[4], k)
  {
    FixedBits();
    hide Bit, XorAll, LongFirst;
    EvenColumn(bytes, k);
  }

  lemma {:induction false} ExpansionOnesFrom(bytes: seq<bv8>, k: nat)
    requires |bytes| == 5 && ExpansionByte(bytes[2]) && LongFirst(bytes[0]) && XorAll(bytes) == 0 && 3 <= k <= 7
    ensures Pop(bytes[0], k) + Pop(bytes[1], k) + Pop(bytes[3], k) + Pop(bytes[4], k) >= 7 - k
    decreases 8 - k
  {
    hide Bit, XorAll, LongFirst, Pop, ExpansionByte;
    if k < 7 {
      ExpansionColumn(bytes, k);
      ExpansionOnesFrom(bytes, k + 1);
      PopNext(bytes[0], k);
      PopNext(bytes[1], k);
      PopNext(bytes[3], k);
      PopNext(bytes[4], k);
    }
  }

  lemma {:induction false} PopGrows(v: bv8, j: nat, k: nat)
    requires j <= k <= 8
    ensures Pop(v, j) >= Pop(v, k)
    decreases k - j
  {
    hide Bit;
    if j < k {
      PopGrows(v, j + 1, k);
    }
  }

  lemma ExpansionOnes(bytes: seq<bv8>)
    requires |bytes| == 5 && ExpansionByte(bytes[2]) && LongFirst(bytes[0]) && XorAll(bytes) == 0
    ensures Pop(bytes[0], 3) + Pop(bytes[1], 0) + Pop(bytes[3], 0) + Pop(bytes[4], 0) >= 4
  {
    hide Pop, XorAll;
    ExpansionOnesFrom(bytes, 3);
    PopGrows(bytes[1], 0, 3);
    PopGrows(bytes[3], 0, 3);
    PopGrows(bytes[4], 0, 3);
  }

  // ----- The worth of fixed bytes -----

  lemma TotalOfEight(b: Bits, i: nat)
    requires i + 8 <= |b|
    ensures Total(b, i, i + 8) == Worth(b, i) + Worth(b, i + 1) + Worth(b, i + 2) + Worth(b, i + 3)
                                  + Worth(b, i + 4) + Worth(b, i + 5) + Worth(b, i + 6) + Worth(b, i + 7)
  {
    hide Worth;
    TotalOfMore(b, i, 4);
    TotalOfMore(b, i + 4, 4);
    TotalSplit(b, i, i + 4, i + 8);
  }

  lemma ByteBitsAt(b: Bits, i: nat, v: bv8)
    requires ByteAt(b, i, v)
    ensures i + 8 <= |b|
    ensures b[i] == Bit(v, 0) && b[i + 1] == Bit(v, 1) && b[i + 2] == Bit(v, 2) && b[i + 3] == Bit(v, 3)
    ensures b[i + 4] == Bit(v, 4) && b[i + 5] == Bit(v, 5) && b[i + 6] == Bit(v, 6) && b[i + 7] == Bit(v, 7)
  {
    hide Bit;
    assert b[i + 0] == Bit(v, 0);
  }

  lemma FixedWorth(b: Bits, i: nat, v: bv8)
    requires 0 < i && ByteAt(b, i, v) && i + 8 < |b| && !b[i - 1] && !b[i + 8] && (v == 0x3F || ExpansionByte(v))
    ensures Total(b, i, i + 8) == 10
  {
    ByteBitsAt(b, i, v);
    FixedBits();
    hide Bit;
    TotalOfEight(b, i);
    if v == 0x3F {
      RunIs(b, i + 2, 6);
    } else {
      RunIs(b, i, 2);
      RunIs(b, i + 3, if v == 0xDE then 4 else 5);
    }
  }

  lemma RunFromThree(b: Bits, i: nat)
    requires Free(b, i)
    ensures i + 1 < |b| && b[i + 1] && Worth(b, i + 1) == 1
  {
    assert RunFrom(b, i) >= 2;
  }

  /** 1011 and 101 with anything behind it. */
  lemma GroupWorth(b: Bits, i: nat, v: bv8)
    requires 0 < i && ByteAt(b, i, v) && i + 8 < |b| && !b[i - 1] && !b[i + 8]
    requires Bit(v, 0) && !Bit(v, 1) && Bit(v, 2)
    ensures Total(b, i, i + 8) <= if Bit(v, 3) then 13 else 14
  {
    ByteBitsAt(b, i, v);
    hide Bit, Free;
    TotalOfEight(b, i);
    assert !Free(b, i) by {
      RunIs(b, i, 1);
      assert !Free(b, i) by { FreeRun(b, i); }
    }
    if Free(b, i + 2) {
      FreeRun(b, i + 2);
      RunFromThree(b, i + 2);
      if b[i + 3] {
        assert b[i + 4];
      }
    }
    NotFirst(b, i + 3);
    if b[i + 3] {
      NotFirst(b, i + 4);
    }
  }

  lemma NotFirst(b: Bits, i: nat)
    requires 0 < i < |b| && b[i - 1]
    ensures !Free(b, i)
  {
  }

  lemma FreeRun(b: Bits, i: nat)
    ensures Free(b, i) ==> i < |b| && RunFrom(b, i) >= 3
  {
  }

  // ----- The worth of whole packets -----

  /** A packet of `n` bytes from `z` on, with the '1' that ends it at `z + 9 * n`. */
  ghost predicate Placed(b: Bits, z: nat, bytes: seq<bv8>) {
    && 0 < z && z + 9 * |bytes| < |b|
    && PacketAt(b, z, bytes) && Closed(b, z + 9 * |bytes|) && b[z + 9 * |bytes|]
  }

  lemma PlacedByte(b: Bits, z: nat, bytes: seq<bv8>, i: nat)
    requires Placed(b, z, bytes) && i < |bytes|
    ensures z + 9 * i + 9 <= |b| - 1 && BlockAt(b, z + 9 * i, bytes[i]) && Closed(b, z + 9 * i + 9)
  {
    if i + 1 < |bytes| {
      assert BlockAt(b, z + 9 * (i + 1), bytes[i + 1]);
    }
  }

  /** Any packet: a byte and its '0' are worth at most eighteen. */
  lemma {:induction false} AnyWorth(b: Bits, z: nat, bytes: seq<bv8>, i: nat)
    requires Placed(b, z, bytes) && i <= |bytes|
    ensures Total(b, z + 9 * i, z + 9 * |bytes|) <= 18 * (|bytes| - i)
    decreases |bytes| - i
  {
    hide Placed, Total;
    PlacedEnd(b, z, bytes);
    if i < |bytes| {
      PlacedByte(b, z, bytes, i);
      BlockWorth(b, z + 9 * i, bytes[i], z + 9 * |bytes|);
      RestWorth(b, z + 9 * i + 1, bytes[i], 0);
      AnyWorth(b, z, bytes, i + 1);
    } else {
      TotalNone(b, z + 9 * i);
    }
  }

  lemma PlacedEnd(b: Bits, z: nat, bytes: seq<bv8>)
    requires Placed(b, z, bytes)
    ensures 0 < z && z + 9 * |bytes| < |b|
  {
  }

  /** One byte less precisely: its '0', what is known of it, and the rest of the packet. */
  lemma NextWorth(b: Bits, z: nat, bytes: seq<bv8>, i: nat)
    requires Placed(b, z, bytes) && i < |bytes|
    ensures z + 9 * |bytes| <= |b|
    ensures Total(b, z + 9 * i, z + 9 * |bytes|)
            == 2 + Total(b, z + 9 * i + 1, z + 9 * i + 9) + Total(b, z + 9 * (i + 1), z + 9 * |bytes|)
    ensures 3 * Total(b, z + 9 * i + 1, z + 9 * i + 9) + 2 * Pop(bytes[i], 0) <= 48
    ensures i + 1 < |bytes| && (bytes[i] == 0x3F || ExpansionByte(bytes[i])) ==> Total(b, z + 9 * i + 1, z + 9 * i + 9) == 10
    ensures i + 1 < |bytes| && Bit(bytes[i], 0) && !Bit(bytes[i], 1) && Bit(bytes[i], 2) ==>
              Total(b, z + 9 * i + 1, z + 9 * i + 9) <= if Bit(bytes[i], 3) then 13 else 14
  {
    hide Total, Pop, Bit, ByteAt, ExpansionByte;
    PlacedByte(b, z, bytes, i);
    BlockWorth(b, z + 9 * i, bytes[i], z + 9 * |bytes|);
    RestWorth(b, z + 9 * i + 1, bytes[i], 0);
    if i + 1 < |bytes| {
      PlacedByte(b, z, bytes, i + 1);
      if bytes[i] == 0x3F || ExpansionByte(bytes[i]) {
        FixedWorth(b, z + 9 * i + 1, bytes[i]);
      }
      if Bit(bytes[i], 0) && !Bit(bytes[i], 1) && Bit(bytes[i], 2) {
        GroupWorth(b, z + 9 * i + 1, bytes[i]);
      }
    }
  }

  /** The first byte of a long address, from its `k`th bit on, and what comes before the rest. */
  lemma LongWorth(b: Bits, z: nat, bytes: seq<bv8>, k: nat)
    requires Placed(b, z, bytes) && |bytes| >= 2 && LongFirst(bytes[0]) && 2 <= k <= 4
    ensures LongAt(b, z) && z + 9 * |bytes| <= |b|
    ensures b[z + 3] == Bit(bytes[0], 2) && b[z + 4] == Bit(bytes[0], 3)
    ensures Total(b, z + 1 + k, z + 9 * |bytes|) == Total(b, z + 1 + k, z + 9) + Total(b, z + 9, z + 9 * |bytes|)
    ensures 3 * Total(b, z + 1 + k, z + 9) + 2 * Pop(bytes[0], k) <= 6 * (8 - k)
  {
    hide Total, Pop, Bit, LongFirst;
    PlacedByte(b, z, bytes, 0);
    LongFirstAt(b, z, bytes[0]);
    ByteBitsAt(b, z + 1, bytes[0]);
    RestWorth(b, z + 1, bytes[0], k);
    TotalSplit(b, z + 1 + k, z + 9, z + 9 * |bytes|);
  }

  lemma SpeedWorth(b: Bits, z: nat, bytes: seq<bv8>)
    requires Placed(b, z, bytes) && |bytes| == 5 && LongFirst(bytes[0]) && bytes[2] == 0x3F && XorAll(bytes) == 0
    ensures z + 45 <= |b| && Total(b, z + 3, z + 45) <= 72
  {
    hide Placed, Total, Pop, Bit, LongFirst, LongAt, XorAll;
    SpeedOnes(bytes);
    LongWorth(b, z, bytes, 2);
    NextWorth(b, z, bytes, 1);
    NextWorth(b, z, bytes, 2);
    NextWorth(b, z, bytes, 3);
    NextWorth(b, z, bytes, 4);
    TotalNone(b, z + 45);
  }

  /** The packet without its first byte, for a group and for an expansion packet. */
  lemma GroupTail(b: Bits, z: nat, bytes: seq<bv8>)
    requires Placed(b, z, bytes) && |bytes| == 4 && GroupByte(bytes[2])
    ensures z + 36 <= |b|
    ensures Total(b, z + 9, z + 36) == 6 + Total(b, z + 10, z + 18) + Total(b, z + 19, z + 27) + Total(b, z + 28, z + 36)
    ensures Total(b, z + 19, z + 27) <= 13
    ensures 3 * Total(b, z + 10, z + 18) + 2 * Pop(bytes[1], 0) <= 48
    ensures 3 * Total(b, z + 28, z + 36) + 2 * Pop(bytes[3], 0) <= 48
  {
    hide *;
    GroupBits(bytes[2]);
    NextWorth(b, z, bytes, 1);
    NextWorth(b, z, bytes, 2);
    NextWorth(b, z, bytes, 3);
    TotalNone(b, z + 36);
  }

  lemma ExpansionTail(b: Bits, z: nat, bytes: seq<bv8>)
    requires Placed(b, z, bytes) && |bytes| == 5 && ExpansionByte(bytes[2])
    ensures z + 45 <= |b|
    ensures 3 * Total(b, z + 9, z + 45) + 2 * (Pop(bytes[1], 0) + Pop(bytes[3], 0) + Pop(bytes[4], 0)) <= 198
  {
    hide Placed, Total, Pop, Bit, ExpansionByte;
    NextWorth(b, z, bytes, 1);
    NextWorth(b, z, bytes, 2);
    NextWorth(b, z, bytes, 3);
    NextWorth(b, z, bytes, 4);
    PlacedEnd(b, z, bytes);
    TotalNone(b, z + 45);
  }

  /** The first byte from its '0' on, from its first and from its second bit on. */
  lemma LongParts(b: Bits, z: nat, p: nat)
    requires LongAt(b, z) && z + 9 <= p <= |b|
    ensures Total(b, z + 2, p) == 1 + Total(b, z + 3, p)
    ensures Total(b, z + 3, p) == (if b[z + 3] then 1 else 2) + Total(b, z + 4, p)
    ensures Total(b, z + 4, p) == Worth(b, z + 4) + Total(b, z + 5, p)
    ensures Total(b, z + 1, p) == 4 + Total(b, z + 4, p) && Total(b, z, p) == 6 + Total(b, z + 4, p)
  {
    LongFirstWorth(b, z);
    hide Worth;
    assert Total(b, z, p) == Worth(b, z) + Total(b, z + 1, p);
    assert Total(b, z + 1, p) == Worth(b, z + 1) + Total(b, z + 2, p);
    assert Total(b, z + 2, p) == Worth(b, z + 2) + Total(b, z + 3, p);
    assert Total(b, z + 3, p) == Worth(b, z + 3) + Total(b, z + 4, p);
  }

  lemma GroupPops(bytes: seq<bv8>)
    requires |bytes| == 4 && LongFirst(bytes[0]) && GroupByte(bytes[2]) && XorAll(bytes) == 0
    ensures Pop(bytes[1], 0) + Pop(bytes[3], 0) >= 1 + One(!Bit(bytes[0], 2)) + One(!Bit(bytes[0], 3))
    ensures Pop(bytes[0], 2) == One(Bit(bytes[0], 2)) + Pop(bytes[0], 3)
    ensures Pop(bytes[0], 3) == One(Bit(bytes[0], 3)) + Pop(bytes[0], 4)
  {
    GroupOnes(bytes);
    hide Bit, LongFirst, GroupByte, XorAll;
    PopStart(bytes[1]);
    PopStart(bytes[3]);
  }

  lemma PopStart(v: bv8)
    ensures Pop(v, 0) >= One(Bit(v, 1)) + One(Bit(v, 2)) + One(Bit(v, 3))
  {
    hide Bit;
    assert Pop(v, 0) >= Pop(v, 1) == One(Bit(v, 1)) + Pop(v, 2);
    assert Pop(v, 2) == One(Bit(v, 2)) + Pop(v, 3) && Pop(v, 3) >= One(Bit(v, 3));
  }

  lemma GroupPacketWorth(b: Bits, z: nat, bytes: seq<bv8>)
    requires Placed(b, z, bytes) && |bytes| == 4 && LongFirst(bytes[0]) && GroupByte(bytes[2]) && XorAll(bytes) == 0
    ensures LongAt(b, z) && z + 36 <= |b|
    ensures Total(b, z, z + 36) <= 65 && Total(b, z + 1, z + 36) <= 63 && Total(b, z + 3, z + 36) <= 61
    ensures if b[z + 3] || b[z + 4] then Total(b, z + 2, z + 36) <= 61 else Total(b, z + 5, z + 36) <= 57
  {
    hide Placed, Total, Pop, Bit, LongFirst, LongAt, GroupByte, XorAll;
    GroupPops(bytes);
    GroupTail(b, z, bytes);
    LongWorth(b, z, bytes, 2);
    LongWorth(b, z, bytes, 3);
    LongWorth(b, z, bytes, 4);
    LongParts(b, z, z + 36);
  }

  lemma ExpansionPacketWorth(b: Bits, z: nat, bytes: seq<bv8>)
    requires Placed(b, z, bytes) && |bytes| == 5 && LongFirst(bytes[0]) && ExpansionByte(bytes[2]) && XorAll(bytes) == 0
    ensures LongAt(b, z) && z + 45 <= |b|
    ensures Total(b, z, z + 45) <= 79 && Total(b, z + 1, z + 45) <= 77
    ensures Total(b, z + 2, z + 45) <= 76 && Total(b, z + 3, z + 45) <= 75
  {
    hide Placed, Total, Pop, Bit, LongFirst, LongAt, ExpansionByte, XorAll;
    ExpansionOnes(bytes);
    ExpansionTail(b, z, bytes);
    LongWorth(b, z, bytes, 3);
    LongParts(b, z, z + 45);
  }

  /** Without a look at the error detection byte, for the other packets of four bytes. */
  lemma PlainPacketWorth(b: Bits, z: nat, bytes: seq<bv8>)
    requires Placed(b, z, bytes) && |bytes| == 4 && LongFirst(bytes[0])
    ensures LongAt(b, z) && z + 36 <= |b|
    ensures Total(b, z + 3, z + 36) <= 66
  {
    hide Placed, Total, Pop, Bit, LongFirst, LongAt;
    LongWorth(b, z, bytes, 2);
    AnyWorth(b, z, bytes, 1);
  }

  predicate SecondGroupByte(v: bv8) {
    v & 0xF0 == 0xA0
  }

  lemma SecondGroupWorth(b: Bits, z: nat, bytes: seq<bv8>)
    requires Placed(b, z, bytes) && |bytes| == 4 && LongFirst(bytes[0]) && SecondGroupByte(bytes[2])
    ensures LongAt(b, z) && z + 36 <= |b|
    ensures Total(b, z, z + 36) <= 68 && Total(b, z + 1, z + 36) <= 66
    ensures Total(b, z + 2, z + 36) <= 65 && Total(b, z + 3, z + 36) <= 64
  {
    assert Bit(bytes[2], 0) && !Bit(bytes[2], 1) && Bit(bytes[2], 2) by { SecondGroupBits(bytes[2]); }
    hide Placed, Total, Pop, Bit, LongFirst, LongAt, SecondGroupByte;
    SecondGroupTail(b, z, bytes);
    LongWorth(b, z, bytes, 3);
    LongParts(b, z, z + 36);
  }

  lemma SecondGroupTail(b: Bits, z: nat, bytes: seq<bv8>)
    requires Placed(b, z, bytes) && |bytes| == 4 && Bit(bytes[2], 0) && !Bit(bytes[2], 1) && Bit(bytes[2], 2)
    ensures z + 36 <= |b| && Total(b, z + 9, z + 36) <= 52
  {
    hide Placed, Total, Pop, Bit;
    NextWorth(b, z, bytes, 1);
    NextWorth(b, z, bytes, 2);
    AnyWorth(b, z, bytes, 3);
  }

  lemma SecondGroupBits(v: bv8)
    requires SecondGroupByte(v)
    ensures Bit(v, 0) && !Bit(v, 1) && Bit(v, 2)
  {
  }

  // ----- Bytes for one packet -----

  /** Between the last 1s before a packet and those before the next one. */
  ghost predicate Passes(b: Bits, r: nat, p: nat, cells: nat, cellsTo4: nat)
    requires LongRun(b, p)
  {
    var m := p + 51 - Land(b, r, p + 47);
    1 <= m <= 4 && Cells(b, r, p + 47) <= if m == 4 then cellsTo4 else cells
  }

  lemma PassesBy(b: Bits, r: nat, p: nat, worth: nat)
    requires LongRun(b, p) && r < p && !Bad(b, r) && Total(b, r + 1, p) <= worth
    ensures Passes(b, r, p, (worth + 2) / 4 + 10, (worth + 3) / 4 + 9)
  {
    hide Total, Cells, Land, Bad;
    ThroughPacket(b, r, p, worth);
  }

  lemma PassesAfterOne(b: Bits, r: nat, p: nat, cells: nat, cellsTo4: nat)
    requires LongRun(b, p) && r < p && Passes(b, r + Chosen(b, r).length, p, cells, cellsTo4)
    ensures Passes(b, r, p, cells + 1, cellsTo4 + 1)
  {
    hide Cells, Land, Chosen;
    OneCell(b, r, p + 47);
  }

  lemma PassesMore(b: Bits, r: nat, p: nat, c: nat, c4: nat, d: nat, d4: nat)
    requires LongRun(b, p) && Passes(b, r, p, c, c4) && c <= d && c4 <= d4
    ensures Passes(b, r, p, d, d4)
  {
  }

  lemma SpeedCells(b: Bits, z: nat, bytes: seq<bv8>)
    requires Placed(b, z, bytes) && LongRun(b, z + 45) && Enters(b, z, 2)
    requires |bytes| == 5 && LongFirst(bytes[0]) && bytes[2] == 0x3F && XorAll(bytes) == 0
    ensures Passes(b, z - 2, z + 45, 29, 28)
  {
    hide Placed, LongRun, Total, LongFirst, Passes, Chosen, Bad, XorAll;
    LongWorth(b, z, bytes, 2);
    SpeedWorth(b, z, bytes);
    FirstCell(b, z, 2);
    PassesBy(b, z + 2, z + 45, 72);
    PassesAfterOne(b, z - 2, z + 45, 28, 27);
  }

  lemma PlainCells(b: Bits, z: nat, bytes: seq<bv8>)
    requires Placed(b, z, bytes) && LongRun(b, z + 36) && Enters(b, z, 2) && |bytes| == 4 && LongFirst(bytes[0])
    ensures Passes(b, z - 2, z + 36, 28, 27)
  {
    hide Placed, LongRun, Total, LongFirst, Passes, Chosen, Bad;
    PlainPacketWorth(b, z, bytes);
    FirstCell(b, z, 2);
    PassesBy(b, z + 2, z + 36, 66);
    PassesAfterOne(b, z - 2, z + 36, 27, 26);
  }

  lemma GroupCells(b: Bits, z: nat, bytes: seq<bv8>, m: nat)
    requires Placed(b, z, bytes) && LongRun(b, z + 36) && Enters(b, z, m)
    requires |bytes| == 4 && LongFirst(bytes[0]) && GroupByte(bytes[2]) && XorAll(bytes) == 0
    ensures var c := if m == 4 then 27 else 26; Passes(b, z - m, z + 36, c, c)
  {
    hide Placed, LongRun, Total, LongFirst, Passes, Chosen, Bad, GroupByte, XorAll;
    GroupPacketWorth(b, z, bytes);
    var p := z + 36;
    if m == 1 {
      EntersNotBad(b, z, 1);
      PassesBy(b, z - 1, p, 65);
      PassesMore(b, z - 1, p, 26, 26, 26, 26);
    } else {
      FirstCell(b, z, m);
      if m == 2 {
        PassesBy(b, z + 2, p, 61);
        PassesAfterOne(b, z - 2, p, 25, 25);
      } else if m == 4 {
        PassesBy(b, z, p, 63);
        PassesMore(b, z, p, 26, 25, 26, 26);
        PassesAfterOne(b, z - 4, p, 26, 26);
      } else {
        if b[z + 3] || b[z + 4] {
          PassesBy(b, z + 1, p, 61);
        } else {
          SecondCell(b, z);
          PassesBy(b, z + 4, p, 57);
          PassesAfterOne(b, z + 1, p, 24, 24);
        }
        PassesAfterOne(b, z - 3, p, 25, 25);
      }
    }
  }

  lemma SecondGroupCells(b: Bits, z: nat, bytes: seq<bv8>, m: nat)
    requires Placed(b, z, bytes) && LongRun(b, z + 36) && Enters(b, z, m)
    requires |bytes| == 4 && LongFirst(bytes[0]) && SecondGroupByte(bytes[2])
    ensures var c := if m == 4 then 28 else 27; Passes(b, z - m, z + 36, c, c)
  {
    hide Placed, LongRun, Total, LongFirst, Passes, Chosen, Bad, SecondGroupByte;
    SecondGroupWorth(b, z, bytes);
    var p := z + 36;
    var worth := if m == 1 then 68 else if m == 2 then 64 else if m == 3 then 65 else 66;
    if m == 1 {
      EntersNotBad(b, z, 1);
      PassesBy(b, z - 1, p, worth);
      PassesMore(b, z - 1, p, 27, 26, 27, 27);
    } else {
      FirstCell(b, z, m);
      PassesBy(b, z - m + 4, p, worth);
      PassesMore(b, z - m + 4, p, (worth + 2) / 4 + 10, (worth + 3) / 4 + 9, if m == 4 then 27 else 26, if m == 4 then 27 else 26);
      PassesAfterOne(b, z - m, p, if m == 4 then 27 else 26, if m == 4 then 27 else 26);
    }
  }

  lemma ExpansionCells(b: Bits, z: nat, bytes: seq<bv8>, m: nat)
    requires Placed(b, z, bytes) && |b| == z + 52 && OnesIn(b, z + 45, z + 52) && Enters(b, z, m)
    requires |bytes| == 5 && LongFirst(bytes[0]) && ExpansionByte(bytes[2]) && XorAll(bytes) == 0
    ensures Cells(b, z - m, z + 46) <= 21
  {
    hide Placed, Total, LongFirst, Chosen, Bad, Cells, ExpansionByte, XorAll;
    ExpansionPacketWorth(b, z, bytes);
    if m == 1 {
      ThroughLast(b, z - 1, z + 45, 79);
    } else {
      FirstCell(b, z, m);
      OneCell(b, z - m, z + 46);
      ThroughLast(b, z - m + 4, z + 45, if m == 2 then 75 else if m == 3 then 76 else 77);
    }
  }

  // Packets with a short address need no look at their bytes.

  lemma ShortWorth(b: Bits, z: nat, bytes: seq<bv8>, m: nat)
    requires Placed(b, z, bytes) && Enters(b, z, m)
    ensures z + 9 * |bytes| < |b| && Total(b, z - m + 1, z + 9 * |bytes|) <= m - 1 + 18 * |bytes|
  {
    hide Total, Placed;
    PlacedEnd(b, z, bytes);
    AnyWorth(b, z, bytes, 0);
    TotalSplit(b, z - m + 1, z, z + 9 * |bytes|);
    if m > 1 {
      NotFirst(b, z - m + 1);
    }
    InsideRun(b, z - m + 1, z);
  }

  lemma ShortCells(b: Bits, z: nat, bytes: seq<bv8>, m: nat)
    requires Placed(b, z, bytes) && LongRun(b, z + 9 * |bytes|) && Enters(b, z, m)
    requires 1 <= |bytes| && (|bytes| <= 3 || (|bytes| == 4 && m == 2))
    ensures var c := if |bytes| <= 3 then 25 else 28; Passes(b, z - m, z + 9 * |bytes|, c, c)
  {
    hide Placed, LongRun, Total, Passes, Bad;
    ShortWorth(b, z, bytes, m);
    EntersNotBad(b, z, m);
    var p := z + 9 * |bytes|;
    var worth := m - 1 + 18 * |bytes|;
    PassesBy(b, z - m, p, worth);
    var c := if |bytes| <= 3 then 25 else 28;
    PassesMore(b, z - m, p, (worth + 2) / 4 + 10, (worth + 3) / 4 + 9, c, c);
  }

  lemma ShortLast(b: Bits, z: nat, bytes: seq<bv8>, m: nat)
    requires Placed(b, z, bytes) && Enters(b, z, m) && 1 <= |bytes| <= 4
    requires |b| == z + 9 * |bytes| + 7 && OnesIn(b, z + 9 * |bytes|, |b|)
    ensures Cells(b, z - m, z + 9 * |bytes| + 1) <= 21
  {
    hide Placed, Total, Cells;
    ShortWorth(b, z, bytes, m);
    ThroughLast(b, z - m, z + 9 * |bytes|, m - 1 + 18 * |bytes|);
  }

  // ----- Streams of three packets -----

  /** Two leading 1s and a preamble of 15, then three packets with 50 1s between them, and the six
      trailing 1s. `p`, `q` and `e` are the places of the 1s that end them. */
  ghost predicate Three(b: Bits, x: seq<bv8>, y: seq<bv8>, w: seq<bv8>) {
    var p := 17 + 9 * |x|;
    var q := p + 51 + 9 * |y|;
    var e := q + 51 + 9 * |w|;
    && |b| == e + 7 && OnesIn(b, 0, 17) && OnesIn(b, e, e + 7)
    && PacketAt(b, 17, x) && LongRun(b, p) && PacketAt(b, p + 51, y) && LongRun(b, q) && PacketAt(b, q + 51, w)
    && !b[17]
  }

  lemma PlacedBeforeRun(b: Bits, z: nat, bytes: seq<bv8>)
    requires 0 < z && PacketAt(b, z, bytes) && LongRun(b, z + 9 * |bytes|)
    ensures Placed(b, z, bytes)
  {
    RunIs(b, z + 9 * |bytes|, 51);
  }

  lemma PlacedLast(b: Bits, z: nat, bytes: seq<bv8>)
    requires 0 < z && PacketAt(b, z, bytes) && |b| == z + 9 * |bytes| + 7 && OnesIn(b, z + 9 * |bytes|, |b|)
    ensures Placed(b, z, bytes)
  {
    RunIs(b, z + 9 * |bytes|, 7);
  }

  /** What is known of the packets of a command with more than twelve functions: the kinds of
      packets for a long address in the first and the second stream, and any for a short one. */
  ghost predicate FirstStream(x: seq<bv8>, y: seq<bv8>, w: seq<bv8>) {
    && XorAll(x) == 0 && XorAll(y) == 0 && XorAll(w) == 0
    && (|x| == 4 || (|x| == 5 && x[2] == 0x3F)) && |y| == 4 && GroupByte(y[2]) && |w| == 5 && ExpansionByte(w[2])
    && LongFirst(x[0]) && LongFirst(y[0]) && LongFirst(w[0])
  }

  ghost predicate SecondStream(x: seq<bv8>, y: seq<bv8>, w: seq<bv8>) {
    && XorAll(w) == 0
    && |x| == 4 && |y| == 4 && SecondGroupByte(y[2]) && |w| == 5 && ExpansionByte(w[2])
    && LongFirst(x[0]) && LongFirst(y[0]) && LongFirst(w[0])
  }

  ghost predicate ShortStream(x: seq<bv8>, y: seq<bv8>, w: seq<bv8>) {
    1 <= |x| <= 4 && 1 <= |y| <= 3 && 1 <= |w| <= 4
  }

  /** `slack` is what the first packet leaves to the second. */
  ghost predicate Kinds(x: seq<bv8>, y: seq<bv8>, w: seq<bv8>, slack: nat) {
    if slack == 0 then FirstStream(x, y, w) || ShortStream(x, y, w) else slack == 1 && SecondStream(x, y, w)
  }

  lemma ThreeParts(b: Bits, x: seq<bv8>, y: seq<bv8>, w: seq<bv8>)
    requires Three(b, x, y, w) && x != [] && y != [] && w != []
    ensures var p := 17 + 9 * |x|;
            var q := p + 51 + 9 * |y|;
            var e := q + 51 + 9 * |w|;
            && |b| == e + 7 && OnesIn(b, 0, 17) && OnesIn(b, e, e + 7)
            && Placed(b, 17, x) && LongRun(b, p) && Enters(b, 17, 2)
            && Placed(b, p + 51, y) && LongRun(b, q) && Placed(b, q + 51, w)
  {
    var p := 17 + 9 * |x|;
    var q := p + 51 + 9 * |y|;
    PlacedBeforeRun(b, 17, x);
    PlacedBeforeRun(b, p + 51, y);
    PlacedLast(b, q + 51, w);
  }

  lemma FirstOfThree(b: Bits, x: seq<bv8>, y: seq<bv8>, w: seq<bv8>, slack: nat)
    requires Kinds(x, y, w, slack) && Placed(b, 17, x) && LongRun(b, 17 + 9 * |x|) && Enters(b, 17, 2)
    ensures Passes(b, 15, 17 + 9 * |x|, 29 - slack, 28 - slack)
  {
    hide Placed, LongRun, Enters, Passes, XorAll, LongFirst, GroupByte, SecondGroupByte, ExpansionByte;
    var p := 17 + 9 * |x|;
    if slack == 0 && ShortStream(x, y, w) {
      ShortCells(b, 17, x, 2);
      var c := if |x| <= 3 then 25 else 28;
      PassesMore(b, 15, p, c, c, 29, 28);
    } else if |x| == 5 {
      SpeedCells(b, 17, x);
    } else {
      PlainCells(b, 17, x);
      PassesMore(b, 15, p, 28, 27, 29 - slack, 28 - slack);
    }
  }

  lemma SecondOfThree(b: Bits, z: nat, x: seq<bv8>, y: seq<bv8>, w: seq<bv8>, slack: nat, m: nat)
    requires Kinds(x, y, w, slack) && Placed(b, z, y) && LongRun(b, z + 9 * |y|) && Enters(b, z, m)
    ensures var c := 26 + slack + (if m == 4 then 1 else 0); Passes(b, z - m, z + 9 * |y|, c, c)
  {
    hide Placed, LongRun, Passes, XorAll, LongFirst, GroupByte, SecondGroupByte, ExpansionByte;
    var c := 26 + slack + (if m == 4 then 1 else 0);
    if slack == 0 && ShortStream(x, y, w) {
      ShortCells(b, z, y, m);
      PassesMore(b, z - m, z + 9 * |y|, 25, 25, c, c);
    } else if slack == 0 {
      GroupCells(b, z, y, m);
    } else {
      SecondGroupCells(b, z, y, m);
    }
  }

  lemma LastOfThree(b: Bits, z: nat, x: seq<bv8>, y: seq<bv8>, w: seq<bv8>, slack: nat, m: nat)
    requires Kinds(x, y, w, slack) && Placed(b, z, w) && Enters(b, z, m)
    requires |b| == z + 9 * |w| + 7 && OnesIn(b, z + 9 * |w|, |b|)
    ensures Cells(b, z - m, End(b)) <= 21
  {
    hide Placed, Cells, XorAll, LongFirst, GroupByte, SecondGroupByte, ExpansionByte;
    if slack == 0 && ShortStream(x, y, w) {
      ShortLast(b, z, w, m);
    } else {
      ExpansionCells(b, z, w, m);
    }
  }

  /** From one run to the next: where it is left, the next packet is entered. */
  lemma Phase(b: Bits, r: nat, p: nat, c: nat, c4: nat, stop: nat)
    requires LongRun(b, p) && Passes(b, r, p, c, c4) && p + 60 < |b| && p + 47 <= stop && stop + 6 <= |b|
    ensures var m := p + 51 - Land(b, r, p + 47);
            && Enters(b, p + 51, m)
            && Cells(b, r, stop) <= (if m == 4 then c4 else c) + Cells(b, p + 51 - m, stop)
  {
    hide Cells, Land;
    CellsSplit(b, r, p + 47, stop);
  }

  /** The three parts put together: at most 79 bytes. */
  lemma ThreeFit(b: Bits, x: seq<bv8>, y: seq<bv8>, w: seq<bv8>, slack: nat)
    requires Three(b, x, y, w) && Kinds(x, y, w, slack)
    ensures |b| >= 6 && Cells(b, 0, End(b)) <= 79
  {
    hide Cells, Land, Passes, Placed, LongRun, Enters, FirstStream, SecondStream, ShortStream;
    KindsHaveBytes(x, y, w, slack);
    ThreeParts(b, x, y, w);
    hide Three, Kinds;
    var p := 17 + 9 * |x|;
    var q := p + 51 + 9 * |y|;
    CellsSplit(b, 0, 15, End(b));
    Fives(b, 0, 3, 15);
    FirstOfThree(b, x, y, w, slack);
    Phase(b, 15, p, 29 - slack, 28 - slack, End(b));
    var m := p + 51 - Land(b, 15, p + 47);
    SecondOfThree(b, p + 51, x, y, w, slack, m);
    var c := 26 + slack + (if m == 4 then 1 else 0);
    Phase(b, p + 51 - m, q, c, c, End(b));
    LastOfThree(b, q + 51, x, y, w, slack, q + 51 - Land(b, p + 51 - m, q + 47));
  }

  lemma KindsHaveBytes(x: seq<bv8>, y: seq<bv8>, w: seq<bv8>, slack: nat)
    requires Kinds(x, y, w, slack)
    ensures slack <= 1 && x != [] && y != [] && w != []
  {
  }

  // ----- The buffer of a stream of three packets -----

  lemma {:induction false} FramedAt(bytes: seq<bv8>, i: nat)
    requires i < |bytes|
    ensures !Framed(bytes)[9 * i] && forall k :: 0 <= k < 8 ==> Framed(bytes)[9 * i + 1 + k] == Bit(bytes[i], k)
    decreases i
  {
    hide Bit;
    var rest := Framed(bytes[1..]);
    assert Framed(bytes) == [false] + ByteBits(bytes[0]) + rest;
    if i > 0 {
      FramedAt(bytes[1..], i - 1);
      assert Framed(bytes)[9 * i] == rest[9 * (i - 1)];
      forall k | 0 <= k < 8 ensures Framed(bytes)[9 * i + 1 + k] == Bit(bytes[i], k) {
        assert Framed(bytes)[9 * i + 1 + k] == rest[9 * (i - 1) + 1 + k];
      }
    }
  }

  ghost predicate SliceAt(b: Bits, i: nat, f: Bits) {
    i + |f| <= |b| && b[i..i + |f|] == f
  }

  ghost predicate RestAt(b: Bits, i: nat, rest: Bits) {
    i <= |b| && b[i..] == rest
  }

  /** 1s, a piece and the rest. */
  ghost predicate PieceAt(b: Bits, at: nat, n: nat, f: Bits, rest: Bits) {
    RestAt(b, at, Ones(n) + f + rest)
  }

  lemma SliceElement(b: Bits, i: nat, f: Bits, k: nat)
    requires SliceAt(b, i, f) && k < |f|
    ensures i + k < |b| && b[i + k] == f[k]
  {
    assert b[i..i + |f|][k] == b[i + k];
  }

  lemma FramedPlaced(b: Bits, z: nat, bytes: seq<bv8>)
    requires SliceAt(b, z, Framed(bytes))
    ensures PacketAt(b, z, bytes)
  {
    hide Bit, Framed, SliceAt;
    forall i | 0 <= i < |bytes| ensures BlockAt(b, z + 9 * i, bytes[i]) {
      FramedAt(bytes, i);
      var f := Framed(bytes);
      SliceElement(b, z, f, 9 * i + 8);
      SliceElement(b, z, f, 9 * i);
      forall k | 0 <= k < 8 ensures b[z + 9 * i + 1 + k] == Bit(bytes[i], k) {
        SliceElement(b, z, f, 9 * i + 1 + k);
      }
    }
  }

  ghost predicate StartsLow(f: Bits) {
    f != [] && !f[0]
  }

  lemma NextPiece(b: Bits, at: nat, n: nat, f: Bits, rest: Bits)
    requires PieceAt(b, at, n, f, rest) && StartsLow(f)
    ensures at + n + |f| <= |b| && OnesIn(b, at, at + n) && !b[at + n]
    ensures SliceAt(b, at + n, f) && RestAt(b, at + n + |f|, rest)
  {
    var t := b[at..];
    assert forall k :: 0 <= k < n ==> t[k];
    assert forall k :: at <= k < at + n ==> b[k] == t[k - at];
    assert t[n..n + |f|] == f && t[n + |f|..] == rest;
  }

  lemma Glue(k: nat, n: nat, f: Bits, rest: Bits)
    ensures Ones(k) + ((Ones(n) + f + [true]) + rest) == Ones(k + n) + f + ([true] + rest)
  {
  }

  lemma Nest(a: Bits, x: Bits, y: Bits, w: Bits, c: Bits)
    ensures a + (x + y + w) + c == a + (x + (y + (w + c)))
  {
  }

  lemma BufferOfThree(x: seq<bv8>, y: seq<bv8>, w: seq<bv8>) returns (c1: Bits, c2: Bits)
    requires |x| + |y| + |w| < 90
    ensures Buffer(Stream([Packet(15, x), Packet(50, y), Packet(50, w)])) == Ones(17) + Framed(x) + c1
    ensures c1 == Ones(51) + Framed(y) + c2 && c2 == Ones(51) + Framed(w) + Ones(7)
  {
    var fx, fy, fw := Framed(x), Framed(y), Framed(w);
    StreamOfThree(Packet(15, x), Packet(50, y), Packet(50, w));
    var sx, sy, sw := Ones(15) + fx + [true], Ones(50) + fy + [true], Ones(50) + fw + [true];
    var bits := sx + sy + sw;
    assert bits == Stream([Packet(15, x), Packet(50, y), Packet(50, w)]);
    assert Clip(bits) == bits;
    hide Framed, Stream, Ones;
    Nest([true, true], sx, sy, sw, Ones(6));
    FewOnes();
    Glue(2, 15, fx, sy + (sw + Ones(6)));
    Glue(1, 50, fy, sw + Ones(6));
    Glue(1, 50, fw, Ones(6));
    c1 := [true] + (sy + (sw + Ones(6)));
    c2 := [true] + (sw + Ones(6));
  }

  lemma FewOnes()
    ensures [true, true] == Ones(2) && [true] == Ones(1) && [true] + Ones(6) == Ones(7)
  {
  }

  lemma LastOnes(b: Bits, e: nat, n: nat)
    requires RestAt(b, e, Ones(n))
    ensures |b| == e + n && OnesIn(b, e, e + n)
  {
    assert forall k :: e <= k < |b| ==> b[k] == b[e..][k - e];
  }

  lemma RunBeforePiece(b: Bits, at: nat)
    requires 0 < at && at + 60 <= |b| && OnesIn(b, at, at + 51) && !b[at + 51]
    ensures LongRun(b, at)
  {
  }

  lemma MiddlePiece(b: Bits, at: nat, bytes: seq<bv8>, rest: Bits)
    requires 0 < at && PieceAt(b, at, 51, Framed(bytes), rest) && bytes != []
    ensures LongRun(b, at) && PacketAt(b, at + 51, bytes) && RestAt(b, at + 51 + 9 * |bytes|, rest)
  {
    hide *;
    FramedStarts(bytes);
    RunAndPiece(b, at, Framed(bytes), rest);
    FramedPlaced(b, at + 51, bytes);
  }

  lemma RunAndPiece(b: Bits, at: nat, f: Bits, rest: Bits)
    requires 0 < at && PieceAt(b, at, 51, f, rest) && StartsLow(f) && |f| >= 9
    ensures LongRun(b, at) && SliceAt(b, at + 51, f) && RestAt(b, at + 51 + |f|, rest)
  {
    hide *;
    NextPiece(b, at, 51, f, rest);
    RunBeforePiece(b, at);
  }

  lemma FirstPiece(b: Bits, bytes: seq<bv8>, rest: Bits)
    requires b == Ones(17) + Framed(bytes) + rest && bytes != []
    ensures 17 + 9 * |bytes| <= |b| && OnesIn(b, 0, 17) && !b[17] && PacketAt(b, 17, bytes)
    ensures RestAt(b, 17 + 9 * |bytes|, rest)
  {
    FramedStarts(bytes);
    assert PieceAt(b, 0, 17, Framed(bytes), rest);
    hide Framed, Ones, PacketAt, SliceAt, RestAt, PieceAt;
    NextPiece(b, 0, 17, Framed(bytes), rest);
    FramedPlaced(b, 17, bytes);
  }

  lemma ThreePieces(b: Bits, x: seq<bv8>, y: seq<bv8>, w: seq<bv8>, c1: Bits, c2: Bits)
    requires x != [] && y != [] && w != []
    requires b == Ones(17) + Framed(x) + c1 && c1 == Ones(51) + Framed(y) + c2 && c2 == Ones(51) + Framed(w) + Ones(7)
    ensures Three(b, x, y, w)
  {
    hide Framed, Ones, PacketAt, LongRun, RestAt;
    var p := 17 + 9 * |x|;
    var q := p + 51 + 9 * |y|;
    FirstPiece(b, x, c1);
    MiddlePiece(b, p, y, c2);
    MiddlePiece(b, q, w, Ones(7));
    LastOnes(b, q + 51 + 9 * |w|, 7);
  }

  lemma ThreeInBuffer(x: seq<bv8>, y: seq<bv8>, w: seq<bv8>)
    requires x != [] && y != [] && w != [] && |x| + |y| + |w| < 90
    ensures Three(Buffer(Stream([Packet(15, x), Packet(50, y), Packet(50, w)])), x, y, w)
  {
    hide *;
    var c1, c2 := BufferOfThree(x, y, w);
    ThreePieces(Buffer(Stream([Packet(15, x), Packet(50, y), Packet(50, w)])), x, y, w, c1, c2);
  }

  lemma FramedStarts(bytes: seq<bv8>)
    requires bytes != []
    ensures StartsLow(Framed(bytes)) && |Framed(bytes)| == 9 * |bytes| >= 9
  {
  }

  lemma StreamOfThree(p: Packet, q: Packet, r: Packet)
    ensures Stream([p, q, r]) == Frame(p) + Frame(q) + Frame(r)
  {
    hide Frame;
    assert Stream([r]) == Frame(r) + Stream([]);
    assert Stream([q, r]) == Frame(q) + Stream([r]);
    assert [p, q, r][1..] == [q, r] && [q, r][1..] == [r];
  }

  /** A stream of three packets of these kinds never fills the packet stream. */
  lemma ThreePacketsFit(x: seq<bv8>, y: seq<bv8>, w: seq<bv8>, slack: nat)
    requires Kinds(x, y, w, slack) && |x| + |y| + |w| < 90
    ensures var bits := Stream([Packet(15, x), Packet(50, y), Packet(50, w)]);
            !Trapped(bits) && !Misread(bits) ==>
              SafeLead(Buffer(bits)) && |Translation(bits)| < PKTSIZE
  {
    hide Kinds, Three, Stream, Trapped, Misread, SafeLead, Translation, Cells;
    KindsHaveBytes(x, y, w, slack);
    var bits := Stream([Packet(15, x), Packet(50, y), Packet(50, w)]);
    ThreeInBuffer(x, y, w);
    ThreeFit(Buffer(bits), x, y, w, slack);
    AheadCells(Buffer(bits), 0);
    if !Trapped(bits) && !Misread(bits) {
      TranslationIsAhead(bits);
    }
  }
}
