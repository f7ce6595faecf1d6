/** The DCC track signal as it leaves a serial port.

    A UART turns a byte into ten line levels: a start bit (low), eight data bits,
    least significant first, and a stop bit (high). A DCC bit (NMRA S-9.1, section A)
    is two half waves of opposite level: two short ones are a '1', two long ones a '0'.
    One serial bit time is a short half wave, two or more are a long one. */
module Signal {
  type Bits = seq<bool>

  const PKTSIZE: nat := 80
  const BUFFERSIZE: nat := 1000

  function Ones(n: nat): (s: Bits) {
    seq(n, _ => true)
  }

  /** Number of 1s a bit string starts with. */
  function LeadingOnes(s: Bits): (n: nat)
    ensures n <= |s|
    ensures forall i :: 0 <= i < n ==> s[i]
    ensures n < |s| ==> !s[n]
  {
    if s == [] || !s[0] then 0 else 1 + LeadingOnes(s[1..])
  }

  /** What a receiver remembers: the bits heard so far and how long the half waves
      of the bit in progress have lasted. */
  datatype Phase = Gap | First(n: nat) | Second(n: nat, m: nat)

  datatype Receiver = Receiver(bits: Bits, phase: Phase, ok: bool)

  predicate IsOne(n: nat, m: nat) {
    n == 1 && m == 1
  }

  predicate IsZero(n: nat, m: nat) {
    n >= 2 && m >= 2
  }

  /** Takes the completed bit in. Unequal half waves are an error, which is never forgotten. */
  function Close(r: Receiver): Receiver
    requires r.phase.Second?
  {
    var Second(n, m) := r.phase;
    Receiver(r.bits + [IsOne(n, m)], Gap, r.ok && (IsOne(n, m) || IsZero(n, m)))
  }

  /** One serial bit time; `lead` is the level of the first half wave of a bit. */
  function Feed(lead: bool, r: Receiver, level: bool): Receiver {
    match r.phase
    case Gap => if level == lead then r.(phase := First(1)) else r
    case First(n) => if level == lead then r.(phase := First(n + 1)) else r.(phase := Second(n, 1))
    case Second(n, m) => if level != lead then r.(phase := Second(n, m + 1)) else Close(r).(phase := First(1))
  }

  /** The ten line levels of a byte. */
  function Line(b: bv8): Bits {
    [false,
     b & 0x01 != 0, b & 0x02 != 0, b & 0x04 != 0, b & 0x08 != 0,
     b & 0x10 != 0, b & 0x20 != 0, b & 0x40 != 0, b & 0x80 != 0,
     true]
  }

  function Listen(lead: bool, r: Receiver, line: Bits): Receiver
    decreases |line|
  {
    if line == [] then r else Listen(lead, Feed(lead, r, line[0]), line[1..])
  }

  function HearByte(lead: bool, r: Receiver, b: bv8): Receiver {
    Listen(lead, r, Line(b))
  }

  /** The receiver after a whole packet stream. */
  function Hear(lead: bool, r: Receiver, bytes: seq<bv8>): Receiver
    decreases |bytes|
  {
    if bytes == [] then r
    else HearByte(lead, Hear(lead, r, bytes[..|bytes| - 1]), bytes[|bytes| - 1])
  }

  lemma {:induction false} HearAppend(lead: bool, r: Receiver, a: seq<bv8>, b: seq<bv8>)
    ensures Hear(lead, r, a + b) == Hear(lead, Hear(lead, r, a), b)
    decreases |b|
  {
    if b == [] {
      assert a + b == a;
    } else {
      var b' := b[..|b| - 1];
      assert (a + b)[..|a + b| - 1] == a + b';
      HearAppend(lead, r, a, b');
    }
  }

  /** What a receiver makes of a line does not depend on the bits it has heard before. */
  function After(bits: Bits, r: Receiver): Receiver {
    r.(bits := bits + r.bits)
  }

  lemma {:induction false} ListenAfter(lead: bool, bits: Bits, r: Receiver, line: Bits)
    ensures Listen(lead, After(bits, r), line) == After(bits, Listen(lead, r, line))
    decreases |line|
  {
    if line != [] {
      var r' := Feed(lead, r, line[0]);
      assert Feed(lead, After(bits, r), line[0]) == After(bits, r') by {
        assert forall x :: bits + r.bits + [x] == bits + (r.bits + [x]);
      }
      ListenAfter(lead, bits, r', line[1..]);
    }
  }

  lemma {:induction false} HearAfter(lead: bool, bits: Bits, r: Receiver, bytes: seq<bv8>)
    ensures Hear(lead, After(bits, r), bytes) == After(bits, Hear(lead, r, bytes))
    decreases |bytes|
  {
    if bytes != [] {
      var n := |bytes| - 1;
      HearAfter(lead, bits, r, bytes[..n]);
      ListenAfter(lead, bits, Hear(lead, r, bytes[..n]), Line(bytes[n]));
    }
  }

  /** A receiver that has met an error stays in error. */
  lemma {:induction false} ListenError(lead: bool, r: Receiver, line: Bits)
    requires !r.ok
    ensures !Listen(lead, r, line).ok
    decreases |line|
  {
    if line != [] {
      ListenError(lead, Feed(lead, r, line[0]), line[1..]);
    }
  }

  lemma {:induction false} HearError(lead: bool, r: Receiver, bytes: seq<bv8>)
    requires !r.ok
    ensures !Hear(lead, r, bytes).ok
    decreases |bytes|
  {
    if bytes != [] {
      var n := |bytes| - 1;
      HearError(lead, r, bytes[..n]);
      ListenError(lead, Hear(lead, r, bytes[..n]), Line(bytes[n]));
    }
  }

  /** `HearByte` with its ten steps written out. */
  function TenLevels(lead: bool, r: Receiver, b: bv8): Receiver {
    var r := Feed(lead, r, false);
    var r := Feed(lead, r, b & 0x01 != 0);
    var r := Feed(lead, r, b & 0x02 != 0);
    var r := Feed(lead, r, b & 0x04 != 0);
    var r := Feed(lead, r, b & 0x08 != 0);
    var r := Feed(lead, r, b & 0x10 != 0);
    var r := Feed(lead, r, b & 0x20 != 0);
    var r := Feed(lead, r, b & 0x40 != 0);
    var r := Feed(lead, r, b & 0x80 != 0);
    Feed(lead, r, true)
  }

  lemma ListenAt(lead: bool, r: Receiver, line: Bits, k: nat)
    requires k < |line|
    ensures Listen(lead, r, line[k..]) == Listen(lead, Feed(lead, r, line[k]), line[k + 1..])
  {
    assert line[k..][1..] == line[k + 1..];
  }

  /** The first and the last five of ten levels. */
  function FiveLevels(lead: bool, r: Receiver, l: Bits, k: nat): Receiver
    requires k + 5 <= |l|
  {
    var r := Feed(lead, r, l[k]);
    var r := Feed(lead, r, l[k + 1]);
    var r := Feed(lead, r, l[k + 2]);
    var r := Feed(lead, r, l[k + 3]);
    Feed(lead, r, l[k + 4])
  }

  lemma ListenFive(lead: bool, r: Receiver, l: Bits, k: nat)
    requires k + 5 <= |l|
    ensures Listen(lead, r, l[k..]) == Listen(lead, FiveLevels(lead, r, l, k), l[k + 5..])
  {
    hide Feed, Listen;
    ListenAt(lead, r, l, k);
    var r1 := Feed(lead, r, l[k]);
    ListenAt(lead, r1, l, k + 1);
    var r2 := Feed(lead, r1, l[k + 1]);
    ListenAt(lead, r2, l, k + 2);
    var r3 := Feed(lead, r2, l[k + 2]);
    ListenAt(lead, r3, l, k + 3);
    var r4 := Feed(lead, r3, l[k + 3]);
    ListenAt(lead, r4, l, k + 4);
  }

  lemma ListenNone(lead: bool, r: Receiver)
    ensures Listen(lead, r, []) == r
  {
  }

  lemma HearByteIsTenLevels(lead: bool, r: Receiver, b: bv8)
    ensures HearByte(lead, r, b) == TenLevels(lead, r, b)
  {
    var l := Line(b);
    hide Feed, Listen;
    assert l[0..] == l && l[10..] == [];
    ListenFive(lead, r, l, 0);
    ListenFive(lead, FiveLevels(lead, r, l, 0), l, 5);
    ListenNone(lead, TenLevels(lead, r, b));
  }

  // ----- Half waves -----

  /** The receiver once the line stays at rest: the last bit is complete. */
  function Settle(r: Receiver): Receiver {
    if r.phase.Second? then Close(r) else r
  }

  /** The lengths of the two half waves of a bit. */
  datatype Wave = Wave(n: nat, m: nat)

  function Level(high: bool, n: nat): Bits {
    seq(n, _ => high)
  }

  /** The line levels of a list of bits. */
  function Levels(lead: bool, ws: seq<Wave>): Bits {
    if ws == [] then [] else Level(lead, ws[0].n) + Level(!lead, ws[0].m) + Levels(lead, ws[1..])
  }

  lemma {:induction false} ListenAppend(lead: bool, r: Receiver, a: Bits, b: Bits)
    ensures Listen(lead, r, a + b) == Listen(lead, Listen(lead, r, a), b)
    decreases |a|
  {
    if a == [] {
      assert a + b == b;
    } else {
      assert (a + b)[1..] == a[1..] + b;
      ListenAppend(lead, Feed(lead, r, a[0]), a[1..], b);
    }
  }

  lemma {:induction false} FirstHalf(lead: bool, r: Receiver, k: nat, n: nat)
    requires r.phase == First(k)
    ensures Listen(lead, r, Level(lead, n)) == r.(phase := First(k + n))
    decreases n
  {
    if n > 0 {
      assert Level(lead, n)[1..] == Level(lead, n - 1);
      FirstHalf(lead, r.(phase := First(k + 1)), k + 1, n - 1);
    }
  }

  lemma {:induction false} SecondHalf(lead: bool, r: Receiver, k: nat, j: nat, m: nat)
    requires r.phase == Second(k, j)
    ensures Listen(lead, r, Level(!lead, m)) == r.(phase := Second(k, j + m))
    decreases m
  {
    if m > 0 {
      assert Level(!lead, m)[1..] == Level(!lead, m - 1);
      SecondHalf(lead, r.(phase := Second(k, j + 1)), k, j + 1, m - 1);
    }
  }

  /** One bit: whatever came before is complete, and its half waves are measured. */
  lemma OneWave(lead: bool, r: Receiver, w: Wave)
    requires Settle(r).phase.Gap? && w.n >= 1 && w.m >= 1
    ensures Listen(lead, r, Level(lead, w.n) + Level(!lead, w.m)) == Settle(r).(phase := Second(w.n, w.m))
  {
    ListenAppend(lead, r, Level(lead, w.n), Level(!lead, w.m));
    assert Level(lead, w.n)[1..] == Level(lead, w.n - 1);
    assert Feed(lead, r, lead) == Settle(r).(phase := First(1));
    FirstHalf(lead, Settle(r).(phase := First(1)), 1, w.n - 1);
    var s := Settle(r).(phase := First(w.n));
    assert Level(!lead, w.m)[1..] == Level(!lead, w.m - 1);
    SecondHalf(lead, Feed(lead, s, !lead), w.n, 1, w.m - 1);
  }

  predicate RealWaves(ws: seq<Wave>) {
    forall i :: 0 <= i < |ws| ==> ws[i].n >= 1 && ws[i].m >= 1
  }

  /** A line is heard bit by bit: short and short is a '1', long and long a '0', and the line is in
      order if and only if there is nothing else. */
  lemma {:induction false} WavesAreHeard(lead: bool, r: Receiver, ws: seq<Wave>)
    requires Settle(r).phase.Gap? && RealWaves(ws)
    ensures var s := Settle(Listen(lead, r, Levels(lead, ws)));
            && s.phase.Gap?
            && s.bits == Settle(r).bits + seq(|ws|, i requires 0 <= i < |ws| => IsOne(ws[i].n, ws[i].m))
            && (s.ok <==> Settle(r).ok && forall i :: 0 <= i < |ws| ==> IsOne(ws[i].n, ws[i].m) || IsZero(ws[i].n, ws[i].m))
    decreases |ws|
  {
    if ws != [] {
      var w, rest := ws[0], ws[1..];
      var first := Level(lead, w.n) + Level(!lead, w.m);
      OneWave(lead, r, w);
      ListenAppend(lead, r, first, Levels(lead, rest));
      var next := Listen(lead, r, first);
      WavesAreHeard(lead, next, rest);
      assert forall i :: 0 < i < |ws| ==> ws[i] == rest[i - 1];
    }
  }

  /** The packet stream is wiped before a translation. */
  method ClearPacket(packet: array<bv8>)
    modifies packet
    ensures forall i :: 0 <= i < packet.Length ==> packet[i] == 0
  {
    for i := 0 to packet.Length
      invariant forall k :: 0 <= k < i ==> packet[k] == 0
    {
      packet[i] := 0;
    }
  }
}
