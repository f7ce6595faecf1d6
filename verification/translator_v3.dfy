/** Translation routine version 3: every serial byte starts and ends in the middle of a
    DCC bit, so neighbouring bytes share a bit. Half waves come high first. */
module TranslatorV3 {
  import opened Signal

  /** A byte to send and the number of bits it moves the read pointer on. */
  datatype Cell = Cell(value: bv8, length: nat)

  function Index(w: Bits): (k: nat)
    requires |w| == 6
    ensures k < 32
  {
    (if w[0] then 16 else 0) + (if w[1] then 8 else 0) + (if w[2] then 4 else 0)
    + (if w[3] then 2 else 0) + (if w[4] then 1 else 0)
  }

  /** The translation table: first and second try for the next five bits. */
  function Entry(k: nat, second: bool): (c: Cell)
    requires k < 32
    ensures 1 <= c.length <= 5 && c.value != 0
  {
    match k
    case 0 | 1 | 2 | 3 => if second then Cell(0xF0, 1) else Cell(0xCC, 2)
    case 4 | 5 => if second then Cell(0x1C, 2) else Cell(0xA6, 3)
    case 6 | 7 => if second then Cell(0x1C, 2) else Cell(0x4C, 3)
    case 8 | 9 => if second then Cell(0xE8, 2) else Cell(0x9A, 3)
    case 10 | 11 => if second then Cell(0xE8, 2) else Cell(0x34, 3)
    case 12 | 13 => if second then Cell(0x40, 2) else Cell(0xD4, 3)
    case 14 => if second then Cell(0x40, 2) else Cell(0x50, 3)
    case 15 => if second then Cell(0x50, 3) else Cell(0x54, 4)
    case 16 | 17 | 18 | 19 => if second then Cell(0xFF, 1) else Cell(0xC7, 2)
    case 20 | 21 => if second then Cell(0x0F, 2) else Cell(0xD3, 3)
    case 22 => if second then Cell(0x0F, 2) else Cell(0x47, 3)
    case 23 => if second then Cell(0x47, 3) else Cell(0x53, 4)
    case 24 | 25 => if second then Cell(0xFD, 2) else Cell(0xCD, 3)
    case 26 => if second then Cell(0xFD, 2) else Cell(0x1D, 3)
    case 27 => if second then Cell(0x1D, 3) else Cell(0x4D, 4)
    case 28 => Cell(0xF5, 3)
    case 29 => if second then Cell(0xF5, 3) else Cell(0x35, 4)
    case 30 => Cell(0xD5, 4)
    case _ => Cell(0x55, 5)
  }

  function EntryFor(w: Bits, second: bool): (c: Cell)
    requires |w| == 6
    ensures 1 <= c.length <= 5 && c.value != 0
    ensures FiveOnes(w) ==> c == Cell(0x55, 5)
  {
    Entry(Index(w), second)
  }

  predicate FiveOnes(w: Bits)
    requires |w| == 6
  {
    w[0] && w[1] && w[2] && w[3] && w[4]
  }

  /** The one window no table entry can send: 111110. */
  predicate Unsplittable(w: Bits)
    requires |w| == 6
  {
    FiveOnes(w) && !w[5]
  }

  /** The receiver is in the first half wave of bit `x`. */
  predicate Carries(r: Receiver, x: bool) {
    r.phase.First? && r.ok && (if x then r.phase.n == 1 else r.phase.n >= 2)
  }

  /** Sending `value` completes the bits up to `bits` and leaves the receiver inside bit `x`. */
  predicate Emits(r: Receiver, value: bv8, bits: Bits, x: bool) {
    var r' := HearByte(true, r, value);
    r'.bits == bits && Carries(r', x)
  }

  lemma EmitsLow(r: Receiver)
    requires Carries(r, false)
    ensures Emits(r, 0xF0, r.bits + [false], false)
    ensures Emits(r, 0xCC, r.bits + [false] + [false], false)
    ensures Emits(r, 0xE8, r.bits + [false] + [true], false)
    ensures Emits(r, 0x9A, r.bits + [false] + [true] + [false], false)
    ensures Emits(r, 0xA6, r.bits + [false] + [false] + [true], false)
    ensures Emits(r, 0xD4, r.bits + [false] + [true] + [true], false)
    ensures Emits(r, 0x1C, r.bits + [false] + [false], true)
    ensures Emits(r, 0x40, r.bits + [false] + [true], true)
    ensures Emits(r, 0x4C, r.bits + [false] + [false] + [true], true)
    ensures Emits(r, 0x34, r.bits + [false] + [true] + [false], true)
    ensures Emits(r, 0x50, r.bits + [false] + [true] + [true], true)
    ensures Emits(r, 0x54, r.bits + [false] + [true] + [true] + [true], true)
  {
    hide HearByte;
    forall b: bv8 ensures HearByte(true, r, b) == TenLevels(true, r, b) {
      HearByteIsTenLevels(true, r, b);
    }
  }

  lemma EmitsHigh(r: Receiver)
    requires Carries(r, true)
    ensures Emits(r, 0x0F, r.bits + [true] + [false], true)
    ensures Emits(r, 0x1D, r.bits + [true] + [true] + [false], true)
    ensures Emits(r, 0x47, r.bits + [true] + [false] + [true], true)
    ensures Emits(r, 0x35, r.bits + [true] + [true] + [true] + [false], true)
    ensures Emits(r, 0x4D, r.bits + [true] + [true] + [false] + [true], true)
    ensures Emits(r, 0x53, r.bits + [true] + [false] + [true] + [true], true)
    ensures Emits(r, 0x55, r.bits + [true] + [true] + [true] + [true] + [true], true)
    ensures Emits(r, 0xFF, r.bits + [true], false)
    ensures Emits(r, 0xC7, r.bits + [true] + [false], false)
    ensures Emits(r, 0xFD, r.bits + [true] + [true], false)
    ensures Emits(r, 0xCD, r.bits + [true] + [true] + [false], false)
    ensures Emits(r, 0xD3, r.bits + [true] + [false] + [true], false)
    ensures Emits(r, 0xF5, r.bits + [true] + [true] + [true], false)
    ensures Emits(r, 0xD5, r.bits + [true] + [true] + [true] + [true], false)
  {
    hide HearByte;
    forall b: bv8 ensures HearByte(true, r, b) == TenLevels(true, r, b) {
      HearByteIsTenLevels(true, r, b);
    }
  }

  lemma Prefixes(s: Bits, w: Bits)
    requires |w| == 6
    ensures s + w[..1] == s + [w[0]]
    ensures s + w[..2] == s + [w[0]] + [w[1]]
    ensures s + w[..3] == s + [w[0]] + [w[1]] + [w[2]]
    ensures s + w[..4] == s + [w[0]] + [w[1]] + [w[2]] + [w[3]]
    ensures s + w[..5] == s + [w[0]] + [w[1]] + [w[2]] + [w[3]] + [w[4]]
  {
  }

  /** A table entry sends exactly the bits it stands for: the rest of the bit in progress,
      the whole bits after it, and the first half wave of the last one. */
  lemma CellSound(w: Bits, second: bool, r: Receiver)
    requires |w| == 6 && !Unsplittable(w)
    requires Carries(r, w[0])
    ensures var c := EntryFor(w, second);
            Emits(r, c.value, r.bits + w[..c.length], w[c.length])
  {
    hide HearByte, Carries, Emits;
    Prefixes(r.bits, w);
    if w[0] {
      EmitsHigh(r);
      if w[1] { if w[2] {} else {} } else {}
    } else {
      EmitsLow(r);
      if w[1] { if w[2] {} else {} } else {}
    }
  }

  // ----- The translation loop as a state machine -----

  /** The bit string as the routine copies it: two leading 1s, at most BUFFERSIZE - 1
      characters of the input, six trailing 1s. */
  function Clip(bits: Bits): Bits {
    if |bits| < BUFFERSIZE then bits else bits[..BUFFERSIZE - 1]
  }

  function Buffer(bits: Bits): (b: Bits)
    ensures |b| == |Clip(bits)| + 8
  {
    [true, true] + Clip(bits) + Ones(6)
  }

  /** Loop variables; `out` is the part of the packet stream below `generate_packet`. */
  datatype State = State(out: seq<bv8>, read: nat, restartRead: nat, restartPacket: nat, lastRestart: int)

  const START := State([], 0, 0, 0, -1)

  function End(b: Bits): nat
    requires |b| >= 6
  {
    |b| - 6
  }

  predicate Running(b: Bits, s: State)
    requires |b| >= 6
  {
    |s.out| < PKTSIZE && s.read < End(b)
  }

  function Six(b: Bits, i: nat): Bits
    requires i + 6 <= |b|
  {
    b[i..i + 6]
  }

  /** The read pointer stands on 111110, which no table entry can send. */
  predicate Hit(b: Bits, s: State)
    requires s.read + 6 <= |b|
  {
    Unsplittable(Six(b, s.read))
  }

  /** Going back to the last byte for which there was a choice. */
  function Retreat(s: State): State
    requires s.restartPacket <= |s.out|
  {
    s.(out := s.out[..s.restartPacket], read := s.restartRead, lastRestart := s.restartRead)
  }

  function Emit(b: Bits, s: State, second: bool): State
    requires s.read + 6 <= |b|
  {
    var w := Six(b, s.read);
    var c := EntryFor(w, second);
    var s' := s.(out := s.out + [c.value], read := s.read + c.length);
    if FiveOnes(w) then s'
    else s'.(restartPacket := |s.out|, restartRead := s.read)
  }

  predicate InBounds(b: Bits, s: State) {
    |b| >= 8 && s.read < |b| && s.restartRead + 6 < |b| && s.restartPacket <= |s.out| <= PKTSIZE
  }

  function Step(b: Bits, s: State): State
    requires InBounds(b, s) && Running(b, s)
  {
    if Hit(b, s) then Emit(b, Retreat(s), true) else Emit(b, s, false)
  }

  // ----- What every step keeps -----

  ghost predicate OnesIn(b: Bits, i: nat, j: nat) {
    i <= j <= |b| && forall k :: i <= k < j ==> b[k]
  }

  /** The run of 1s at `r` will not bring the read pointer onto 111110. */
  ghost predicate NoHit(b: Bits, r: nat) {
    forall e :: r < e < |b| && OnesIn(b, r, e) && !b[e] ==> (e - r) % 5 != 0
  }

  /** No choice has been made yet: only 1s were read, or the buffer starts with 111110. */
  predicate Opening(b: Bits, s: State)
    requires InBounds(b, s)
  {
    s.out == [] || FiveOnes(Six(b, s.restartRead))
  }

  ghost predicate Control(b: Bits, s: State) {
    && InBounds(b, s)
    && s.read <= End(b) + 4
    && 2 * |s.out| <= s.read && 2 * |s.out| <= End(b) + 1 && 2 * s.restartPacket <= s.restartRead
    && (forall i :: 0 <= i < |s.out| ==> s.out[i] != 0)
    && if Opening(b, s) then OpeningControl(b, s) else ChosenControl(b, s)
  }

  ghost predicate OpeningControl(b: Bits, s: State)
    requires InBounds(b, s)
  {
    && s.restartRead == 0 && s.restartPacket == 0
    && s.read == 5 * |s.out| && OnesIn(b, 0, s.read)
    && (if Unsplittable(Six(b, 0)) then |s.out| <= 1 && s.lastRestart == |s.out| - 1 else s.lastRestart == -1)
  }

  /** Since the last choice, made for the byte at `restartPacket`, only runs of five 1s were sent. */
  ghost predicate ChosenControl(b: Bits, s: State)
    requires InBounds(b, s)
  {
    var second := s.lastRestart == s.restartRead;
    var land := s.restartRead + EntryFor(Six(b, s.restartRead), second).length;
    && s.lastRestart <= s.restartRead
    && s.restartPacket < |s.out|
    && s.read == land + 5 * (|s.out| - s.restartPacket - 1) && OnesIn(b, land, s.read)
    && (second ==> NoHit(b, s.read))
  }

  /** The leading run of 1s, of length `e`, does not trap the routine. */
  ghost predicate SafeLead(b: Bits) {
    forall e :: 0 < e < |b| && OnesIn(b, 0, e) && !b[e] ==> e % 5 != 0 || e == 5 || e > 5 * PKTSIZE
  }

  function Stage(b: Bits, s: State): nat
    requires InBounds(b, s)
  {
    if Opening(b, s) then 2 else if s.lastRestart == s.restartRead then 0 else 1
  }

  /** The loop's variant: later choice, else fewer tries left for it, else further on. */
  predicate Progress(b: Bits, s: State, s': State)
    requires InBounds(b, s) && InBounds(b, s')
  {
    || s'.restartRead > s.restartRead
    || (s'.restartRead == s.restartRead && Stage(b, s') < Stage(b, s))
    || (s'.restartRead == s.restartRead && Stage(b, s') == Stage(b, s) && s'.read > s.read)
  }

  /** Table facts: a first try moves on by at least two bits; if it ends inside a 1, the second
      try is one bit shorter and still moves on by two. */
  lemma Lengths(w: Bits)
    requires |w| == 6 && !Unsplittable(w)
    ensures var n := EntryFor(w, false).length;
            && 2 <= n
            && (if FiveOnes(w) then n == 5 else n <= 4)
            && (!FiveOnes(w) && w[n] ==> EntryFor(w, true).length == n - 1 >= 2)
  {
    if w[0] { if w[1] {} } else { if w[1] {} }
  }

  lemma StepControl(b: Bits, s: State)
    requires Control(b, s) && Running(b, s) && SafeLead(b)
    ensures var s' := Step(b, s);
            Control(b, s')
            && (Hit(b, s) ==> s.restartRead != s.lastRestart)
            && (Hit(b, s) && Opening(b, s) ==> Unsplittable(Six(b, 0)))
            && Progress(b, s, s')
  {
    if Hit(b, s) {
      HitControl(b, s);
    } else {
      PlainControl(b, s);
    }
  }

  lemma PlainControl(b: Bits, s: State)
    requires Control(b, s) && Running(b, s) && !Hit(b, s)
    ensures var s' := Emit(b, s, false);
            Control(b, s')
            && Progress(b, s, s')
  {
    hide Control, Progress, Emit, Hit;
    if FiveOnes(Six(b, s.read)) {
      FiveControl(b, s);
    } else {
      ChoiceControl(b, s);
    }
  }

  lemma FiveControl(b: Bits, s: State)
    requires Control(b, s) && Running(b, s) && !Hit(b, s) && FiveOnes(Six(b, s.read))
    ensures var s' := Emit(b, s, false); Control(b, s') && Progress(b, s, s')
  {
    hide EntryFor;
    Lengths(Six(b, s.read));
  }

  lemma ChoiceControl(b: Bits, s: State)
    requires Control(b, s) && Running(b, s) && !Hit(b, s) && !FiveOnes(Six(b, s.read))
    ensures var s' := Emit(b, s, false); Control(b, s') && Progress(b, s, s')
  {
    hide EntryFor;
    Lengths(Six(b, s.read));
  }

  lemma NoHitBefore(b: Bits, r: nat, e: nat)
    requires r + 1 < e < |b| && OnesIn(b, r + 1, e) && !b[e] && (e - r) % 5 == 1
    ensures NoHit(b, r)
  {
    forall e' | r < e' < |b| && OnesIn(b, r, e') && !b[e'] ensures (e' - r) % 5 != 0 {
      assert e' == e;
    }
  }

  lemma HitWindow(b: Bits, s: State)
    requires s.read + 6 <= |b| && Hit(b, s)
    ensures OnesIn(b, s.read, s.read + 5) && !b[s.read + 5]
  {
    var h := Six(b, s.read);
    assert forall k :: 0 <= k < 6 ==> h[k] == b[s.read + k];
  }

  /** The second try enters the run of 1s one bit earlier (or just before it), so the run
      can no longer end five bits after the read pointer. */
  lemma SecondTryAvoidsHit(b: Bits, s: State)
    requires Control(b, s) && Running(b, s) && Hit(b, s) && !Opening(b, s)
    ensures s.lastRestart < s.restartRead
    ensures var n := EntryFor(Six(b, s.restartRead), true).length;
            2 <= n == EntryFor(Six(b, s.restartRead), false).length - 1
            && s.restartRead + n < s.read && NoHit(b, s.restartRead + n)
            && OnesIn(b, s.restartRead + n + 1, s.read + 5) && (s.read - (s.restartRead + n + 1)) % 5 == 0
  {
    hide EntryFor, Hit;
    var w := Six(b, s.restartRead);
    Lengths(w);
    HitWindow(b, s);
    assert !NoHit(b, s.read);
    hide NoHit;
    var land := s.restartRead + EntryFor(w, false).length;
    assert w[land - s.restartRead] == b[land];
    assert OnesIn(b, land, s.read + 5);
    NoHitBefore(b, land - 1, s.read + 5);
  }

  lemma HitControl(b: Bits, s: State)
    requires Control(b, s) && Running(b, s) && SafeLead(b) && Hit(b, s)
    ensures var s' := Emit(b, Retreat(s), true);
            Control(b, s')
            && s.restartRead != s.lastRestart
            && (Opening(b, s) ==> Unsplittable(Six(b, 0)))
            && Progress(b, s, s')
  {
    hide EntryFor;
    if Opening(b, s) {
      HitWindow(b, s);
      assert OnesIn(b, 0, s.read + 5);
      assert s.read == 0;
    } else {
      hide NoHit;
      SecondTryAvoidsHit(b, s);
    }
  }

  /** The state in which the loop ends when started in `s`. */
  ghost function Finish(b: Bits, s: State): (f: State)
    requires Control(b, s) && SafeLead(b)
    ensures Control(b, f) && !Running(b, f)
    decreases |b| - s.restartRead, Stage(b, s), |b| - s.read
  {
    if Running(b, s) then
      StepControl(b, s);
      Finish(b, Step(b, s))
    else s
  }

  lemma StartControl(bits: Bits)
    ensures Control(Buffer(bits), START)
  {
  }

  /** The output of the routine for a bit string that does not trap it. */
  ghost function Translation(bits: Bits): (out: seq<bv8>)
    requires SafeLead(Buffer(bits))
    ensures |out| <= PKTSIZE
  {
    StartControl(bits);
    Finish(Buffer(bits), START).out
  }

  // ----- Meaning: the serial waveform is the DCC signal for the bits -----

  /** A receiver that has just heard the first half wave of a '1'. */
  const MID_ONE := Receiver([], First(1), true)

  /** `out` sends the second half of the first bit of `b`, the bits up to `read`, and half of the bit there. */
  predicate Sends(b: Bits, out: seq<bv8>, read: nat)
    requires read < |b|
  {
    var r := Hear(true, MID_ONE, out);
    r.bits == b[..read] && Carries(r, b[read])
  }

  ghost predicate Sound(b: Bits, s: State)
    requires InBounds(b, s)
  {
    Sends(b, s.out, s.read) && Sends(b, s.out[..s.restartPacket], s.restartRead)
  }

  lemma EmitSends(b: Bits, s: State, second: bool)
    requires InBounds(b, s) && s.read + 6 <= |b| && Sends(b, s.out, s.read)
    requires !Unsplittable(Six(b, s.read))
    ensures var s' := Emit(b, s, second);
            s'.read < |b| && Sends(b, s'.out, s'.read)
  {
    hide HearByte, EntryFor;
    var w := Six(b, s.read);
    var c := EntryFor(w, second);
    var r := Hear(true, MID_ONE, s.out);
    CellSound(w, second, r);
    var out' := s.out + [c.value];
    assert out'[..|out'| - 1] == s.out;
    assert b[..s.read] + w[..c.length] == b[..s.read + c.length];
  }

  lemma StepSound(b: Bits, s: State)
    requires Control(b, s) && Running(b, s) && SafeLead(b) && Sound(b, s)
    requires !Unsplittable(Six(b, 0))
    ensures Control(b, Step(b, s)) && Sound(b, Step(b, s))
  {
    hide Hear, EntryFor, Control, Sends, SafeLead, Step, Sound, Hit;
    StepControl(b, s);
    ControlParts(b, s);
    ControlParts(b, Step(b, s));
    RestartSplits(b, s);
    EmitKeepsSound(b, s);
  }

  lemma EmitKeepsSound(b: Bits, s: State)
    requires InBounds(b, s) && Running(b, s) && Sound(b, s) && InBounds(b, Step(b, s))
    requires Hit(b, s) ==> !Unsplittable(Six(b, s.restartRead))
    ensures Sound(b, Step(b, s))
  {
    hide EntryFor, Sends;
    var t := if Hit(b, s) then Retreat(s) else s;
    EmitSends(b, t, Hit(b, s));
    var s' := Step(b, s);
    assert s'.out[..|t.out|] == t.out;
    assert t.out[..s.restartPacket] == s.out[..s.restartPacket];
    assert s'.out[..s.restartPacket] == s.out[..s.restartPacket];
  }

  /** The place to go back to is not 111110. */
  lemma RestartSplits(b: Bits, s: State)
    requires Control(b, s) && Running(b, s) && SafeLead(b) && !Unsplittable(Six(b, 0))
    ensures InBounds(b, s) && (Hit(b, s) ==> !Unsplittable(Six(b, s.restartRead)))
  {
    hide Control, SafeLead, NoHit, EntryFor;
    ControlParts(b, s);
    if Hit(b, s) {
      if Opening(b, s) {
        OpeningStart(b, s);
      } else {
        ChosenFacts(b, s);
      }
    }
  }

  lemma {:induction false} FinishSound(b: Bits, s: State)
    requires Control(b, s) && SafeLead(b) && Sound(b, s)
    requires !Unsplittable(Six(b, 0))
    ensures Sound(b, Finish(b, s))
    decreases |b| - s.restartRead, Stage(b, s), |b| - s.read
  {
    if Running(b, s) {
      StepControl(b, s);
      StepSound(b, s);
      FinishSound(b, Step(b, s));
    }
  }

  // ----- Which bit strings the routine can handle -----

  /** The leading run of 1s, taken with the two 1s put before it, is a multiple of five and a '0'
      follows: the back-up leads to the same place again for ever. */
  predicate Trapped(bits: Bits) {
    var s := Clip(bits);
    var n := LeadingOnes(s) + 2;
    LeadingOnes(s) < |s| && n % 5 == 0 && 10 <= n <= 5 * PKTSIZE
  }

  /** The bits start 1110: the routine sends 111111 in place of 111110. */
  predicate Misread(bits: Bits) {
    var s := Clip(bits);
    LeadingOnes(s) == 3 && 3 < |s|
  }

  lemma LeadOfBuffer(bits: Bits)
    ensures SafeLead(Buffer(bits)) <==> !Trapped(bits)
    ensures Unsplittable(Six(Buffer(bits), 0)) <==> Misread(bits)
  {
    var b := Buffer(bits);
    var s := Clip(bits);
    var n := LeadingOnes(s);
    assert forall i :: 0 <= i < n + 2 ==> b[i];
    if n < |s| {
      assert !b[n + 2];
      assert OnesIn(b, 0, n + 2);
      forall e | 0 < e < |b| && OnesIn(b, 0, e) && !b[e] ensures e == n + 2 {
      }
    } else {
      assert forall i :: 0 <= i < |b| ==> b[i];
    }
  }

  // ----- Main results -----

  /** The waveform is always the DCC signal for a first part of the buffer; unless the packet
      stream is full, that part holds the whole input and up to four of the trailing 1s. */
  lemma TranslationSends(bits: Bits) returns (read: nat)
    requires !Trapped(bits) && !Misread(bits)
    ensures SafeLead(Buffer(bits))
    ensures read < |Buffer(bits)| && Sends(Buffer(bits), Translation(bits), read)
    ensures |Translation(bits)| < PKTSIZE ==> |Clip(bits)| + 2 <= read <= |Clip(bits)| + 6
  {
    LeadOfBuffer(bits);
    StartControl(bits);
    var b := Buffer(bits);
    assert Hear(true, MID_ONE, []) == MID_ONE && b[..0] == [];
    FinishSound(b, START);
    read := Finish(b, START).read;
  }

  /** The waveform is heard as the bits, with two 1s before and up to four after them, and ends
      as it began: after the first half wave of a '1'. */
  ghost predicate Decodes(bits: Bits, out: seq<bv8>) {
    exists k: nat :: k <= 4 && Hear(true, MID_ONE, out) == Receiver([true, true] + bits + Ones(k), First(1), true)
  }

  /** A packet stream that is not full is correct exactly if the bits do not start 1110. */
  lemma TranslationMeaning(bits: Bits)
    requires !Trapped(bits)
    ensures SafeLead(Buffer(bits))
    ensures |Translation(bits)| < PKTSIZE ==> (Decodes(Clip(bits), Translation(bits)) <==> !Misread(bits))
  {
    LeadOfBuffer(bits);
    var out := Translation(bits);
    if |out| < PKTSIZE {
      if Misread(bits) {
        MisreadIsHeardAsError(bits);
      } else {
        var b := Buffer(bits);
        var read := TranslationSends(bits);
        var k := read - |Clip(bits)| - 2;
        assert b[..read] == [true, true] + Clip(bits) + Ones(k);
      }
    }
  }

  /** Packet streams can be sent back to back: between the bits of two streams are only 1s. */
  lemma StreamsJoin(a: Bits, outA: seq<bv8>, b: Bits, outB: seq<bv8>)
    requires Decodes(a, outA) && Decodes(b, outB)
    ensures exists k: nat, l: nat :: k <= 4 && l <= 4
              && Hear(true, MID_ONE, outA + outB)
                 == Receiver([true, true] + a + Ones(k) + ([true, true] + b + Ones(l)), First(1), true)
  {
    hide Hear;
    var k: nat :| k <= 4 && Hear(true, MID_ONE, outA) == Receiver([true, true] + a + Ones(k), First(1), true);
    var l: nat :| l <= 4 && Hear(true, MID_ONE, outB) == Receiver([true, true] + b + Ones(l), First(1), true);
    var bits := [true, true] + a + Ones(k);
    HearAppend(true, MID_ONE, outA, outB);
    assert After(bits, MID_ONE) == Receiver(bits, First(1), true) by { assert bits + [] == bits; }
    HearAfter(true, bits, MID_ONE, outB);
  }

  /** Sending 111111 for 111110: the low half of the last bit is then longer than the high one. */
  lemma LongLowHalf(r: Receiver, b: bv8)
    requires r.phase == First(1) && b & 0x01 == 0
    ensures !HearByte(true, r, b).ok
  {
    var l := Line(b);
    assert l[0..] == l;
    ListenAt(true, r, l, 0);
    var r' := Feed(true, r, l[0]);
    ListenAt(true, r', l, 1);
    LowThenHigh(Feed(true, r', l[1]), l[2..], 7);
  }

  lemma {:induction false} LowThenHigh(r: Receiver, line: Bits, high: nat)
    requires r.phase.Second? && r.phase.n == 1 && r.phase.m >= 2 && high < |line| && line[high]
    ensures !Listen(true, r, line).ok
    decreases |line|
  {
    if line[0] {
      ListenError(true, Feed(true, r, true), line[1..]);
    } else {
      LowThenHigh(Feed(true, r, false), line[1..], high - 1);
    }
  }

  /** States reached after 1110 was read at the start: the second byte starts with a long low. */
  predicate Broken(b: Bits, s: State)
    requires InBounds(b, s)
  {
    && |s.out| >= 1 && s.out[0] == 0x55
    && (if |s.out| == 1 then s.read == 5 && s.restartPacket == 0 else s.out[1] & 0x01 == 0)
    && (s.restartPacket <= 1 ==> s.restartRead == 5 * s.restartPacket)
    && (|s.out| >= 2 ==> s.restartPacket >= 1)
  }

  lemma LowEntriesAreEven(w: Bits, second: bool)
    requires |w| == 6 && !w[0]
    ensures EntryFor(w, second).value & 0x01 == 0
  {
  }

  lemma StepBroken(b: Bits, s: State)
    requires Control(b, s) && Running(b, s) && SafeLead(b) && |b| >= 12 && Unsplittable(Six(b, 0))
    requires s == START || Broken(b, s)
    ensures Control(b, Step(b, s)) && Broken(b, Step(b, s))
  {
    hide EntryFor;
    StepControl(b, s);
    var w0, w5 := Six(b, 0), Six(b, 5);
    assert forall k :: 0 <= k < 6 ==> w0[k] == b[k] && w5[k] == b[5 + k];
    LowEntriesAreEven(w5, false);
    LowEntriesAreEven(w5, true);
  }

  lemma {:induction false} FinishBroken(b: Bits, s: State)
    requires Control(b, s) && SafeLead(b) && |b| >= 12 && Unsplittable(Six(b, 0))
    requires s == START || Broken(b, s)
    ensures Finish(b, s) == START || Broken(b, Finish(b, s))
    decreases |b| - s.restartRead, Stage(b, s), |b| - s.read
  {
    if Running(b, s) {
      StepControl(b, s);
      StepBroken(b, s);
      FinishBroken(b, Step(b, s));
    }
  }

  lemma TwoBytesError(out: seq<bv8>)
    requires |out| >= 2 && out[0] == 0x55 && out[1] & 0x01 == 0
    ensures !Hear(true, MID_ONE, out).ok
  {
    hide HearByte;
    EmitsHigh(MID_ONE);
    var r := HearByte(true, MID_ONE, 0x55);
    assert Emits(MID_ONE, 0x55, MID_ONE.bits + [true] + [true] + [true] + [true] + [true], true);
    assert out[..1][..0] == [] && out[..2][..1] == out[..1];
    assert Hear(true, MID_ONE, out[..1]) == r;
    LongLowHalf(r, out[1]);
    HearAppend(true, MID_ONE, out[..2], out[2..]);
    assert out == out[..2] + out[2..];
    HearError(true, Hear(true, MID_ONE, out[..2]), out[2..]);
  }

  lemma MisreadIsHeardAsError(bits: Bits)
    requires !Trapped(bits) && Misread(bits)
    ensures SafeLead(Buffer(bits))
    ensures !Hear(true, MID_ONE, Translation(bits)).ok
  {
    LeadOfBuffer(bits);
    StartControl(bits);
    FinishBroken(Buffer(bits), START);
    TwoBytesError(Translation(bits));
  }

  /** Every byte of the packet stream takes at least two bits and none is zero. */
  lemma TranslationSize(bits: Bits)
    requires !Trapped(bits)
    ensures SafeLead(Buffer(bits))
    ensures |Translation(bits)| <= (|Clip(bits)| + 1) / 2 + 1
    ensures |bits| <= 156 ==> |Translation(bits)| < PKTSIZE
    ensures 0 !in Translation(bits)
  {
    LeadOfBuffer(bits);
    StartControl(bits);
    var f := Finish(Buffer(bits), START);
    assert Control(Buffer(bits), f);
  }

  // ----- A long preamble costs one byte per five bits -----

  /** No choice was made before the byte at index `q`, and from there every byte took two bits. */
  ghost predicate Economical(b: Bits, s: State, q: nat)
    requires InBounds(b, s)
  {
    && (Opening(b, s) || (s.restartPacket >= q && s.restartRead >= 3 * q + 2 * s.restartPacket && s.read >= 3 * q + 2 * |s.out|))
    && (|s.out| > q ==> 3 * q + 2 * |s.out| <= End(b) + 1)
  }

  /** What the invariant says of the bounds and of the place of the last choice. */
  lemma ControlParts(b: Bits, s: State)
    requires Control(b, s)
    ensures InBounds(b, s) && s.read <= End(b) + 4
    ensures 2 * |s.out| <= s.read && 2 * |s.out| <= End(b) + 1
    ensures Opening(b, s) ==> OpeningControl(b, s)
  {
  }

  lemma ChosenFacts(b: Bits, s: State)
    requires Control(b, s) && InBounds(b, s) && !Opening(b, s)
    ensures var second := s.lastRestart == s.restartRead;
            var land := s.restartRead + EntryFor(Six(b, s.restartRead), second).length;
            && s.lastRestart <= s.restartRead < s.read && s.restartPacket < |s.out| && !FiveOnes(Six(b, s.restartRead))
            && s.read == land + 5 * (|s.out| - s.restartPacket - 1) && OnesIn(b, land, s.read)
            && (second ==> NoHit(b, s.read))
  {
    hide EntryFor, NoHit;
  }

  lemma OnesJoin(b: Bits, i: nat, j: nat, k: nat)
    requires OnesIn(b, i, j) && OnesIn(b, j, k)
    ensures OnesIn(b, i, k)
  {
  }

  lemma PlainEconomical(b: Bits, s: State, q: nat)
    requires InBounds(b, s) && Running(b, s) && Economical(b, s, q) && InBounds(b, Emit(b, s, false))
    requires !Hit(b, s) && (Opening(b, s) ==> OpeningControl(b, s)) && OnesIn(b, 0, 5 * q + 1)
    requires 2 * |Emit(b, s, false).out| <= End(b) + 1
    ensures Economical(b, Emit(b, s, false), q)
  {
    hide EntryFor;
    var w := Six(b, s.read);
    assert forall k :: 0 <= k < 6 ==> w[k] == b[s.read + k];
    Lengths(w);
  }

  lemma BackEconomical(b: Bits, s: State, q: nat, n: nat)
    requires InBounds(b, s) && Running(b, s) && Economical(b, s, q) && InBounds(b, Emit(b, Retreat(s), true))
    requires !Opening(b, s) && n == EntryFor(Six(b, s.restartRead), true).length && n >= 2
    requires s.restartPacket < |s.out| && 2 * |Emit(b, Retreat(s), true).out| <= End(b) + 1
    ensures Economical(b, Emit(b, Retreat(s), true), q)
  {
    hide EntryFor;
  }

  lemma StepEconomical(b: Bits, s: State, q: nat)
    requires Control(b, s) && Running(b, s) && SafeLead(b) && Economical(b, s, q)
    requires OnesIn(b, 0, 5 * q + 1) && !Unsplittable(Six(b, 0))
    ensures InBounds(b, Step(b, s)) && Economical(b, Step(b, s), q)
  {
    hide EntryFor, NoHit, SafeLead, Control, Economical, Emit, Retreat, OnesIn;
    StepControl(b, s);
    ControlParts(b, s);
    ControlParts(b, Step(b, s));
    if Hit(b, s) {
      SecondTryAvoidsHit(b, s);
      ChosenFacts(b, s);
      BackEconomical(b, s, q, EntryFor(Six(b, s.restartRead), true).length);
    } else {
      PlainEconomical(b, s, q);
    }
  }

  lemma {:induction false} FinishEconomical(b: Bits, s: State, q: nat)
    requires Control(b, s) && SafeLead(b) && Economical(b, s, q)
    requires OnesIn(b, 0, 5 * q + 1) && !Unsplittable(Six(b, 0))
    ensures Economical(b, Finish(b, s), q)
    decreases |b| - s.restartRead, Stage(b, s), |b| - s.read
  {
    if Running(b, s) {
      hide Economical, Control;
      StepControl(b, s);
      StepEconomical(b, s, q);
      FinishEconomical(b, Step(b, s), q);
    }
  }

  /** `q` fives of leading 1s go out in `q` bytes. */
  lemma LeadSize(bits: Bits, q: nat)
    requires !Trapped(bits) && !Misread(bits) && 5 * q <= LeadingOnes(Clip(bits)) + 1
    ensures SafeLead(Buffer(bits))
    ensures |Translation(bits)| > q ==> 3 * q + 2 * |Translation(bits)| <= |Clip(bits)| + 3
  {
    LeadOfBuffer(bits);
    StartControl(bits);
    var b := Buffer(bits);
    var n := LeadingOnes(Clip(bits));
    assert forall i :: 0 <= i < n + 2 ==> b[i];
    assert OnesIn(b, 0, 5 * q + 1);
    FinishEconomical(b, START, q);
  }

  // ----- One back-up per run of 1s -----

  /** The run of 1s ending before `e` cannot be met in the state that forces a back-up:
      it is passed for good, or what is left of it is 1 or 2 modulo five, or the read pointer
      stands on the '0' before a rest that is a multiple of five. */
  ghost predicate Past(b: Bits, s: State, e: nat)
    requires InBounds(b, s) && e < |b|
  {
    || (s.read >= e && s.restartRead + EntryFor(Six(b, s.restartRead), true).length >= e)
    || (OnesIn(b, s.read, e) && ((e - s.read) % 5 == 1 || (e - s.read) % 5 == 2))
    || (s.read + 1 < e && !b[s.read] && OnesIn(b, s.read + 1, e) && (e - s.read - 1) % 5 == 0)
  }

  /** From `s` on the loop never backs up because of the run ending before `e`. */
  ghost predicate NeverHits(b: Bits, s: State, e: nat)
    requires Control(b, s) && SafeLead(b)
    decreases |b| - s.restartRead, Stage(b, s), |b| - s.read
  {
    Running(b, s) ==>
      && !(Hit(b, s) && s.read + 5 == e)
      && (StepControl(b, s); NeverHits(b, Step(b, s), e))
  }

  /** Table facts for windows that hold the end of a run of 1s. */
  lemma RunEndLengths(w: Bits)
    requires |w| == 6 && !FiveOnes(w)
    ensures w[0] && w[1] && !w[2] ==> EntryFor(w, true).length >= 2 && EntryFor(w, false).length >= 3
    ensures !w[0] && w[1] && w[2] && w[3] && w[4] ==> EntryFor(w, false).length == 4
  {
  }

  lemma PlainPast(b: Bits, s: State, e: nat)
    requires InBounds(b, s) && Running(b, s) && e < |b| && !b[e]
    requires Past(b, s, e) && !Hit(b, s)
    ensures var s' := Emit(b, s, false);
            InBounds(b, s') ==> Past(b, s', e)
  {
    if FiveOnes(Six(b, s.read)) {
      FivePast(b, s, e);
    } else {
      ChoicePast(b, s, e);
    }
  }

  lemma FivePast(b: Bits, s: State, e: nat)
    requires InBounds(b, s) && Running(b, s) && e < |b| && !b[e]
    requires Past(b, s, e) && !Hit(b, s) && FiveOnes(Six(b, s.read))
    ensures var s' := Emit(b, s, false);
            InBounds(b, s') ==> Past(b, s', e)
  {
    hide EntryFor;
    var w := Six(b, s.read);
    assert forall k :: 0 <= k < 6 ==> w[k] == b[s.read + k];
  }

  lemma ChoicePast(b: Bits, s: State, e: nat)
    requires InBounds(b, s) && Running(b, s) && e < |b| && !b[e]
    requires Past(b, s, e) && !Hit(b, s) && !FiveOnes(Six(b, s.read))
    ensures var s' := Emit(b, s, false);
            InBounds(b, s') ==> Past(b, s', e)
  {
    if s.read >= e {
      PassedPast(b, s, e);
    } else if OnesIn(b, s.read, e) {
      RunPast(b, s, e);
    } else {
      ZeroPast(b, s, e);
    }
  }

  /** Where a choice leads: its restart is where it was made. */
  lemma ChoiceIs(b: Bits, s: State)
    requires InBounds(b, s) && Running(b, s) && !Hit(b, s) && !FiveOnes(Six(b, s.read))
    ensures var s', w := Emit(b, s, false), Six(b, s.read);
            && s'.read == s.read + EntryFor(w, false).length && s'.restartRead == s.read && s.read + 6 <= |b|
            && 2 <= EntryFor(w, false).length <= 4 && EntryFor(w, true).length >= 1
            && (w[0] && w[1] && !w[2] ==> EntryFor(w, true).length >= 2 && EntryFor(w, false).length >= 3)
            && (!w[0] && w[1] && w[2] && w[3] && w[4] ==> EntryFor(w, false).length == 4)
    ensures forall k :: 0 <= k < 6 ==> Six(b, s.read)[k] == b[s.read + k]
  {
    hide EntryFor;
    Lengths(Six(b, s.read));
    RunEndLengths(Six(b, s.read));
  }

  lemma PassedPast(b: Bits, s: State, e: nat)
    requires InBounds(b, s) && Running(b, s) && e <= s.read && !Hit(b, s) && !FiveOnes(Six(b, s.read))
    ensures var s' := Emit(b, s, false);
            InBounds(b, s') ==> Past(b, s', e)
  {
    hide EntryFor, Emit, Unsplittable, FiveOnes, Six;
    ChoiceIs(b, s);
  }

  lemma RunPast(b: Bits, s: State, e: nat)
    requires InBounds(b, s) && Running(b, s) && s.read < e < |b| && !b[e] && OnesIn(b, s.read, e)
    requires Past(b, s, e) && !Hit(b, s) && !FiveOnes(Six(b, s.read))
    ensures var s' := Emit(b, s, false);
            InBounds(b, s') ==> Past(b, s', e)
  {
    hide EntryFor, Emit, Unsplittable;
    ChoiceIs(b, s);
  }

  lemma ZeroPast(b: Bits, s: State, e: nat)
    requires InBounds(b, s) && Running(b, s) && s.read < e < |b| && !b[e] && !OnesIn(b, s.read, e)
    requires Past(b, s, e) && !Hit(b, s) && !FiveOnes(Six(b, s.read))
    ensures var s' := Emit(b, s, false);
            InBounds(b, s') ==> Past(b, s', e)
  {
    hide EntryFor, Emit, Unsplittable, FiveOnes, Six;
    ChoiceIs(b, s);
  }

  /** Where the read pointer stands on 111110, only a run that was passed for good is past. */
  lemma PastOnHit(b: Bits, s: State, e: nat)
    requires InBounds(b, s) && s.read + 6 <= |b| && Hit(b, s) && e < |b| && !b[e] && Past(b, s, e)
    ensures s.read >= e && s.restartRead + EntryFor(Six(b, s.restartRead), true).length >= e
  {
    hide EntryFor;
    HitWindow(b, s);
  }

  lemma PastAfterBack(b: Bits, s: State, s': State, e: nat)
    requires InBounds(b, s) && InBounds(b, s') && e < |b| && s'.restartRead == s.restartRead
    requires s'.read == s.restartRead + EntryFor(Six(b, s.restartRead), true).length < s.read
    requires OnesIn(b, s'.read + 1, s.read + 5) && (s.read - s'.read - 1) % 5 == 0
    requires s.read + 5 == e || s'.read >= e
    ensures Past(b, s', e)
  {
    hide EntryFor;
  }

  lemma HitPast(b: Bits, s: State, e: nat)
    requires Control(b, s) && Running(b, s) && SafeLead(b) && e < |b| && !b[e]
    requires Hit(b, s) && (s.read + 5 == e || Past(b, s, e))
    ensures InBounds(b, Step(b, s)) && Past(b, Step(b, s), e)
    ensures Past(b, s, e) ==> s.read + 5 != e
  {
    hide EntryFor, NoHit, Control, SafeLead, Past, Hit;
    StepControl(b, s);
    ControlBounds(b, s);
    ControlBounds(b, Step(b, s));
    if Past(b, s, e) {
      PastOnHit(b, s, e);
    }
    if !Opening(b, s) {
      SecondTryAvoidsHit(b, s);
      PastAfterBack(b, s, Step(b, s), e);
    } else {
      OpeningPast(b, s, e);
    }
  }

  lemma OpeningPast(b: Bits, s: State, e: nat)
    requires Control(b, s) && Running(b, s) && SafeLead(b) && Hit(b, s) && Opening(b, s)
    requires e < |b| && (s.read + 5 == e || s.read >= e)
    ensures InBounds(b, Step(b, s)) && Past(b, Step(b, s), e)
  {
    hide EntryFor, NoHit;
    StepControl(b, s);
    OpeningStart(b, s);
    HitWindow(b, s);
  }

  lemma OpeningStart(b: Bits, s: State)
    requires Control(b, s) && Running(b, s) && SafeLead(b) && Hit(b, s) && Opening(b, s)
    ensures s.read == 0 == s.restartRead
  {
    HitWindow(b, s);
    assert OnesIn(b, 0, s.read + 5);
  }

  lemma StepPast(b: Bits, s: State, e: nat)
    requires Control(b, s) && Running(b, s) && SafeLead(b) && e < |b| && !b[e]
    requires Past(b, s, e) || (Hit(b, s) && s.read + 5 == e)
    ensures Control(b, Step(b, s)) && Past(b, Step(b, s), e)
    ensures Past(b, s, e) ==> !(Hit(b, s) && s.read + 5 == e)
  {
    hide Control, Past;
    StepControl(b, s);
    ControlBounds(b, s);
    if Hit(b, s) {
      HitPast(b, s, e);
    } else {
      PlainPast(b, s, e);
    }
  }

  lemma ControlBounds(b: Bits, s: State)
    requires Control(b, s)
    ensures InBounds(b, s)
  {
  }

  lemma {:induction false} PastNeverHits(b: Bits, s: State, e: nat)
    requires Control(b, s) && SafeLead(b) && e < |b| && !b[e] && Past(b, s, e)
    ensures NeverHits(b, s, e)
    decreases |b| - s.restartRead, Stage(b, s), |b| - s.read
  {
    if Running(b, s) {
      StepPast(b, s, e);
      StepControl(b, s);
      PastNeverHits(b, Step(b, s), e);
    }
  }

  /** A run of 1s makes the routine back up at most once, and the complaint that the restart
      does not work is never logged. */
  lemma BacksUpOncePerRun(b: Bits, s: State)
    requires Control(b, s) && SafeLead(b) && Running(b, s) && Hit(b, s)
    ensures s.restartRead != s.lastRestart
    ensures Control(b, Step(b, s)) && NeverHits(b, Step(b, s), s.read + 5)
  {
    hide Control, Past, NeverHits, SafeLead;
    StepControl(b, s);
    ControlBounds(b, s);
    HitWindow(b, s);
    StepPast(b, s, s.read + 5);
    PastNeverHits(b, Step(b, s), s.read + 5);
  }

  // ----- The trap: a run that never ends -----

  ghost predicate RunsFor(b: Bits, s: State, steps: nat)
    decreases steps
  {
    InBounds(b, s) && Running(b, s) && (steps > 0 ==> RunsFor(b, Step(b, s), steps - 1))
  }

  lemma {:induction false} TrappedFor(b: Bits, s: State, fives: nat, steps: nat)
    requires 2 <= fives <= PKTSIZE && 5 * fives + 6 < |b| && OnesIn(b, 0, 5 * fives) && !b[5 * fives]
    requires s.restartRead == 0 && s.restartPacket == 0 && s.read == 5 * |s.out| && |s.out| < fives
    ensures RunsFor(b, s, steps)
    decreases steps
  {
    assert Hit(b, s) <==> |s.out| == fives - 1;
    if steps > 0 {
      TrappedFor(b, Step(b, s), fives, steps - 1);
    }
  }

  /** The loop ends on exactly the bit strings that are not trapped. */
  lemma RunsForeverIffTrapped(bits: Bits)
    ensures (forall n: nat :: RunsFor(Buffer(bits), START, n)) <==> Trapped(bits)
  {
    var b := Buffer(bits);
    LeadOfBuffer(bits);
    if Trapped(bits) {
      var n := LeadingOnes(Clip(bits)) + 2;
      assert forall i :: 0 <= i < n ==> b[i];
      assert !b[n];
      forall steps: nat ensures RunsFor(b, START, steps) {
        TrappedFor(b, START, n / 5, steps);
      }
    } else {
      StartControl(bits);
      var steps := Halts(b, START);
    }
  }

  lemma {:induction false} Halts(b: Bits, s: State) returns (steps: nat)
    requires Control(b, s) && SafeLead(b)
    ensures !RunsFor(b, s, steps)
    decreases |b| - s.restartRead, Stage(b, s), |b| - s.read
  {
    if Running(b, s) {
      StepControl(b, s);
      var n := Halts(b, Step(b, s));
      steps := n + 1;
    } else {
      steps := 0;
    }
  }

  // ----- The routine -----

  /** After a back-up the routine gets at least as far as before: bytes of the abandoned try never
      outlive the loop. `written` counts the bytes written so far, `Slack` says the loop goes on. */
  predicate Slack(b: Bits, s: State, written: nat)
    requires |b| >= 6
  {
    |s.out| <= written <= PKTSIZE && (|s.out| < written ==> s.read + 5 * (written - |s.out|) < End(b))
  }

  function Max(x: nat, y: nat): nat {
    if x > y then x else y
  }

  lemma StepSlack(b: Bits, s: State, written: nat)
    requires Control(b, s) && Running(b, s) && SafeLead(b) && Slack(b, s, written)
    ensures var s' := Step(b, s); Slack(b, s', Max(written, |s'.out|))
  {
    hide EntryFor, NoHit;
    if Hit(b, s) && !Opening(b, s) {
      SecondTryAvoidsHit(b, s);
    }
  }

  method Translate(bits: Bits, packet: array<bv8>) returns (n: nat)
    requires packet.Length == PKTSIZE
    requires !Trapped(bits)
    modifies packet
    ensures SafeLead(Buffer(bits))
    ensures n == |Translation(bits)| && packet[..n] == Translation(bits)
    ensures forall i :: n <= i < PKTSIZE ==> packet[i] == 0
  {
    hide EntryFor;
    LeadOfBuffer(bits);
    StartControl(bits);
    hide Control, SafeLead, Finish, Slack, Stage, Progress, Buffer, Step, Emit, Index, FiveOnes, Unsplittable;
    var buffer := Buffer(bits);
    var end := |buffer| - 6;
    var read: nat, restartRead: nat, lastRestart: int := 0, 0, -1;
    var restartPacket: nat, generate: nat := 0, 0;
    var second := false;
    ClearPacket(packet);
    ghost var s := START;
    ghost var written: nat := 0;
    Begin(buffer);
    Cleared(packet[..]);
    hide Filled;
    hide InBounds, Running, Max, Six, End, Hit, Opening, LeadingOnes, Clip, Trapped, Translation;
    while generate < PKTSIZE && read < end
      invariant Control(buffer, s) && InBounds(buffer, s) && Slack(buffer, s, written)
      invariant Finish(buffer, s) == Finish(buffer, START)
      invariant Filled(packet[..], s.out, written) && generate == |s.out|
      invariant (read, restartRead, lastRestart) == (s.read, s.restartRead, s.lastRestart)
      invariant restartPacket == s.restartPacket && !second
      decreases |buffer| - s.restartRead, Stage(buffer, s), |buffer| - s.read
    {
      ghost var s', kept, at := Advance(buffer, s, written);
      var six := buffer[read..read + 6];
      if Unsplittable(six) {
        second := true;
        generate := restartPacket;
        lastRestart := restartRead;
        read := restartRead;
        six := buffer[read..read + 6];
      }
      var cell := EntryFor(six, second);
      FillNext(packet[..], s.out, written, kept, cell.value);
      packet[generate] := cell.value;
      if !FiveOnes(six) {
        restartPacket := generate;
        restartRead := read;
      }
      read := read + cell.length;
      generate := generate + 1;
      second := false;
      s, written := s', Max(written, |s'.out|);
    }
    EndOf(buffer, s, written);
    FilledWith(packet[..], s.out, written);
    assert packet[..][..generate] == packet[..generate];
    return generate;
  }

  /** The packet holds the bytes sent so far, and zeros behind those ever written. */
  ghost predicate Filled(p: seq<bv8>, out: seq<bv8>, written: nat) {
    && |p| == PKTSIZE && |out| <= written <= PKTSIZE && p[..|out|] == out
    && forall i :: written <= i < PKTSIZE ==> p[i] == 0
  }

  lemma FillNext(p: seq<bv8>, out: seq<bv8>, written: nat, kept: seq<bv8>, value: bv8)
    requires Filled(p, out, written) && kept <= out && |kept| < PKTSIZE
    ensures Filled(p[|kept| := value], kept + [value], Max(written, |kept| + 1))
  {
  }

  lemma Cleared(p: seq<bv8>)
    requires |p| == PKTSIZE && forall i :: 0 <= i < PKTSIZE ==> p[i] == 0
    ensures Filled(p, [], 0)
  {
  }

  lemma FilledWith(p: seq<bv8>, out: seq<bv8>, written: nat)
    requires Filled(p, out, written)
    ensures |p| == PKTSIZE && |out| <= PKTSIZE && p[..|out|] == out && forall i :: written <= i < PKTSIZE ==> p[i] == 0
  {
  }

  lemma Begin(b: Bits)
    requires |b| >= 8
    ensures Slack(b, START, 0)
  {
  }

  /** The fields of the next state: a back-up cuts the packet to `kept` and reads at the restart. */
  lemma StepFields(b: Bits, s: State) returns (kept: seq<bv8>, at: nat)
    requires InBounds(b, s) && Running(b, s)
    ensures at + 6 <= |b| && |kept| < PKTSIZE && kept <= s.out
    ensures var s' := Step(b, s);
            if Unsplittable(Six(b, s.read)) then (|kept|, at, s'.lastRestart) == (s.restartPacket, s.restartRead, s.restartRead)
            else (|kept|, at, s'.lastRestart) == (|s.out|, s.read, s.lastRestart)
    ensures var s', six := Step(b, s), Six(b, at);
            var c := EntryFor(six, Unsplittable(Six(b, s.read)));
            && s'.out == kept + [c.value] && s'.read == at + c.length
            && s'.restartPacket == (if FiveOnes(six) then s.restartPacket else |kept|)
            && s'.restartRead == (if FiveOnes(six) then s.restartRead else at)
  {
    hide EntryFor, Six, Unsplittable, FiveOnes;
    kept, at := if Hit(b, s) then s.out[..s.restartPacket] else s.out, if Hit(b, s) then s.restartRead else s.read;
  }

  lemma IsRunning(b: Bits, s: State)
    requires |b| >= 6
    ensures Running(b, s) <==> |s.out| < PKTSIZE && s.read < |b| - 6
    ensures InBounds(b, s) ==> |b| >= 8 && s.read < |b|
    ensures forall i: nat :: i + 6 <= |b| ==> Six(b, i) == b[i..i + 6]
  {
  }

  /** One round of the loop. */
  lemma Advance(b: Bits, s: State, written: nat) returns (s': State, kept: seq<bv8>, at: nat)
    requires Control(b, s) && InBounds(b, s) && SafeLead(b) && Slack(b, s, written)
    requires |s.out| < PKTSIZE && s.read < |b| - 6
    ensures Control(b, s') && InBounds(b, s') && Slack(b, s', Max(written, |s'.out|))
    ensures (|b| - s.restartRead, Stage(b, s), |b| - s.read decreases to |b| - s'.restartRead, Stage(b, s'), |b| - s'.read)
    ensures Finish(b, s) == Finish(b, s')
    ensures s.read + 6 <= |b| && at + 6 <= |b| && |kept| < PKTSIZE && kept <= s.out
    ensures if Unsplittable(b[s.read..s.read + 6]) then (|kept|, at, s'.lastRestart) == (s.restartPacket, s.restartRead, s.restartRead)
            else (|kept|, at, s'.lastRestart) == (|s.out|, s.read, s.lastRestart)
    ensures var six := b[at..at + 6];
            var c := EntryFor(six, Unsplittable(b[s.read..s.read + 6]));
            && s'.out == kept + [c.value] && s'.read == at + c.length
            && s'.restartPacket == (if FiveOnes(six) then s.restartPacket else |kept|)
            && s'.restartRead == (if FiveOnes(six) then s.restartRead else at)
  {
    hide EntryFor, Step, Unsplittable, FiveOnes, Control, SafeLead, Slack, Stage, Six, Running, InBounds;
    IsRunning(b, s);
    StepControl(b, s);
    StepSlack(b, s, written);
    kept, at := StepFields(b, s);
    s' := Step(b, s);
  }

  lemma EndOf(b: Bits, s: State, written: nat)
    requires Control(b, s) && SafeLead(b) && InBounds(b, s) && !Running(b, s) && Slack(b, s, written)
    ensures Finish(b, s) == s && written == |s.out|
  {
  }
}
