/** Translation routine 3 without back-ups: a look ahead over the next run of 1s tells which try
    is the right one. The routine with back-ups sends the same bytes. */
module Lookahead {
  import opened Signal
  import opened TranslatorV3

  /** The run of 1s from `i` on. */
  function RunFrom(b: Bits, i: nat): (n: nat)
    requires i <= |b|
    ensures i + n <= |b|
    ensures forall k :: i <= k < i + n ==> b[k]
    ensures i + n < |b| ==> !b[i + n]
    decreases |b| - i
  {
    if i < |b| && b[i] then 1 + RunFrom(b, i + 1) else 0
  }

  lemma {:induction false} RunIs(b: Bits, i: nat, n: nat)
    requires i + n <= |b| && (forall k :: i <= k < i + n ==> b[k]) && (i + n < |b| ==> !b[i + n])
    ensures RunFrom(b, i) == n
    decreases n
  {
    if n > 0 {
      RunIs(b, i + 1, n - 1);
    }
  }

  /** Reading in fives from here leads onto 111110. */
  predicate Bad(b: Bits, i: nat) {
    i < |b| && var n := RunFrom(b, i); n >= 5 && n % 5 == 0 && i + n < |b|
  }

  lemma BadRun(b: Bits, i: nat, n: nat)
    requires i + n < |b| && OnesIn(b, i, i + n) && !b[i + n]
    ensures Bad(b, i) <==> n >= 5 && n % 5 == 0
  {
    RunIs(b, i, n);
  }

  /** Dropping 1s from the front of a run. */
  lemma {:induction false} RunLater(b: Bits, i: nat, j: nat)
    requires OnesIn(b, i, j)
    ensures RunFrom(b, i) == j - i + RunFrom(b, j)
    decreases j - i
  {
    if i < j {
      RunLater(b, i + 1, j);
    }
  }

  predicate TakesSecond(b: Bits, r: nat)
    requires r + 6 <= |b|
  {
    !FiveOnes(Six(b, r)) && Bad(b, r + EntryFor(Six(b, r), false).length)
  }

  function Chosen(b: Bits, r: nat): (c: Cell)
    requires r + 6 <= |b|
    ensures 1 <= c.length <= 5
  {
    EntryFor(Six(b, r), TakesSecond(b, r))
  }

  /** The bytes for the bits from `r` on. */
  function Ahead(b: Bits, r: nat): seq<bv8>
    requires |b| >= 6
    decreases |b| - r
  {
    if r >= End(b) then [] else [Chosen(b, r).value] + Ahead(b, r + Chosen(b, r).length)
  }

  /** What the loop keeps: with the look-ahead bytes for what follows the last choice the output is
      complete; and with those for what follows the read pointer, unless a back-up is to come. */
  ghost predicate OnCourse(b: Bits, s: State)
    requires InBounds(b, s)
  {
    && s.out[..s.restartPacket] + Ahead(b, s.restartRead) == Ahead(b, 0)
    && (!Bad(b, s.read) || Opening(b, s) ==> s.out + Ahead(b, s.read) == Ahead(b, 0))
  }

  lemma FivesIsChosen(b: Bits, r: nat)
    requires r + 6 <= |b| && FiveOnes(Six(b, r))
    ensures Chosen(b, r) == Cell(0x55, 5)
  {
  }

  lemma WindowRun(b: Bits, r: nat)
    requires r + 6 <= |b| && r < End(b)
    ensures FiveOnes(Six(b, r)) <==> OnesIn(b, r, r + 5)
    ensures Bad(b, r) ==> FiveOnes(Six(b, r))
  {
    var w := Six(b, r);
    assert forall k :: 0 <= k < 6 ==> w[k] == b[r + k];
  }

  lemma AheadNext(b: Bits, r: nat)
    requires |b| >= 6 && r < End(b)
    ensures Ahead(b, r) == [Chosen(b, r).value] + Ahead(b, r + Chosen(b, r).length)
  {
  }

  lemma Shift(out: seq<bv8>, v: bv8, rest: seq<bv8>)
    ensures out + ([v] + rest) == (out + [v]) + rest
  {
  }

  /** A byte that is the chosen one keeps the output on course. */
  lemma ChosenByte(b: Bits, out: seq<bv8>, read: nat)
    requires |b| >= 6 && read < End(b)
    ensures out + Ahead(b, read) == (out + [Chosen(b, read).value]) + Ahead(b, read + Chosen(b, read).length)
  {
    hide Chosen;
    AheadNext(b, read);
    Shift(out, Chosen(b, read).value, Ahead(b, read + Chosen(b, read).length));
  }

  lemma RunGoesOn(b: Bits, r: nat)
    requires r < |b| - 6 && FiveOnes(Six(b, r)) && !Unsplittable(Six(b, r))
    ensures Bad(b, r) ==> Bad(b, r + 5)
  {
    WindowRun(b, r);
    RunLater(b, r, r + 5);
    assert Six(b, r)[5] == b[r + 5];
  }

  lemma FiveStep(b: Bits, s: State)
    requires InBounds(b, s) && s.read < End(b) && InBounds(b, Emit(b, s, false)) && OnCourse(b, s)
    requires !Hit(b, s) && FiveOnes(Six(b, s.read))
    ensures OnCourse(b, Emit(b, s, false))
  {
    hide EntryFor, Ahead, Bad, Chosen;
    var s' := Emit(b, s, false);
    FivesIsChosen(b, s.read);
    RunGoesOn(b, s.read);
    assert s'.out[..s.restartPacket] == s.out[..s.restartPacket];
    ChosenByte(b, s.out, s.read);
  }

  lemma ChoiceStep(b: Bits, s: State)
    requires InBounds(b, s) && s.read < End(b) && InBounds(b, Emit(b, s, false)) && OnCourse(b, s)
    requires !FiveOnes(Six(b, s.read))
    ensures OnCourse(b, Emit(b, s, false))
  {
    hide EntryFor, Ahead, Bad;
    var s' := Emit(b, s, false);
    WindowRun(b, s.read);
    assert s'.out[..|s.out|] == s.out;
    ChosenByte(b, s.out, s.read);
  }

  /** A back-up is to the choice the look-ahead makes. */
  lemma BackIsChosen(b: Bits, s: State)
    requires Control(b, s) && InBounds(b, s) && Running(b, s) && SafeLead(b) && Hit(b, s) && !Opening(b, s)
    ensures s.restartRead < End(b) && !FiveOnes(Six(b, s.restartRead)) && TakesSecond(b, s.restartRead)
  {
    hide Control, SafeLead, EntryFor, NoHit, Hit, OnesIn, Bad, FiveOnes, Unsplittable;
    ChosenFacts(b, s);
    SecondTryAvoidsHit(b, s);
    HitWindow(b, s);
    var r := s.restartRead;
    var land := r + EntryFor(Six(b, r), false).length;
    OnesJoin(b, land, s.read, s.read + 5);
    BadRun(b, land, s.read + 5 - land);
  }

  lemma BackStep(b: Bits, s: State)
    requires Control(b, s) && InBounds(b, s) && Running(b, s) && SafeLead(b) && OnCourse(b, s)
    requires Hit(b, s) && !Opening(b, s)
    ensures InBounds(b, Step(b, s)) && OnCourse(b, Step(b, s))
  {
    hide EntryFor, Control, Ahead, Bad, TakesSecond;
    StepControl(b, s);
    BackIsChosen(b, s);
    var s' := Step(b, s);
    ControlBounds(b, s');
    var out := s.out[..s.restartPacket];
    assert s'.out[..s.restartPacket] == out;
    ChosenByte(b, out, s.restartRead);
  }

  lemma StepOnCourse(b: Bits, s: State)
    requires Control(b, s) && Running(b, s) && SafeLead(b) && OnCourse(b, s) && !Unsplittable(Six(b, 0))
    ensures Control(b, Step(b, s)) && OnCourse(b, Step(b, s))
  {
    hide OnCourse, Control;
    StepControl(b, s);
    assert InBounds(b, s) by { ControlBounds(b, s); }
    assert InBounds(b, Step(b, s)) by { ControlBounds(b, Step(b, s)); }
    if Hit(b, s) {
      BackStep(b, s);
    } else if FiveOnes(Six(b, s.read)) {
      FiveStep(b, s);
    } else {
      ChoiceStep(b, s);
    }
  }

  lemma {:induction false} FinishOnCourse(b: Bits, s: State)
    requires Control(b, s) && SafeLead(b) && OnCourse(b, s) && !Unsplittable(Six(b, 0))
    ensures OnCourse(b, Finish(b, s))
    decreases |b| - s.restartRead, Stage(b, s), |b| - s.read
  {
    if Running(b, s) {
      hide OnCourse, Control;
      assert InBounds(b, s) by { ControlBounds(b, s); }
      StepControl(b, s);
      StepOnCourse(b, s);
      FinishOnCourse(b, Step(b, s));
    }
  }

  /** Inside a run there is a byte for every five bits. */
  lemma {:induction false} RunBytes(b: Bits, r: nat, e: nat)
    requires |b| >= 6 && r <= e < End(b) && OnesIn(b, r, e + 5)
    ensures 5 * |Ahead(b, r)| >= e - r + 1
    decreases e - r
  {
    WindowRun(b, r);
    FivesIsChosen(b, r);
    if r + 5 <= e {
      RunBytes(b, r + 5, e);
    }
  }

  /** Stopping for lack of room in the middle of a run that will be backed out of: the other try
      needs at least as many bytes. */
  lemma FullBeforeBackUp(b: Bits, s: State)
    requires Control(b, s) && OnCourse(b, s) && |s.out| == PKTSIZE && s.read < End(b)
    ensures |Ahead(b, 0)| >= PKTSIZE
  {
    hide Ahead;
    if Bad(b, s.read) && !Opening(b, s) {
      BackUpToCome(b, s);
      assert |Ahead(b, 0)| == s.restartPacket + |Ahead(b, s.restartRead)|;
    } else {
      assert |Ahead(b, 0)| == |s.out| + |Ahead(b, s.read)|;
    }
  }

  lemma BackUpToCome(b: Bits, s: State)
    requires Control(b, s) && s.read < End(b) && Bad(b, s.read) && !Opening(b, s)
    ensures s.restartPacket + |Ahead(b, s.restartRead)| >= |s.out|
  {
    hide EntryFor, Ahead, Control, Bad, NoHit, OnesIn, FiveOnes;
    ControlParts(b, s);
    ChosenFacts(b, s);
    WindowRun(b, s.read);
    var r := s.restartRead;
    if s.lastRestart == r {
      BadIsHit(b, s.read);
    } else {
      var land := r + EntryFor(Six(b, r), false).length;
      BadBefore(b, land, s.read);
      OnesJoin(b, land, s.read, s.read + 5);
      OtherTry(b, r, s.read);
    }
  }

  lemma BadBefore(b: Bits, i: nat, j: nat)
    requires OnesIn(b, i, j) && Bad(b, j) && (j - i) % 5 == 0
    ensures Bad(b, i)
  {
    RunLater(b, i, j);
  }

  lemma BadIsHit(b: Bits, r: nat)
    requires Bad(b, r)
    ensures !NoHit(b, r)
  {
    var e := r + RunFrom(b, r);
    assert OnesIn(b, r, e) && !b[e];
  }

  lemma OtherTry(b: Bits, r: nat, read: nat)
    requires |b| >= 6 && r < read < End(b) && !FiveOnes(Six(b, r)) && !Unsplittable(Six(b, r))
    requires var land := r + EntryFor(Six(b, r), false).length;
             land <= read && (read - land) % 5 == 0 && OnesIn(b, land, read + 5) && Bad(b, land)
    ensures var land := r + EntryFor(Six(b, r), false).length; 5 * |Ahead(b, r)| >= read - land + 10
  {
    hide EntryFor, Ahead, Bad;
    var w := Six(b, r);
    Lengths(w);
    var land := r + EntryFor(w, false).length;
    assert w[land - r] == b[land];
    var a := land - 1;
    assert a == r + Chosen(b, r).length;
    hide Chosen, TakesSecond;
    AheadNext(b, r);
    AheadNext(b, a);
    FromBeforeRun(b, a);
    AfterRunStart(b, a, a + Chosen(b, a).length, read);
  }

  lemma AfterRunStart(b: Bits, a: nat, next: nat, read: nat)
    requires |b| >= 6 && a < read < End(b) && a < next <= a + 5 && OnesIn(b, a + 1, read + 5)
    requires (read - a - 1) % 5 == 0
    ensures 5 * |Ahead(b, next)| >= read - a - 1
  {
    if next <= read {
      RunBytes(b, next, read);
    }
  }

  /** Just before a bad run, or on the 1 before it, at least four bits go out in the next byte. */
  lemma FromBeforeRun(b: Bits, a: nat)
    requires a + 6 <= |b| && Bad(b, a + 1)
    ensures 4 <= Chosen(b, a).length <= 5 && (b[a] ==> Chosen(b, a).length == 5)
    ensures !b[a] ==> !TakesSecond(b, a) && Chosen(b, a).length == 4
  {
    var w := Six(b, a);
    assert forall k :: 0 <= k < 6 ==> w[k] == b[a + k];
    assert w[1] && w[2] && w[3] && w[4];
    if !w[0] {
      assert EntryFor(w, false).length == 4;
      RunLater(b, a + 1, a + 4);
    }
  }

  /** The routine with back-ups sends exactly the bytes of the look-ahead form, provided either of
      them stays below the size of a packet stream. */
  lemma TranslationIsAhead(bits: Bits)
    requires !Trapped(bits) && !Misread(bits)
    ensures SafeLead(Buffer(bits))
    ensures |Ahead(Buffer(bits), 0)| < PKTSIZE || |Translation(bits)| < PKTSIZE ==>
              Translation(bits) == Ahead(Buffer(bits), 0)
  {
    LeadOfBuffer(bits);
    StartControl(bits);
    var b := Buffer(bits);
    assert OnCourse(b, START);
    FinishOnCourse(b, START);
    var f := Finish(b, START);
    if f.read < End(b) {
      FullBeforeBackUp(b, f);
    } else {
      assert Ahead(b, f.read) == [];
      assert !Bad(b, f.read) by {
        assert forall k :: End(b) <= k < |b| ==> b[k];
      }
    }
  }
}
