/** The pattern table of translation routines 1 and 2: each byte sends a few whole DCC bits,
    half waves low first. */
module Patterns {
  import opened Signal

  const DATACNT: nat := 15

  type Choice = i: int | 0 <= i < DATACNT

  function Pattern(i: Choice): (p: Bits)
    ensures 1 <= |p| <= 5
  {
    match i
    case 0 => [false]
    case 1 => [false, false]
    case 2 => [false, true]
    case 3 => [true, false]
    case 4 => [false, false, true]
    case 5 => [false, true, false]
    case 6 => [false, true, true]
    case 7 => [true, false, false]
    case 8 => [true, false, true]
    case 9 => [true, true, false]
    case 10 => [false, true, true, true]
    case 11 => [true, false, true, true]
    case 12 => [true, true, false, true]
    case 13 => [true, true, true, false]
    case 14 => [true, true, true, true, true]
  }

  function Value(i: Choice): bv8 {
    match i
    case 0 => 0xF0
    case 1 => 0xC6
    case 2 => 0x78
    case 3 => 0xE1
    case 4 => 0x66
    case 5 => 0x96
    case 6 => 0x5C
    case 7 => 0x99
    case 8 => 0x71
    case 9 => 0xC5
    case 10 => 0x56
    case 11 => 0x59
    case 12 => 0x65
    case 13 => 0x95
    case 14 => 0x55
  }

  /** A receiver at rest: the line is high and no bit is in progress. */
  const IDLE := Receiver([], Gap, true)

  predicate AtRest(r: Receiver) {
    Settle(r).phase.Gap?
  }

  lemma SettleFirst(r: Receiver, b: bv8)
    requires AtRest(r)
    ensures HearByte(false, r, b) == TenLevels(false, Settle(r), b)
  {
    HearByteIsTenLevels(false, r, b);
  }

  predicate Plays(r: Receiver, value: bv8, bits: Bits) {
    var r' := TenLevels(false, r, value);
    AtRest(r') && Settle(r').bits == bits && Settle(r').ok == r.ok
  }

  lemma PatternPlays(i: Choice, r: Receiver)
    requires r.phase.Gap?
    ensures Plays(r, Value(i), r.bits + Pattern(i))
  {
    hide TenLevels, AtRest, Settle;
    var s := r.bits;
    PlaysUpToTwo(r);
    PlaysThreeLow(r);
    PlaysThreeHigh(r);
    PlaysFour(r);
    PlaysRuns(r);
    assert s + [false, false] == s + [false] + [false];
    assert s + [false, true] == s + [false] + [true];
    assert s + [true, false] == s + [true] + [false];
    assert s + [false, false, true] == s + [false] + [false] + [true];
    assert s + [false, true, false] == s + [false] + [true] + [false];
    assert s + [false, true, true] == s + [false] + [true] + [true];
    assert s + [true, false, false] == s + [true] + [false] + [false];
    assert s + [true, false, true] == s + [true] + [false] + [true];
    assert s + [true, true, false] == s + [true] + [true] + [false];
    assert s + [false, true, true, true] == s + [false] + [true] + [true] + [true];
    assert s + [true, false, true, true] == s + [true] + [false] + [true] + [true];
    assert s + [true, true, false, true] == s + [true] + [true] + [false] + [true];
    assert s + [true, true, true, false] == s + [true] + [true] + [true] + [false];
    assert s + [true, true, true, true, true] == s + [true] + [true] + [true] + [true] + [true];
  }

  lemma PlaysUpToTwo(r: Receiver)
    requires r.phase.Gap?
    ensures Plays(r, 0xF0, r.bits + [false])
    ensures Plays(r, 0xC6, r.bits + [false] + [false])
    ensures Plays(r, 0x78, r.bits + [false] + [true])
    ensures Plays(r, 0xE1, r.bits + [true] + [false])
  {
  }

  lemma PlaysThreeLow(r: Receiver)
    requires r.phase.Gap?
    ensures Plays(r, 0x66, r.bits + [false] + [false] + [true])
    ensures Plays(r, 0x96, r.bits + [false] + [true] + [false])
    ensures Plays(r, 0x5C, r.bits + [false] + [true] + [true])
  {
  }

  lemma PlaysThreeHigh(r: Receiver)
    requires r.phase.Gap?
    ensures Plays(r, 0x99, r.bits + [true] + [false] + [false])
    ensures Plays(r, 0x71, r.bits + [true] + [false] + [true])
    ensures Plays(r, 0xC5, r.bits + [true] + [true] + [false])
  {
  }

  lemma PlaysFour(r: Receiver)
    requires r.phase.Gap?
    ensures Plays(r, 0x56, r.bits + [false] + [true] + [true] + [true])
    ensures Plays(r, 0x59, r.bits + [true] + [false] + [true] + [true])
    ensures Plays(r, 0x65, r.bits + [true] + [true] + [false] + [true])
  {
  }

  lemma PlaysRuns(r: Receiver)
    requires r.phase.Gap?
    ensures Plays(r, 0x95, r.bits + [true] + [true] + [true] + [false])
    ensures Plays(r, 0x55, r.bits + [true] + [true] + [true] + [true] + [true])
  {
  }

  /** The bits and the bytes of a list of choices. */
  function Spell(cs: seq<Choice>): (s: Bits)
    ensures |cs| <= |s|
    decreases |cs|
  {
    if cs == [] then [] else Spell(cs[..|cs| - 1]) + Pattern(cs[|cs| - 1])
  }

  function Values(cs: seq<Choice>): (v: seq<bv8>)
    ensures |v| == |cs|
  {
    seq(|cs|, i requires 0 <= i < |cs| => Value(cs[i]))
  }

  /** The waveform is heard as the bits. */
  predicate Carried(bytes: seq<bv8>, bits: Bits) {
    var r := Hear(false, IDLE, bytes);
    AtRest(r) && Settle(r).ok && Settle(r).bits == bits
  }

  lemma CarriedNext(bytes: seq<bv8>, bits: Bits, c: Choice)
    requires Carried(bytes, bits)
    ensures Carried(bytes + [Value(c)], bits + Pattern(c))
  {
    hide HearByte, TenLevels;
    var r := Hear(false, IDLE, bytes);
    assert (bytes + [Value(c)])[..|bytes|] == bytes;
    SettleFirst(r, Value(c));
    PatternPlays(c, Settle(r));
  }

  /** Sending a list of choices is heard as the bits they spell. */
  lemma {:induction false} SpellCarried(cs: seq<Choice>)
    ensures Carried(Values(cs), Spell(cs))
    decreases |cs|
  {
    if cs == [] {
      assert Hear(false, IDLE, []) == IDLE;
    } else {
      var n := |cs| - 1;
      SpellCarried(cs[..n]);
      CarriedNext(Values(cs[..n]), Spell(cs[..n]), cs[n]);
      assert Values(cs) == Values(cs[..n]) + [Value(cs[n])];
    }
  }

  // ----- Searching for a list of choices -----

  /** The rest of `s` after the choices `cs`. */
  function Rest(s: Bits, cs: seq<Choice>): Bits
    requires Spell(cs) <= s
  {
    s[|Spell(cs)|..]
  }

  /** Steps left to try patterns `i` down to 0 at the start of `s`, all subtrees included. */
  function Cost(s: Bits, i: int): nat
    requires i < DATACNT
    decreases |s|, if i < 0 then 0 else i + 1
  {
    if i < 0 then 0
    else (if Pattern(i) <= s then 1 + Cost(s[|Pattern(i)|..], DATACNT - 1) else 0) + 1 + Cost(s, i - 1)
  }

  /** Steps left on the levels of the choice stack. */
  function StackCost(s: Bits, cs: seq<Choice>): nat
    requires Spell(cs) <= s
    decreases |cs|
  {
    if cs == [] then 0
    else
      var up := cs[..|cs| - 1];
      assert Spell(up) <= Spell(cs) <= s;
      StackCost(s, up) + Cost(Rest(s, up), cs[|cs| - 1] as int - 1)
  }

  /** Steps left in the whole search: the variant of both searches. */
  function Left(s: Bits, cs: seq<Choice>, i: int): nat
    requires Spell(cs) <= s && i < DATACNT
  {
    StackCost(s, cs) + Cost(Rest(s, cs), i)
  }

  lemma Push(s: Bits, cs: seq<Choice>, c: Choice)
    requires Spell(cs) <= s && Pattern(c) <= Rest(s, cs)
    ensures Spell(cs + [c]) <= s && |Spell(cs + [c])| == |Spell(cs)| + |Pattern(c)|
    ensures Rest(s, cs + [c]) == Rest(s, cs)[|Pattern(c)|..]
    ensures StackCost(s, cs + [c]) == StackCost(s, cs) + Cost(Rest(s, cs), c as int - 1)
    ensures Left(s, cs + [c], DATACNT - 1) < Left(s, cs, c)
  {
    hide Pattern, Value, Cost;
    assert (cs + [c])[..|cs|] == cs;
    assert s == Spell(cs) + Rest(s, cs);
    assert Rest(s, cs) == Pattern(c) + Rest(s, cs)[|Pattern(c)|..];
    assert s == Spell(cs) + Pattern(c) + Rest(s, cs)[|Pattern(c)|..];
    CostPush(Rest(s, cs), c);
  }

  lemma CostPush(s: Bits, c: Choice)
    requires Pattern(c) <= s
    ensures Cost(s, c) > Cost(s, c as int - 1) + Cost(s[|Pattern(c)|..], DATACNT - 1)
  {
    hide Pattern;
  }

  lemma Pop(s: Bits, cs: seq<Choice>)
    requires Spell(cs) <= s && cs != []
    ensures var up, c := cs[..|cs| - 1], cs[|cs| - 1];
            Spell(up) <= s && Pattern(c) <= Rest(s, up)
            && Rest(s, cs) == Rest(s, up)[|Pattern(c)|..]
            && Left(s, up, c as int - 1) == Left(s, cs, -1)
            && |Spell(cs)| == |Spell(up)| + |Pattern(c)|
  {
    hide Pattern, Value;
    var up, c := cs[..|cs| - 1], cs[|cs| - 1];
    assert Spell(up) <= s;
    assert s == Spell(cs) + Rest(s, cs) == Spell(up) + (Pattern(c) + Rest(s, cs));
    assert Rest(s, up) == Pattern(c) + Rest(s, cs);
  }

  /** The next pattern, from `from` downwards, that the bits start with; -1 if there is none. */
  method FindPattern(bits: Bits, from: int) returns (i: int)
    requires -1 <= from < DATACNT
    ensures -1 <= i <= from && (i >= 0 ==> Pattern(i) <= bits)
    ensures forall c: Choice :: i < c <= from ==> !(Pattern(c) <= bits)
  {
    hide Pattern;
    i := from;
    while i >= 0 && !(Pattern(i) <= bits)
      invariant -1 <= i <= from
      invariant forall c: Choice :: i < c <= from ==> !(Pattern(c) <= bits)
    {
      i := i - 1;
    }
  }

  lemma {:induction false} CostMonotone(s: Bits, i: int, j: int)
    requires -1 <= i <= j < DATACNT
    ensures Cost(s, i) <= Cost(s, j)
    decreases j - i
  {
    hide Pattern;
    if i < j {
      CostMonotone(s, i, j - 1);
    }
  }
}
