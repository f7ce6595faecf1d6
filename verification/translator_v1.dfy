/** Translation routine version 1: a depth-first search that gives up after long detours and
    starts again with one more 1 at the end of the bit string. */
module TranslatorV1 {
  import opened Signal
  import opened Patterns
  import opened Search

  const NMRA_STACKSIZE: nat := 200
  const MAX_LEVEL_DELTA: int := 7

  predicate EndsWith(s: Bits, p: Bits) {
    |p| <= |s| && s[|s| - |p|..] == p
  }

  /** The end of the bit string is a pattern. */
  predicate Translateabel(s: Bits) {
    exists i: Choice :: EndsWith(s, Pattern(i))
  }

  /** "0" is a pattern: what cannot be translated ends in a '1'. */
  lemma UntranslatableEndsInOne(s: Bits)
    requires s != []
    ensures Translateabel(s) || s == s[..|s| - 1] + [true]
  {
    assert s == s[..|s| - 1] + [s[|s| - 1]];
    if !s[|s| - 1] {
      assert EndsWith(s, Pattern(0));
    }
  }

  // ----- The buffer and what was tried before -----

  /** The buffer holds the bits and `extra` 1s; for -1 it holds the bits without their last '1',
      which is still to be sent by the byte for 100. */
  predicate Extended(bits: Bits, extra: int, buffer: Bits) {
    if extra < 0 then extra == -1 && bits == buffer + [true] else buffer == bits + Ones(extra)
  }

  /** A preamble of at least five 1s. */
  predicate Led(s: Bits) {
    |s| >= 5 && forall k :: 0 <= k < 5 ==> s[k]
  }

  /** In a full search all the buffers before this one have been searched in vain. */
  ghost predicate Tried(full: bool, bits: Bits, extra: int, buffer: Bits) {
    && Extended(bits, extra, buffer)
    && (full ==> Led(buffer) && forall l: nat :: l < extra ==> !Translatable(false, bits + Ones(l)))
  }

  /** What the loop keeps. */
  ghost predicate Searched(full: bool, bits: Bits, extra: int, buffer: Bits, cs: seq<Choice>, i: int) {
    Tried(full, bits, extra, buffer) && (full ==> Searching(false, buffer, cs, i))
  }

  lemma Start(full: bool, bits: Bits, extra: int, buffer: Bits)
    requires if extra == -1 then bits == buffer + [true] else extra == 0 && buffer == bits
    requires full ==> |bits| >= 6 && Led(bits)
    ensures Searched(full, bits, extra, buffer, [], DATACNT - 1) && Spell([]) == []
  {
    assert bits == bits + Ones(0);
    assert full ==> forall k :: 0 <= k < 5 ==> buffer[k] == bits[k];
  }

  lemma Narrow(full: bool, bits: Bits, extra: int, buffer: Bits, cs: seq<Choice>, i: int, from: int)
    requires Searched(full, bits, extra, buffer, cs, from) && -1 <= i <= from < DATACNT && Spell(cs) <= buffer
    requires forall c: Choice :: i < c <= from ==> !(Pattern(c) <= Rest(buffer, cs))
    ensures Searched(full, bits, extra, buffer, cs, i) && Left(buffer, cs, i) <= Left(buffer, cs, from)
  {
    hide Pattern, Tried, Searching;
    CostMonotone(Rest(buffer, cs), i, from);
    if full {
      NotThese(false, buffer, cs, i, from);
    }
  }

  lemma Forward(full: bool, bits: Bits, extra: int, buffer: Bits, cs: seq<Choice>, c: Choice)
    requires Searched(full, bits, extra, buffer, cs, c) && Spell(cs) <= buffer && Pattern(c) <= Rest(buffer, cs)
    ensures |Spell(cs + [c])| == |Spell(cs)| + |Pattern(c)| && Spell(cs + [c]) <= buffer
    ensures |cs| + 1 < PKTSIZE ==> Searched(full, bits, extra, buffer, cs + [c], DATACNT - 1)
    ensures Left(buffer, cs + [c], DATACNT - 1) < Left(buffer, cs, c)
  {
    hide Pattern, Tried, Searching, Left;
    Push(buffer, cs, c);
    if full {
      Descend(false, buffer, cs, c);
    }
  }

  lemma Back(full: bool, bits: Bits, extra: int, buffer: Bits, cs: seq<Choice>)
    requires Searched(full, bits, extra, buffer, cs, -1) && cs != [] && Spell(cs) <= buffer && |Spell(cs)| < |buffer|
    ensures var up, c := cs[..|cs| - 1], cs[|cs| - 1];
            && Searched(full, bits, extra, buffer, up, c as int - 1) && Spell(up) <= buffer
            && |Spell(up)| == |Spell(cs)| - |Pattern(c)|
            && Left(buffer, up, c as int - 1) == Left(buffer, cs, -1)
  {
    hide Pattern, Tried, Searching, Left;
    Pop(buffer, cs);
    if full {
      Ascend(false, buffer, cs);
    }
  }

  /** Only 11111 fits where five 1s stand: back at the root, the search has failed. */
  lemma RootFails(s: Bits, i: int)
    requires Led(s) && Searching(false, s, [], i) && i < DATACNT - 1
    ensures !Translatable(false, s)
  {
    hide Translatable;
    assert Rest(s, []) == s;
    forall c: Choice | c <= i ensures !(Pattern(c) <= s) {
      var k := if c <= 2 || 4 <= c <= 6 || c == 10 then 0 else if c == 3 || c == 7 || c == 8 || c == 11 then 1
               else if c == 9 || c == 12 then 2 else 3;
      assert !Pattern(c)[k];
    }
    DeadEnd(false, s);
  }

  lemma Restart(full: bool, bits: Bits, extra: int, buffer: Bits, cs: seq<Choice>, i: int)
    requires Searched(full, bits, extra, buffer, cs, i)
    requires full ==> cs == [] && i < DATACNT - 1
    ensures Searched(full, bits, extra + 1, buffer + [true], [], DATACNT - 1)
    ensures Spell([]) == []
  {
    hide Searching;
    if extra == -1 {
      assert buffer + [true] == bits + Ones(0);
    } else {
      assert Ones(extra) + [true] == Ones(extra + 1);
      assert buffer + [true] == bits + Ones(extra + 1);
    }
    if full {
      RootFails(buffer, i);
      Fresh(buffer + [true]);
    }
  }

  lemma Fresh(s: Bits)
    ensures Searching(false, s, [], DATACNT - 1)
  {
  }

  // ----- Failing -----

  /** A translation with a tail is one without, for up to four more 1s. */
  lemma {:induction false} TailPadded(s: Bits) returns (k: nat)
    requires Translatable(true, s)
    ensures k <= 4 && Translatable(false, s + Ones(k))
    decreases |s|
  {
    if s == [] {
      k := 0;
      assert s + Ones(0) == [];
    } else if Tail(s) {
      k := 5 - |s|;
      FiveOnes(s, k);
    } else {
      hide Pattern, Translatable, Tail;
      var i := FirstPattern(true, s);
      k := TailPadded(s[|Pattern(i)|..]);
      assert (s + Ones(k))[|Pattern(i)|..] == s[|Pattern(i)|..] + Ones(k);
      Covers(false, s + Ones(k), i);
    }
  }

  lemma FiveOnes(s: Bits, k: nat)
    requires LeadingOnes(s) == |s| == 5 - k
    ensures Translatable(false, s + Ones(k))
  {
    hide Translatable;
    assert Pattern(14) == s + Ones(k);
    assert (s + Ones(k))[5..] == [];
    NothingLeft();
    Covers(false, s + Ones(k), 14);
  }

  lemma NothingLeft()
    ensures Translatable(false, []) && Translatable(true, [])
  {
  }

  /** The start of a pattern whose rest is all 1s is a pattern or a tail. */
  lemma CutPattern(i: Choice, s: Bits)
    requires s < Pattern(i) && s != [] && forall k :: |s| <= k < |Pattern(i)| ==> Pattern(i)[k]
    ensures Tail(s) || exists c: Choice :: Pattern(c) == s
  {
    var p := Pattern(i);
    assert s == p[..|s|];
    var n := |p|;
    assert p[n - 1] && (|s| < n - 1 ==> p[n - 2]) && (|s| < n - 2 ==> p[n - 3]);
    if i == 14 {
      assert forall k :: 0 <= k < |s| ==> s[k];
      AllOnes(s);
    } else if |s| == 1 {
      assert s == [p[0]];
      assert s == Pattern(0);
    } else if |s| == 2 {
      assert s == [p[0], p[1]];
      assert s == Pattern(1) || s == Pattern(2) || s == Pattern(3);
    } else {
      assert s == [p[0], p[1], p[2]];
      assert s == Pattern(6) || s == Pattern(8) || s == Pattern(9);
    }
  }

  lemma {:induction false} AllOnes(s: Bits)
    requires forall k :: 0 <= k < |s| ==> s[k]
    ensures LeadingOnes(s) == |s|
  {
    if s != [] {
      AllOnes(s[1..]);
    }
  }

  /** And the other way round: extra 1s are never what makes a translation possible. */
  lemma {:induction false} CutOnes(s: Bits, k: nat)
    requires Translatable(false, s + Ones(k))
    ensures Translatable(true, s)
    decreases |s|
  {
    hide Pattern, Tail, Translatable;
    NothingLeft();
    if s != [] {
      var t := s + Ones(k);
      var i := FirstPattern(false, t);
      if |Pattern(i)| <= |s| {
        assert t[|Pattern(i)|..] == s[|Pattern(i)|..] + Ones(k);
        CutOnes(s[|Pattern(i)|..], k);
        Covers(true, s, i);
      } else {
        assert s == Pattern(i)[..|s|];
        forall l | |s| <= l < |Pattern(i)| ensures Pattern(i)[l] {
          assert Pattern(i)[l] == t[l];
        }
        CutInside(i, s);
      }
    }
  }

  lemma CutInside(i: Choice, s: Bits)
    requires s < Pattern(i) && s != [] && forall k :: |s| <= k < |Pattern(i)| ==> Pattern(i)[k]
    ensures Translatable(true, s)
  {
    hide Pattern;
    CutPattern(i, s);
    if !Tail(s) {
      var c: Choice :| Pattern(c) == s;
      assert s[|Pattern(c)|..] == [];
      Covers(true, s, c);
    }
  }

  /** Giving up on a long buffer: all that could have helped has been tried. */
  lemma GaveUp(full: bool, bits: Bits, extra: int, buffer: Bits, cs: seq<Choice>, i: int)
    requires Searched(full, bits, extra, buffer, cs, i) && |buffer| >= PKTSIZE - 1
    ensures full && |bits| <= PKTSIZE - 6 ==> !Translatable(true, bits)
  {
    if full && |bits| <= PKTSIZE - 6 && Translatable(true, bits) {
      var k := TailPadded(bits);
    }
  }

  // ----- Success -----

  /** The bytes are heard as the bits, followed by 1s or, after a correction, by 00. */
  ghost predicate Sent(bytes: seq<bv8>, bits: Bits) {
    Carried(bytes, bits + [false, false]) || exists k: nat :: Carried(bytes, bits + Ones(k))
  }

  lemma Done(full: bool, bits: Bits, extra: int, buffer: Bits, cs: seq<Choice>, i: int)
    requires Searched(full, bits, extra, buffer, cs, i) && Spell(cs) <= buffer && |Spell(cs)| == |buffer|
    ensures Sent(if extra == -1 then Values(cs) + [0x99] else Values(cs), bits)
    ensures Translatable(true, bits)
  {
    hide Carried, Spell, Value, Pattern, Translatable;
    SpellCarried(cs);
    assert buffer == Spell(cs);
    if extra == -1 {
      CarriedNext(Values(cs), buffer, 7);
      CorrectionPattern(buffer);
      assert Rest(bits, cs) == [true];
      OneIsTail();
      SpelledIsTranslatable(true, bits, cs);
    } else {
      assert Rest(buffer, cs) == [];
      NothingLeft();
      SpelledIsTranslatable(false, buffer, cs);
      CutOnes(bits, extra);
    }
  }

  lemma OneIsTail()
    ensures Translatable(true, [true])
  {
    AllOnes([true]);
  }

  lemma CorrectionPattern(buffer: Bits)
    ensures Value(7) == 0x99 && buffer + Pattern(7) == buffer + [true] + [false, false]
  {
  }

  /** A nonzero result counts one byte more than the ones that send the bits. A forced search is
      complete on short bit strings that start with a preamble. Bit strings are one whole packet
      or more and fit the buffer with the terminating zero. */
  method Translate(bits: Bits, forceTranslation: bool, packet: array<bv8>) returns (n: nat)
    requires packet.Length == PKTSIZE && 5 <= |bits| < BUFFERSIZE - 1
    modifies packet
    ensures n != 0 ==> n <= PKTSIZE && Sent(packet[..n - 1], bits) && Translatable(true, bits)
    ensures n == 0 && forceTranslation && Led(bits) && 6 <= |bits| <= PKTSIZE - 6 ==> !Translatable(true, bits)
  {
    hide Value, Pattern, Spell, Translateabel, Sent, Searched, Tried, Translatable, Left, Extended, Carried, Ones, StackCost, Cost,
         Tail, Led, EndsWith, LeadingOnes;
    ghost var full := forceTranslation && Led(bits) && |bits| >= 6;
    var buffer := bits;
    var i: int := DATACNT - 1;
    var j: nat := 0;
    var pos: nat := 0;
    var stack := new Choice[NMRA_STACKSIZE];
    var pstack: int := 0;
    var correction := false;
    var highest: nat := 0;
    ClearPacket(packet);
    if !Translateabel(buffer) {
      UntranslatableEndsInOne(buffer);
      buffer := buffer[..|buffer| - 1];
      correction := true;
    }
    ghost var cs: seq<Choice> := [];
    ghost var extra := if correction then -1 else 0;
    Start(full, bits, extra, buffer);
    while pos < |buffer|
      invariant pstack == j == |cs| < PKTSIZE - 1 && |buffer| <= BUFFERSIZE && correction == (extra == -1)
      invariant Searched(full, bits, extra, buffer, cs, i) && Spell(cs) <= buffer && -1 <= i < DATACNT
      invariant pos == |Spell(cs)|
      invariant j == 0 ==> i == DATACNT - 1
      invariant forall l :: 0 <= l < j ==> stack[l] == cs[l] && packet[l] == Value(cs[l])
      decreases BUFFERSIZE - |buffer|, Left(buffer, cs, i), j
    {
      ghost var from := i;
      i := FindPattern(buffer[pos..], i);
      Narrow(full, bits, extra, buffer, cs, i, from);
      if i < 0 {
        pstack := pstack - 1;
        if pstack >= 0 {
          Back(full, bits, extra, buffer, cs);
          i := stack[pstack];
          pos := pos - |Pattern(i)|;
          j := j - 1;
          cs := cs[..j];
          if highest - j >= MAX_LEVEL_DELTA && !forceTranslation {
            j := 0;
          }
          i := i - 1;
        }
      } else {
        Forward(full, bits, extra, buffer, cs, i);
        packet[j] := Value(i);
        j := j + 1;
        if j > highest {
          highest := j;
        }
        pos := pos + |Pattern(i)|;
        stack[pstack] := i;
        pstack := pstack + 1;
        cs := cs + [i];
        i := DATACNT - 1;
      }
      if j >= PKTSIZE - 1 || |buffer| == BUFFERSIZE {
        GaveUp(full, bits, extra, buffer, cs, i);
        return 0;
      }
      if j <= 0 || pstack < 0 || pstack > NMRA_STACKSIZE - 1 {
        Restart(full, bits, extra, buffer, cs, i);
        buffer := buffer + [true];
        pos, j, pstack, i, correction := 0, 0, 0, DATACNT - 1, false;
        cs, extra := [], extra + 1;
        ClearPacket(packet);
      }
    }
    Done(full, bits, extra, buffer, cs, i);
    hide *;
    n := Finish(bits, correction, packet, j, cs);
  }

  /** The byte for the last '1' that was held back. */
  method Finish(bits: Bits, correction: bool, packet: array<bv8>, j: nat, ghost cs: seq<Choice>) returns (n: nat)
    requires packet.Length == PKTSIZE && |cs| == j < PKTSIZE - 1
    requires forall l :: 0 <= l < j ==> packet[l] == Value(cs[l])
    requires Sent(if correction then Values(cs) + [0x99] else Values(cs), bits)
    modifies packet
    ensures 0 < n <= PKTSIZE && Sent(packet[..n - 1], bits)
  {
    hide Value, Sent;
    n := j;
    assert packet[..j] == Values(cs);
    if correction {
      packet[n] := 0x99;
      n := n + 1;
      assert packet[..n] == Values(cs) + [0x99];
    }
    return n + 1;
  }
}
