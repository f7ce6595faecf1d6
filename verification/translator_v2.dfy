/** Translation routine version 2: a depth-first search, longest patterns first, for a list of
    patterns that spells the bit string. A tail of one to five 1s is sent as 11111. */
module TranslatorV2 {
  import opened Signal
  import opened Patterns
  import opened Search

  lemma TailCarried(bytes: seq<bv8>, bits: Bits, tail: Bits) returns (k: nat)
    requires Carried(bytes, bits) && Tail(tail)
    ensures k <= 4 && Carried(bytes + [0x55], bits + tail + Ones(k))
  {
    hide Carried;
    k := 5 - |tail|;
    CarriedNext(bytes, bits, 14);
    assert tail + Ones(k) == Pattern(14);
    assert bits + tail + Ones(k) == bits + (tail + Ones(k));
  }

  /** A translation is found exactly if there is one; only a bit string of 80 bits or more can
      fail for lack of room. The bytes before the last one counted are heard as the bits. */
  method Translate(s: Bits, packet: array<bv8>) returns (n: nat)
    requires packet.Length == PKTSIZE
    modifies packet
    ensures n != 0 ==> n - 1 <= PKTSIZE && exists k: nat :: k <= 4 && Carried(packet[..n - 1], s + Ones(k))
    ensures n != 0 ==> Translatable(true, s)
    ensures n == 0 ==> !Translatable(true, s) || |s| >= PKTSIZE
  {
    hide Carried, Value, Pattern, DeadStack, Dead, Translatable, Spell, Left, Tail;
    var i: int := DATACNT - 1;
    var j: nat := 0;
    var pos: nat := 0;
    var stack := new Choice[PKTSIZE];
    ClearPacket(packet);
    ghost var cs: seq<Choice> := [];
    StartSearch(s);
    while pos < |s|
      invariant |cs| == j && Searching(true, s, cs, i) && pos == |Spell(cs)|
      invariant forall l :: 0 <= l < j ==> stack[l] == cs[l] && packet[l] == Value(cs[l])
      decreases Left(s, cs, i), j
    {
      var rest := s[pos..];
      if Tail(rest) {
        packet[j] := 0x55;
        assert packet[..j] == Values(cs);
        assert packet[..j + 1] == packet[..j] + [0x55];
        var k := FoundTail(s, cs);
        return j + 2;
      }
      ghost var from := i;
      i := FindPattern(rest, i);
      NotThese(true, s, cs, i, from);
      if i < 0 {
        if j > 0 {
          Ascend(true, s, cs);
          j := j - 1;
          i := stack[j];
          pos := pos - |Pattern(i)|;
          i := i - 1;
          cs := cs[..j];
        } else {
          Exhausted(s, cs);
          return 0;
        }
      } else {
        Descend(true, s, cs, i);
        packet[j] := Value(i);
        pos := pos + |Pattern(i)|;
        stack[j] := i;
        j := j + 1;
        cs := cs + [i];
        i := DATACNT - 1;
      }
      if j >= PKTSIZE {
        return 0;
      }
    }
    assert packet[..j] == Values(cs);
    Found(s, cs);
    return j + 1;
  }

  lemma StartSearch(s: Bits)
    ensures Searching(true, s, [], DATACNT - 1) && |Spell([])| == 0
  {
  }

  lemma Exhausted(s: Bits, cs: seq<Choice>)
    requires Searching(true, s, cs, -1) && cs == [] && s != [] && !Tail(s)
    ensures !Translatable(true, s)
  {
    assert Rest(s, cs) == s;
  }

  lemma FoundTail(s: Bits, cs: seq<Choice>) returns (k: nat)
    requires Spell(cs) <= s && Tail(Rest(s, cs))
    ensures Translatable(true, s) && k <= 4 && Carried(Values(cs) + [0x55], s + Ones(k))
  {
    hide Carried;
    SpellCarried(cs);
    k := TailCarried(Values(cs), Spell(cs), Rest(s, cs));
    assert s == Spell(cs) + Rest(s, cs);
    SpelledIsTranslatable(true, s, cs);
  }

  lemma Found(s: Bits, cs: seq<Choice>)
    requires Spell(cs) <= s && |Spell(cs)| == |s|
    ensures Translatable(true, s) && Carried(Values(cs), s + Ones(0))
  {
    hide Carried;
    SpellCarried(cs);
    assert s + Ones(0) == s == Spell(cs);
    SpelledIsTranslatable(true, s, cs);
  }

  // ----- Which bit strings have a translation -----

  /** The pattern that sends a '0' can take along up to `f` of the `m` 1s behind it. This many
      of the next run can then go with the next '0' at best; none if negative. */
  function Best(f: nat, m: nat): int {
    if m % 5 <= f then 3 else f + 3 - m % 5
  }

  /** Only the lengths of the runs of 1s, modulo five, decide whether `s` can be covered. */
  predicate Flexible(f: nat, s: Bits)
    decreases |s|
  {
    var m := LeadingOnes(s);
    m < |s| ==> Best(f, m) >= 0 && Flexible(Best(f, m), s[m + 1..])
  }

  /** `s` has a translation once up to `f` of its leading 1s are dropped. */
  predicate Good(f: nat, s: Bits) {
    exists a: nat :: a <= f && a <= LeadingOnes(s) && Translatable(true, s[a..])
  }

  lemma {:induction false} OnesTranslatable(s: Bits)
    requires LeadingOnes(s) == |s|
    ensures Translatable(true, s)
    decreases |s|
  {
    if |s| > 5 {
      LeadingOnesDrop(s, 5);
      OnesTranslatable(s[5..]);
      assert Pattern(14) <= s;
    }
  }

  lemma {:induction false} LeadingOnesDrop(s: Bits, a: nat)
    requires a <= LeadingOnes(s)
    ensures LeadingOnes(s[a..]) == LeadingOnes(s) - a
    decreases a
  {
    if a == 0 {
      assert s[0..] == s;
    } else {
      LeadingOnesDrop(s[1..], a - 1);
      assert s[1..][a - 1..] == s[a..];
    }
  }

  /** A pattern other than 11111 sends `m` 1s, a '0', `a` 1s and possibly what pattern 0 or 2 sends. */
  lemma Shape(i: Choice) returns (m: nat, a: nat, rest: Bits)
    requires i != 14
    ensures m + a <= 3 && Pattern(i) == Ones(m) + [false] + Ones(a) + rest
    ensures rest == [] || rest == Pattern(0) || rest == Pattern(2)
  {
    var p := Pattern(i);
    m := if p[0] then if p[1] then if p[2] then 3 else 2 else 1 else 0;
    a := if i == 2 || i == 5 || i == 8 || i == 12 then 1 else if i == 6 || i == 11 then 2 else if i == 10 then 3 else 0;
    rest := p[m + 1 + a..];
  }

  /** A run of `m` 1s, its '0' and at least `a` 1s behind it. */
  function Run(m: nat, a: nat, v: Bits): Bits {
    Ones(m) + [false] + Ones(a) + v
  }

  lemma RunParts(m: nat, a: nat, v: Bits)
    ensures var s := Run(m, a, v);
            m < |s| && LeadingOnes(s) == m && a <= LeadingOnes(s[m + 1..]) && s[m + 1..][a..] == v
  {
    var s := Run(m, a, v);
    LeadIs(s, m);
    var t := s[m + 1..];
    assert t == Ones(a) + v;
    assert forall k :: 0 <= k < a ==> t[k];
  }

  lemma Associate(x: Bits, y: Bits, z: Bits)
    ensures x + y + z == x + (y + z)
  {
  }

  lemma GoodBy(f: nat, s: Bits, a: nat)
    requires a <= f && a <= LeadingOnes(s) && Translatable(true, s[a..])
    ensures Good(f, s)
  {
  }

  lemma GoodWitness(f: nat, s: Bits) returns (a: nat)
    requires Good(f, s)
    ensures a <= f && a <= LeadingOnes(s) && Translatable(true, s[a..])
  {
    a :| a <= f && a <= LeadingOnes(s) && Translatable(true, s[a..]);
  }

  lemma OneZeroAtATime(s: Bits, i: Choice)
    requires Pattern(i) <= s && Translatable(true, s[|Pattern(i)|..]) && i != 14
    ensures var m := LeadingOnes(s);
            m <= 3 && m < |s| && Good(3 - m, s[m + 1..])
  {
    hide Translatable, Pattern, Good, LeadingOnes;
    var m, a, p := Shape(i);
    var r := s[|Pattern(i)|..];
    assert s == Pattern(i) + r;
    CoversMore(p, r);
    OneZeroRun(s, m, a, p, r);
  }

  lemma OneZeroRun(s: Bits, m: nat, a: nat, p: Bits, r: Bits)
    requires m + a <= 3 && Translatable(true, p + r) && s == Ones(m) + [false] + Ones(a) + p + r
    ensures LeadingOnes(s) == m < |s| && Good(3 - m, s[m + 1..])
  {
    hide Translatable, Good, LeadingOnes, Ones;
    Associate(Ones(m) + [false] + Ones(a), p, r);
    GoodRun(m, a, p + r);
  }

  lemma GoodRun(m: nat, a: nat, v: Bits)
    requires m + a <= 3 && Translatable(true, v)
    ensures var s := Run(m, a, v); LeadingOnes(s) == m < |s| && Good(3 - m, s[m + 1..])
  {
    hide Translatable, Good, LeadingOnes, Run;
    RunParts(m, a, v);
    GoodBy(3 - m, Run(m, a, v)[m + 1..], a);
  }

  lemma CoversMore(p: Bits, r: Bits)
    requires p == [] || p == Pattern(0) || p == Pattern(2)
    requires Translatable(true, r)
    ensures Translatable(true, p + r)
  {
    hide Translatable;
    if p == [] {
      assert p + r == r;
    } else {
      Covers(true, p + r, if p == Pattern(0) then 0 else 2);
    }
  }

  lemma LeadIs(s: Bits, m: nat)
    requires m < |s| && !s[m] && forall k :: 0 <= k < m ==> s[k]
    ensures LeadingOnes(s) == m
  {
  }

  /** The pattern that sends `m` 1s, a '0' and `a` 1s. */
  function Single(m: nat, a: nat): (i: Choice)
    requires m + a <= 3
    ensures Pattern(i) == Ones(m) + [false] + Ones(a)
  {
    if m == 0 then (if a == 0 then 0 else if a == 1 then 2 else if a == 2 then 6 else 10)
    else if m == 1 then (if a == 0 then 3 else if a == 1 then 8 else 11)
    else if m == 2 then (if a == 0 then 9 else 12)
    else 13
  }

  lemma OthersSendZero(i: Choice)
    ensures i != 14 ==> exists k :: 0 <= k < |Pattern(i)| && !Pattern(i)[k]
  {
    hide Pattern;
    if i != 14 {
      var m, a, p := Shape(i);
      assert !Pattern(i)[m];
    }
  }

  lemma FivesFirst(s: Bits)
    requires 5 <= LeadingOnes(s) < |s|
    ensures Translatable(true, s) <==> Translatable(true, s[5..])
  {
    hide Pattern, Translatable;
    if Translatable(true, s) {
      var i := FirstPattern(true, s);
      var p := Pattern(i);
      assert forall k :: 0 <= k < |p| ==> p[k] == s[k];
      OthersSendZero(i);
      FiveLong();
    }
    if Translatable(true, s[5..]) {
      FiveLong();
      assert Pattern(14) == s[..5];
      Covers(true, s, 14);
    }
  }

  lemma FiveLong()
    ensures Pattern(14) == Ones(5)
  {
  }

  lemma ShortRun(s: Bits)
    requires LeadingOnes(s) < |s| && LeadingOnes(s) < 5
    ensures var m := LeadingOnes(s); Translatable(true, s) <==> m <= 3 && Good(3 - m, s[m + 1..])
  {
    hide *;
    if Translatable(true, s) {
      ShortRunOnly(s);
    }
    var m := LeadingOnes(s);
    if m <= 3 && Good(3 - m, s[m + 1..]) {
      var a := GoodWitness(3 - m, s[m + 1..]);
      SingleCovers(s, a);
    }
  }

  lemma ShortRunOnly(s: Bits)
    requires LeadingOnes(s) < |s| && LeadingOnes(s) < 5 && Translatable(true, s)
    ensures var m := LeadingOnes(s); m <= 3 && Good(3 - m, s[m + 1..])
  {
    hide *;
    NoTailHere(s);
    var i := FirstPattern(true, s);
    NotFives(s, i);
    OneZeroAtATime(s, i);
  }

  lemma NoTailHere(s: Bits)
    requires LeadingOnes(s) < |s|
    ensures s != [] && !Tail(s)
  {
    hide LeadingOnes;
  }

  lemma NotFives(s: Bits, i: Choice)
    requires Pattern(i) <= s && LeadingOnes(s) < |s| && LeadingOnes(s) < 5
    ensures i != 14
  {
    hide Pattern, LeadingOnes;
    FiveLong();
    var m := LeadingOnes(s);
    assert m < |Pattern(i)| ==> Pattern(i)[m] == s[m];
    assert Ones(5)[m];
  }

  lemma SingleCovers(s: Bits, a: nat)
    requires LeadingOnes(s) < |s|
    requires var m := LeadingOnes(s);
             m + a <= 3 && a <= LeadingOnes(s[m + 1..]) && Translatable(true, s[m + 1..][a..])
    ensures Translatable(true, s)
  {
    hide *;
    var m := LeadingOnes(s);
    RunAgain(s, a);
    PatternCovers(s, m, a, Single(m, a));
  }

  lemma PatternCovers(s: Bits, m: nat, a: nat, i: Choice)
    requires m + 1 + a <= |s| && Pattern(i) == Ones(m) + [false] + Ones(a) && Pattern(i) <= s
    requires Translatable(true, s[m + 1..][a..])
    ensures Translatable(true, s)
  {
    hide Pattern, Translatable;
    assert s[|Pattern(i)|..] == s[m + 1..][a..];
    Covers(true, s, i);
  }

  lemma RunAgain(s: Bits, a: nat)
    requires LeadingOnes(s) < |s| && a <= LeadingOnes(s[LeadingOnes(s) + 1..])
    ensures Ones(LeadingOnes(s)) + [false] + Ones(a) <= s
  {
    hide LeadingOnes;
    var m := LeadingOnes(s);
    var t := s[m + 1..];
    forall k | m < k <= m + a ensures s[k] {
      assert t[k - m - 1] == s[k];
    }
    IsRun(s, m, a);
  }

  lemma IsRun(s: Bits, m: nat, a: nat)
    requires m + 1 + a <= |s| && !s[m] && (forall k :: 0 <= k < m ==> s[k]) && forall k :: m < k <= m + a ==> s[k]
    ensures Ones(m) + [false] + Ones(a) <= s
  {
    assert Ones(m) + [false] + Ones(a) == s[..m + 1 + a];
  }

  /** A run of 1s and the '0' behind it: fives go out as 11111; the '0' takes the other 1s along,
      at most three with those it takes from the next run. */
  lemma {:induction false} RunFirst(s: Bits)
    requires LeadingOnes(s) < |s|
    ensures var m := LeadingOnes(s);
            Translatable(true, s) <==> m % 5 <= 3 && Good(3 - m % 5, s[m + 1..])
    decreases |s|
  {
    hide Translatable, Good;
    var m := LeadingOnes(s);
    if m >= 5 {
      LeadingOnesDrop(s, 5);
      assert s[5..][m - 5 + 1..] == s[m + 1..];
      RunFirst(s[5..]);
      FivesFirst(s);
    } else {
      ShortRun(s);
    }
  }

  lemma GoodMonotone(f: nat, g: nat, s: Bits)
    requires f <= g && Good(f, s)
    ensures Good(g, s)
  {
  }

  /** Dropping `a` of the leading 1s first. */
  lemma DroppedRun(s: Bits, a: nat)
    requires a <= LeadingOnes(s) < |s|
    ensures var m := LeadingOnes(s);
            Translatable(true, s[a..]) <==> (m - a) % 5 <= 3 && Good(3 - (m - a) % 5, s[m + 1..])
  {
    hide Translatable, Good, LeadingOnes;
    var m := LeadingOnes(s);
    LeadingOnesDrop(s, a);
    RunFirst(s[a..]);
    assert s[a..][m - a + 1..] == s[m + 1..];
  }

  lemma LeastRemainder(m: nat, f: nat, a: nat)
    requires a <= f <= 3 && a <= m
    ensures 3 - (m - a) % 5 <= Best(f, m)
    ensures a == (if m % 5 <= f then m % 5 else f) ==> 3 - (m - a) % 5 == Best(f, m)
  {
    var q, c := m / 5, m % 5;
    assert m - a == 5 * q + (c - a);
  }

  lemma GoodOnlyIfBest(f: nat, s: Bits)
    requires f <= 3 && LeadingOnes(s) < |s| && Good(f, s)
    ensures var m := LeadingOnes(s); Best(f, m) >= 0 && Good(Best(f, m), s[m + 1..])
  {
    hide Translatable, Good, LeadingOnes, Best;
    var m := LeadingOnes(s);
    var a := GoodWitness(f, s);
    DroppedRun(s, a);
    LeastRemainder(m, f, a);
    GoodMonotone(3 - (m - a) % 5, Best(f, m), s[m + 1..]);
  }

  lemma GoodIfBest(f: nat, s: Bits)
    requires f <= 3 && LeadingOnes(s) < |s|
    requires var m := LeadingOnes(s); Best(f, m) >= 0 && Good(Best(f, m), s[m + 1..])
    ensures Good(f, s)
  {
    hide Translatable, Good, LeadingOnes, Best;
    var m := LeadingOnes(s);
    var a := if m % 5 <= f then m % 5 else f;
    LeastRemainder(m, f, a);
    DroppedRun(s, a);
    GoodBy(f, s, a);
  }

  lemma {:induction false} GoodIffFlexible(f: nat, s: Bits)
    requires f <= 3
    ensures Good(f, s) <==> Flexible(f, s)
    decreases |s|
  {
    hide Translatable, Good, LeadingOnes;
    var m := LeadingOnes(s);
    if m == |s| {
      OnesTranslatable(s);
      assert s[0..] == s;
      GoodBy(f, s, 0);
    } else {
      if Good(f, s) {
        GoodOnlyIfBest(f, s);
      }
      if Best(f, m) >= 0 {
        if Good(Best(f, m), s[m + 1..]) {
          GoodIfBest(f, s);
        }
        GoodIffFlexible(Best(f, m), s[m + 1..]);
      }
    }
  }

  /** The exact condition for the routine to succeed. */
  lemma TranslatableIffFlexible(s: Bits)
    ensures Translatable(true, s) <==> Flexible(0, s)
  {
    GoodIffFlexible(0, s);
    assert s[0..] == s;
  }
}
