/** Searching for a list of patterns that spells a bit string, longest patterns first: what the
    depth-first searches of routines 1 and 2 have in common. */
module Search {
  import opened Signal
  import opened Patterns

  /** One to five 1s are all that is left. */
  predicate Tail(s: Bits) {
    1 <= |s| <= 5 && LeadingOnes(s) == |s|
  }

  /** `s` is made of patterns and, if `tail` is set, perhaps a tail of one to five 1s. */
  predicate Translatable(tail: bool, s: Bits)
    decreases |s|
  {
    s == [] || (tail && Tail(s)) || exists i: Choice :: Pattern(i) <= s && Translatable(tail, s[|Pattern(i)|..])
  }

  lemma Covers(tail: bool, s: Bits, i: Choice)
    requires Pattern(i) <= s && Translatable(tail, s[|Pattern(i)|..])
    ensures Translatable(tail, s)
  {
  }

  lemma FirstPattern(tail: bool, s: Bits) returns (i: Choice)
    requires Translatable(tail, s) && s != [] && !(tail && Tail(s))
    ensures Pattern(i) <= s && Translatable(tail, s[|Pattern(i)|..])
  {
    i :| Pattern(i) <= s && Translatable(tail, s[|Pattern(i)|..]);
  }

  /** No pattern above `i` starts a translation of `s`. */
  ghost predicate Dead(tail: bool, s: Bits, i: int) {
    forall c: Choice :: i < c && Pattern(c) <= s ==> !Translatable(tail, s[|Pattern(c)|..])
  }

  /** Every level of the choice stack has given up on the patterns above its choice. */
  ghost predicate DeadStack(tail: bool, s: Bits, cs: seq<Choice>)
    requires Spell(cs) <= s
    decreases |cs|
  {
    cs != [] ==>
      var up := cs[..|cs| - 1];
      assert Spell(up) <= Spell(cs) <= s;
      DeadStack(tail, s, up) && Dead(tail, Rest(s, up), cs[|cs| - 1]) && !(tail && Tail(Rest(s, up)))
  }

  /** What the loop keeps: `cs` are the choices on the stack, patterns above `i` are dead here. */
  ghost predicate Searching(tail: bool, s: Bits, cs: seq<Choice>, i: int) {
    && Spell(cs) <= s && -1 <= i < DATACNT && |cs| < PKTSIZE
    && DeadStack(tail, s, cs) && Dead(tail, Rest(s, cs), i)
  }

  lemma Descend(tail: bool, s: Bits, cs: seq<Choice>, c: Choice)
    requires Searching(tail, s, cs, c) && !(tail && Tail(Rest(s, cs))) && Pattern(c) <= Rest(s, cs)
    ensures Spell(cs + [c]) <= s && |Spell(cs + [c])| == |Spell(cs)| + |Pattern(c)|
    ensures |cs| + 1 < PKTSIZE ==> Searching(tail, s, cs + [c], DATACNT - 1)
    ensures Left(s, cs + [c], DATACNT - 1) < Left(s, cs, c)
  {
    hide Pattern, Left;
    Push(s, cs, c);
    assert (cs + [c])[..|cs|] == cs;
  }

  lemma DeadEnd(tail: bool, s: Bits)
    requires Dead(tail, s, -1) && s != [] && !(tail && Tail(s))
    ensures !Translatable(tail, s)
  {
  }

  lemma Ascend(tail: bool, s: Bits, cs: seq<Choice>)
    requires Searching(tail, s, cs, -1) && !(tail && Tail(Rest(s, cs))) && Rest(s, cs) != [] && cs != []
    ensures var up, c := cs[..|cs| - 1], cs[|cs| - 1];
            && Searching(tail, s, up, c as int - 1)
            && |Spell(up)| == |Spell(cs)| - |Pattern(c)|
            && Left(s, up, c as int - 1) == Left(s, cs, -1)
  {
    hide Pattern, Translatable, Tail, Spell, Left;
    DeadEnd(tail, Rest(s, cs));
    Pop(s, cs);
  }

  lemma {:induction false} SpelledIsTranslatable(tail: bool, s: Bits, cs: seq<Choice>)
    requires Spell(cs) <= s && Translatable(tail, Rest(s, cs))
    ensures Translatable(tail, s)
    decreases |cs|
  {
    hide Pattern;
    if cs == [] {
      assert Rest(s, cs) == s;
    } else {
      Pop(s, cs);
      SpelledIsTranslatable(tail, s, cs[..|cs| - 1]);
    }
  }

  lemma NotThese(tail: bool, s: Bits, cs: seq<Choice>, i: int, from: int)
    requires Searching(tail, s, cs, from) && -1 <= i <= from
    requires forall c: Choice :: i < c <= from ==> !(Pattern(c) <= Rest(s, cs))
    ensures Searching(tail, s, cs, i) && Left(s, cs, i) <= Left(s, cs, from)
  {
    hide Pattern;
    CostMonotone(Rest(s, cs), i, from);
  }
}
