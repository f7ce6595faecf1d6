/** How many bytes routine 3 takes for bits with long runs of 1s. Bits have a worth: a '0' is worth
    two, a '1' one, but the first '1' of a run of three or of a multiple of five is worth two. Every
    byte uses up a worth of four. */
module StreamLength {
  import opened Signal
  import opened TranslatorV3
  import opened Lookahead

  predicate Free(b: Bits, i: nat) {
    0 < i < |b| && b[i] && !b[i - 1]
    && var n := RunFrom(b, i); i + n < |b| && (n == 3 || n % 5 == 0)
  }

  function Worth(b: Bits, i: nat): (w: nat)
    requires i < |b|
    ensures 1 <= w <= 2 && (!b[i] ==> w == 2)
  {
    if b[i] && !Free(b, i) then 1 else 2
  }

  function Total(b: Bits, i: nat, j: nat): (t: nat)
    requires i <= j <= |b|
    decreases j - i
  {
    if i == j then 0 else Worth(b, i) + Total(b, i + 1, j)
  }

  lemma {:induction false} TotalSplit(b: Bits, i: nat, k: nat, j: nat)
    requires i <= k <= j <= |b|
    ensures Total(b, i, j) == Total(b, i, k) + Total(b, k, j)
    decreases k - i
  {
    if i < k {
      TotalSplit(b, i + 1, k, j);
    }
  }

  /** A bad run ahead is paid for in advance. */
  function Debt(b: Bits, i: nat): nat {
    if Bad(b, i) then 1 else 0
  }

  lemma TotalOfTwo(b: Bits, i: nat)
    requires i + 2 <= |b|
    ensures Total(b, i, i + 2) == Worth(b, i) + Worth(b, i + 1)
  {
    assert Total(b, i + 1, i + 2) == Worth(b, i + 1) + Total(b, i + 2, i + 2);
  }

  lemma TotalOfMore(b: Bits, i: nat, n: nat)
    requires 3 <= n <= 5 && i + n <= |b|
    ensures Total(b, i, i + n) == Worth(b, i) + Worth(b, i + 1) + Worth(b, i + 2)
                                  + (if n >= 4 then Worth(b, i + 3) else 0) + (if n == 5 then Worth(b, i + 4) else 0)
  {
    hide Worth;
    assert Total(b, i + n, i + n) == 0;
    assert Total(b, i + n - 1, i + n) == Worth(b, i + n - 1);
    assert Total(b, i + n - 2, i + n) == Worth(b, i + n - 2) + Worth(b, i + n - 1);
    assert Total(b, i + n - 3, i + n) == Worth(b, i + n - 3) + Worth(b, i + n - 2) + Worth(b, i + n - 1);
    if n >= 4 {
      assert Total(b, i + n - 4, i + n) == Worth(b, i + n - 4) + Total(b, i + n - 3, i + n);
    }
    if n == 5 {
      assert Total(b, i, i + n) == Worth(b, i) + Total(b, i + 1, i + n);
    }
  }

  /** A bad run begins with at least five 1s. */
  lemma DebtNeedsFive(b: Bits, i: nat)
    requires i + 5 <= |b| && !(b[i] && b[i + 1] && b[i + 2] && b[i + 3] && b[i + 4])
    ensures Debt(b, i) == 0
  {
  }

  /** Every byte uses up a worth of four. */
  lemma StepWorth(b: Bits, r: nat)
    requires r + 6 <= |b|
    ensures var n := Chosen(b, r).length;
            4 + Debt(b, r + 1) <= Total(b, r + 1, r + 1 + n) + Debt(b, r + 1 + n)
  {
    hide EntryFor;
    var w := Six(b, r);
    assert forall k :: 0 <= k < 6 ==> w[k] == b[r + k];
    if FiveOnes(w) {
      FiveWorth(b, r);
    } else if TakesSecond(b, r) {
      SecondWorth(b, r);
    } else {
      FirstWorth(b, r);
    }
  }

  lemma FiveWorth(b: Bits, r: nat)
    requires r + 6 <= |b| && FiveOnes(Six(b, r))
    ensures Chosen(b, r).length == 5 && 5 <= Total(b, r + 1, r + 6)
  {
    FivesIsChosen(b, r);
    hide Worth;
    TotalOfMore(b, r + 1, 5);
  }

  /** First tries by length: the bits they move on by. */
  lemma FirstLengths(w: Bits)
    requires |w| == 6 && !FiveOnes(w)
    ensures var n := EntryFor(w, false).length;
            && 2 <= n <= 4
            && (n == 2 ==> !w[1] && !w[2])
            && (n == 3 && w[1] && w[2] && w[3] ==> !w[0] && !w[4])
            && (n == 4 ==> (w[1] && w[2] && w[3] && w[4] && !w[0]) || !w[1] || !w[2] || !w[3] || !w[4])
            && (n == 3 ==> !(w[1] && w[2] && w[3] && w[4]))
  {
  }

  lemma FirstWorth(b: Bits, r: nat)
    requires r + 6 <= |b| && !FiveOnes(Six(b, r)) && !TakesSecond(b, r)
    ensures var n := Chosen(b, r).length;
            4 + Debt(b, r + 1) <= Total(b, r + 1, r + 1 + n) + Debt(b, r + 1 + n)
  {
    hide EntryFor;
    var w := Six(b, r);
    assert forall k :: 0 <= k < 6 ==> w[k] == b[r + k];
    FirstLengths(w);
    var n := Chosen(b, r).length;
    if n == 2 {
      TotalOfTwo(b, r + 1);
    } else {
      TotalOfMore(b, r + 1, n);
      if w[1] && w[2] && w[3] && n == 3 {
        RunIs(b, r + 1, 3);
      }
    }
  }

  predicate RunsOn(w: Bits, n: nat) {
    n < |w| && w[n] && (n + 1 < |w| ==> w[n + 1])
  }

  /** Second tries by length: where the first try leads to a bad run. */
  lemma SecondLengths(w: Bits)
    requires |w| == 6 && !FiveOnes(w)
    ensures var n, k := EntryFor(w, false).length, EntryFor(w, true).length;
            && k <= n
            && (RunsOn(w, n) ==> k == n - 1 >= 2 && (k == 2 ==> (w[1], w[2]) != (true, true)))
  {
    hide EntryFor;
    if w[0] {
      if w[1] {
        if w[2] {
          SecondLengths111(w);
        } else {
          SecondLengths110(w);
        }
      } else {
        SecondLengths10(w);
      }
    } else if w[1] {
      SecondLengths01(w);
    } else {
      SecondLengths00(w);
    }
  }

  lemma SecondLengths110(w: Bits)
    requires |w| == 6 && !FiveOnes(w) && w[0] && w[1] && !w[2]
    ensures var n, k := EntryFor(w, false).length, EntryFor(w, true).length;
            && k <= n
            && (RunsOn(w, n) ==> k == n - 1 >= 2 && (k == 2 ==> (w[1], w[2]) != (true, true)))
  {
  }

  lemma SecondLengths111(w: Bits)
    requires |w| == 6 && !FiveOnes(w) && w[0] && w[1] && w[2]
    ensures var n, k := EntryFor(w, false).length, EntryFor(w, true).length;
            && k <= n
            && (RunsOn(w, n) ==> k == n - 1 >= 2 && (k == 2 ==> (w[1], w[2]) != (true, true)))
  {
  }

  lemma SecondLengths10(w: Bits)
    requires |w| == 6 && !FiveOnes(w) && w[0] && !w[1]
    ensures var n, k := EntryFor(w, false).length, EntryFor(w, true).length;
            && k <= n
            && (RunsOn(w, n) ==> k == n - 1 >= 2 && (k == 2 ==> (w[1], w[2]) != (true, true)))
  {
  }

  lemma SecondLengths01(w: Bits)
    requires |w| == 6 && !FiveOnes(w) && !w[0] && w[1]
    ensures var n, k := EntryFor(w, false).length, EntryFor(w, true).length;
            && k <= n
            && (RunsOn(w, n) ==> k == n - 1 >= 2 && (k == 2 ==> (w[1], w[2]) != (true, true)))
  {
  }

  lemma SecondLengths00(w: Bits)
    requires |w| == 6 && !FiveOnes(w) && !w[0] && !w[1]
    ensures var n, k := EntryFor(w, false).length, EntryFor(w, true).length;
            && k <= n
            && (RunsOn(w, n) ==> k == n - 1 >= 2 && (k == 2 ==> (w[1], w[2]) != (true, true)))
  {
  }

  lemma SecondWorth(b: Bits, r: nat)
    requires r + 6 <= |b| && !FiveOnes(Six(b, r)) && TakesSecond(b, r)
    ensures var n := Chosen(b, r).length;
            4 + Debt(b, r + 1) <= Total(b, r + 1, r + 1 + n) + Debt(b, r + 1 + n)
  {
    hide EntryFor;
    var w := Six(b, r);
    assert forall k :: 0 <= k < 6 ==> w[k] == b[r + k];
    FirstLengths(w);
    SecondLengths(w);
    var first := EntryFor(w, false).length;
    var n := Chosen(b, r).length;
    assert b[r + first] && b[r + first + 1];
    assert Debt(b, r + 1 + n) == 1;
    if n == 2 {
      TotalOfTwo(b, r + 1);
    } else {
      TotalOfMore(b, r + 1, n);
    }
    if Bad(b, r + 1) {
      RunLater(b, r + 1, r + first);
    }
  }

  // ----- Bytes up to a place in the bit string -----

  /** Bytes until the read pointer is at `stop` or behind it, and where it is then. */
  function Cells(b: Bits, r: nat, stop: nat): nat
    requires stop + 6 <= |b|
    decreases stop - r
  {
    if r >= stop then 0 else 1 + Cells(b, r + Chosen(b, r).length, stop)
  }

  function Land(b: Bits, r: nat, stop: nat): (e: nat)
    requires stop + 6 <= |b|
    ensures r <= e && stop <= e && (r <= stop + 4 ==> e <= stop + 4)
    decreases stop - r
  {
    if r >= stop then r else Land(b, r + Chosen(b, r).length, stop)
  }

  lemma {:induction false} AheadCells(b: Bits, r: nat)
    requires |b| >= 6
    ensures |Ahead(b, r)| == Cells(b, r, End(b))
    decreases |b| - r
  {
    hide Chosen;
    if r < End(b) {
      AheadNext(b, r);
      AheadCells(b, r + Chosen(b, r).length);
    }
  }

  lemma {:induction false} CellsSplit(b: Bits, r: nat, mid: nat, stop: nat)
    requires mid <= stop && stop + 6 <= |b|
    ensures Cells(b, r, stop) == Cells(b, r, mid) + Cells(b, Land(b, r, mid), stop)
    ensures Land(b, r, stop) == Land(b, Land(b, r, mid), stop)
    decreases stop - r
  {
    hide Chosen;
    if r < mid {
      CellsSplit(b, r + Chosen(b, r).length, mid, stop);
    }
  }

  lemma {:induction false} PathWorth(b: Bits, r: nat, stop: nat)
    requires stop + 6 <= |b| && r <= stop
    ensures 4 * Cells(b, r, stop) + Debt(b, r + 1) <= Total(b, r + 1, Land(b, r, stop) + 1) + Debt(b, Land(b, r, stop) + 1)
    decreases stop - r
  {
    hide Chosen, Debt, Total;
    if r < stop {
      var next := r + Chosen(b, r).length;
      StepWorth(b, r);
      if next < stop {
        PathWorth(b, next, stop);
        TotalSplit(b, r + 1, next + 1, Land(b, r, stop) + 1);
      }
    } else {
      assert Total(b, r + 1, r + 1) == 0 by { TotalNone(b, r + 1); }
    }
  }

  lemma TotalNone(b: Bits, i: nat)
    requires i <= |b|
    ensures Total(b, i, i) == 0
  {
  }

  // ----- Runs and their ends -----

  /** The read pointer never gets to a place from which fives lead onto 111110. */
  lemma StepNotBad(b: Bits, r: nat)
    requires r + 6 <= |b| && !Bad(b, r)
    ensures !Bad(b, r + Chosen(b, r).length)
  {
    if FiveOnes(Six(b, r)) {
      FiveNotBad(b, r);
    } else if TakesSecond(b, r) {
      SecondNotBad(b, r);
    }
  }

  lemma FiveNotBad(b: Bits, r: nat)
    requires r + 6 <= |b| && !Bad(b, r) && FiveOnes(Six(b, r))
    ensures !Bad(b, r + Chosen(b, r).length)
  {
    FivesIsChosen(b, r);
    hide Chosen, EntryFor;
    assert forall k :: 0 <= k < 6 ==> Six(b, r)[k] == b[r + k];
    RunLater(b, r, r + 5);
  }

  lemma SecondNotBad(b: Bits, r: nat)
    requires r + 6 <= |b| && !FiveOnes(Six(b, r)) && TakesSecond(b, r)
    ensures !Bad(b, r + Chosen(b, r).length)
  {
    hide EntryFor;
    var w := Six(b, r);
    assert forall k :: 0 <= k < 6 ==> w[k] == b[r + k];
    SecondLengths(w);
    var first := EntryFor(w, false).length;
    assert b[r + first] && b[r + first + 1];
    hide Bad;
    BeforeBad(b, r + first - 1);
  }

  lemma BeforeBad(b: Bits, i: nat)
    requires i + 1 <= |b| && Bad(b, i + 1)
    ensures !Bad(b, i)
  {
  }

  lemma {:induction false} LandNotBad(b: Bits, r: nat, stop: nat)
    requires stop + 6 <= |b| && !Bad(b, r)
    ensures !Bad(b, Land(b, r, stop))
    decreases stop - r
  {
    hide Chosen, Bad;
    if r < stop {
      StepNotBad(b, r);
      LandNotBad(b, r + Chosen(b, r).length, stop);
    }
  }

  /** Fives through a run of 1s. */
  lemma {:induction false} Fives(b: Bits, r: nat, k: nat, stop: nat)
    requires stop + 6 <= |b| && OnesIn(b, r, r + 5 * k) && r + 5 * k >= stop && (k > 0 ==> r + 5 * (k - 1) < stop)
    ensures Cells(b, r, stop) == k && Land(b, r, stop) == r + 5 * k
    decreases k
  {
    hide Chosen;
    if k > 0 {
      WindowRun(b, r);
      FivesIsChosen(b, r);
      Fives(b, r + 5, k - 1, stop);
    }
  }

  /** The worth of 1s none of which begins a run. */
  lemma {:induction false} InsideRun(b: Bits, i: nat, j: nat)
    requires 0 < i <= j <= |b| && OnesIn(b, i, j) && (i < j ==> !Free(b, i))
    ensures Total(b, i, j) == j - i
    decreases j - i
  {
    if i < j {
      InsideRun(b, i + 1, j);
    }
  }

  // ----- Runs of 51: the end of a packet and 50 1s in front of the next -----

  ghost predicate LongRun(b: Bits, p: nat) {
    0 < p && p + 57 <= |b| && OnesIn(b, p, p + 51) && !b[p + 51]
  }

  lemma LongRunParts(b: Bits, p: nat, j: nat)
    requires LongRun(b, p) && j <= 5
    ensures !Free(b, p) && (Bad(b, p + j) <==> j == 1)
    ensures j < 5 ==> Total(b, p, p + j + 1) == j + 1
  {
    BadRun(b, p + j, 51 - j);
    RunIs(b, p, 51);
    if j < 5 {
      InsideRun(b, p, p + j + 1);
    }
  }

  /** From `r` in one packet to the last 1s before the next: the place where the run is entered
      decides how far before the next packet it is left. */
  lemma ThroughPacket(b: Bits, r: nat, p: nat, worth: nat)
    requires LongRun(b, p) && r < p && !Bad(b, r) && Total(b, r + 1, p) <= worth
    ensures var m := p + 51 - Land(b, r, p + 47);
            && 1 <= m <= 4
            && Cells(b, r, p + 47) <= (worth + 2) / 4 + 10
            && (m == 4 ==> Cells(b, r, p + 47) <= (worth + 3) / 4 + 9)
  {
    hide Total, Cells, Land, Bad;
    var e := Land(b, r, p);
    CellsSplit(b, r, p, p + 47);
    PathWorth(b, r, p);
    LandNotBad(b, r, p);
    LandBounds(b, r, p);
    var j := e - p;
    LongRunParts(b, p, 1);
    LongRunParts(b, p, j);
    LongRunParts(b, p, j + 1);
    TotalSplit(b, r + 1, p, e + 1);
    Fives(b, e, if j == 0 then 10 else 9, p + 47);
  }

  lemma LandBounds(b: Bits, r: nat, stop: nat)
    requires stop + 6 <= |b| && r <= stop
    ensures stop <= Land(b, r, stop) <= stop + 4
  {
  }

  /** From `r` in the last packet to the end of the buffer. */
  lemma ThroughLast(b: Bits, r: nat, p: nat, worth: nat)
    requires 0 < p && |b| == p + 7 && OnesIn(b, p, p + 7) && r < p && Total(b, r + 1, p) <= worth
    ensures Cells(b, r, p + 1) <= (worth + 6) / 4
  {
    hide Total, Cells, Land;
    var f := Land(b, r, p + 1);
    PathWorth(b, r, p + 1);
    LandBounds(b, r, p + 1);
    assert !Free(b, p) && !Bad(b, f + 1) by {
      RunIs(b, p, 7);
      if f + 1 < |b| {
        RunIs(b, f + 1, |b| - f - 1);
      }
    }
    InsideRun(b, p, f + 1);
    TotalSplit(b, r + 1, p, f + 1);
  }

  // ----- A '0' is worth two, a '1' on average at most four thirds -----

  function Count(b: Bits, i: nat, j: nat): nat
    requires i <= j <= |b|
    decreases j - i
  {
    if i == j then 0 else (if b[i] then 1 else 0) + Count(b, i + 1, j)
  }

  lemma {:induction false} CountSplit(b: Bits, i: nat, k: nat, j: nat)
    requires i <= k <= j <= |b|
    ensures Count(b, i, j) == Count(b, i, k) + Count(b, k, j)
    decreases k - i
  {
    if i < k {
      CountSplit(b, i + 1, k, j);
    }
  }

  lemma {:induction false} CountOnes(b: Bits, i: nat, j: nat)
    requires OnesIn(b, i, j)
    ensures Count(b, i, j) == j - i
    decreases j - i
  {
    if i < j {
      CountOnes(b, i + 1, j);
    }
  }

  /** A run that reaches beyond `j` is a long one or the last. */
  predicate Closed(b: Bits, j: nat) {
    j < |b| && (b[j] ==> RunFrom(b, j) == 51 || j + RunFrom(b, j) == |b|)
  }

  lemma {:induction false} SparseTotal(b: Bits, i: nat, j: nat)
    requires 0 < i <= j && Closed(b, j)
    ensures 3 * Total(b, i, j) + 2 * Count(b, i, j) <= 6 * (j - i)
    decreases j - i
  {
    if i < j {
      if b[i] {
        var n := RunFrom(b, i);
        var k := if i + n < j then i + n else j;
        RunTotal(b, i, k);
        CountOnes(b, i, k);
        if Free(b, i) {
          FreeIsLong(b, i, j, k);
        }
        TotalSplit(b, i, k, j);
        CountSplit(b, i, k, j);
        SparseTotal(b, k, j);
      } else {
        SparseTotal(b, i + 1, j);
      }
    }
  }

  lemma RunTotal(b: Bits, i: nat, k: nat)
    requires 0 < i < k <= |b| && OnesIn(b, i, k)
    ensures Total(b, i, k) == k - i + (if Free(b, i) then 1 else 0)
  {
    InsideRun(b, i + 1, k);
  }

  lemma FreeIsLong(b: Bits, i: nat, j: nat, k: nat)
    requires 0 < i < j && Closed(b, j) && Free(b, i) && k == (if i + RunFrom(b, i) < j then i + RunFrom(b, i) else j)
    ensures k - i >= 3
  {
    var n := RunFrom(b, i);
    if i + n >= j {
      RunLater(b, i, j);
    }
  }
}
