/** Scaling a speed from a client's range to the speed steps of a decoder. */
module Speed {

  /** C's division rounds toward zero. */
  function TruncDiv(a: int, b: int): int
    requires b != 0
  {
    if (a >= 0) == (b > 0) then Abs(a) / Abs(b) else -(Abs(a) / Abs(b))
  }

  function Abs(a: int): nat {
    if a < 0 then -a else a
  }

  function Clamp(vs: int, vmax: int): int {
    var v := if vs < 0 then 0 else vs;
    if v > vmax then vmax else v
  }

  /** `r` is `v * n / vmax` rounded to the nearest whole number, halves up. */
  predicate Rounds(v: int, vmax: int, n: int, r: int) {
    2 * (v * n) - vmax < 2 * (vmax * r) <= 2 * (v * n) + vmax
  }

  /** A speed that is not zero never becomes zero. */
  predicate Scales(vs: int, vmax: int, n: int, r: int) {
    var v := Clamp(vs, vmax);
    Rounds(v, vmax, n, r) || (r == 1 && v > 0 && Rounds(v, vmax, n, 0))
  }

  /** The speed step for speed `vs` of at most `vmax`; with a maximum of zero the speed is a step already. */
  function Scale(vs: int, vmax: int, n: int): int {
    if vmax == 0 then vs
    else
      var v := Clamp(vs, vmax);
      var q := TruncDiv(2 * (v * n) + vmax, vmax) / 2;
      if q == 0 && v != 0 then 1 else q
  }

  method CalcSpeed(vs: int, vmax: int, n: int) returns (rs: int)
    ensures rs == Scale(vs, vmax, n)
  {
    hide TruncDiv;
    if vmax == 0 {
      return vs;
    }
    var v := vs;
    if v < 0 {
      v := 0;
    }
    if v > vmax {
      v := vmax;
    }
    rs := v * n;
    rs := rs * 2;
    rs := rs + vmax;
    rs := TruncDiv(rs, vmax);
    rs := rs / 2;
    if rs == 0 && v != 0 {
      rs := 1;
    }
  }

  /** The step is the nearest one, but a speed that is not zero never becomes zero. */
  lemma ScaleRounds(vs: int, vmax: int, n: int)
    requires vmax > 0 && n >= 0
    ensures Scales(vs, vmax, n, Scale(vs, vmax, n))
    ensures Scale(vs, vmax, n) == 0 <==> Clamp(vs, vmax) == 0
  {
    hide TruncDiv;
    var v := Clamp(vs, vmax);
    var a := v * n;
    assert a >= 0;
    HalfQuotient(a, vmax);
    var q := TruncDiv(2 * a + vmax, vmax) / 2;
    if v == 0 {
      assert a == 0;
      OneMoreThanZero(vmax, q);
    }
  }

  lemma OneMoreThanZero(m: int, q: int)
    requires m > 0 && q >= 0 && 2 * (m * q) <= m
    ensures q == 0
  {
    if q > 0 {
      OneMore(m, 0, q);
    }
  }

  lemma DivBounds(b: int, m: int)
    requires b >= 0 && m > 0
    ensures m * (b / m) <= b < m * (b / m) + m && b / m >= 0
  {
  }

  lemma TwiceTimes(m: int, q: int)
    ensures m * (2 * q) == 2 * (m * q) && m * (2 * q + 1) == 2 * (m * q) + m
  {
  }

  /** Halving the rounded-down quotient rounds a / m to the nearest. */
  lemma HalfQuotient(a: int, m: int)
    requires a >= 0 && m > 0
    ensures var q := TruncDiv(2 * a + m, m) / 2;
            q >= 0 && 2 * a - m < 2 * (m * q) <= 2 * a + m
  {
    var b := 2 * a + m;
    DivBounds(b, m);
    TwiceTimes(m, (b / m) / 2);
  }

  lemma RoundUnique(v: int, vmax: int, n: int, r: int, s: int)
    requires vmax > 0 && Rounds(v, vmax, n, r) && Rounds(v, vmax, n, s)
    ensures r == s
  {
    Order(vmax, r, s);
    Order(vmax, s, r);
  }

  lemma NotNegative(m: int, d: int)
    requires m > 0 && d >= 0
    ensures m * d >= 0
  {
  }

  lemma Distribute(m: int, s: int, d: int)
    ensures m * (s + d) == m * s + m * d
  {
  }

  lemma OneMore(m: int, s: int, r: int)
    requires m > 0 && s < r
    ensures m * s + m <= m * r
  {
    var d := r - s - 1;
    NotNegative(m, d);
    Distribute(m, s, d + 1);
    Distribute(m, d, 1);
  }

  lemma Order(m: int, r: int, s: int)
    requires m > 0 && m * r < m * s + m
    ensures r <= s
  {
    if r > s {
      OneMore(m, s, r);
    }
  }

  /** The result stays in the decoder's range. */
  lemma InRange(vs: int, vmax: int, n: int, r: int)
    requires vmax > 0 && n >= 1 && Scales(vs, vmax, n, r)
    ensures 0 <= r <= n
  {
    var v := Clamp(vs, vmax);
    if Rounds(v, vmax, n, r) {
      assert 0 <= v * n <= vmax * n;
      Order(vmax, 0, r);
      Order(vmax, r, n);
    }
  }

  lemma RoundsMonotone(v: int, w: int, vmax: int, n: int, r: int, s: int)
    requires vmax > 0 && n >= 0 && v <= w && Rounds(v, vmax, n, r) && Rounds(w, vmax, n, s)
    ensures r <= s
  {
    var a, b, x, y := v * n, w * n, vmax * r, vmax * s;
    assert a <= b;
    assert x < y + vmax;
    Order(vmax, r, s);
  }

  /** A higher speed never gives a lower step. */
  lemma Monotone(vs: int, ws: int, vmax: int, n: int, r: int, s: int)
    requires vmax > 0 && n >= 1 && vs <= ws && Scales(vs, vmax, n, r) && Scales(ws, vmax, n, s)
    requires (r == 0 <==> Clamp(vs, vmax) == 0) && (s == 0 <==> Clamp(ws, vmax) == 0)
    ensures r <= s
  {
    hide Rounds;
    var v, w := Clamp(vs, vmax), Clamp(ws, vmax);
    InRange(ws, vmax, n, s);
    if Rounds(v, vmax, n, r) {
      RoundsMonotone(v, w, vmax, n, r, if Rounds(w, vmax, n, s) then s else 0);
    }
  }

  lemma NotRoundedToZero(v: int, vmax: int, n: int)
    requires 0 < v && 1 <= vmax <= n
    ensures !Rounds(v, vmax, n, 0)
  {
    OneMore(n, 0, v);
    Commute(n, v);
  }

  lemma BackRounds(v: int, vmax: int, n: int, r: int)
    requires 0 < v <= vmax <= n && Rounds(v, vmax, n, r)
    ensures Rounds(r, n, vmax, v)
  {
    Commute(r, vmax);
    Commute(n, v);
    if r > v {
      OneMore(n, v, r);
    } else if r < v {
      OneMore(n, r, v);
    }
  }

  lemma Commute(a: int, b: int)
    ensures a * b == b * a
  {
  }

  // ----- Main results -----

  lemma ScaleInRange(vs: int, vmax: int, n: int)
    requires vmax > 0 && n >= 1
    ensures 0 <= Scale(vs, vmax, n) <= n
  {
    hide Scale, Scales;
    ScaleRounds(vs, vmax, n);
    InRange(vs, vmax, n, Scale(vs, vmax, n));
  }

  lemma ScaleMonotone(vs: int, ws: int, vmax: int, n: int)
    requires vmax > 0 && n >= 1 && vs <= ws
    ensures Scale(vs, vmax, n) <= Scale(ws, vmax, n)
  {
    hide Scale, Scales;
    ScaleRounds(vs, vmax, n);
    ScaleRounds(ws, vmax, n);
    Monotone(vs, ws, vmax, n, Scale(vs, vmax, n), Scale(ws, vmax, n));
  }

  /** Scaling up to at least as many steps and back loses nothing. */
  lemma ScaleUpAndBack(v: int, vmax: int, n: int)
    requires 0 <= v <= vmax && 1 <= vmax <= n
    ensures Scale(Scale(v, vmax, n), n, vmax) == v
  {
    hide Scale, Scales;
    var r := Scale(v, vmax, n);
    var back := Scale(r, n, vmax);
    ScaleRounds(v, vmax, n);
    ScaleInRange(v, vmax, n);
    ScaleRounds(r, n, vmax);
    if v > 0 {
      Returns(v, vmax, n, r, back);
    }
  }

  lemma Returns(v: int, vmax: int, n: int, r: int, back: int)
    requires 0 < v <= vmax <= n && Scales(v, vmax, n, r) && 0 < r <= n && Scales(r, n, vmax, back)
    ensures back == v
  {
    NotRoundedToZero(v, vmax, n);
    BackRounds(v, vmax, n, r);
    hide Rounds;
    RoundUnique(r, n, vmax, if Rounds(r, n, vmax, back) then back else 0, v);
  }

  lemma Odd(m: int, n: int)
    requires m != 0
    ensures TruncDiv(2 * (m * n) + m, m) == TruncDiv(m * (2 * n + 1), m)
  {
    TwiceTimes(m, n);
  }

  lemma ProductOver(m: nat, k: nat)
    requires m > 0
    ensures (m * k) / m == k
  {
    var q := (m * k) / m;
    DivBounds(m * k, m);
    Order(m, q, k);
    Order(m, k, q);
  }

  lemma NegativeProduct(m: int, k: int)
    ensures -(m * k) == (-m) * k
  {
    Distribute(k, m, -m);
    Commute(m, k);
    Commute(-m, k);
  }

  lemma PositiveProduct(a: int, k: int)
    requires a > 0 && k > 0
    ensures a * k > 0
  {
  }

  lemma ExactQuotient(m: int, k: nat)
    requires m < 0 && k > 0
    ensures TruncDiv(m * k, m) == k
  {
    NegativeProduct(m, k);
    PositiveProduct(-m, k);
    ProductOver(-m, k);
  }

  /** A negative maximum means full speed. */
  lemma NegativeMaximum(vs: int, vmax: int, n: int)
    requires vmax < 0 && n >= 1
    ensures Scale(vs, vmax, n) == n
  {
    hide TruncDiv;
    Odd(vmax, n);
    ExactQuotient(vmax, 2 * n + 1);
  }

  /** With any maximum but 0 the step is one of the decoder's; 0 passes the speed on as it is. */
  lemma ScaleOrPass(vs: int, vmax: int, n: int)
    requires n >= 1
    ensures if vmax == 0 then Scale(vs, vmax, n) == vs else 0 <= Scale(vs, vmax, n) <= n
  {
    if vmax > 0 {
      ScaleInRange(vs, vmax, n);
    } else if vmax < 0 {
      NegativeMaximum(vs, vmax, n);
    }
  }
}
