/** Digit sequences in a fixed base: their value, their order, and the digits
    of a number. */
module Positional {
  function Pow(b: nat, n: nat): (p: nat)
    ensures b > 0 ==> p > 0
  {
    if n == 0 then 1 else b * Pow(b, n - 1)
  }

  function Value(ds: seq<int>, b: nat): int {
    if ds == [] then 0 else Value(ds[..|ds| - 1], b) * b + ds[|ds| - 1]
  }

  ghost predicate AreDigits(ds: seq<int>, b: nat) {
    forall i :: 0 <= i < |ds| ==> 0 <= ds[i] < b
  }

  lemma Monotone(x: int, y: int, p: nat)
    requires x <= y
    ensures x * p <= y * p
  {
  }

  lemma DivMod(v: nat, b: nat)
    requires b > 1
    ensures 0 <= v / b <= v && 0 <= v % b < b && v == v / b * b + v % b
  {
    var q := v / b;
    if q < 0 {
      Monotone(q, -1, b);
    } else {
      Monotone(1, b, q);
    }
  }

  lemma ShiftBound(v: int, d: int, b: nat, p: nat)
    requires 0 <= v < p && 0 <= d < b
    ensures 0 <= v * b + d < b * p
  {
    Monotone(v, p - 1, b);
    Monotone(0, v, b);
    assert (p - 1) * b == b * p - b;
  }

  /** The n lowest digits of v, most significant first. */
  function Digits(v: nat, b: nat, n: nat): (ds: seq<int>)
    requires b > 1
    ensures |ds| == n && AreDigits(ds, b)
  {
    if n == 0 then []
    else
      DivMod(v, b);
      Digits(v / b, b, n - 1) + [v % b]
  }

  /** Strict lexicographic order. */
  predicate Before(a: seq<int>, b: seq<int>) {
    b != [] && (a == [] || a[0] < b[0] || (a[0] == b[0] && Before(a[1..], b[1..])))
  }

  lemma {:induction false} ValueBound(ds: seq<int>, b: nat)
    requires b > 1 && AreDigits(ds, b)
    ensures 0 <= Value(ds, b) < Pow(b, |ds|)
  {
    if ds != [] {
      var n := |ds| - 1;
      ValueBound(ds[..n], b);
      ShiftBound(Value(ds[..n], b), ds[n], b, Pow(b, n));
    }
  }

  lemma QuotientAndRest(q: nat, b: nat, d: nat)
    requires b > 1 && d < b
    ensures (q * b + d) / b == q && (q * b + d) % b == d
  {
    var v := q * b + d;
    DivMod(v, b);
    if v / b < q {
      Monotone(v / b + 1, q, b);
    } else if v / b > q {
      Monotone(q + 1, v / b, b);
    }
  }

  lemma {:induction false} DigitsOfValue(ds: seq<int>, b: nat)
    requires b > 1 && AreDigits(ds, b)
    ensures Value(ds, b) >= 0 && Digits(Value(ds, b), b, |ds|) == ds
  {
    ValueBound(ds, b);
    if ds != [] {
      var n := |ds| - 1;
      ValueBound(ds[..n], b);
      DigitsOfValue(ds[..n], b);
      QuotientAndRest(Value(ds[..n], b), b, ds[n]);
    }
  }

  lemma QuotientBound(v: nat, b: nat, p: nat)
    requires b > 1 && v < b * p
    ensures v / b < p
  {
    DivMod(v, b);
    if v / b >= p {
      Monotone(p, v / b, b);
    }
  }

  lemma {:induction false} ValueOfDigits(v: nat, b: nat, n: nat)
    requires b > 1 && v < Pow(b, n)
    ensures Value(Digits(v, b, n), b) == v
  {
    if n > 0 {
      var ds := Digits(v / b, b, n - 1);
      var all := ds + [v % b];
      QuotientBound(v, b, Pow(b, n - 1));
      DivMod(v, b);
      ValueOfDigits(v / b, b, n - 1);
      assert all[..n - 1] == ds;
    }
  }

  lemma EqualValuesEqualDigits(a: seq<int>, c: seq<int>, b: nat)
    requires b > 1 && AreDigits(a, b) && AreDigits(c, b) && |a| == |c| && Value(a, b) == Value(c, b)
    ensures a == c
  {
    DigitsOfValue(a, b);
    DigitsOfValue(c, b);
  }

  lemma Distribute(x: int, p: int, y: int, b: int)
    ensures (x * p + y) * b == x * (b * p) + y * b
  {
  }

  lemma Associate(x: int, y: int, z: int)
    ensures x * y * z == x * (y * z)
  {
  }

  lemma {:induction false} PowSplit(b: nat, m: nat, n: nat)
    ensures Pow(b, m + n) == Pow(b, m) * Pow(b, n)
  {
    if m > 0 {
      PowSplit(b, m - 1, n);
      Associate(b, Pow(b, m - 1), Pow(b, n));
    }
  }

  lemma {:induction false} ValueFromFront(ds: seq<int>, b: nat)
    requires ds != []
    ensures Value(ds, b) == ds[0] * Pow(b, |ds| - 1) + Value(ds[1..], b)
  {
    var n := |ds| - 1;
    if n > 0 {
      ValueFromFront(ds[..n], b);
      assert ds[..n][1..] == ds[1..][..n - 1];
      var p := Pow(b, n - 1);
      Distribute(ds[0], p, Value(ds[..n][1..], b), b);
    }
  }

  lemma LeadDecides(x: int, y: int, p: nat, u: int, w: int)
    requires 0 <= u < p && 0 <= w < p && x < y
    ensures x * p + u < y * p + w
  {
    Monotone(x + 1, y, p);
  }

  /** Among digit sequences of one length the lexicographic order is the order
      of the values. */
  lemma {:induction false} OrderIsValueOrder(a: seq<int>, c: seq<int>, b: nat)
    requires b > 1 && AreDigits(a, b) && AreDigits(c, b) && |a| == |c|
    ensures Before(a, c) <==> Value(a, b) < Value(c, b)
  {
    if a != [] {
      ValueFromFront(a, b);
      ValueFromFront(c, b);
      ValueBound(a[1..], b);
      ValueBound(c[1..], b);
      OrderIsValueOrder(a[1..], c[1..], b);
      var p, u, w := Pow(b, |a| - 1), Value(a[1..], b), Value(c[1..], b);
      if a[0] < c[0] {
        LeadDecides(a[0], c[0], p, u, w);
      } else if c[0] < a[0] {
        LeadDecides(c[0], a[0], p, w, u);
      }
    }
  }

  lemma {:induction false} BeforeInParts(a: seq<int>, c: seq<int>, x: seq<int>, y: seq<int>)
    requires |a| == |c|
    ensures Before(a + x, c + y) <==> Before(a, c) || (a == c && Before(x, y))
  {
    if a == [] {
      assert a + x == x && c + y == y;
    } else {
      assert (a + x)[1..] == a[1..] + x && (c + y)[1..] == c[1..] + y;
      BeforeInParts(a[1..], c[1..], x, y);
      assert a == [a[0]] + a[1..] && c == [c[0]] + c[1..];
    }
  }

  lemma BeforeIsIrreflexive(a: seq<int>)
    ensures !Before(a, a)
  {
  }
}
