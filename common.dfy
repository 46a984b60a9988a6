/** Values shared by the models: parsed form input and exact powers. */
module Common {

  /** A value that may be absent. For a number parsed from form text,
      `None` stands for the NaN that a failed parse yields. */
  datatype Option<+T> = None | Some(value: T)

  /** JavaScript's `x || d` on a parsed number: NaN and 0 are falsy, so
      both give the default `d`; every other value is kept. */
  function OrDefault(x: Option<real>, d: real): (r: real)
    ensures x.None? ==> r == d
    ensures x.Some? && x.value != 0.0 ==> r == x.value
    ensures x == Some(0.0) ==> r == d
    ensures r == d || (x.Some? && r == x.value)
  {
    match x
    case None => d
    case Some(v) => if v == 0.0 then d else v
  }

  /** The same `|| d` on a number parsed with `parseInt`. */
  function IntOrDefault(x: Option<int>, d: int): (r: int)
    ensures x.None? ==> r == d
    ensures x.Some? && x.value != 0 ==> r == x.value
    ensures x == Some(0) ==> r == d
  {
    match x
    case None => d
    case Some(v) => if v == 0 then d else v
  }

  /** `Math.pow(x, n)` for a natural exponent, computed exactly. */
  function Pow(x: real, n: nat): real
    decreases n
  {
    if n == 0 then 1.0 else x * Pow(x, n - 1)
  }

  /** 1 + x + x^2 + ... + x^(n-1), in Horner form. */
  function GeomSum(x: real, n: nat): real
    decreases n
  {
    if n == 0 then 0.0 else x * GeomSum(x, n - 1) + 1.0
  }

  lemma {:induction false} PowAtLeastOne(x: real, n: nat)
    requires x >= 1.0
    ensures Pow(x, n) >= 1.0
    ensures x > 1.0 && n >= 1 ==> Pow(x, n) > 1.0
  {
    if n > 0 {
      PowAtLeastOne(x, n - 1);
      assert Pow(x, n) == x * Pow(x, n - 1);
      assert x * Pow(x, n - 1) >= Pow(x, n - 1) by {
        assert (x - 1.0) * Pow(x, n - 1) >= 0.0;
      }
      if x > 1.0 {
        assert (x - 1.0) * Pow(x, n - 1) > 0.0;
      }
    }
  }

  lemma {:induction false} PowOfOne(n: nat)
    ensures Pow(1.0, n) == 1.0
  {
    if n > 0 { PowOfOne(n - 1); }
  }

  lemma {:induction false} PowPositive(x: real, n: nat)
    requires x > 0.0
    ensures Pow(x, n) > 0.0
  {
    if n > 0 {
      PowPositive(x, n - 1);
      assert x * Pow(x, n - 1) > 0.0;
    }
  }

  /** Pow(x, n) - 1 factors as (x - 1) times the geometric sum. */
  lemma {:induction false} PowMinusOne(x: real, n: nat)
    ensures Pow(x, n) - 1.0 == (x - 1.0) * GeomSum(x, n)
  {
    if n > 0 {
      PowMinusOne(x, n - 1);
      var p, s := Pow(x, n - 1), GeomSum(x, n - 1);
      assert p - 1.0 == (x - 1.0) * s;
      calc {
        Pow(x, n) - 1.0;
        x * p - 1.0;
        x * (p - 1.0) + (x - 1.0);
        x * ((x - 1.0) * s) + (x - 1.0);
        (x - 1.0) * (x * s + 1.0);
        (x - 1.0) * GeomSum(x, n);
      }
    }
  }

  /** Powers of a base above one grow strictly. */
  lemma PowGrows(x: real, n: nat)
    requires x > 1.0
    ensures Pow(x, n) < Pow(x, n + 1)
  {
    PowAtLeastOne(x, n);
    var p := Pow(x, n);
    assert Pow(x, n + 1) - p == (x - 1.0) * p;
    ScaleKeepsSign(x - 1.0, p);
  }

  lemma ScaleKeepsSign(a: real, b: real)
    requires a > 0.0 && b > 0.0
    ensures a * b > 0.0
  {
  }

  lemma ScaleKeepsOrder(c: real, a: real, b: real)
    requires c >= 0.0 && a <= b
    ensures c * a <= c * b
  {
    assert c * b - c * a == c * (b - a);
  }

  /** For x > 1 the geometric sum of n terms lies below n * x^n. */
  lemma {:induction false} GeomSumBelow(x: real, n: nat)
    requires x > 1.0 && n >= 1
    ensures 1.0 <= GeomSum(x, n) < (n as real) * Pow(x, n)
  {
    PowGrows(x, n - 1);
    PowAtLeastOne(x, n - 1);
    var p, s := Pow(x, n - 1), GeomSum(x, n - 1);
    assert Pow(x, n) == x * p;
    assert GeomSum(x, n) == x * s + 1.0;
    if n == 1 {
      assert p == 1.0 && s == 0.0;
    } else {
      GeomSumBelow(x, n - 1);
      var m := (n - 1) as real;
      assert 1.0 <= s < m * p;
      ScaleKeepsOrder(x, s, m * p);
      ScaleKeepsSign(x, s);
      assert x * s <= m * (x * p);
      assert 1.0 < x * p;
      assert m * (x * p) + x * p == (n as real) * (x * p);
    }
  }

  /** Powers of a larger positive base are larger. */
  lemma {:induction false} PowStrictlyMonotone(x: real, y: real, n: nat)
    requires 0.0 < x < y && n >= 1
    ensures 0.0 < Pow(x, n) < Pow(y, n)
  {
    if n > 1 {
      PowStrictlyMonotone(x, y, n - 1);
      ProductsOrdered(x, y, Pow(x, n - 1), Pow(y, n - 1));
    }
  }

  lemma ProductsOrdered(x: real, y: real, a: real, b: real)
    requires 0.0 < x < y && 0.0 < a <= b
    ensures 0.0 < x * a < y * b
  {
    ScaleKeepsSign(x, a);
    ScaleKeepsSign(y - x, a);
    ScaleKeepsOrder(y, a, b);
    assert y * a - x * a == (y - x) * a;
  }

  /** x^n * GeomSum(y, n) <= y^n * GeomSum(x, n) for 1 < x < y, strictly
      once n >= 1: the last term of a geometric sum weighs less the larger
      its base. */
  lemma {:induction false} CrossGeomSum(x: real, y: real, n: nat)
    requires 1.0 < x < y
    ensures Pow(x, n) * GeomSum(y, n) <= Pow(y, n) * GeomSum(x, n)
    ensures n >= 1 ==> Pow(x, n) * GeomSum(y, n) < Pow(y, n) * GeomSum(x, n)
  {
    if n > 0 {
      CrossGeomSum(x, y, n - 1);
      PowStrictlyMonotone(x, y, n);
      CrossStep(x, y, Pow(x, n - 1), Pow(y, n - 1), GeomSum(x, n - 1), GeomSum(y, n - 1),
                Pow(x, n), Pow(y, n), GeomSum(x, n), GeomSum(y, n));
    }
  }

  /** One step of CrossGeomSum, on plain numbers. */
  lemma CrossStep(x: real, y: real, px: real, py: real, sx: real, sy: real,
                  gx: real, gy: real, tx: real, ty: real)
    requires 0.0 < x && 0.0 < y
    requires gx == x * px && gy == y * py && tx == x * sx + 1.0 && ty == y * sy + 1.0
    requires px * sy <= py * sx && gx < gy
    ensures gx * ty < gy * tx
  {
    Expand(x, px, y, sy);
    Expand(y, py, x, sx);
    ScaleKeepsSign(x, y);
    ScaleKeepsOrder(x * y, px * sy, py * sx);
    assert (y * x) * (py * sx) == (x * y) * (py * sx);
  }

  /** (a p)(b s + 1) = (a b)(p s) + a p. */
  lemma Expand(a: real, p: real, b: real, s: real)
    ensures (a * p) * (b * s + 1.0) == (a * b) * (p * s) + a * p
  {
  }
}
