/** Exact real arithmetic shared by the models: maxima, ordered products and quotients, sums over maps. */
module Reals {

  function Max(a: real, b: real): (m: real)
    ensures m >= a && m >= b && (m == a || m == b)
  {
    if a >= b then a else b
  }

  function Min(a: real, b: real): (m: real)
    ensures m <= a && m <= b && (m == a || m == b)
  {
    if a <= b then a else b
  }

  function Abs(x: real): (a: real)
    ensures a >= 0.0 && (a == x || a == -x)
  {
    if x >= 0.0 then x else -x
  }

  lemma MulLe(a: real, b: real, c: real)
    requires a <= b && c >= 0.0
    ensures a * c <= b * c
  {
    assert (b - a) * c >= 0.0;
  }

  lemma MulPositive(a: real, b: real)
    requires a > 0.0 && b > 0.0
    ensures a * b > 0.0
  {
  }

  lemma CancelLe(a: real, b: real, c: real)
    requires c > 0.0 && a * c <= b * c
    ensures a <= b
  {
    var d := a - b;
    assert d * c <= 0.0;
    assert d > 0.0 ==> d * c > 0.0;
  }

  lemma QuotientAtLeast(d: real, b: real, c: real)
    requires b > 0.0
    ensures d >= c <==> d * b >= c * b
  {
    if d >= c {
      MulLe(c, d, b);
    } else {
      assert (c - d) * b > 0.0;
    }
  }

  /** Dividing by a positive number and comparing is comparing with the product. */
  lemma DivAtLeast(a: real, b: real, c: real)
    requires b > 0.0
    ensures a / b >= c <==> a >= c * b
  {
    assert a / b * b == a;
    QuotientAtLeast(a / b, b, c);
  }

  lemma DivExact(a: real, b: real, c: real)
    requires b > 0.0 && a == c * b
    ensures a / b == c
  {
    var q := a / b;
    assert q * b == c * b;
    CancelLe(q, c, b);
    CancelLe(c, q, b);
  }

  ghost function PickKey(m: map<string, real>): (k: string)
    requires |m| != 0
    ensures k in m
  {
    var k :| k in m;
    k
  }

  /** Sum of the values of a finite map. */
  ghost function SumMap(m: map<string, real>): real
    decreases |m|
  {
    if |m| == 0 then 0.0 else m[PickKey(m)] + SumMap(m - {PickKey(m)})
  }

  lemma {:induction false} SumMapRemove(m: map<string, real>, k: string)
    requires k in m
    ensures SumMap(m) == m[k] + SumMap(m - {k})
    decreases |m|
  {
    var j := PickKey(m);
    if j != k {
      var mj, mk := m - {j}, m - {k};
      assert mj - {k} == mk - {j};
      SumMapRemove(mj, k);
      SumMapRemove(mk, j);
    }
  }

  /** The value a map has at a key, zero when the key is missing. */
  function At(m: map<string, real>, k: string): real {
    if k in m then m[k] else 0.0
  }

  lemma SumMapUpdate(m: map<string, real>, k: string, v: real)
    ensures SumMap(m[k := v]) == SumMap(m) - At(m, k) + v
  {
    hide SumMap;
    SumMapRemove(m[k := v], k);
    assert m[k := v] - {k} == m - {k};
    if k in m {
      SumMapRemove(m, k);
    } else {
      assert m - {k} == m;
    }
  }
}
